# Verified models of the repository's algorithms

Dafny models of the parts of the repository that do real algorithmic work, with
proofs of what they promise. `dafny verify dfyconfig.toml` checks all of them.

| component | source | modules |
|---|---|---|
| guard-inverting function inliner | `scripts/inline-functions.ts` | Expressions, GuardText, GuardGrammar, GuardInversion, Programs, Inliner and the Inliner… modules |
| structural summariser | `crates/pi-ast/src/summary.rs`, `block.rs`, `ops.rs` | LineSpans, StableSorting, SpanOrder, SpanForest, ElidableTree, ElidableSpans, ElidableArena, SummarySegments, BlockBoundaries, EditSplicing |
| changelog fixer | `scripts/fix-changelogs.ts` | the Changelog… modules, DiffReading, DiffPairing |
| incremental session sync | `scripts/session-stats/sync.py` | SessionSync, SessionRows, SessionContents, LongestRepeat |
| read replayers | `scripts/session-stats/optimize_read_config.py`, `read_optimizer.py` | ReadCoverage, ReadPricing, ReadReplay |
| edit recovery and prompt rewriting | `scripts/session-stats/harmony_backtest.py`, `scripts/rewrite-system-prompt.ts` | EditBoundary, EditGrammar, EditDiffGrammar, WorkerPool, PromptTokens, PromptRewrite |

## How the models are built

**Inliner.** A small JavaScript: expressions with throwing and stateful
operations, assignments, short-circuit connectives, and statements with nested
blocks, loops, jumps and calls. Blocks hoist their declarations, so reading a
`const` before it ran is an error. What operations answer may depend on all
effects before them and is a parameter (`World`). The meaning of a module is
what an exported function shows: how it ends, the globals, and the sequence of
effects. The original and the inlined program allocate different cells, so the
proof is a simulation over a growing partial matching of cells, in both
directions, with step budgets that absorb the calls that disappear.

**Guards.** Expressions are printed to tokens with the source's precedences and
read back by a recursive-descent parser. Every expression node carries a
position, and evaluation logs the positions it visits, so "evaluates the same
atoms in the same order" is an equation between logs.

**Changelog.** Lines are classified (blank, item, heading, release heading,
prose) and keep their text and line number. The fixer's document is a class
whose passes reassign its sections. Items are compared as multisets of their
trimmed texts.

**Sync.** One class holds the rows of every table as maps; a log is a sequence of
lines with byte sizes; a history is any sequence of appends, touches and syncs.

**Summariser.** The arena is a class with the `nodes` and `roots` of the source;
a recursive specification of what a syntax node yields (`Elisions`) is what the
arena is proved to hold. Canonical span lists are proved unique for the lines
they cover, so "the same lines" and "the same list" coincide.

**Edit inputs.** Two grammars, one for the current formats and one for the oldest, say
which sequences of lines are complete edits and what they come to. The parsers' states
do not occur in them.

**Worker pool.** States and steps of single workers; a run is any schedule.

## What the code does that its documentation does not say

The models keep the code as it is. Where a documented promise fails, a lemma
gives an input on which it fails and another the exact condition. For captured names
the exact condition is about what names refer to; whether a captured name shows depends
on all that the module does with it, and each clause of the condition has an input on
which it does.

- The ordering flips of guard inversion are wrong on NaN
  (`GuardInversion.NaNGuardFlipsWrongly`); inversion is right exactly when no
  flipped comparison meets an unordered pair (`GuardInversion.InvertedGuardsExact`). A
  module keeps its meaning on every run on which that does not happen
  (`InlinerTheorems.InliningPreservesMeaning`); a helper with the one guard `x < c`, or any
  other ordering, called with a given value keeps it exactly when the two are ordered
  (`InlinerFlips.BoundExact`).
- Inlining can let a name read something else. The theorem asks for `Inliner.Hygienic`:
  guards read no local of the tail, what the helper takes from outside is not declared
  around a call or added there, and no block of the tail declares what is substituted
  into it. That holds exactly when every name in the helper's text refers, at every call
  put in its place, to what it referred to (`InlinerBinding.HygienicExactly`). For each
  clause there is a module that the analysis accepts and that means something else once
  inlined: a guard that reads a tail local (`InlinerCaptures.EarlyGuardChanges`); a name
  taken for local because a nested block declares it, at a caller with a parameter of
  that name (`ShadowedNameChanges`); a global called like a temporary
  (`CapturedGlobalChanges`; for that family of helpers the meaning is kept exactly when
  the global has another name, `ReadingExact`); a local of a guarded tail called like a
  temporary (`CapturedTemporaryChanges`); a temporary of one round hidden in a block
  that the next round substitutes into (`NestedChainChanges`). A helper whose own text
  avoids names like the inliner's is always clean (`InlinerHygiene.PlainIsHygienic`).
- A spliced local can meet an unused parameter of the caller. The meaning is kept, but
  the module declares the name twice (`InlinerCaptures.LocalKeepsItsName`); a round
  leaves a well-formed module exactly when no added name is a parameter of the function
  it is added to (`InlinerRounds.InlinedIsWellFormed`).
- A rebuild of a rewritten log keeps each old metadata value the new log does not
  give, because of the `COALESCE` upsert (`SessionSync.RebuildKeepsStaleMeta`,
  with the exact condition); a log rewritten to something longer is taken for an
  append (`SessionSync.GrownRewriteIsMissed`). The rows are a rebuild's exactly when the
  cached lines and those read behind them have the new log's rows key by key
  (`SessionRows.RewriteSeenWhen`).
- Prose under a repeated heading is merged into the item above it, which is then
  gone under its own key (`ChangelogTheorems.ProseMergeLosesItem`); normalizing a
  section keeps its items exactly when that does not happen
  (`ChangelogNormal.NormalizedItems`), and the written file has the items that were there
  after promotion exactly when it happens in no section
  (`ChangelogTheorems.WrittenItemsExact`).
- A version with a part that is no number breaks the transitivity of the sort
  order (`ChangelogSort.OddPartsBreakTheOrder`); the comparator orders a set of versions
  exactly when those that begin like an odd one, up to its odd part, tie with each other
  (`ChangelogSort.OrdersExactly`).
- `find_longest_repeat` applies the quota of meaningful lines to the longest run at a pair
  of positions only. A long dull tail hides a shorter repeat that would qualify
  (`LongestRepeat.LongTailHidesRepeat`): none comes back exactly when that happens to every
  repeat (`LongestRepeat.MissedWhen`). A shorter repeat can win over a longer one
  (`LongestRepeat.LongerRepeatLoses`), exactly when a longer one is hidden so
  (`LongestRepeat.LongestWhen`); neither happens where every line is meaningful
  (`LongestRepeat.MeaningfulIsExact`).
- `preservesTokens` counts a token inside another for both, so an answer may drop
  the outer one's neighbour unnoticed (`PromptTokens.NestedTokensCountTwice`). Passing
  the check means carrying every listed token at a place of its own, for every text,
  exactly when no two different listed tokens can overlap (`PromptTokens.CheckIsExact`).
- `rewriteAll` does not look at tokens itself, although its documentation says that a
  rewrite that drops one falls back to the original line: a rewriter that does not check
  gets such a text into the file (`PromptRewrite.UncheckedAnswerDropsToken`). All
  selected lines keep their tokens exactly when no batch answers one of its own entries
  with another text that fails the check (`PromptRewrite.SafeExactly`); with the network
  rewriter, which checks, they always do (`PromptRewrite.RewriteFile`).
- An answer may hold a line break, which gives the written file more lines. Splitting it
  gives the lines back exactly when no answer that was chosen holds one
  (`PromptRewrite.WrittenLines`).
- `block_range_at` can return the whole file when the smallest named node at the
  line is the root (`BlockBoundaries.BlockRangeAt`).
- Cutting an edit at its boundary keeps cut, verdict and targets, but not always the
  count of operations or the reason (`EditBoundary.OpenInsertIsCounted`); it keeps both
  exactly when the reason is not a missing payload, that is, when the line behind the cut
  opens no insert. The count of lines read is kept exactly when there is no line behind
  the cut, since parsing the whole text reads one or two of those
  (`EditBoundary.CutKeepsAll`).
- Two insertions at one position come out in input order
  (`EditSplicing.OrderMattersAtOnePlace`).
- A page that is filled to its last line counts as truncated although nothing is cut off,
  when the context in front of the range is cut short by the start of the file
  (`ReadReplay.TruncatedWhen`, with the exact condition).
- A child's span is not always strictly inside its parent's: a bracketed list that holds
  one object on the same lines shares its span with it (`ElidableTree.BracketsShareSpan`).
  Containment is strict at all depths exactly when nothing fills a node's body so
  (`ElidableTree.StrictExactly`).
- An elided run of imports overlaps an elidable member inside it; siblings stand
  apart at all levels exactly when no run does (`ElidableTree.ApartExactly`).

## Model

| member | source | states |
|---|---|---|
| GuardText.PrintRoundTrip | scripts/inline-functions.ts:302-348 | Reading back what the printer writes gives the tree, for every tree a parser can return: the parentheses placed by precedence are enough. |
| GuardGrammar.ParsesExactly | scripts/inline-functions.ts:302-348 | A text reads as a tree if and only if it is that tree printed and the tree is one a parser can return. |
| GuardGrammar.OperatorsGroup | scripts/inline-functions.ts:302-312 | Two operators in a row group to the left unless the first binds looser: logical or loosest, then logical and, equality, ordering; `!` takes its operand alone. |
| GuardInversion.CombineGuardsReadsBack | scripts/inline-functions.ts:351-359 | The text of the combined guards is one complete expression; its tree is the reassociated conjunction of the negations. |
| GuardGrammar.ParenthesesWhen | scripts/inline-functions.ts:314-359 | A negated guard is written in parentheses if and only if, without those it has, it is a disjunction. |
| GuardInversion.NegateOpposite | scripts/inline-functions.ts:314-344 | Where no unordered pair is compared, the negation has the opposite truth, the same throw, the same positions in the same order, the same store and history. |
| GuardInversion.OppositeNeedsOrder | scripts/inline-functions.ts:139-148 | The converse: a flipped comparison that meets an unordered pair always shows. |
| GuardInversion.InvertedGuardsSound | scripts/inline-functions.ts:351-359 | With ordered comparisons the written condition is truthy exactly when no guard fires, and evaluates what the guards evaluate, in order, up to the first that fires. |
| GuardInversion.InvertedGuardsExact | scripts/inline-functions.ts:37-40 | The promise of soundness under side effects holds if and only if no flipped comparison meets an unordered pair. |
| GuardInversion.NaNGuardFlipsWrongly | scripts/inline-functions.ts:139-148 | A NaN guard for which both the guard and the written condition are false. |
| Inliner.FindFreshName | scripts/inline-functions.ts:499-511 | The search ends, with the base name if free and otherwise the first free numbered one. |
| InlinerNames.PlanNames | scripts/inline-functions.ts:836-899 | Temporaries are new, pairwise distinct, and exactly what the hoisted statements declare; only parameters are substituted. |
| Inliner.BuildPlan | scripts/inline-functions.ts:836-899 | The loop over parameters builds the plan the recursive specification gives and reserves exactly the names it added. |
| InlinerSite.PlanSubstitutes | scripts/inline-functions.ts:836-899 | A parameter is substituted exactly when the body mentions it: by its own temporary if there is an argument, else by `undefined`; no two share a temporary. |
| Inliner.RenameCollidingLocals | scripts/inline-functions.ts:788-834 | The renaming loop agrees with its recursive specification. |
| InlinerNames.SiteDeclares | scripts/inline-functions.ts:836-899 | The code put in place of a call declares exactly the plan's names, each once, none taken. |
| InlinerNames.DeclaredRewrite | scripts/inline-functions.ts:901-932 | A rewritten block declares its old names and the new ones, each once. |
| InlinerMemory.EvalSim | scripts/inline-functions.ts:293-300 | An expression and its substituted form, in related states, have the same outcome and effects and keep the states related. |
| InlinerProof.SimSite | scripts/inline-functions.ts:836-899 | Where this call meets no unordered pair in a flipped comparison: calling the helper, and running the hoisted arguments, the inverted `if` and the substituted tail, end alike in related states with the same effects, at every step budget, both ways. |
| InlinerProof.SimBlock | scripts/inline-functions.ts:934-946 | The same for whole blocks of any function, with call sites at any depth in branches and loops, on a run whose calls of the helper are ordered so. |
| InlinerTheorems.InliningPreservesMeaning | scripts/inline-functions.ts:934-946 | After inlining, every exported function, for any arguments, store and history on which the original meets no unordered pair in a flipped comparison, ends as before with the same globals and the same effects in order, or ends in neither module. |
| InlinerOrder.FreeRunOrdered | scripts/inline-functions.ts:314-344 | A helper none of whose guards flips an ordering never meets such a pair, in any run of any module. |
| InlinerFlips.BoundExact | scripts/inline-functions.ts:139-148 | A helper guarded by one ordering of its parameter and a constant, called with any value: the module keeps its meaning, for all stores and histories, if and only if value and constant are ordered. |
| InlinerRounds.InlinedIsWellFormed | scripts/inline-functions.ts:934-946 | A clean round leaves one function less, and a well-formed module if and only if no added name is a parameter of the function it is added to. |
| InlinerRounds.InlineRounds | scripts/inline-functions.ts:948-964 | The loop computes the recursively defined rounds; from module to module each round takes the first function that may be inlined, by its body, its own calls and its call sites alone, and the last module has none or the bound is reached. |
| InlinerRounds.InlineFile | scripts/inline-functions.ts:948-964 | The same with the source's bound on rounds. |
| InlinerAnalysis.AnalyzeExactly | scripts/inline-functions.ts:594-731 | The analysis accepts a function, split behind its first `n` statements, if and only if these are all of its leading guards, 1 to the allowed number of statements follow, none of which leaves the body, it is not exported, assigned to or called by itself, and at every call, at any depth, there are no more arguments than parameters and no outside name is hidden. |
| InlinerRounds.RoundsTrace | scripts/inline-functions.ts:948-964 | All rounds: each inlines the first function that may be, and they end where there is none or at the bound. |
| InlinerAnalysis.GoneAreInlined | scripts/inline-functions.ts:948-964 | The functions missing in the end are exactly those the rounds inlined. |
| InlinerAnalysis.SizedExactly | scripts/inline-functions.ts:655-665 | A helper with any number of guards before `n` statements, called from an exported function, is inlined if and only if `n` is at least 1 and at most the allowed number. |
| InlinerRounds.RoundsEnd | scripts/inline-functions.ts:948-964 | Rounds and remaining functions together are at most the functions at the start, and a module with no more functions than rounds allowed is left without candidates. |
| InlinerRounds.RoundsKeepMeaning | scripts/inline-functions.ts:948-964 | The whole of `inlineFile` keeps the meaning of the module, when its rounds are clean and the runs of their modules ordered. |
| InlinerBinding.SiteKeptWhen | scripts/inline-functions.ts:836-899 | At one call: every name in the guards and the tail refers to what it referred to if and only if the site is clean and the guards read no tail local. |
| InlinerBinding.HygienicExactly | scripts/inline-functions.ts:594-731 | For every well-formed module and accepted helper: the condition of the theorem holds if and only if at every call, at any depth, every name in the code put in its place refers to what it referred to in the helper. |
| InlinerHygiene.PlainIsHygienic | scripts/inline-functions.ts:594-731 | For every module and all call sites: an accepted helper whose outside names are nowhere declared in it, whose guards read no tail local, and whose names do not look made up, is inlined cleanly. |
| InlinerCaptures.ChainClean | scripts/inline-functions.ts:948-964 | A chain of two helpers without guards goes in two clean rounds, although the second splices in a temporary of the first under its own name. |
| InlinerCaptures.LocalKeepsItsName | scripts/inline-functions.ts:788-834 | A helper without guards whose tail local keeps its name: inlining keeps the meaning, and the module stays well-formed if and only if the caller has no such parameter. |
| InlinerCaptures.ReadingExact | scripts/inline-functions.ts:836-899 | A helper reading its parameter and a global keeps its meaning, for all arguments, stores and histories, if and only if the global is not called like the temporary. |
| InlinerCaptures.CapturedGlobalChanges | scripts/inline-functions.ts:836-899 | With a global called like the temporary the module's globals end differently before and after. |
| InlinerCaptures.ShadowedNameChanges | scripts/inline-functions.ts:418-450 | A name read at the top and declared in a nested block passes the search for free names, and then reads the caller's parameter. |
| InlinerCaptures.CapturedTemporaryChanges | scripts/inline-functions.ts:836-899 | A guarded tail's own `__inl_x` hides the temporary for `x`. |
| InlinerCaptures.EarlyGuardChanges | scripts/inline-functions.ts:836-899 | A guard that reads a tail local throws before, and reads a global after. |
| InlinerCaptures.NestedChainChanges | scripts/inline-functions.ts:948-964 | Two rounds, the first of which hides a temporary in a block that the second substitutes into. |
| SessionSync.ParseFile | scripts/session-stats/sync.py:648-732 | The reading loop gives the records of its lines and moves offset and line number by exactly their bytes and count. |
| SessionContents.LogHeld | scripts/session-stats/sync.py:745-916 | Read from the entries: a message's text is its non-empty text items in order, separated by line breaks, its thinking likewise, and there is a row if and only if there is one of either; each call, result and user text stands under its line with its time; an edit has its last call and last verdict, and the `k`-th section of its last call with so many under `k`; nothing else is in any table. |
| SessionContents.SyncHolds | scripts/session-stats/sync.py:1048-1073 | After any history of appends, touches and syncs, one sync leaves tables that hold exactly this of the log. |
| SessionContents.HoldsOne | scripts/session-stats/sync.py:745-916 | This leaves one content for every table. |
| SessionContents.DecidedByGrowth | scripts/session-stats/sync.py:1048-1073 | Behind a sync: a rebuild if and only if asked for, or for a newer parser, a shorter log, or one as long but touched; nothing if as long and not touched; otherwise reading goes on at the end, and reads the new lines alone if the log only grew. |
| SessionSync.Cache.WriteRecords | scripts/session-stats/sync.py:916-1032 | One transaction leaves every table with the batch upserted on top of what was kept, stubs before verdicts, and the session row merged. |
| SessionSync.Cache.SyncFile | scripts/session-stats/sync.py:1048-1073 | One pass over one file: skip, read on from the offset, or rebuild, as decided from size, time and parser version. |
| SessionSync.BatchesMerge | scripts/session-stats/sync.py:916-1032 | Writing two batches as one is writing them one after the other, although all stubs then precede all verdicts. |
| SessionSync.BatchIsLineByLine | scripts/session-stats/sync.py:916-1032 | A batch does what its lines do one at a time. |
| SessionSync.ReadOn | scripts/session-stats/sync.py:680-687 | Reading on from the bytes of a prefix sees exactly the remaining lines. |
| SessionSync.SyncDescribesAll | scripts/session-stats/sync.py:1048-1073 | If the cache describes a prefix of the log, after a sync it describes all of it. |
| SessionSync.RunDescribes | scripts/session-stats/sync.py:1048-1073 | Any interleaving of appends, touches and syncs keeps the cache a description of a prefix. |
| SessionSync.IncrementalEqualsRebuild | scripts/session-stats/sync.py:916-1032 | After any such history one sync leaves the rows, offset, line count, size and metadata of one from-scratch sync. |
| SessionSync.RebuildKeepsStaleMeta | scripts/session-stats/sync.py:916-1032 | A rebuild gets all rows right from any cache; the metadata too if and only if no old field is missing in the new header. |
| SessionSync.GrownRewriteIsMissed | scripts/session-stats/sync.py:1048-1073 | A rewritten, grown log keeps an old row. |
| SessionRows.NumberedRows | scripts/session-stats/sync.py:916-1032 | Under a line's number the tables hold exactly what that line alone gives. |
| SessionRows.EditRows | scripts/session-stats/sync.py:916-1032 | An edit's row is made of the last call and the last result with its name, in whichever order they came; without a call its columns are zeros. |
| SessionRows.TablesAgreeWhen | scripts/session-stats/sync.py:916-1032 | Two logs have the same tables if and only if they have the same rows line by line and the same last call, result and sections edit by edit. |
| SessionRows.RewriteSeenWhen | scripts/session-stats/sync.py:1048-1073 | One sync over any replaced log: the cache stands for the lines it had and those read behind them; its rows equal a rebuild's if and only if these have the new log's rows; so they do when the decision rebuilds or the cached lines still begin the log. |
| LongestRepeat.FindLongestRepeat | scripts/session-stats/sync.py:502-521 | None exactly when no pair of positions qualifies; otherwise a run that recurs later without overlap, meets the quota, and is not beaten by any qualifying pair. |
| LongestRepeat.RunIsLongest | scripts/session-stats/sync.py:502-521 | No run at a pair of positions is longer than the one the inner loop measures. |
| LongestRepeat.QualifyingRepeats | scripts/session-stats/sync.py:502-521 | A qualifying pair is a genuine repeat. |
| LongestRepeat.MissedWhen | scripts/session-stats/sync.py:502-521 | For every block: none comes back if and only if at each repeat there is, the longest run has too few meaningful lines. |
| LongestRepeat.LongestWhen | scripts/session-stats/sync.py:502-521 | What comes back is a repeat, and it is the longest of all if and only if no repeat hidden in such a run is longer. |
| LongestRepeat.MeaningfulIsExact | scripts/session-stats/sync.py:502-521 | Where every line is meaningful, a repeat is found if there is one, and the longest. |
| LongestRepeat.LongTailHidesRepeat | scripts/session-stats/sync.py:502-521 | A block that repeats four lines, half of them meaningful, and is nevertheless answered with none. |
| LongestRepeat.LongerRepeatLoses | scripts/session-stats/sync.py:502-521 | A block in which a repeat of five lines loses to one of four. |
| ChangelogText.TrimBlankLines | scripts/fix-changelogs.ts:203-209 | The two cursors leave what is between the outermost non-blank lines. |
| ChangelogText.ParseItems | scripts/fix-changelogs.ts:235-265 | The index loop finds the chunks that start at item lines, with their line ranges and trimmed texts. |
| ChangelogText.ChunksRejoin | scripts/fix-changelogs.ts:138-167 | Cutting lines at marks loses, doubles and moves nothing. |
| ChangelogText.FlattenChunks | scripts/fix-changelogs.ts:138-167 | Any chunks, joined, are cut in the same places again. |
| ChangelogDocument.ParseChangelog | scripts/fix-changelogs.ts:138-167 | The index loop gives prefix and sections as the cut at release headings. |
| ChangelogDocument.ParseReleaseSection | scripts/fix-changelogs.ts:169-201 | The index loop gives leading lines and one subsection per heading. |
| ChangelogDocument.RenderChangelog | scripts/fix-changelogs.ts:506-533 | Rendering depends only on the tidied document and writes it line for line. |
| ChangelogRoundTrip.RenderThenParse | scripts/fix-changelogs.ts:506-533 | Parsing a rendered document gives it back up to blank trimming and empty subsections. |
| ChangelogRoundTrip.ParsedFits | scripts/fix-changelogs.ts:138-201 | Whatever was parsed is a document to which the round trip applies. |
| ChangelogRoundTrip.RenderAfterParseSettles | scripts/fix-changelogs.ts:506-533 | For every sequence of lines, a second parse and render changes nothing. |
| ChangelogItems.LineRangeSet | scripts/fix-changelogs.ts:267-275 | The nested loops collect exactly the line numbers in some item's range. |
| ChangelogItems.OutsideIsRest | scripts/fix-changelogs.ts:267-275 | With increasing line numbers, dropping the numbered ranges takes out the picked items and nothing else. |
| ChangelogItems.TakeItems | scripts/fix-changelogs.ts:311-330 | Filtering items and removing their lines yields the picked keys and the remaining lines. |
| ChangelogMerge.AppendSubsectionLines | scripts/fix-changelogs.ts:219-233 | The appended lines with their separator, and nothing when the source is blank. |
| ChangelogMerge.AppendedLayout | scripts/fix-changelogs.ts:219-233 | Both parts stand there trimmed and in order; an item follows an item directly, all else behind one empty line. |
| ChangelogMerge.AppendedItems | scripts/fix-changelogs.ts:219-233 | Appending keeps the items of both parts in order when it joins cleanly, and otherwise lengthens the last item. |
| ChangelogMerge.CompactAdjacentListSpacing | scripts/fix-changelogs.ts:360-379 | The loop closes gaps between items only if no other line would go. |
| ChangelogMerge.CompactedWhen | scripts/fix-changelogs.ts:360-379 | Gaps are closed exactly when the lines start with an item. |
| ChangelogMerge.CompactedItems | scripts/fix-changelogs.ts:360-379 | Only blank lines go; every item stays in place. |
| ChangelogFixer.NormalizeSection | scripts/fix-changelogs.ts:381-421 | The merging loop with its title index gives the recursively merged subsections, and its counters are right. |
| ChangelogFixer.Document.Normalize | scripts/fix-changelogs.ts:567-573 | Every section normalized, with counts of the blank headings and of those that went by merging over the whole file. |
| ChangelogNormal.MergedBag | scripts/fix-changelogs.ts:381-421 | Merging keeps every item as often as it was unless prose is merged behind one; then the items get longer in total. |
| ChangelogNormal.NormalizedItems | scripts/fix-changelogs.ts:381-421 | Normalizing keeps the items if and only if no prose is merged behind an item. |
| ChangelogNormal.NormalizedShape | scripts/fix-changelogs.ts:381-421 | Afterwards each title heads one subsection, and Unreleased has them in the fixed order. |
| ChangelogNormal.UnreleasedOrder | scripts/fix-changelogs.ts:381-421 | In Unreleased, Breaking Changes, Added, Changed, Fixed and Removed stand in this order, all other titles behind them. |
| ChangelogHeadings.NormalizedText | scripts/fix-changelogs.ts:381-421 | Normalizing keeps the heading, the leading lines up to blank edges, and under each title all lines in order. |
| ChangelogHeadings.NormalizedLoose | scripts/fix-changelogs.ts:381-421 | It keeps the lines that belong to no item, title by title, if and only if no prose is merged behind an item. |
| ChangelogFixer.Document.CollectReleasedItemKeys | scripts/fix-changelogs.ts:290-309 | Exactly the keys of items in released sections. |
| ChangelogFixer.Document.DropUnreleasedDuplicatesOfReleased | scripts/fix-changelogs.ts:311-330 | The new sections, and a count that equals the items gone. |
| ChangelogPromotion.DroppedItems | scripts/fix-changelogs.ts:311-330 | The set of items survives if and only if every historical item of Unreleased also stands elsewhere; releases are untouched. |
| ChangelogPromotion.AddItemBag | scripts/fix-changelogs.ts:281-288 | An added item is there afterwards, at most once more, and nothing else changed. |
| ChangelogHeadings.AddItemText | scripts/fix-changelogs.ts:281-288 | An item goes behind all lines under its title unless it is there; the lines under other titles and all lines outside of items stay. |
| ChangelogFix.MoveItems | scripts/fix-changelogs.ts:556-564 | Items not yet present are added to the last subsection of the title, made if need be. |
| ChangelogFixer.Document.PromoteSection | scripts/fix-changelogs.ts:549-565 | One section in place, while a new Unreleased section may push it back. |
| ChangelogFixer.MidwayAgain | scripts/fix-changelogs.ts:546-557 | The section visited twice, after the insertion in front of it, changes nothing the second time. |
| ChangelogFixer.Document.Promote | scripts/fix-changelogs.ts:546-566 | The whole walk equals promotion of each section once, whatever was inserted on the way, and counts what moved. |
| ChangelogPromotion.PromotedItems | scripts/fix-changelogs.ts:546-566 | Promotion conserves the set of items, takes out of releases exactly the picked ones, and all of those are in Unreleased. |
| ChangelogProse.PromotedProse | scripts/fix-changelogs.ts:546-566 | Promotion leaves heading, leading lines and all lines outside of items of every section; what moves stands under its own title in the first Unreleased section, made only if there is none and something moves. |
| ChangelogSort.CompareLoop | scripts/fix-changelogs.ts:440-449 | The comparison loop agrees with its specification. |
| ChangelogSort.NewerComesFirst | scripts/fix-changelogs.ts:440-449 | The difference is negative exactly when the first version is newer and positive exactly when the second is: where they first differ both parts are numbers, and its is the greater. |
| ChangelogSort.OrdersExactly | scripts/fix-changelogs.ts:440-449 | The comparator is antisymmetric and transitive on a set of versions if and only if those that begin like an odd one, up to its odd part, tie with each other. |
| ChangelogSort.NumericOrder | scripts/fix-changelogs.ts:440-449 | On numeric versions it always is, shorter ones filled with zeros. |
| ChangelogSort.OddPartsBreakTheOrder | scripts/fix-changelogs.ts:440-449 | Three versions, one with a part that is no number, in a cycle. |
| StableSorting.SortKeeps | scripts/fix-changelogs.ts:451-458 | Sorting permutes. |
| StableSorting.SortSorts | scripts/fix-changelogs.ts:451-458 | By a comparator that is consistent on the list's elements the result is in order. |
| StableSorting.SortStable | scripts/fix-changelogs.ts:451-458 | Elements that tie keep their order. |
| StableSorting.StableSortIsOnly | scripts/fix-changelogs.ts:451-458 | Any stable sorted arrangement of the list, by whatever algorithm, is this one. |
| ChangelogTheorems.FixChangelogContent | scripts/fix-changelogs.ts:535-584 | Parsing, the passes and rendering compose to the specified file; the counters are the items dropped and moved, the blank headings removed, and the other headings that went by merging. |
| ChangelogProse.WrittenText | scripts/fix-changelogs.ts:535-584 | In the written file, up to blank edges: the prefix of the file read, and of each section before merging the heading, the leading lines and under each title the same lines in order, under one heading; no line joins or leaves an item if and only if no prose is merged behind one there. |
| ChangelogProse.FileKeepsProse | scripts/fix-changelogs.ts:535-584 | Headings with their leading lines are conserved, and where no prose merges all lines outside of items under their titles; only an Unreleased heading can be new, when something moves and there was none. |
| ChangelogTheorems.FixConservesItems | scripts/fix-changelogs.ts:535-584 | Without merged prose the written file has the items of the original if and only if no item was known to the history alone; with no history always. |
| ChangelogTheorems.WrittenItemsExact | scripts/fix-changelogs.ts:535-584 | The written file has the items that were there after promotion, each as often, if and only if no section then had prose to merge behind an item. |
| ChangelogTheorems.PromotableItemsArrive | scripts/fix-changelogs.ts:535-584 | Every promotable released item is in Unreleased of the written file. |
| ChangelogProse.ArrivesUnderTitle | scripts/fix-changelogs.ts:535-584 | It stands there under the title it had, if the file as read has no prose to merge. |
| ChangelogTheorems.OtherItemsStay | scripts/fix-changelogs.ts:535-584 | Under each release heading stand its leading lines, its lines outside of items and exactly the items that were not promotable, title by title, each as often as before. |
| ChangelogTheorems.ReleasesNewestFirst | scripts/fix-changelogs.ts:451-458 | Whenever the comparator orders the versions of the sections there were, no release of the written file stands before a newer one, newer being the greater number in the first part in which they differ. |
| ChangelogTheorems.UnreleasedComesFirst | scripts/fix-changelogs.ts:451-458 | In the written file nothing stands before Unreleased. |
| ChangelogTheorems.ProseMergeLosesItem | scripts/fix-changelogs.ts:219-233 | A section that loses an item to prose under a repeated heading. |
| DiffReading.ScanDiff | scripts/fix-changelogs.ts:598-666 | The additions with an item that stand in a named file and a hunk, in order, each with its path, the hunk headers since the file header, and the line its hunk starts at plus the lines added or kept since; likewise the removals and the hunks with an added release heading. |
| DiffReading.ScanFinds | scripts/fix-changelogs.ts:598-666 | The same after any number of lines of any diff, told from positions in the diff and not from the scan's state. |
| DiffReading.FindsSame | scripts/fix-changelogs.ts:598-666 | There is one such reading. |
| DiffPairing.GroupRemovals | scripts/fix-changelogs.ts:668-677 | Removals grouped by item, each index once, in order. |
| DiffPairing.PairUp | scripts/fix-changelogs.ts:679-686 | The greedy loop pairs the first additions with the first removals of the same item. |
| DiffPairing.PairsAreMinimum | scripts/fix-changelogs.ts:668-686 | Per path and item, paired additions and paired removals are both the smaller of the two counts. |
| DiffPairing.OnePairing | scripts/fix-changelogs.ts:668-686 | The first additions of an item, up to the number of its removals, and the other way round: there is exactly one such pairing. |
| DiffPairing.PartnersDiffer | scripts/fix-changelogs.ts:668-686 | Partners are removals of the same item and no removal is used twice. |
| DiffPairing.CountUnpaired | scripts/fix-changelogs.ts:688-693 | The counting loop gives the unpaired removals of every hunk. |
| DiffPairing.PromotedIsExcess | scripts/fix-changelogs.ts:695-713 | Per hunk the number promoted is the excess of unpaired additions over unpaired removals, and zero next to an added release heading. |
| DiffPairing.CollectPromotableAddedItemLines | scripts/fix-changelogs.ts:598-713 | The line numbers returned per path are exactly those of the promoted additions of the one reading of the diff. |
| DiffPairing.ListedIsExcess | scripts/fix-changelogs.ts:598-713 | In a diff that names each file once, the lines so listed for a hunk are as many as its excess of unpaired additions, and none next to an added release heading. |
| SpanForest.ElidableForest.Push | crates/pi-ast/src/summary.rs:97-105 | A new node, linked under its parent or as a root; all else unchanged. |
| SpanForest.ElidableForest.UnfoldSpans | crates/pi-ast/src/summary.rs:118-162 | Breadth first: the queue is ordered by depth and then by source order, every node before its cut was unfolded if and only if what it reveals kept the visible lines within the limit at its turn, with the target not yet reached, none behind it was; `visible` passes neither limit nor start; short of the target no folded span could be unfolded; in a sound forest the folded spans stand apart and `visible` counts the lines outside. |
| SpanOrder.OneUnfolding | crates/pi-ast/src/summary.rs:118-162 | This leaves one order, one folded set and one count. |
| SpanForest.ReplacedLines | crates/pi-ast/src/summary.rs:143-158 | Replacing a span by its children keeps the spans apart and reveals exactly the lines between them. |
| SpanForest.ApartSum | crates/pi-ast/src/summary.rs:127-133 | Spans that stand apart hold as many lines as their lengths add up to. |
| ElidableTree.ElisionsNest | crates/pi-ast/src/summary.rs:247-326 | Everything a node yields lies strictly between its first and last line and is nested at every depth. |
| ElidableSpans.YieldsExactly | crates/pi-ast/src/summary.rs:247-358 | A tree yields exactly the spans some node reached loses: a comment of the comment minimum its lines behind the second but the last, a kind with a body of the body minimum the lines between its first and last, a longest run of grouped siblings the lines behind its first but the last. |
| ElidableSpans.NestsExactly | crates/pi-ast/src/summary.rs:247-358 | What a body loses holds all that is lost inside it; without it that stands side by side. |
| ElidableTree.ApartExactly | crates/pi-ast/src/summary.rs:288-325 | Siblings stand apart at every level if and only if no elided run hides something elidable between its ends. |
| ElidableTree.StrictExactly | crates/pi-ast/src/summary.rs:76-80 | A child's span is strictly inside its parent's at every depth if and only if nothing fills a node's body. |
| ElidableTree.BracketsShareSpan | crates/pi-ast/src/summary.rs:76-80 | A list around one object, whose two spans are equal. |
| ElidableArena.FlushGroupableRun | crates/pi-ast/src/summary.rs:328-358 | A run ends as at most one span under its parent. |
| ElidableArena.CollectElidableTree | crates/pi-ast/src/summary.rs:247-326 | The recursion over the arena adds exactly the tree of spans the node yields, below the given parent, and leaves the rest alone. |
| ElidableArena.ForestIsSound | crates/pi-ast/src/summary.rs:247-326 | For well-placed trees with clear runs the forest is sound: contained children, disjoint siblings, inside the file. |
| LineSpans.CanonicalUnique | crates/pi-ast/src/summary.rs:818-838 | Sorted, separated lists that cover the same lines are equal. |
| SummarySegments.NormalizeSpans | crates/pi-ast/src/summary.rs:818-838 | A canonical list covering exactly the input's lines clipped to the file. |
| SummarySegments.BuildSegments | crates/pi-ast/src/summary.rs:840-894 | Segments partition lines 1 to the total in order, alternate in kind, elide exactly the spans' lines and show the source's lines elsewhere. |
| SummarySegments.KeptIsRemaining | crates/pi-ast/src/summary.rs:840-894 | The kept texts, joined, are exactly the remaining source lines. |
| SummarySegments.SummarizeCode | crates/pi-ast/src/summary.rs:164-223 | The composed pipeline, with the defaults and floors of its options: partitions the file, keeps exactly the source lines that are not elided, elides exactly the lines of the spans left folded by the one breadth-first unfolding (none of which could be unfolded if the target is missed), and for well-placed trees with clear runs keeps as many lines as unfolding counted. |
| BlockBoundaries.NormalizeRanges | crates/pi-ast/src/block.rs:150-168 | A sorted, separated list covering the valid ranges' lines. |
| BlockBoundaries.VisibleIsInWindow | crates/pi-ast/src/block.rs:170-185 | Binary search over it answers membership in the raw ranges. |
| BlockBoundaries.CollectBoundaries | crates/pi-ast/src/block.rs:187-216 | The walk adds exactly the off-window ends of nodes whose other end is visible. |
| BlockBoundaries.DanglingMeans | crates/pi-ast/src/block.rs:187-216 | The walk's recursion meets every node below the root and no other. |
| BlockBoundaries.EnclosingBlockBoundaries | crates/pi-ast/src/block.rs:234-258 | Ascending, and exactly the far ends of named multi-line nodes below the root that straddle the raw window. |
| BlockBoundaries.Climb | crates/pi-ast/src/block.rs:102-114 | The loop stops at a node on the line whose parent is the root or begins elsewhere. |
| BlockBoundaries.BlockRangeAt | crates/pi-ast/src/block.rs:58-126 | None if the node began earlier or holds an error; otherwise the range of that outermost node. |
| EditSplicing.ApplyEdits | crates/pi-ast/src/ops.rs:187-212 | Right-to-left splicing equals left-to-right assembly; overlap, overrun and malformed text are the errors, in the source's order. |
| EditSplicing.OrderDoesNotMatter | crates/pi-ast/src/ops.rs:187-212 | Edits at distinct positions have one result in any order. |
| EditSplicing.OrderMattersAtOnePlace | crates/pi-ast/src/ops.rs:187-212 | Two insertions at one place do not. |
| EditSplicing.InverseUndoes | crates/pi-ast/src/ops.rs:187-212 | The inverse edits of a suffix assemble the original suffix. |
| EditSplicing.UndoRestores | crates/pi-ast/src/ops.rs:187-212 | Applied edits can be undone by edits. |
| ReadCoverage.MergedMeans | scripts/session-stats/optimize_read_config.py:146-157 | Merging gives the canonical list of the same lines. |
| ReadCoverage.ContainedMeans | scripts/session-stats/optimize_read_config.py:160-164 | In a canonical list one span holds the target exactly when all its lines are covered. |
| ReadCoverage.Subtract | scripts/session-stats/optimize_read_config.py:167-183 | The canonical list of the lines in the span and in none of the others, early exit included. |
| ReadPricing.ChunksCover | scripts/session-stats/optimize_read_config.py:357-368 | Chunks cover the range without gap or overlap, none over the cap, as many as length over cap rounded up. |
| ReadPricing.ChunkRange | scripts/session-stats/optimize_read_config.py:357-368 | The loop yields those chunks for the smaller of line and byte cap. |
| ReadPricing.EndsExactly | scripts/session-stats/optimize_read_config.py:357-368 | On a range with a line in it, the loop's cursor ever passes the end if and only if the cap is at least one. |
| ReadPricing.ReturnsExactly | scripts/session-stats/optimize_read_config.py:314-343 | A call returns its first line, and each line on from there that it asks for and that is in the file, as long as both caps allow. |
| ReadPricing.PaidExactly | scripts/session-stats/optimize_read_config.py:389-402 | Phase one keeps exactly the calls that bring a line not yet there, and charges each for the lines it returns, summarised bare reads at the lower rate, and a round trip. |
| ReadPricing.PerCallMeans | scripts/session-stats/optimize_read_config.py:357-368 | A gap is read in calls of as many lines as both caps allow, and of one where the byte limit is below that. |
| ReadPricing.PaidCoverage | scripts/session-stats/optimize_read_config.py:389-402 | Dropping fully covered calls loses no line of coverage. |
| ReadPricing.FindGaps | scripts/session-stats/optimize_read_config.py:404-407 | The canonical list of lines observed and not delivered. |
| ReadPricing.FillGap | scripts/session-stats/optimize_read_config.py:408-414 | A gap is covered, charged line for line, with one round trip per chunk. |
| ReadPricing.ReplayPair | scripts/session-stats/optimize_read_config.py:371-415 | The final coverage is what the calls return and every observed line; on top of phase one, tokens are charged for exactly the missing lines and round trips for the chunks of each gap, where the gaps are the one canonical list of those lines. |
| ReadPricing.TotalIsCount | scripts/session-stats/optimize_read_config.py:404-415 | The lines charged are as many as are missing, each once. |
| ReadReplay.IsCovered | scripts/session-stats/read_optimizer.py:251-258 | With its early exit, true exactly when every requested line is in the union. |
| ReadReplay.AddInterval | scripts/session-stats/read_optimizer.py:261-278 | Keeps the form, canonical lists included, and yields exactly the union. |
| ReadReplay.DeliversExactly | scripts/session-stats/read_optimizer.py:221-248 | A bounded call delivers the lines it asks for with the context around them, from the first on, as many as a page holds. |
| ReadReplay.CostExactly | scripts/session-stats/read_optimizer.py:364-385 | It is charged for its argument and each line it delivers, up to a quarter of a token for each byte of its page; an unbounded one for its argument and result. |
| ReadReplay.TruncatedWhen | scripts/session-stats/read_optimizer.py:371-376 | It counts as truncated if and only if it loses a line it wants, or fills its page while the context before it is cut short by the start of the file, or ends before that. |
| ReadReplay.Replay | scripts/session-stats/read_optimizer.py:316-427 | The loop's totals, tokens and counts of every kind, are the specified ones; calls and skips together are all reads. |
| ReadReplay.PaidPlusSkipped | scripts/session-stats/read_optimizer.py:316-427 | Paid and skipped reads add up to all, per kind they stay within; single-call groups are among those covered by their first call, and these among the selector groups. |
| ReadReplay.TotalsByLead | scripts/session-stats/read_optimizer.py:316-427 | All totals are the sums over the groups led by a selector, by a default page and by an unbounded read, each replayed by themselves; what is counted for selectors and default pages is the whole of the first two. |
| ReadReplay.Pareto | scripts/session-stats/read_optimizer.py:446-457 | The clean results that none dominates, every trade-off met, in strictly descending calls. |
| WorkerPool.StepSound | scripts/rewrite-system-prompt.ts:235-252 | Every step of any worker keeps the invariant. |
| WorkerPool.StepShrinks | scripts/rewrite-system-prompt.ts:235-252 | Every step brings the end nearer. |
| WorkerPool.RunsEndFull | scripts/rewrite-system-prompt.ts:235-252 | No schedule runs longer than three steps per item and one per worker, none gets stuck, and each complete one fills every slot with its own result. |
| WorkerPool.ClaimedOnce | scripts/rewrite-system-prompt.ts:235-252 | In no run is an index claimed twice. |
| WorkerPool.InFlightWithinLimit | scripts/rewrite-system-prompt.ts:235-252 | Never more calls in flight than the limit, or one where it is less. |
| WorkerPool.MapPool | scripts/rewrite-system-prompt.ts:235-252 | A pool run to its end returns each item's own result in place. |
| PromptTokens.PreservesTokens | scripts/rewrite-system-prompt.ts:158-165 | True exactly when every token occurs at least as often as it is listed. |
| PromptTokens.ScanFindsMost | scripts/rewrite-system-prompt.ts:158-165 | Counting from the left finds as many occurrences as can stand without overlap. |
| PromptTokens.CarriedPasses | scripts/rewrite-system-prompt.ts:158-165 | A text with every listed token at a place of its own passes, such as a core left alone. |
| PromptTokens.CheckIsExact | scripts/rewrite-system-prompt.ts:153-165 | For all texts, passing means carrying every listed token at a place of its own, if and only if no two different listed tokens can overlap. |
| PromptTokens.NestedTokensCountTwice | scripts/rewrite-system-prompt.ts:158-165 | A text that passes and cannot hold both of its tokens. |
| PromptRewrite.Chunk | scripts/rewrite-system-prompt.ts:227-231 | Groups that hold everything in order, all but the last of full size. |
| PromptRewrite.OwnReplies | scripts/rewrite-system-prompt.ts:283-310 | Flattened, the pool's results are the selected entries in order, each resolved by the reply to its own batch. |
| PromptRewrite.RewriteAll | scripts/rewrite-system-prompt.ts:276-329 | Whatever batches fail: unselected lines are unchanged, each selected one is its original or prefix, the answer of its own batch, and suffix; the counters count differing lines and missing answers. |
| PromptRewrite.Rewrite | scripts/rewrite-system-prompt.ts:394-453 | Each item has the first answer, over the attempts, that keeps its tokens, and those without one are exactly the pending. |
| PromptRewrite.SafeExactly | scripts/rewrite-system-prompt.ts:268-275 | For arbitrary replies, all selected lines are original or rebuilt around a text that keeps their tokens if and only if no entry's own batch answers it otherwise. |
| PromptRewrite.UncheckedAnswerDropsToken | scripts/rewrite-system-prompt.ts:268-275 | A reply without the code span ends up in the file. |
| PromptRewrite.RewriteFile | scripts/rewrite-system-prompt.ts:276-329 | With the rewriter that checks, whatever calls fail or answer, every selected line is its original or holds the first acceptable answer to its own batch, with all its tokens; no other line changes; the counters count selected, differing and unanswered ones; the text joins the lines, and splits back into them if and only if no answer chosen has a line break. |
| PromptRewrite.JoinThenSplit | scripts/rewrite-system-prompt.ts:211 | Any lines come back from their joined text if and only if there are some and none has a line break. |
| PromptRewrite.WrittenLines | scripts/rewrite-system-prompt.ts:312-329 | For the rewritten lines, that is if and only if no answer chosen has a line break. |
| EditBoundary.ParseLegacyDiffBoundary | scripts/session-stats/harmony_backtest.py:322-421 | The line loop agrees with the state machine, the count of lines read included. |
| EditBoundary.ParseEditBoundary | scripts/session-stats/harmony_backtest.py:447-613 | The line loop agrees with the state machine, the count of lines read included, and falls back to the legacy one. |
| EditBoundary.CutIsFixpoint | scripts/session-stats/harmony_backtest.py:447-613 | Parsing the text cut at its boundary gives the same boundary, verdict and targets, in every format. |
| EditBoundary.BoundaryIsLongest | scripts/session-stats/harmony_backtest.py:447-613 | No prefix that parses whole is longer than the cut. |
| EditGrammar.LongestSentence | scripts/session-stats/harmony_backtest.py:447-613 | For the current formats the cut is the end of the longest beginning that is a complete sequence of headers, ops and text, in which deletes take no text and inserts of the older formats need some; the sections count its ops, their lines of text and the lines they take out, and an open insert behind it. |
| EditGrammar.BoundaryIsLongestSentence | scripts/session-stats/harmony_backtest.py:447-613 | The same of the answer: it is positive if and only if there is a header, and the reason is a missing payload if and only if the next line opens an insert. |
| EditDiffGrammar.DiffBoundaryIsLongest | scripts/session-stats/harmony_backtest.py:322-421 | For the oldest format likewise: names, hunk and file headers, deletions, replacements and added lines with their text; behind an operation a marker ends the input if asked for; the sections count operations, added and deleted lines. |
| EditBoundary.BoundaryParsesWhole | scripts/session-stats/harmony_backtest.py:447-613 | On success what is cut off parses whole. |
| EditBoundary.CutKeepsAll | scripts/session-stats/harmony_backtest.py:447-613 | The text cut at its boundary gives the whole answer again but for the count of lines read, operation counts and reason included, if and only if the reason is not a missing payload, which it is exactly when the line behind the cut opens an insert; the count of lines is then the cut's, and is kept if and only if no line stands behind the cut. |
| EditBoundary.OpenInsertIsCounted | scripts/session-stats/harmony_backtest.py:447-613 | A text whose counts and reason change at the cut. |
| EditBoundary.SanitizedIsClean | scripts/session-stats/harmony_backtest.py:636-649 | A sanitized input keeps no signal and parses whole. |

## Left out

- InlinerTheorems.InliningPreservesMeaning: asks for `Hygienic` of the module and, of the run, that no call of the helper meets an unordered pair in a flipped comparison. Both are sufficient for the meaning. The first is exact for what names refer to (`InlinerBinding.HygienicExactly`), the second for each run of the guards (`GuardInversion.InvertedGuardsExact`); whether a captured name or a wrong branch shows in the end depends on all the module does, and is exact for two families of helpers (`InlinerCaptures.ReadingExact`, `InlinerFlips.BoundExact`).
- InlinerRounds.RoundsKeepMeaning: asks for these conditions, and for spared parameters, of the module of every round, because a clean round can be followed by one that is not (`InlinerCaptures.NestedChainChanges`).
- ReadPricing.ReplayPair: needs a cap of at least one line per call; with less, `chunk_range` runs forever on a gap (`ReadPricing.EndsExactly`).
- ChangelogTheorems.FixConservesItems: asks that no prose merges in the file as read; what is exact is stated of the file after promotion (`ChangelogTheorems.WrittenItemsExact`), since dropping and promoting items can take away the item that prose would be merged behind.
- ChangelogTheorems.ReleasesNewestFirst: only where the comparator orders the versions (`ChangelogSort.OrdersExactly`), since otherwise the result depends on the sorting algorithm.
- StableSorting.SortSorts: sorting is insertion; for comparators consistent on the list that is what every stable algorithm gives (`StableSorting.StableSortIsOnly`).
- SummarySegments.SummarizeCode: the parse and the kind tables are replaced by a tree whose nodes carry the three kind tests.
- BlockBoundaries.BlockRangeAt: takes the chain of ancestors of the smallest named node as given.
- EditBoundary.ParseEditBoundary: lines come classified; the regular expressions behind the classes are not modelled.
- Inliner: the default (non-strict) mode, which treats member access as pure; closures, function values, returned values, destructuring, labels, type positions; the tree edits and the formatting.
- Changelog: rebuilding released sections from history, git, and idempotence of the whole fixer, which does not hold.
- Sync: partly written lines, SQLite itself, tokenisation, hash-line parsing and the concurrent writer; tables are maps, `now` is not stored.
- Machine integers: line numbers near the 32-bit limit, and saturation of `visible` when a tree is not well placed beyond what `SpanForest.ElidableForest.UnfoldSpans` states.
- Character boundaries in `apply_edits`: contents are bytes, and inserted text is either text or malformed.
- Rates of the replayers are reals.
- Signal detection of the Harmony backtest; `peel`, `isVerbatimLine` and `blockSkipMask` of the prompt rewriter; its network calls, waiting and progress reports.
- Hash-set order is arbitrary where the source iterates over a hash set.
- File walking, archive and isolation backends, release scripts, benchmarks, plots and reports.
