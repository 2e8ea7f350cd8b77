/**
 What a table holds under each key, by the lines of the log, and so when one sync over a rewritten log finds
 what a rebuild finds.
 */
module SessionRows {
  import opened Basics
  import opened SessionSync

  // ----- looking a key up -----

  function Lookup<K, V>(m: map<K, V>, k: K): Option<V> { if k in m then Some(m[k]) else None }

  function Either<T>(a: Option<T>, b: Option<T>): Option<T> { if a.Some? then a else b }

  /** The last row given for a key. */
  function Last<K(==), V>(rows: seq<(K, V)>, k: K): Option<V> {
    if rows == [] then None else Either(Last(rows[1..], k), if rows[0].0 == k then Some(rows[0].1) else None)
  }

  lemma {:induction false} UpsertLast<K, V>(m: map<K, V>, rows: seq<(K, V)>, k: K)
    ensures Lookup(Upsert(m, rows), k) == Either(Last(rows, k), Lookup(m, k))
    decreases |rows|
  {
    if rows != [] { UpsertLast(m[rows[0].0 := rows[0].1], rows[1..], k); }
  }

  lemma {:induction false} SameMap<K, V>(a: map<K, V>, b: map<K, V>)
    requires forall k :: Lookup(a, k) == Lookup(b, k)
    ensures a == b
  {
    forall k | k in a ensures k in b && a[k] == b[k] { assert Lookup(a, k) == Lookup(b, k); }
    forall k | k in b ensures k in a { assert Lookup(a, k) == Lookup(b, k); }
  }

  function LastStub(stubs: seq<Stub>, id: string): Option<Stub> {
    if stubs == [] then None else Either(LastStub(stubs[1..], id), if stubs[0].id == id then Some(stubs[0]) else None)
  }

  /** A row's columns come from the last call, its verdict from the last result; without a call they are zeros. */
  function EditFrom(call: Option<Stub>, verdict: Option<Verdict>): Option<EditRow> {
    if call.Some? then Some(EditRow(call.value.seqNo, call.value.ts, call.value.rawLength, verdict))
    else if verdict.Some? then Some(EditRow(0, 0, 0, verdict))
    else None
  }

  lemma {:induction false} StubsLast(m: map<string, EditRow>, stubs: seq<Stub>, id: string, call: Option<Stub>,
    verdict: Option<Verdict>)
    requires Lookup(m, id) == EditFrom(call, verdict)
    ensures Lookup(PutStubs(m, stubs), id) == EditFrom(Either(LastStub(stubs, id), call), verdict)
    decreases |stubs|
  {
    if stubs != [] {
      StubsLast(PutStub(m, stubs[0]), stubs[1..], id, if stubs[0].id == id then Some(stubs[0]) else call, verdict);
    }
  }

  lemma {:induction false} VerdictsLast(m: map<string, EditRow>, vs: seq<(string, Verdict)>, id: string,
    call: Option<Stub>, verdict: Option<Verdict>)
    requires Lookup(m, id) == EditFrom(call, verdict)
    ensures Lookup(PutVerdicts(m, vs), id) == EditFrom(call, Either(Last(vs, id), verdict))
    decreases |vs|
  {
    if vs != [] {
      VerdictsLast(PutVerdict(m, vs[0].0, vs[0].1), vs[1..], id, call,
        if vs[0].0 == id then Some(vs[0].1) else verdict);
    }
  }

  // ----- rows under a line's number -----

  datatype Rows = Rows(call: Option<(int, string)>, result: Option<(int, string)>, message: Option<MessageRow>,
                       user: Option<(int, string)>)

  const NO_ROWS := Rows(None, None, None, None)

  /** The rows under a line number, and a tool call's name where the key has one. */
  function RowsAt(t: Tables, id: string, n: nat): Rows {
    Rows(Lookup(t.toolCalls, CallKey(id, n)), Lookup(t.toolResults, CallKey(id, n)), Lookup(t.assistant, n),
        Lookup(t.user, n))
  }

  /** The rows a line has by itself. */
  function LineRows(lines: seq<Line>, id: string, n: nat): Rows {
    if n < |lines| then RowsAt(WriteTables(EMPTY, LineRecords(lines[n], n)), id, n) else NO_ROWS
  }

  /** All numbered keys of a batch have one line number. */
  predicate Numbered(r: Records, n: nat) {
    && (forall i :: 0 <= i < |r.toolCalls| ==> r.toolCalls[i].0.seqNo == n)
    && (forall i :: 0 <= i < |r.toolResults| ==> r.toolResults[i].0.seqNo == n)
    && (forall i :: 0 <= i < |r.assistant| ==> r.assistant[i].0 == n)
    && (forall i :: 0 <= i < |r.user| ==> r.user[i].0 == n)
  }

  lemma {:induction false} CallsNumbered(items: seq<Item>, ts: int, n: nat)
    ensures Numbered(CallRecords(items, ts, n), n) && CallRecords(items, ts, n).assistant == []
  {
    if items != [] { CallsNumbered(items[1..], ts, n); }
  }

  lemma {:induction false} LineNumbered(l: Line, n: nat)
    ensures Numbered(LineRecords(l, n), n)
  {
    if l.entry.Assistant? { CallsNumbered(l.entry.items, l.entry.ts, n); }
  }

  lemma {:induction false} LastAmong<K, V>(rows: seq<(K, V)>, k: K)
    requires forall i :: 0 <= i < |rows| ==> rows[i].0 != k
    ensures Last(rows, k) == None
  {
    if rows != [] { LastAmong(rows[1..], k); }
  }

  /** What a batch leaves under a number. */
  lemma {:induction false} BatchRows(t: Tables, r: Records, id: string, n: nat)
    ensures var a, b := RowsAt(WriteTables(t, r), id, n), RowsAt(t, id, n);
      && a.call == Either(Last(r.toolCalls, CallKey(id, n)), b.call)
      && a.result == Either(Last(r.toolResults, CallKey(id, n)), b.result)
      && a.message == Either(Last(r.assistant, n), b.message) && a.user == Either(Last(r.user, n), b.user)
  {
    hide Last, Upsert, PutStubs, PutVerdicts;
    UpsertLast(t.toolCalls, r.toolCalls, CallKey(id, n));
    UpsertLast(t.toolResults, r.toolResults, CallKey(id, n));
    UpsertLast(t.assistant, r.assistant, n);
    UpsertLast(t.user, r.user, n);
  }

  lemma {:induction false} OtherNumber(t: Tables, r: Records, id: string, n: nat, m: nat)
    requires Numbered(r, m) && m != n
    ensures RowsAt(WriteTables(t, r), id, n) == RowsAt(t, id, n)
  {
    hide Last, WriteTables;
    BatchRows(t, r, id, n);
    LastAmong(r.toolCalls, CallKey(id, n));
    LastAmong(r.toolResults, CallKey(id, n));
    LastAmong(r.assistant, n);
    LastAmong(r.user, n);
  }

  lemma {:induction false} OwnNumber(t: Tables, r: Records, id: string, n: nat)
    requires RowsAt(t, id, n) == NO_ROWS
    ensures RowsAt(WriteTables(t, r), id, n) == RowsAt(WriteTables(EMPTY, r), id, n)
  {
    hide Last, WriteTables;
    BatchRows(t, r, id, n);
    BatchRows(EMPTY, r, id, n);
  }

  lemma {:induction false} LastLine(lines: seq<Line>)
    requires lines != []
    ensures var n := |lines| - 1;
      FoldLines(EMPTY, lines, 0) == WriteTables(FoldLines(EMPTY, lines[..n], 0), LineRecords(lines[n], n))
  {
    hide WriteTables, LineRecords;
    var n := |lines| - 1;
    assert lines == lines[..n] + [lines[n]] && [lines[n]][1..] == [];
    FoldAppend(EMPTY, lines[..n], [lines[n]], 0);
  }

  /** Under a line's number the tables hold what that line alone gives. */
  lemma {:induction false} NumberedRows(lines: seq<Line>, id: string, n: nat)
    ensures RowsAt(FoldLines(EMPTY, lines, 0), id, n) == LineRows(lines, id, n)
    decreases |lines|
  {
    hide RowsAt, WriteTables, LineRecords, Numbered;
    if lines == [] {
      assert RowsAt(EMPTY, id, n) == NO_ROWS by { NothingAt(id, n); }
    } else {
      var m := |lines| - 1;
      var t, r := FoldLines(EMPTY, lines[..m], 0), LineRecords(lines[m], m);
      LastLine(lines);
      NumberedRows(lines[..m], id, n);
      LineNumbered(lines[m], m);
      if n == m { OwnNumber(t, r, id, n); } else { OtherNumber(t, r, id, n, m); }
    }
  }

  lemma {:induction false} NothingAt(id: string, n: nat)
    ensures RowsAt(EMPTY, id, n) == NO_ROWS
  {
  }

  // ----- rows under an edit's name -----

  function LastCall(lines: seq<Line>, id: string): Option<Stub> {
    if lines == [] then None
    else
      var n := |lines| - 1;
      Either(LastStub(LineRecords(lines[n], n).stubs, id), LastCall(lines[..n], id))
  }

  function LastVerdict(lines: seq<Line>, id: string): Option<Verdict> {
    if lines == [] then None
    else
      var n := |lines| - 1;
      Either(Last(LineRecords(lines[n], n).verdicts, id), LastVerdict(lines[..n], id))
  }

  function LastSection(lines: seq<Line>, key: SectionKey): Option<SectionRow> {
    if lines == [] then None
    else
      var n := |lines| - 1;
      Either(Last(LineRecords(lines[n], n).sections, key), LastSection(lines[..n], key))
  }

  /** An edit's row is made of the last call and the last result with its name, in whichever order they stand. */
  lemma {:induction false} EditRows(lines: seq<Line>, id: string)
    ensures Lookup(FoldLines(EMPTY, lines, 0).editCalls, id) == EditFrom(LastCall(lines, id), LastVerdict(lines, id))
  {
    hide EditFrom, LineRecords, PutStubs, PutVerdicts, Last, LastStub, Upsert;
    if lines == [] {
      assert EditFrom(None, None) == None by { NoEdit(); }
    } else {
      var n := |lines| - 1;
      var t, r := FoldLines(EMPTY, lines[..n], 0), LineRecords(lines[n], n);
      LastLine(lines);
      EditRows(lines[..n], id);
      var call, verdict := LastCall(lines[..n], id), LastVerdict(lines[..n], id);
      StubsLast(t.editCalls, r.stubs, id, call, verdict);
      VerdictsLast(PutStubs(t.editCalls, r.stubs), r.verdicts, id, Either(LastStub(r.stubs, id), call), verdict);
    }
  }

  lemma {:induction false} NoEdit()
    ensures EditFrom(None, None) == None
  {
  }

  lemma {:induction false} SectionRowsAre(lines: seq<Line>, key: SectionKey)
    ensures Lookup(FoldLines(EMPTY, lines, 0).sections, key) == LastSection(lines, key)
  {
    hide LineRecords, PutStubs, PutVerdicts, Last, Upsert;
    if lines != [] {
      var n := |lines| - 1;
      var t, r := FoldLines(EMPTY, lines[..n], 0), LineRecords(lines[n], n);
      LastLine(lines);
      SectionRowsAre(lines[..n], key);
      UpsertLast(t.sections, r.sections, key);
    }
  }

  // ----- when two logs have the same tables -----

  predicate SameEdit(a: seq<Line>, b: seq<Line>, id: string) {
    EditFrom(LastCall(a, id), LastVerdict(a, id)) == EditFrom(LastCall(b, id), LastVerdict(b, id))
  }

  /** Each line has the same rows as the line of that number, and each edit the same last call, result and sections. */
  ghost predicate SameRows(a: seq<Line>, b: seq<Line>) {
    && (forall id: string, n: nat :: LineRows(a, id, n) == LineRows(b, id, n))
    && (forall id: string :: SameEdit(a, b, id))
    && (forall key: SectionKey :: LastSection(a, key) == LastSection(b, key))
  }

  lemma {:induction false} SameTables(s: Tables, t: Tables)
    requires forall id: string, n: nat :: RowsAt(s, id, n) == RowsAt(t, id, n)
    requires forall id: string :: Lookup(s.editCalls, id) == Lookup(t.editCalls, id)
    requires forall key: SectionKey :: Lookup(s.sections, key) == Lookup(t.sections, key)
    ensures s == t
  {
    hide Lookup;
    forall k: CallKey
      ensures Lookup(s.toolCalls, k) == Lookup(t.toolCalls, k) && Lookup(s.toolResults, k) == Lookup(t.toolResults, k)
    {
      assert RowsAt(s, k.id, k.seqNo) == RowsAt(t, k.id, k.seqNo) && k == CallKey(k.id, k.seqNo);
    }
    forall n: nat ensures Lookup(s.assistant, n) == Lookup(t.assistant, n) && Lookup(s.user, n) == Lookup(t.user, n) {
      assert RowsAt(s, "", n) == RowsAt(t, "", n);
    }
    SameMap(s.toolCalls, t.toolCalls);
    SameMap(s.toolResults, t.toolResults);
    SameMap(s.assistant, t.assistant);
    SameMap(s.user, t.user);
    SameMap(s.editCalls, t.editCalls);
    SameMap(s.sections, t.sections);
  }

  /** Two logs have the same tables exactly when they have the same rows key by key. */
  lemma {:induction false} TablesAgreeWhen(a: seq<Line>, b: seq<Line>)
    ensures FoldLines(EMPTY, a, 0) == FoldLines(EMPTY, b, 0) <==> SameRows(a, b)
  {
    hide FoldLines, RowsAt, LineRows, LastSection, LastCall, LastVerdict, EditFrom, Lookup;
    var s, t := FoldLines(EMPTY, a, 0), FoldLines(EMPTY, b, 0);
    forall id: string, n: nat ensures RowsAt(s, id, n) == LineRows(a, id, n) && RowsAt(t, id, n) == LineRows(b, id, n) {
      NumberedRows(a, id, n);
      NumberedRows(b, id, n);
    }
    forall id: string ensures SameEdit(a, b, id) <==> Lookup(s.editCalls, id) == Lookup(t.editCalls, id) {
      EditRows(a, id);
      EditRows(b, id);
    }
    forall key: SectionKey
      ensures Lookup(s.sections, key) == LastSection(a, key) && Lookup(t.sections, key) == LastSection(b, key)
    {
      SectionRowsAre(a, key);
      SectionRowsAre(b, key);
    }
    if SameRows(a, b) { SameTables(s, t); }
  }

  // ----- one sync over any log -----

  /** The lines that were cached. */
  function Cached(db: Db, lines: seq<Line>): seq<Line>
    requires db.session.Some? ==> db.session.value.lineCount <= |lines|
  {
    if db.session.None? then [] else lines[..db.session.value.lineCount]
  }

  /** The lines the cache stands for after a sync: all as read, those it had, or those with what was read behind
      them. */
  function Standing(action: Action, cached: seq<Line>, now: seq<Line>): seq<Line> {
    match action
    case Skip => cached
    case Read(rebuild, offset, _) => if rebuild then now else cached + LinesFrom(now, offset)
  }

  lemma {:induction false} SyncStandsFor(db: Db, old': seq<Line>, file: File, full: bool, parser: nat)
    requires Describes(db, old', parser)
    ensures SyncDb(db, file, full, parser).tables
         == FoldLines(EMPTY, Standing(Decide(db.session, Bytes(file.lines), file.mtime, full, parser),
                                       Cached(db, old'), file.lines), 0)
  {
    hide WriteTables, FoldLines, ParseFrom, HeaderOf, MergeMeta, Bytes, LinesFrom;
    var cached := Cached(db, old');
    ReadOn([], file.lines);
    NoBytes();
    assert [] + file.lines == file.lines;
    ReadAll(file.lines);
    ReadRest(cached, LinesFrom(file.lines, Bytes(cached)));
  }

  lemma {:induction false} PrefixStands(db: Db, old': seq<Line>, file: File, full: bool, parser: nat)
    requires Describes(db, old', parser) && Cached(db, old') <= file.lines
    ensures Standing(Decide(db.session, Bytes(file.lines), file.mtime, full, parser), Cached(db, old'), file.lines)
      == file.lines
  {
    hide LinesFrom, Bytes, FoldLines, HeaderOf;
    var cached, rest := Cached(db, old'), file.lines[|Cached(db, old')|..];
    assert file.lines == cached + rest;
    ReadOn(cached, rest);
    BytesAppend(cached, rest);
    NoBytesNoLines(rest);
  }

  /**
   One sync over a log that was replaced by any other: the cache stands for the lines it had and those it read
   behind them, its rows are a rebuild's exactly when these lines have the new log's rows key by key, and that is
   so when the decision was to rebuild or the cached lines still begin the log.
   */
  lemma {:induction false} RewriteSeenWhen(db: Db, old': seq<Line>, file: File, full: bool, parser: nat)
    requires Describes(db, old', parser)
    ensures var action := Decide(db.session, Bytes(file.lines), file.mtime, full, parser);
      var standing := Standing(action, Cached(db, old'), file.lines);
      var kept, anew := SyncDb(db, file, full, parser), SyncDb(NO_DB, file, true, parser);
      && kept.tables == FoldLines(EMPTY, standing, 0)
      && (kept.tables == anew.tables <==> SameRows(standing, file.lines))
      && (action == Read(true, 0, 0) || Cached(db, old') <= file.lines ==> kept.tables == anew.tables)
  {
    hide SyncDb, FoldLines, SameRows, LinesFrom, Bytes;
    var standing := Standing(Decide(db.session, Bytes(file.lines), file.mtime, full, parser), Cached(db, old'),
      file.lines);
    SyncStandsFor(db, old', file, full, parser);
    SyncStandsFor(NO_DB, [], file, true, parser);
    TablesAgreeWhen(standing, file.lines);
    if Cached(db, old') <= file.lines { PrefixStands(db, old', file, full, parser); }
  }
}
