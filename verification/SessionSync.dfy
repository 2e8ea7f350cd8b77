/**
 The incremental session sync: a cached byte offset and line count per file, rows
 upserted in batches, and what makes the cache agree with a rebuild from scratch.

 One session file; its rows carry its name in every key, so files do not interact.
 */
module SessionSync {
  import opened Basics

  // ----- the file -----

  datatype Section = Section(target: string, details: string)
  datatype EditInput = EditInput(rawLength: nat, sections: seq<Section>)

  /** An element of an assistant message; `edit` is there when the tool is `edit`. */
  datatype Item =
    | ToolCall(id: string, call: string, edit: Option<EditInput>)
    | Thinking(text: string)
    | Text(text: string)

  datatype Entry =
    | Blank
    | NotJson
    | Header(meta: Meta)
    | Assistant(ts: int, items: seq<Item>)
    | ToolResult(ts: int, id: string, result: string, edit: Option<Verdict>)
    | User(ts: int, text: string)
    | Other

  /** How an edit turned out: the `edit` tool's success flag and warnings. */
  datatype Verdict = Verdict(success: bool, warnings: string)

  datatype Meta = Meta(uuid: Option<string>, version: Option<string>, title: Option<string>,
                       cwd: Option<string>, started: Option<int>)

  const NO_META := Meta(None, None, None, None, None)

  /** A line with its terminator, so never empty. */
  type Line = l: RawLine | l.size > 0 witness RawLine(1, Blank)
  datatype RawLine = RawLine(size: nat, entry: Entry)

  datatype File = File(lines: seq<Line>, mtime: int)

  function Bytes(lines: seq<Line>): nat {
    if lines == [] then 0 else lines[0].size + Bytes(lines[1..])
  }

  /** What a read from a byte offset sees.  A line cut in two is not JSON any more. */
  function LinesFrom(lines: seq<Line>, offset: nat): seq<Line> {
    if offset == 0 || lines == [] then lines
    else if offset >= lines[0].size then LinesFrom(lines[1..], offset - lines[0].size)
    else [RawLine(lines[0].size - offset, NotJson)] + lines[1..]
  }

  // ----- the tables -----

  datatype SectionKey = SectionKey(id: string, index: nat)
  datatype CallKey = CallKey(id: string, seqNo: nat)
  datatype SectionRow = SectionRow(seqNo: nat, section: Section)
  datatype MessageRow = MessageRow(ts: int, text: Option<string>, thinking: Option<string>)
  datatype EditRow = EditRow(seqNo: nat, ts: int, rawLength: nat, verdict: Option<Verdict>)

  datatype SessionRow = SessionRow(meta: Meta, mtime: int, size: nat, offset: nat, lineCount: nat, parser: nat)

  datatype Tables = Tables(
    toolCalls: map<CallKey, (int, string)>,
    toolResults: map<CallKey, (int, string)>,
    assistant: map<nat, MessageRow>,
    user: map<nat, (int, string)>,
    editCalls: map<string, EditRow>,
    sections: map<SectionKey, SectionRow>)

  const EMPTY := Tables(map[], map[], map[], map[], map[], map[])

  datatype Db = Db(session: Option<SessionRow>, tables: Tables)

  // ----- parsing -----

  datatype Stub = Stub(id: string, seqNo: nat, ts: int, rawLength: nat)

  datatype Records = Records(
    meta: Meta,
    toolCalls: seq<(CallKey, (int, string))>,
    toolResults: seq<(CallKey, (int, string))>,
    assistant: seq<(nat, MessageRow)>,
    user: seq<(nat, (int, string))>,
    stubs: seq<Stub>,
    verdicts: seq<(string, Verdict)>,
    sections: seq<(SectionKey, SectionRow)>)

  const NOTHING := Records(NO_META, [], [], [], [], [], [], [])

  function Join(a: Records, b: Records): Records {
    Records(a.meta, a.toolCalls + b.toolCalls, a.toolResults + b.toolResults, a.assistant + b.assistant,
            a.user + b.user, a.stubs + b.stubs, a.verdicts + b.verdicts, a.sections + b.sections)
  }

  function SectionRows(id: string, seqNo: nat, sections: seq<Section>, index: nat): seq<(SectionKey, SectionRow)>
    decreases |sections|
  {
    if sections == [] then []
    else [(SectionKey(id, index), SectionRow(seqNo, sections[0]))] + SectionRows(id, seqNo, sections[1..], index + 1)
  }

  /** The tool calls of an assistant message, with the edit rows they start. */
  function CallRecords(items: seq<Item>, ts: int, seqNo: nat): Records {
    if items == [] then NOTHING
    else
      var rest := CallRecords(items[1..], ts, seqNo);
      match items[0]
      case ToolCall(id, call, edit) =>
        var row := NOTHING.(toolCalls := [(CallKey(id, seqNo), (ts, call))]);
        Join(if edit.None? then row
             else row.(stubs := [Stub(id, seqNo, ts, edit.value.rawLength)],
                       sections := SectionRows(id, seqNo, edit.value.sections, 0)), rest)
      case _ => rest
  }

  /** The non-empty texts of one kind, joined by line breaks. */
  function Blob(items: seq<Item>, thinking: bool): Option<string> {
    if items == [] then None
    else
      var rest := Blob(items[1..], thinking);
      var mine := if thinking then items[0].Thinking? else items[0].Text?;
      if !mine || items[0].text == "" then rest
      else Some(if rest.None? then items[0].text else items[0].text + "\n" + rest.value)
  }

  function AssistantRecords(items: seq<Item>, ts: int, seqNo: nat): Records {
    var calls := CallRecords(items, ts, seqNo);
    var text, thinking := Blob(items, false), Blob(items, true);
    if text.None? && thinking.None? then calls
    else calls.(assistant := [(seqNo, MessageRow(ts, text, thinking))])
  }

  /** The rows of one line. */
  function LineRecords(l: Line, seqNo: nat): Records {
    match l.entry
    case Assistant(ts, items) => AssistantRecords(items, ts, seqNo)
    case ToolResult(ts, id, result, edit) =>
      NOTHING.(toolResults := [(CallKey(id, seqNo), (ts, result))],
               verdicts := if edit.None? then [] else [(id, edit.value)])
    case User(ts, text) => if text == "" then NOTHING else NOTHING.(user := [(seqNo, (ts, text))])
    case _ => NOTHING
  }

  function LineMeta(l: Line, seqNo: nat, meta: Meta): Meta {
    if seqNo == 0 && l.entry.Header? then l.entry.meta else meta
  }

  function ParseFrom(rec: Records, lines: seq<Line>, seqNo: nat): Records
    decreases |lines|
  {
    if lines == [] then rec
    else ParseFrom(Join(rec, LineRecords(lines[0], seqNo)).(meta := LineMeta(lines[0], seqNo, rec.meta)), lines[1..],
        seqNo + 1)
  }

  // ----- writing -----

  function Upsert<K, V>(m: map<K, V>, rows: seq<(K, V)>): map<K, V>
    decreases |rows|
  {
    if rows == [] then m else Upsert(m[rows[0].0 := rows[0].1], rows[1..])
  }

  /** A tool call refreshes its own columns and keeps a verdict that is already there. */
  function PutStub(m: map<string, EditRow>, s: Stub): map<string, EditRow> {
    m[s.id := EditRow(s.seqNo, s.ts, s.rawLength, if s.id in m then m[s.id].verdict else None)]
  }

  /** A result fills in the verdict, or starts a row of zeros when the call is unknown. */
  function PutVerdict(m: map<string, EditRow>, id: string, v: Verdict): map<string, EditRow> {
    m[id := if id in m then m[id].(verdict := Some(v)) else EditRow(0, 0, 0, Some(v))]
  }

  function PutStubs(m: map<string, EditRow>, stubs: seq<Stub>): map<string, EditRow>
    decreases |stubs|
  {
    if stubs == [] then m else PutStubs(PutStub(m, stubs[0]), stubs[1..])
  }

  function PutVerdicts(m: map<string, EditRow>, vs: seq<(string, Verdict)>): map<string, EditRow>
    decreases |vs|
  {
    if vs == [] then m else PutVerdicts(PutVerdict(m, vs[0].0, vs[0].1), vs[1..])
  }

  /** One batch: table after table, all stubs before all verdicts. */
  function WriteTables(t: Tables, r: Records): Tables {
    Tables(Upsert(t.toolCalls, r.toolCalls), Upsert(t.toolResults, r.toolResults),
           Upsert(t.assistant, r.assistant), Upsert(t.user, r.user),
           PutVerdicts(PutStubs(t.editCalls, r.stubs), r.verdicts), Upsert(t.sections, r.sections))
  }

  function Coalesce<T>(a: Option<T>, b: Option<T>): Option<T> { if a.Some? then a else b }

  function MergeMeta(a: Meta, b: Meta): Meta {
    Meta(Coalesce(a.uuid, b.uuid), Coalesce(a.version, b.version), Coalesce(a.title, b.title),
         Coalesce(a.cwd, b.cwd), Coalesce(a.started, b.started))
  }

  // ----- what a line does to the tables, one line at a time -----

  function FoldLines(t: Tables, lines: seq<Line>, seqNo: nat): Tables
    decreases |lines|
  {
    if lines == [] then t else FoldLines(WriteTables(t, LineRecords(lines[0], seqNo)), lines[1..], seqNo + 1)
  }

  /** The metadata of a file: its first line's, when that is a header. */
  function HeaderOf(lines: seq<Line>): Meta {
    if lines != [] && lines[0].entry.Header? then lines[0].entry.meta else NO_META
  }

  // ----- deciding and syncing -----

  datatype Action = Skip | Read(rebuild: bool, offset: nat, seqNo: nat)

  function Decide(session: Option<SessionRow>, size: nat, mtime: int, full: bool, parser: nat): Action {
    if full || session.None? then Read(true, 0, 0)
    else
      var prev := session.value;
      if prev.parser < parser then Read(true, 0, 0)
      else if size == prev.size && mtime <= prev.mtime then Skip
      else if size < prev.offset then Read(true, 0, 0)
      else if size == prev.offset && mtime > prev.mtime then Read(true, 0, 0)
      else Read(false, prev.offset, prev.lineCount)
  }

  /** One pass over one file. */
  function SyncDb(db: Db, file: File, full: bool, parser: nat): Db {
    var size := Bytes(file.lines);
    match Decide(db.session, size, file.mtime, full, parser)
    case Skip => db
    case Read(rebuild, offset, seqNo) =>
      var lines := LinesFrom(file.lines, offset);
      var rec := ParseFrom(NOTHING, lines, seqNo);
      var meta := if db.session.None? then rec.meta else MergeMeta(rec.meta, db.session.value.meta);
      Db(Some(SessionRow(meta, file.mtime, size, offset + Bytes(lines), seqNo + |lines|, parser)),
         WriteTables(if rebuild then EMPTY else db.tables, rec))
  }

  class Cache {
    var session: Option<SessionRow>
    var toolCalls: map<CallKey, (int, string)>
    var toolResults: map<CallKey, (int, string)>
    var assistant: map<nat, MessageRow>
    var user: map<nat, (int, string)>
    var editCalls: map<string, EditRow>
    var sections: map<SectionKey, SectionRow>

    ghost function Contents(): Db
      reads this
    {
      Db(session, Tables(toolCalls, toolResults, assistant, user, editCalls, sections))
    }

    constructor ()
      ensures Contents() == Db(None, EMPTY)
    {
      session := None;
      toolCalls, toolResults, assistant, user, editCalls, sections := map[], map[], map[], map[], map[], map[];
    }

    /** One transaction: clear on a rebuild, then each table's rows, then the session row. */
    method WriteRecords(rec: Records, rebuild: bool, row: SessionRow)
      modifies this
      ensures Contents() == Db(
        Some(row.(meta := if old(session).None? then rec.meta else MergeMeta(rec.meta, old(session).value.meta))),
        WriteTables(if rebuild then EMPTY else old(Contents()).tables, rec))
    {
      if rebuild {
        toolCalls, toolResults, assistant, user, editCalls, sections := map[], map[], map[], map[], map[], map[];
      }
      toolCalls := UpsertMany(toolCalls, rec.toolCalls);
      toolResults := UpsertMany(toolResults, rec.toolResults);
      assistant := UpsertMany(assistant, rec.assistant);
      user := UpsertMany(user, rec.user);
      ghost var before := editCalls;
      for i := 0 to |rec.stubs|
        invariant PutStubs(before, rec.stubs) == PutStubs(editCalls, rec.stubs[i..])
        invariant unchanged(`session) && toolCalls == Upsert(if rebuild then map[] else old(toolCalls), rec.toolCalls)
        invariant toolResults == Upsert(if rebuild then map[] else old(toolResults), rec.toolResults)
        invariant assistant == Upsert(if rebuild then map[] else old(assistant), rec.assistant)
        invariant user == Upsert(if rebuild then map[] else old(user), rec.user)
        invariant sections == if rebuild then map[] else old(sections)
      {
        assert rec.stubs[i..][0] == rec.stubs[i] && rec.stubs[i..][1..] == rec.stubs[i + 1..];
        editCalls := PutStub(editCalls, rec.stubs[i]);
      }
      ghost var stubbed := editCalls;
      for i := 0 to |rec.verdicts|
        invariant PutVerdicts(stubbed, rec.verdicts) == PutVerdicts(editCalls, rec.verdicts[i..])
        invariant unchanged(`session) && toolCalls == Upsert(if rebuild then map[] else old(toolCalls), rec.toolCalls)
        invariant toolResults == Upsert(if rebuild then map[] else old(toolResults), rec.toolResults)
        invariant assistant == Upsert(if rebuild then map[] else old(assistant), rec.assistant)
        invariant user == Upsert(if rebuild then map[] else old(user), rec.user)
        invariant sections == if rebuild then map[] else old(sections)
      {
        assert rec.verdicts[i..][0] == rec.verdicts[i] && rec.verdicts[i..][1..] == rec.verdicts[i + 1..];
        editCalls := PutVerdict(editCalls, rec.verdicts[i].0, rec.verdicts[i].1);
      }
      sections := UpsertMany(sections, rec.sections);
      session := Some(row.(meta := if session.None? then rec.meta else MergeMeta(rec.meta, session.value.meta)));
    }

    method SyncFile(file: File, full: bool, parser: nat)
      modifies this
      ensures Contents() == SyncDb(old(Contents()), file, full, parser)
    {
      var size := Bytes(file.lines);
      var action := Decide(session, size, file.mtime, full, parser);
      if action.Read? {
        var lines := LinesFrom(file.lines, action.offset);
        var rec, offset, seqNo := ParseFile(lines, action.offset, action.seqNo);
        WriteRecords(rec, action.rebuild, SessionRow(NO_META, file.mtime, size, offset, seqNo, parser));
      }
    }
  }

  method UpsertMany<K(==), V>(m: map<K, V>, rows: seq<(K, V)>) returns (r: map<K, V>)
    ensures r == Upsert(m, rows)
  {
    r := m;
    for i := 0 to |rows|
      invariant Upsert(m, rows) == Upsert(r, rows[i..])
    {
      assert rows[i..][0] == rows[i] && rows[i..][1..] == rows[i + 1..];
      r := r[rows[i].0 := rows[i].1];
    }
  }

  /** The reading loop: a running byte offset and line number. */
  method ParseFile(lines: seq<Line>, startOffset: nat, startSeq: nat) returns (rec: Records, offset: nat, seqNo: nat)
    ensures rec == ParseFrom(NOTHING, lines, startSeq)
    ensures offset == startOffset + Bytes(lines) && seqNo == startSeq + |lines|
  {
    rec, offset, seqNo := NOTHING, startOffset, startSeq;
    for i := 0 to |lines|
      invariant ParseFrom(NOTHING, lines, startSeq) == ParseFrom(rec, lines[i..], seqNo)
      invariant offset + Bytes(lines[i..]) == startOffset + Bytes(lines) && seqNo == startSeq + i
    {
      assert lines[i..][0] == lines[i] && lines[i..][1..] == lines[i + 1..];
      rec := Join(rec, LineRecords(lines[i], seqNo)).(meta := LineMeta(lines[i], seqNo, rec.meta));
      offset := offset + lines[i].size;
      seqNo := seqNo + 1;
    }
  }

  // ----- a batch means its lines in order -----

  lemma {:induction false} UpsertAppend<K, V>(m: map<K, V>, a: seq<(K, V)>, b: seq<(K, V)>)
    ensures Upsert(m, a + b) == Upsert(Upsert(m, a), b)
    decreases |a|
  {
    if a == [] {
      assert a + b == b;
    } else {
      assert (a + b)[1..] == a[1..] + b;
      UpsertAppend(m[a[0].0 := a[0].1], a[1..], b);
    }
  }

  lemma {:induction false} StubPastVerdicts(m: map<string, EditRow>, s: Stub, vs: seq<(string, Verdict)>)
    ensures PutStub(PutVerdicts(m, vs), s) == PutVerdicts(PutStub(m, s), vs)
    decreases |vs|
  {
    if vs != [] {
      var (id, v) := vs[0];
      StubPastVerdicts(PutVerdict(m, id, v), s, vs[1..]);
      assert PutStub(PutVerdict(m, id, v), s) == PutVerdict(PutStub(m, s), id, v);
    }
  }

  lemma {:induction false} StubsPastVerdicts(m: map<string, EditRow>, ss: seq<Stub>, vs: seq<(string, Verdict)>)
    ensures PutStubs(PutVerdicts(m, vs), ss) == PutVerdicts(PutStubs(m, ss), vs)
    decreases |ss|
  {
    if ss != [] {
      StubPastVerdicts(m, ss[0], vs);
      StubsPastVerdicts(PutStub(m, ss[0]), ss[1..], vs);
    }
  }

  lemma {:induction false} StubsAppend(m: map<string, EditRow>, a: seq<Stub>, b: seq<Stub>)
    ensures PutStubs(m, a + b) == PutStubs(PutStubs(m, a), b)
    decreases |a|
  {
    if a == [] {
      assert a + b == b;
    } else {
      assert (a + b)[1..] == a[1..] + b;
      StubsAppend(PutStub(m, a[0]), a[1..], b);
    }
  }

  lemma {:induction false} VerdictsAppend(m: map<string, EditRow>, a: seq<(string, Verdict)>, b: seq<(string, Verdict)>)
    ensures PutVerdicts(m, a + b) == PutVerdicts(PutVerdicts(m, a), b)
    decreases |a|
  {
    if a == [] {
      assert a + b == b;
    } else {
      assert (a + b)[1..] == a[1..] + b;
      VerdictsAppend(PutVerdict(m, a[0].0, a[0].1), a[1..], b);
    }
  }

  /** Writing two batches as one changes nothing, although the second's stubs then
      come before the first's verdicts. */
  lemma {:induction false} BatchesMerge(t: Tables, a: Records, b: Records)
    ensures WriteTables(t, Join(a, b)) == WriteTables(WriteTables(t, a), b)
  {
    UpsertAppend(t.toolCalls, a.toolCalls, b.toolCalls);
    UpsertAppend(t.toolResults, a.toolResults, b.toolResults);
    UpsertAppend(t.assistant, a.assistant, b.assistant);
    UpsertAppend(t.user, a.user, b.user);
    UpsertAppend(t.sections, a.sections, b.sections);
    var m := PutStubs(t.editCalls, a.stubs);
    StubsAppend(t.editCalls, a.stubs, b.stubs);
    StubsPastVerdicts(m, b.stubs, a.verdicts);
    VerdictsAppend(PutStubs(m, b.stubs), a.verdicts, b.verdicts);
  }

  /** A batch has the effect of its lines, one after another. */
  lemma {:induction false} BatchIsLineByLine(t: Tables, rec: Records, lines: seq<Line>, seqNo: nat)
    ensures WriteTables(t, ParseFrom(rec, lines, seqNo)) == FoldLines(WriteTables(t, rec), lines, seqNo)
    decreases |lines|
  {
    if lines != [] {
      var l := LineRecords(lines[0], seqNo);
      BatchesMerge(t, rec, l);
      BatchIsLineByLine(t, Join(rec, l).(meta := LineMeta(lines[0], seqNo, rec.meta)), lines[1..], seqNo + 1);
    }
  }

  lemma {:induction false} FoldAppend(t: Tables, a: seq<Line>, b: seq<Line>, seqNo: nat)
    ensures FoldLines(t, a + b, seqNo) == FoldLines(FoldLines(t, a, seqNo), b, seqNo + |a|)
    decreases |a|
  {
    if a == [] {
      assert a + b == b;
    } else {
      assert (a + b)[1..] == a[1..] + b;
      FoldAppend(WriteTables(t, LineRecords(a[0], seqNo)), a[1..], b, seqNo + 1);
    }
  }

  // ----- runs -----

  /** What happens to a session log: whole lines are appended, it is touched, or it is synced. */
  datatype Happening = Append(more: seq<Line>, mtime: int) | Touch(mtime: int) | Sync(full: bool)

  datatype Site = Site(file: File, db: Db)

  function Next(s: Site, h: Happening, parser: nat): Site {
    match h
    case Append(more, mtime) => s.(file := File(s.file.lines + more, mtime))
    case Touch(mtime) => s.(file := s.file.(mtime := mtime))
    case Sync(full) => s.(db := SyncDb(s.db, s.file, full, parser))
  }

  function Run(s: Site, hs: seq<Happening>, parser: nat): Site
    decreases |hs|
  {
    if hs == [] then s else Run(Next(s, hs[0], parser), hs[1..], parser)
  }

  const NO_DB := Db(None, EMPTY)

  /** The cache describes a prefix of the file, exactly. */
  ghost predicate Describes(db: Db, lines: seq<Line>, parser: nat) {
    if db.session.None? then db == NO_DB
    else
      var row := db.session.value;
      && row.lineCount <= |lines| && row.parser == parser
      && var done := lines[..row.lineCount];
         row.offset == row.size == Bytes(done) && row.meta == HeaderOf(done) && db.tables == FoldLines(EMPTY, done, 0)
  }

  lemma {:induction false} BytesAppend(a: seq<Line>, b: seq<Line>)
    ensures Bytes(a + b) == Bytes(a) + Bytes(b)
  {
    if a == [] {
      assert a + b == b;
    } else {
      assert (a + b)[1..] == a[1..] + b;
      BytesAppend(a[1..], b);
    }
  }

  lemma {:induction false} NoBytesNoLines(lines: seq<Line>)
    ensures Bytes(lines) >= |lines|
  {
    if lines != [] {
      NoBytesNoLines(lines[1..]);
    }
  }

  /** Reading on from the end of a prefix sees exactly the rest. */
  lemma {:induction false} ReadOn(a: seq<Line>, b: seq<Line>)
    ensures LinesFrom(a + b, Bytes(a)) == b
  {
    if a == [] {
      assert a + b == b;
    } else {
      assert (a + b)[1..] == a[1..] + b;
      ReadOn(a[1..], b);
    }
  }

  lemma {:induction false} ParsedMeta(rec: Records, lines: seq<Line>, seqNo: nat)
    ensures ParseFrom(rec, lines, seqNo).meta ==
      if seqNo == 0 && lines != [] && lines[0].entry.Header? then lines[0].entry.meta else rec.meta
    decreases |lines|
  {
    if lines != [] {
      ParsedMeta(Join(rec, LineRecords(lines[0], seqNo)).(meta := LineMeta(lines[0], seqNo, rec.meta)), lines[1..],
        seqNo + 1);
    }
  }

  lemma {:induction false} NothingWritten(t: Tables)
    ensures WriteTables(t, NOTHING) == t
  {
  }

  lemma {:induction false} NoBytes()
    ensures Bytes([]) == 0
  {
  }

  /** What reading a file from the start, or on from a prefix, leaves. */
  lemma {:induction false} ReadAll(lines: seq<Line>)
    ensures WriteTables(EMPTY, ParseFrom(NOTHING, lines, 0)) == FoldLines(EMPTY, lines, 0)
    ensures ParseFrom(NOTHING, lines, 0).meta == HeaderOf(lines)
  {
    NothingWritten(EMPTY);
    BatchIsLineByLine(EMPTY, NOTHING, lines, 0);
    ParsedMeta(NOTHING, lines, 0);
  }

  lemma {:induction false} ReadRest(done: seq<Line>, rest: seq<Line>)
    ensures WriteTables(FoldLines(EMPTY, done, 0), ParseFrom(NOTHING, rest, |done|)) == FoldLines(EMPTY, done + rest, 0)
    ensures MergeMeta(ParseFrom(NOTHING, rest, |done|).meta, HeaderOf(done)) == HeaderOf(done + rest)
  {
    NothingWritten(FoldLines(EMPTY, done, 0));
    BatchIsLineByLine(FoldLines(EMPTY, done, 0), NOTHING, rest, |done|);
    FoldAppend(EMPTY, done, rest, 0);
    ParsedMeta(NOTHING, rest, |done|);
    if done == [] {
      assert done + rest == rest;
    }
  }

  lemma {:induction false} MergeOwnMeta(done: seq<Line>, rest: seq<Line>)
    ensures MergeMeta(HeaderOf(done + rest), HeaderOf(done)) == HeaderOf(done + rest)
  {
  }

  /** A sync brings the description up to the whole file. */
  lemma {:induction false} SyncDescribesAll(s: Site, full: bool, parser: nat)
    requires Describes(s.db, s.file.lines, parser)
    ensures var db := SyncDb(s.db, s.file, full, parser);
      Describes(db, s.file.lines, parser) && db.session.Some? && db.session.value.lineCount == |s.file.lines|
  {
    hide WriteTables, FoldLines, ParseFrom, HeaderOf, MergeMeta, Bytes, LinesFrom;
    var lines := s.file.lines;
    var k := if s.db.session.None? then 0 else s.db.session.value.lineCount;
    var done, rest := lines[..k], lines[k..];
    assert lines == done + rest && lines[..|lines|] == lines;
    BytesAppend(done, rest);
    NoBytesNoLines(rest);
    ReadAll(lines);
    ReadRest(done, rest);
    ReadOn(done, rest);
    ReadOn([], lines);
    NoBytes();
    assert [] + lines == lines;
    MergeOwnMeta(done, rest);
    if Decide(s.db.session, Bytes(lines), s.file.mtime, full, parser).Skip? {
      assert rest == [];
    }
  }

  lemma {:induction false} StepDescribes(s: Site, h: Happening, parser: nat)
    requires Describes(s.db, s.file.lines, parser)
    ensures Describes(Next(s, h, parser).db, Next(s, h, parser).file.lines, parser)
  {
    match h
    case Append(more, _) =>
      if s.db.session.Some? {
        var k := s.db.session.value.lineCount;
        assert (s.file.lines + more)[..k] == s.file.lines[..k];
      }
    case Touch(_) =>
    case Sync(full) => SyncDescribesAll(s, full, parser);
  }

  lemma {:induction false} RunDescribes(s: Site, hs: seq<Happening>, parser: nat)
    requires Describes(s.db, s.file.lines, parser)
    ensures Describes(Run(s, hs, parser).db, Run(s, hs, parser).file.lines, parser)
    decreases |hs|
  {
    if hs != [] {
      StepDescribes(s, hs[0], parser);
      RunDescribes(Next(s, hs[0], parser), hs[1..], parser);
    }
  }

  /** After any history of appends, touches and syncs, a sync leaves exactly what
      one sync from scratch would: the same rows in every table, the same offset,
      line count, size and metadata. */
  lemma {:induction false} IncrementalEqualsRebuild(lines: seq<Line>, mtime: int, hs: seq<Happening>, full: bool,
    parser: nat)
    ensures var s := Run(Site(File(lines, mtime), NO_DB), hs, parser);
      var kept, anew := SyncDb(s.db, s.file, full, parser), SyncDb(NO_DB, s.file, true, parser);
      && kept.tables == anew.tables && kept.session.Some? && anew.session.Some?
      && kept.session.value.(mtime := 0) == anew.session.value.(mtime := 0)
  {
    var s := Run(Site(File(lines, mtime), NO_DB), hs, parser);
    RunDescribes(Site(File(lines, mtime), NO_DB), hs, parser);
    SyncDescribesAll(s, full, parser);
    SyncDescribesAll(s.(db := NO_DB), true, parser);
  }

  // ----- when the log is not only appended to -----

  /** A rebuild gets every row right whatever was cached, but keeps an old value for
      each metadata field the file no longer gives: the metadata is what a sync from
      scratch finds exactly when no such field was cached. */
  lemma {:induction false} RebuildKeepsStaleMeta(db: Db, file: File, full: bool, parser: nat)
    requires Decide(db.session, Bytes(file.lines), file.mtime, full, parser) == Read(true, 0, 0)
    ensures var kept, anew := SyncDb(db, file, full, parser), SyncDb(NO_DB, file, true, parser);
      && kept.tables == anew.tables
      && kept.session.value.(meta := NO_META) == anew.session.value.(meta := NO_META)
      && (kept == anew <==>
          db.session.Some? ==>
            var old', now := db.session.value.meta, HeaderOf(file.lines);
            && (now.uuid.Some? || old'.uuid.None?) && (now.version.Some? || old'.version.None?)
            && (now.title.Some? || old'.title.None?) && (now.cwd.Some? || old'.cwd.None?)
            && (now.started.Some? || old'.started.None?))
  {
    ParsedMeta(NOTHING, file.lines, 0);
  }

  function UserLine(text: string): Line { RawLine(1, User(0, text)) }

  /** What one line with a user message does. */
  lemma {:induction false} UserLineWrites(t: Tables, text: string, seqNo: nat)
    requires text != ""
    ensures WriteTables(t, LineRecords(UserLine(text), seqNo)).user == t.user[seqNo := (0, text)]
    ensures FoldLines(t, [UserLine(text)], seqNo) == WriteTables(t, LineRecords(UserLine(text), seqNo))
  {
    var rows: seq<(nat, (int, string))> := [(seqNo, (0, text))];
    assert LineRecords(UserLine(text), seqNo).user == rows && rows[1..] == [];
    assert Upsert(t.user, rows) == Upsert(t.user[seqNo := (0, text)], rows[1..]);
    assert [UserLine(text)][1..] == [];
  }

  /** A log rewritten to something longer is taken for an append, and its old rows stay. */
  lemma {:induction false} GrownRewriteIsMissed(parser: nat)
    ensures var db := SyncDb(NO_DB, File([UserLine("a")], 1), false, parser);
      var after := File([UserLine("b"), UserLine("c")], 2);
      var kept, anew := SyncDb(db, after, false, parser), SyncDb(NO_DB, after, true, parser);
      && kept.tables.user == map[0 := (0, "a"), 1 := (0, "c")]
      && anew.tables.user == map[0 := (0, "b"), 1 := (0, "c")]
  {
    hide WriteTables, LineRecords, FoldLines, ParseFrom;
    var a, b, c := UserLine("a"), UserLine("b"), UserLine("c");
    var after := [b, c];
    assert [a][1..] == [] && [c][1..] == [] && after[1..] == [c] && after == [b] + [c];
    assert Bytes([a]) == 1 && Bytes([c]) == 1 && Bytes(after) == 2;
    assert LinesFrom([c], 0) == [c] && LinesFrom(after, 1) == [c];
    ReadAll([a]);
    ReadAll(after);
    FoldAppend(EMPTY, [b], [c], 0);
    UserLineWrites(EMPTY, "a", 0);
    UserLineWrites(EMPTY, "b", 0);
    UserLineWrites(FoldLines(EMPTY, [b], 0), "c", 1);
    var db := SyncDb(NO_DB, File([a], 1), false, parser);
    NothingWritten(db.tables);
    BatchIsLineByLine(db.tables, NOTHING, [c], 1);
    UserLineWrites(db.tables, "c", 1);
  }
}
