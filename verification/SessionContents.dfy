/**
 What the tables hold after a sync, told from the entries of the log.
 */
module SessionContents {
  import opened Basics
  import opened SessionSync
  import opened SessionRows

  // ----- where things stand in a log -----

  /** Line `n` is an assistant message whose element `j` calls a tool under the name `id`. */
  predicate CallsAt(lines: seq<Line>, n: nat, j: nat, id: string) {
    && n < |lines| && lines[n].entry.Assistant? && j < |lines[n].entry.items|
    && lines[n].entry.items[j].ToolCall? && lines[n].entry.items[j].id == id
  }

  predicate EditsAt(lines: seq<Line>, n: nat, j: nat, id: string) {
    CallsAt(lines, n, j, id) && lines[n].entry.items[j].edit.Some?
  }

  /** An edit with more than `k` sections. */
  predicate SectionAt(lines: seq<Line>, n: nat, j: nat, id: string, k: nat) {
    EditsAt(lines, n, j, id) && k < |lines[n].entry.items[j].edit.value.sections|
  }

  predicate JudgesAt(lines: seq<Line>, n: nat, id: string) {
    n < |lines| && lines[n].entry.ToolResult? && lines[n].entry.id == id && lines[n].entry.edit.Some?
  }

  predicate Behind(n: nat, j: nat, n': nat, j': nat) { n' > n || (n' == n && j' > j) }

  // ----- what the texts of a message come to -----

  predicate Says(item: Item, thinking: bool) {
    (if thinking then item.Thinking? else item.Text?) && item.text != ""
  }

  /** The non-empty texts of one kind, in order. */
  function Sayings(items: seq<Item>, thinking: bool): seq<string> {
    if items == [] then []
    else
      var n := |items| - 1;
      Sayings(items[..n], thinking) + (if Says(items[n], thinking) then [items[n].text] else [])
  }

  /** Texts with a line break between any two. */
  function Joined(texts: seq<string>): string
    requires texts != []
  {
    var n := |texts| - 1;
    if n == 0 then texts[0] else Joined(texts[..n]) + "\n" + texts[n]
  }

  function JoinedIfAny(texts: seq<string>): Option<string> { if texts == [] then None else Some(Joined(texts)) }

  // ----- what each table holds -----

  ghost predicate HoldsCalls(lines: seq<Line>, t: Tables, id: string, n: nat) {
    var key := CallKey(id, n);
    && (key in t.toolCalls <==> exists j: nat :: CallsAt(lines, n, j, id))
    && (key in t.toolCalls ==> exists j: nat ::
          && CallsAt(lines, n, j, id) && (forall j': nat :: CallsAt(lines, n, j', id) ==> j' <= j)
          && t.toolCalls[key] == (lines[n].entry.ts, lines[n].entry.items[j].call))
  }

  ghost predicate HoldsResult(lines: seq<Line>, t: Tables, id: string, n: nat) {
    var key := CallKey(id, n);
    && (key in t.toolResults <==> n < |lines| && lines[n].entry.ToolResult? && lines[n].entry.id == id)
    && (key in t.toolResults ==> t.toolResults[key] == (lines[n].entry.ts, lines[n].entry.result))
  }

  ghost predicate HoldsUser(lines: seq<Line>, t: Tables, n: nat) {
    && (n in t.user <==> n < |lines| && lines[n].entry.User? && lines[n].entry.text != "")
    && (n in t.user ==> t.user[n] == (lines[n].entry.ts, lines[n].entry.text))
  }

  ghost predicate HoldsMessage(lines: seq<Line>, t: Tables, n: nat) {
    && (n in t.assistant <==>
        && n < |lines| && lines[n].entry.Assistant?
        && exists item :: item in lines[n].entry.items && (Says(item, false) || Says(item, true)))
    && (n in t.assistant ==>
        var e := lines[n].entry;
        t.assistant[n] == MessageRow(e.ts, JoinedIfAny(Sayings(e.items, false)), JoinedIfAny(Sayings(e.items, true))))
  }

  /** The last edit under a name, and its last verdict, make up its row. */
  ghost predicate HoldsEdit(lines: seq<Line>, t: Tables, id: string) {
    && (id in t.editCalls <==>
          (exists n: nat, j: nat :: EditsAt(lines, n, j, id)) || exists n: nat :: JudgesAt(lines, n, id))
    && (id in t.editCalls ==>
          && FromLastEdit(lines, id, t.editCalls[id]) && FromLastVerdict(lines, id, t.editCalls[id].verdict))
  }

  ghost predicate FromLastEdit(lines: seq<Line>, id: string, row: EditRow) {
    if exists n: nat, j: nat :: EditsAt(lines, n, j, id) then
      exists n: nat, j: nat ::
        && EditsAt(lines, n, j, id) && (forall n': nat, j': nat :: EditsAt(lines, n', j', id) ==> !Behind(n, j, n', j'))
        && row.seqNo == n && row.ts == lines[n].entry.ts
        && row.rawLength == lines[n].entry.items[j].edit.value.rawLength
    else
      row.seqNo == 0 && row.ts == 0 && row.rawLength == 0
  }

  ghost predicate FromLastVerdict(lines: seq<Line>, id: string, verdict: Option<Verdict>) {
    if exists n: nat :: JudgesAt(lines, n, id) then
      exists n: nat ::
        && JudgesAt(lines, n, id) && (forall n': nat :: JudgesAt(lines, n', id) ==> n' <= n)
        && verdict == lines[n].entry.edit
    else
      verdict == None
  }

  ghost predicate HoldsSection(lines: seq<Line>, t: Tables, id: string, k: nat) {
    var key := SectionKey(id, k);
    && (key in t.sections <==> exists n: nat, j: nat :: SectionAt(lines, n, j, id, k))
    && (key in t.sections ==> exists n: nat, j: nat ::
          && SectionAt(lines, n, j, id, k)
          && (forall n': nat, j': nat :: SectionAt(lines, n', j', id, k) ==> !Behind(n, j, n', j'))
          && t.sections[key] == SectionRow(n, lines[n].entry.items[j].edit.value.sections[k]))
  }

  /** Every table holds what the log's entries say, and nothing else. */
  ghost predicate Holds(lines: seq<Line>, t: Tables) {
    && (forall id: string, n: nat :: HoldsCalls(lines, t, id, n) && HoldsResult(lines, t, id, n))
    && (forall n: nat :: HoldsUser(lines, t, n) && HoldsMessage(lines, t, n))
    && (forall id: string :: HoldsEdit(lines, t, id))
    && (forall id: string, k: nat :: HoldsSection(lines, t, id, k))
  }

  // ----- the rows of one message -----

  predicate Calls(item: Item, id: string) { item.ToolCall? && item.id == id }

  predicate Edits(item: Item, id: string) { Calls(item, id) && item.edit.Some? }

  lemma {:induction false} LastJoin<K, V>(a: seq<(K, V)>, b: seq<(K, V)>, k: K)
    ensures Last(a + b, k) == Either(Last(b, k), Last(a, k))
  {
    if a == [] {
      assert a + b == b;
    } else {
      assert (a + b)[1..] == a[1..] + b;
      LastJoin(a[1..], b, k);
    }
  }

  lemma {:induction false} LastStubJoin(a: seq<Stub>, b: seq<Stub>, id: string)
    ensures LastStub(a + b, id) == Either(LastStub(b, id), LastStub(a, id))
  {
    if a == [] {
      assert a + b == b;
    } else {
      assert (a + b)[1..] == a[1..] + b;
      LastStubJoin(a[1..], b, id);
    }
  }

  lemma {:induction false} LastOfOne<K, V>(row: (K, V), k: K)
    ensures Last([row], k) == if row.0 == k then Some(row.1) else None
  {
    assert [row][1..] == [];
  }

  /** What the first element adds in front. */
  lemma {:induction false} FirstElement(items: seq<Item>, ts: int, n: nat, id: string)
    requires items != []
    ensures var all, rest := CallRecords(items, ts, n), CallRecords(items[1..], ts, n);
      && Last(all.toolCalls, CallKey(id, n))
         == Either(Last(rest.toolCalls, CallKey(id, n)),
                   if Calls(items[0], id) then Some((ts, items[0].call)) else None)
      && LastStub(all.stubs, id)
         == Either(LastStub(rest.stubs, id),
                   if Edits(items[0], id) then Some(Stub(id, n, ts, items[0].edit.value.rawLength)) else None)
  {
    hide Last, LastStub;
    var rest := CallRecords(items[1..], ts, n);
    match items[0]
    case ToolCall(name, call, edit) =>
      var row := (CallKey(name, n), (ts, call));
      LastJoin([row], rest.toolCalls, CallKey(id, n));
      LastOfOne(row, CallKey(id, n));
      StubOfOne(if edit.None? then [] else [Stub(name, n, ts, edit.value.rawLength)], id);
      LastStubJoin(if edit.None? then [] else [Stub(name, n, ts, edit.value.rawLength)], rest.stubs, id);
    case _ =>
  }

  lemma {:induction false} StubOfOne(stubs: seq<Stub>, id: string)
    requires |stubs| <= 1
    ensures LastStub(stubs, id) == if |stubs| == 1 && stubs[0].id == id then Some(stubs[0]) else None
  {
    if stubs != [] { assert stubs[1..] == []; }
  }

  lemma {:induction false} CallsLast(items: seq<Item>, ts: int, n: nat, id: string) returns (j: nat)
    ensures var l := Last(CallRecords(items, ts, n).toolCalls, CallKey(id, n));
      && (l.None? <==> forall x :: 0 <= x < |items| ==> !Calls(items[x], id))
      && (l.Some? ==>
            && j < |items| && Calls(items[j], id) && l.value == (ts, items[j].call)
            && forall x :: 0 <= x < |items| && Calls(items[x], id) ==> x <= j)
  {
    hide Last, LastStub;
    if items == [] {
      j := 0;
      NoneLast<CallKey, (int, string)>(CallKey(id, n));
    } else {
      var i := CallsLast(items[1..], ts, n, id);
      FirstElement(items, ts, n, id);
      assert forall x :: 0 < x < |items| ==> items[x] == items[1..][x - 1];
      j := if Last(CallRecords(items[1..], ts, n).toolCalls, CallKey(id, n)).Some? then i + 1 else 0;
    }
  }

  lemma {:induction false} NoneLast<K, V>(k: K)
    ensures Last<K, V>([], k) == None
  {
  }

  lemma {:induction false} StubsLastIn(items: seq<Item>, ts: int, n: nat, id: string) returns (j: nat)
    ensures var l := LastStub(CallRecords(items, ts, n).stubs, id);
      && (l.None? <==> forall x :: 0 <= x < |items| ==> !Edits(items[x], id))
      && (l.Some? ==>
            && j < |items| && Edits(items[j], id) && l.value == Stub(id, n, ts, items[j].edit.value.rawLength)
            && forall x :: 0 <= x < |items| && Edits(items[x], id) ==> x <= j)
  {
    hide Last;
    if items == [] {
      j := 0;
    } else {
      var i := StubsLastIn(items[1..], ts, n, id);
      FirstElement(items, ts, n, id);
      assert forall x :: 0 < x < |items| ==> items[x] == items[1..][x - 1];
      j := if LastStub(CallRecords(items[1..], ts, n).stubs, id).Some? then i + 1 else 0;
    }
  }

  lemma {:induction false} SectionRowsLast(id: string, n: nat, sections: seq<Section>, index: nat, name: string, k: nat)
    ensures Last(SectionRows(id, n, sections, index), SectionKey(name, k))
      == if id == name && index <= k < index + |sections| then Some(SectionRow(n, sections[k - index])) else None
    decreases |sections|
  {
    if sections != [] {
      SectionRowsLast(id, n, sections[1..], index + 1, name, k);
    }
  }

  predicate HasSection(item: Item, id: string, k: nat) { Edits(item, id) && k < |item.edit.value.sections| }

  lemma {:induction false} SectionsLast(items: seq<Item>, ts: int, n: nat, id: string, k: nat) returns (j: nat)
    ensures var l := Last(CallRecords(items, ts, n).sections, SectionKey(id, k));
      && (l.None? <==> forall x :: 0 <= x < |items| ==> !HasSection(items[x], id, k))
      && (l.Some? ==>
            && j < |items| && HasSection(items[j], id, k)
            && l.value == SectionRow(n, items[j].edit.value.sections[k])
            && forall x :: 0 <= x < |items| && HasSection(items[x], id, k) ==> x <= j)
  {
    hide Last, SectionRows;
    if items == [] {
      j := 0;
      NoneLast<SectionKey, SectionRow>(SectionKey(id, k));
    } else {
      var rest := CallRecords(items[1..], ts, n);
      var i := SectionsLast(items[1..], ts, n, id, k);
      assert forall x :: 0 < x < |items| ==> items[x] == items[1..][x - 1];
      if items[0].ToolCall? && items[0].edit.Some? {
        var mine := SectionRows(items[0].id, n, items[0].edit.value.sections, 0);
        LastJoin(mine, rest.sections, SectionKey(id, k));
        SectionRowsLast(items[0].id, n, items[0].edit.value.sections, 0, id, k);
        assert CallRecords(items, ts, n).sections == mine + rest.sections;
      } else {
        assert CallRecords(items, ts, n).sections == rest.sections;
      }
      j := if Last(rest.sections, SectionKey(id, k)).Some? then i + 1 else 0;
    }
  }

  lemma {:induction false} SayingsFront(items: seq<Item>, thinking: bool)
    requires items != []
    ensures Sayings(items, thinking)
         == (if Says(items[0], thinking) then [items[0].text] else []) + Sayings(items[1..], thinking)
  {
    hide Says;
    var n := |items| - 1;
    if n == 0 {
      assert items[..n] == [] && items[1..] == [];
    } else {
      SayingsFront(items[..n], thinking);
      assert items[..n][1..] == items[1..][..n - 1] && items[1..][n - 1] == items[n];
    }
  }

  lemma {:induction false} JoinedFront(text: string, texts: seq<string>)
    requires texts != []
    ensures Joined([text] + texts) == text + "\n" + Joined(texts)
  {
    var all, n := [text] + texts, |texts|;
    if n == 1 {
      assert all[..1] == [text];
    } else {
      assert all[..n] == [text] + texts[..n - 1] && texts[..n - 1] != [];
      JoinedFront(text, texts[..n - 1]);
      assert Joined(all) == Joined(all[..n]) + "\n" + all[n];
      assert Joined(texts) == Joined(texts[..n - 1]) + "\n" + texts[n - 1];
    }
  }

  lemma {:induction false} BlobJoins(items: seq<Item>, thinking: bool)
    ensures Blob(items, thinking) == JoinedIfAny(Sayings(items, thinking))
  {
    if items != [] {
      BlobJoins(items[1..], thinking);
      SayingsFront(items, thinking);
      var rest := Sayings(items[1..], thinking);
      if Says(items[0], thinking) {
        if rest == [] {
          assert [items[0].text] + rest == [items[0].text];
        } else {
          JoinedFront(items[0].text, rest);
        }
      } else {
        assert [] + rest == rest;
      }
    }
  }

  lemma {:induction false} SaidWhen(items: seq<Item>, thinking: bool)
    ensures Sayings(items, thinking) != [] <==> exists item :: item in items && Says(item, thinking)
  {
    hide Says;
    if items != [] {
      var n := |items| - 1;
      var front := items[..n];
      SaidWhen(front, thinking);
      assert items == front + [items[n]];
      assert forall item :: item in items <==> item in front || item == items[n];
    }
  }

  // ----- the rows of one line -----

  lemma {:induction false} LineTables(lines: seq<Line>, id: string, n: nat)
    ensures var rows := RowsAt(FoldLines(EMPTY, lines, 0), id, n);
      if n < |lines| then
        var r := LineRecords(lines[n], n);
        && rows.call == Last(r.toolCalls, CallKey(id, n)) && rows.result == Last(r.toolResults, CallKey(id, n))
        && rows.message == Last(r.assistant, n) && rows.user == Last(r.user, n)
      else
        rows == NO_ROWS
  {
    hide FoldLines, RowsAt, WriteTables, LineRecords, Last;
    NumberedRows(lines, id, n);
    if n < |lines| {
      BatchRows(EMPTY, LineRecords(lines[n], n), id, n);
      NothingAt(id, n);
    }
  }

  lemma {:induction false} CallsHeld(lines: seq<Line>, id: string, n: nat)
    ensures HoldsCalls(lines, FoldLines(EMPTY, lines, 0), id, n)
  {
    hide FoldLines, Last;
    LineTables(lines, id, n);
    NoneLast<CallKey, (int, string)>(CallKey(id, n));
    if n < |lines| && lines[n].entry.Assistant? {
      var e := lines[n].entry;
      var j := CallsLast(e.items, e.ts, n, id);
      assert forall x: nat :: CallsAt(lines, n, x, id) <==> x < |e.items| && Calls(e.items[x], id);
      assert LineRecords(lines[n], n).toolCalls == CallRecords(e.items, e.ts, n).toolCalls;
    }
  }

  lemma {:induction false} ResultHeld(lines: seq<Line>, id: string, n: nat)
    ensures HoldsResult(lines, FoldLines(EMPTY, lines, 0), id, n)
  {
    hide FoldLines, Last;
    LineTables(lines, id, n);
    var key := CallKey(id, n);
    NoneLast<CallKey, (int, string)>(key);
    if n < |lines| {
      match lines[n].entry
      case ToolResult(ts, name, result, _) => LastOfOne((CallKey(name, n), (ts, result)), key);
      case Assistant(ts, items) => NoResults(items, ts, n);
      case _ =>
    }
  }

  lemma {:induction false} NoResults(items: seq<Item>, ts: int, n: nat)
    ensures var r := CallRecords(items, ts, n);
      r.toolResults == [] && r.user == [] && r.verdicts == [] && r.assistant == []
  {
    if items != [] { NoResults(items[1..], ts, n); }
  }

  lemma {:induction false} UserHeld(lines: seq<Line>, n: nat)
    ensures HoldsUser(lines, FoldLines(EMPTY, lines, 0), n)
  {
    hide FoldLines, Last;
    LineTables(lines, "", n);
    NoneLast<nat, (int, string)>(n);
    if n < |lines| {
      match lines[n].entry
      case User(ts, text) => LastOfOne((n, (ts, text)), n);
      case Assistant(ts, items) => NoResults(items, ts, n);
      case _ =>
    }
  }

  lemma {:induction false} MessageHeld(lines: seq<Line>, n: nat)
    ensures HoldsMessage(lines, FoldLines(EMPTY, lines, 0), n)
  {
    hide FoldLines, Last, Blob, Sayings, Joined, Says;
    LineTables(lines, "", n);
    NoneLast<nat, MessageRow>(n);
    if n < |lines| && lines[n].entry.Assistant? {
      var e := lines[n].entry;
      NoResults(e.items, e.ts, n);
      BlobJoins(e.items, false);
      BlobJoins(e.items, true);
      SaidWhen(e.items, false);
      SaidWhen(e.items, true);
      LastOfOne((n, MessageRow(e.ts, Blob(e.items, false), Blob(e.items, true))), n);
    }
  }

  // ----- the rows of an edit -----

  lemma {:induction false} LastEditAt(lines: seq<Line>, id: string) returns (n: nat, j: nat)
    ensures var l := LastCall(lines, id);
      && (l.None? <==> forall n': nat, j': nat :: !EditsAt(lines, n', j', id))
      && (l.Some? ==>
            && EditsAt(lines, n, j, id)
            && (forall n': nat, j': nat :: EditsAt(lines, n', j', id) ==> !Behind(n, j, n', j'))
            && l.value == Stub(id, n, lines[n].entry.ts, lines[n].entry.items[j].edit.value.rawLength))
  {
    hide LineRecords, LastStub;
    if lines == [] {
      n, j := 0, 0;
    } else {
      var m := |lines| - 1;
      n, j := LastEditAt(lines[..m], id);
      var j' := LastLineEdit(lines[m], m, id);
      assert forall n': nat, j': nat :: EditsAt(lines[..m], n', j', id) <==> n' < m && EditsAt(lines, n', j', id);
      assert forall j': nat :: EditsAt(lines, m, j', id) <==> EditsIn(lines[m], j', id);
      if LastStub(LineRecords(lines[m], m).stubs, id).Some? { n, j := m, j'; }
    }
  }

  predicate EditsIn(l: Line, j: nat, id: string) {
    l.entry.Assistant? && j < |l.entry.items| && Edits(l.entry.items[j], id)
  }

  lemma {:induction false} LastLineEdit(l: Line, n: nat, id: string) returns (j: nat)
    ensures var s := LastStub(LineRecords(l, n).stubs, id);
      && (s.None? <==> forall j': nat :: !EditsIn(l, j', id))
      && (s.Some? ==>
            && EditsIn(l, j, id) && (forall j': nat :: EditsIn(l, j', id) ==> j' <= j)
            && s.value == Stub(id, n, l.entry.ts, l.entry.items[j].edit.value.rawLength))
  {
    hide LastStub;
    StubOfOne([], id);
    if l.entry.Assistant? {
      j := StubsLastIn(l.entry.items, l.entry.ts, n, id);
      assert forall x: nat :: EditsIn(l, x, id) <==> x < |l.entry.items| && Edits(l.entry.items[x], id);
    } else {
      j := 0;
    }
  }

  lemma {:induction false} LastVerdictAt(lines: seq<Line>, id: string) returns (n: nat)
    ensures var v := LastVerdict(lines, id);
      && (v.None? <==> forall n': nat :: !JudgesAt(lines, n', id))
      && (v.Some? ==>
            && JudgesAt(lines, n, id) && (forall n': nat :: JudgesAt(lines, n', id) ==> n' <= n)
            && v == lines[n].entry.edit)
  {
    hide Last;
    if lines == [] {
      n := 0;
    } else {
      var m := |lines| - 1;
      n := LastVerdictAt(lines[..m], id);
      LineVerdict(lines[m], m, id);
      assert forall n': nat :: JudgesAt(lines[..m], n', id) <==> n' < m && JudgesAt(lines, n', id);
      if JudgesAt(lines, m, id) { n := m; }
    }
  }

  lemma {:induction false} LineVerdict(l: Line, n: nat, id: string)
    ensures Last(LineRecords(l, n).verdicts, id)
      == if l.entry.ToolResult? && l.entry.id == id then l.entry.edit else None
  {
    hide Last;
    NoneLast<string, Verdict>(id);
    match l.entry
    case ToolResult(_, name, _, edit) => if edit.Some? { LastOfOne((name, edit.value), id); }
    case Assistant(ts, items) => NoResults(items, ts, n);
    case _ =>
  }

  lemma {:induction false} EditHeld(lines: seq<Line>, id: string)
    ensures HoldsEdit(lines, FoldLines(EMPTY, lines, 0), id)
  {
    hide FoldLines, LastCall, LastVerdict;
    EditRows(lines, id);
    var n, j := LastEditAt(lines, id);
    var m := LastVerdictAt(lines, id);
  }

  lemma {:induction false} LastSectionAt(lines: seq<Line>, id: string, k: nat) returns (n: nat, j: nat)
    ensures var l := LastSection(lines, SectionKey(id, k));
      && (l.None? <==> forall n': nat, j': nat :: !SectionAt(lines, n', j', id, k))
      && (l.Some? ==>
            && SectionAt(lines, n, j, id, k)
            && (forall n': nat, j': nat :: SectionAt(lines, n', j', id, k) ==> !Behind(n, j, n', j'))
            && l.value == SectionRow(n, lines[n].entry.items[j].edit.value.sections[k]))
  {
    hide LineRecords, Last;
    if lines == [] {
      n, j := 0, 0;
    } else {
      var m := |lines| - 1;
      n, j := LastSectionAt(lines[..m], id, k);
      var j' := LastLineSection(lines[m], m, id, k);
      assert forall n': nat, j': nat ::
        SectionAt(lines[..m], n', j', id, k) <==> n' < m && SectionAt(lines, n', j', id, k);
      assert forall j': nat :: SectionAt(lines, m, j', id, k) <==> SectionIn(lines[m], j', id, k);
      if Last(LineRecords(lines[m], m).sections, SectionKey(id, k)).Some? { n, j := m, j'; }
    }
  }

  predicate SectionIn(l: Line, j: nat, id: string, k: nat) {
    l.entry.Assistant? && j < |l.entry.items| && HasSection(l.entry.items[j], id, k)
  }

  lemma {:induction false} LastLineSection(l: Line, n: nat, id: string, k: nat) returns (j: nat)
    ensures var s := Last(LineRecords(l, n).sections, SectionKey(id, k));
      && (s.None? <==> forall j': nat :: !SectionIn(l, j', id, k))
      && (s.Some? ==>
            && SectionIn(l, j, id, k) && (forall j': nat :: SectionIn(l, j', id, k) ==> j' <= j)
            && s.value == SectionRow(n, l.entry.items[j].edit.value.sections[k]))
  {
    hide Last;
    NoneLast<SectionKey, SectionRow>(SectionKey(id, k));
    if l.entry.Assistant? {
      j := SectionsLast(l.entry.items, l.entry.ts, n, id, k);
      assert forall x: nat :: SectionIn(l, x, id, k) <==> x < |l.entry.items| && HasSection(l.entry.items[x], id, k);
    } else {
      j := 0;
    }
  }

  lemma {:induction false} SectionHeld(lines: seq<Line>, id: string, k: nat)
    ensures HoldsSection(lines, FoldLines(EMPTY, lines, 0), id, k)
  {
    hide FoldLines, LastSection;
    SectionRowsAre(lines, SectionKey(id, k));
    var n, j := LastSectionAt(lines, id, k);
  }

  // ----- all tables -----

  lemma {:induction false} LogHeld(lines: seq<Line>)
    ensures Holds(lines, FoldLines(EMPTY, lines, 0))
  {
    hide FoldLines, HoldsCalls, HoldsResult, HoldsUser, HoldsMessage, HoldsEdit, HoldsSection;
    var t := FoldLines(EMPTY, lines, 0);
    forall id: string, n: nat ensures HoldsCalls(lines, t, id, n) && HoldsResult(lines, t, id, n) {
      CallsHeld(lines, id, n);
      ResultHeld(lines, id, n);
    }
    forall n: nat ensures HoldsUser(lines, t, n) && HoldsMessage(lines, t, n) {
      UserHeld(lines, n);
      MessageHeld(lines, n);
    }
    forall id: string ensures HoldsEdit(lines, t, id) { EditHeld(lines, id); }
    forall id: string, k: nat ensures HoldsSection(lines, t, id, k) { SectionHeld(lines, id, k); }
  }

  /** After any history of appends, touches and syncs, one sync leaves in every table what the log's entries say. */
  lemma {:induction false} SyncHolds(lines: seq<Line>, mtime: int, hs: seq<Happening>, full: bool, parser: nat)
    ensures var s := Run(Site(File(lines, mtime), NO_DB), hs, parser);
      Holds(s.file.lines, SyncDb(s.db, s.file, full, parser).tables)
  {
    hide Run, SyncDb, FoldLines, Holds, Decide;
    var s := Run(Site(File(lines, mtime), NO_DB), hs, parser);
    NothingDescribed(lines, mtime, parser);
    RunDescribes(Site(File(lines, mtime), NO_DB), hs, parser);
    SyncDescribesAll(s, full, parser);
    var db := SyncDb(s.db, s.file, full, parser);
    assert s.file.lines[..|s.file.lines|] == s.file.lines;
    LogHeld(s.file.lines);
  }

  lemma {:induction false} NothingDescribed(lines: seq<Line>, mtime: int, parser: nat)
    ensures Describes(NO_DB, lines, parser)
  {
  }

  lemma {:induction false} SameRow(lines: seq<Line>, t: Tables, u: Tables, id: string, n: nat)
    requires Holds(lines, t) && Holds(lines, u)
    ensures RowsAt(t, id, n) == RowsAt(u, id, n)
  {
    assert HoldsCalls(lines, t, id, n) && HoldsCalls(lines, u, id, n);
    assert HoldsResult(lines, t, id, n) && HoldsResult(lines, u, id, n);
    assert HoldsUser(lines, t, n) && HoldsUser(lines, u, n);
    assert HoldsMessage(lines, t, n) && HoldsMessage(lines, u, n);
  }

  lemma {:induction false} SameColumns(lines: seq<Line>, id: string, r: EditRow, q: EditRow)
    requires FromLastEdit(lines, id, r) && FromLastEdit(lines, id, q)
    ensures r.seqNo == q.seqNo && r.ts == q.ts && r.rawLength == q.rawLength
  {
    hide EditsAt;
  }

  lemma {:induction false} SameVerdict(lines: seq<Line>, id: string, v: Option<Verdict>, w: Option<Verdict>)
    requires FromLastVerdict(lines, id, v) && FromLastVerdict(lines, id, w)
    ensures v == w
  {
    hide JudgesAt;
  }

  lemma {:induction false} SameEditRow(lines: seq<Line>, t: Tables, u: Tables, id: string)
    requires HoldsEdit(lines, t, id) && HoldsEdit(lines, u, id)
    ensures Lookup(t.editCalls, id) == Lookup(u.editCalls, id)
  {
    hide FromLastEdit, FromLastVerdict, EditsAt, JudgesAt;
    if id in t.editCalls {
      SameColumns(lines, id, t.editCalls[id], u.editCalls[id]);
      SameVerdict(lines, id, t.editCalls[id].verdict, u.editCalls[id].verdict);
    }
  }

  lemma {:induction false} SameSectionRow(lines: seq<Line>, t: Tables, u: Tables, id: string, k: nat)
    requires HoldsSection(lines, t, id, k) && HoldsSection(lines, u, id, k)
    ensures Lookup(t.sections, SectionKey(id, k)) == Lookup(u.sections, SectionKey(id, k))
  {
  }

  /** What the entries say leaves one content for every table. */
  lemma {:induction false} HoldsOne(lines: seq<Line>, t: Tables, u: Tables)
    requires Holds(lines, t) && Holds(lines, u)
    ensures t == u
  {
    hide HoldsCalls, HoldsResult, HoldsUser, HoldsMessage, HoldsEdit, HoldsSection, RowsAt, Lookup;
    forall id: string, n: nat ensures RowsAt(t, id, n) == RowsAt(u, id, n) { SameRow(lines, t, u, id, n); }
    forall id: string ensures Lookup(t.editCalls, id) == Lookup(u.editCalls, id) { SameEditRow(lines, t, u, id); }
    forall key: SectionKey ensures Lookup(t.sections, key) == Lookup(u.sections, key) {
      SameSectionRow(lines, t, u, key.id, key.index);
    }
    SameTables(t, u);
  }

  // ----- when nothing is read twice -----

  /**
   Behind a sync of some lines, the decision about the log of now: a rebuild on request, for a newer parser, when the
   log is shorter, or when it is as long but was touched; nothing when it is as long and was not touched; otherwise it
   is read on from where the sync ended, and then the new lines alone are read if it only grew.
   */
  lemma {:induction false} DecidedByGrowth(row: SessionRow, lines: seq<Line>, now: seq<Line>, mtime: int, full: bool,
    parser: nat)
    requires row.offset == row.size == Bytes(lines) && row.lineCount == |lines|
    ensures var action := Decide(Some(row), Bytes(now), mtime, full, parser);
      var shorter, touched := Bytes(now) < Bytes(lines), Bytes(now) == Bytes(lines) && mtime > row.mtime;
      && (action == Read(true, 0, 0) <==> full || row.parser < parser || shorter || touched)
      && (action == Skip <==> !full && row.parser >= parser && Bytes(now) == Bytes(lines) && mtime <= row.mtime)
      && (action != Skip && action != Read(true, 0, 0) ==> action == Read(false, Bytes(lines), |lines|))
    ensures forall more :: now == lines + more ==>
      (Bytes(now) == Bytes(lines) <==> more == []) && LinesFrom(now, Bytes(lines)) == more
  {
    forall more | now == lines + more
      ensures (Bytes(now) == Bytes(lines) <==> more == []) && LinesFrom(now, Bytes(lines)) == more
    {
      BytesAppend(lines, more);
      NoBytesNoLines(more);
      ReadOn(lines, more);
    }
  }
}
