/**
 Splicing edits into a text from the right, and the same text put together from the left.
 */
module EditSplicing {
  import opened StableSorting

  type Bytes = seq<bv8>

  datatype Insertion = Text(bytes: Bytes) | Malformed

  datatype Edit = Edit(position: nat, deleted: nat, inserted: Insertion)

  datatype Outcome = Done(text: Bytes) | Overlapping | OutOfBounds | NotUtf8

  function End(e: Edit): nat { e.position + e.deleted }

  predicate EditAfter(a: Edit, b: Edit) { a.position > b.position }

  /** Sorted, and each edit begins where the one before it has ended or later. */
  predicate NoOverlap(es: seq<Edit>) { forall i :: 0 <= i < |es| - 1 ==> End(es[i]) <= es[i + 1].position }

  predicate Fits(es: seq<Edit>, length: nat) { es != [] ==> End(es[|es| - 1]) <= length }

  predicate WellFormed(es: seq<Edit>) { forall e :: e in es ==> e.inserted.Text? }

  predicate Applicable(es: seq<Edit>, length: nat) { NoOverlap(es) && Fits(es, length) && WellFormed(es) }

  lemma {:induction false} TailApplies(es: seq<Edit>, length: nat)
    requires Applicable(es, length) && es != []
    ensures Applicable(es[1..], length) && End(es[0]) <= length && es[0].inserted.Text?
    ensures |es| > 1 ==> End(es[0]) <= es[1].position
    decreases |es|
  {
    var rest := es[1..];
    assert es[0] in es && forall e :: e in rest ==> e in es;
    forall i | 0 <= i < |rest| - 1 ensures End(rest[i]) <= rest[i + 1].position {
      assert End(es[i + 1]) <= es[i + 1 + 1].position;
    }
    if |es| > 1 {
      assert End(es[0]) <= es[0 + 1].position;
      TailApplies(rest, length);
    }
  }

  /** Kept gaps and insertions, one after the other. */
  function Assemble(content: Bytes, es: seq<Edit>, from: nat): Bytes
    requires Applicable(es, |content|) && from <= |content| && (es != [] ==> from <= es[0].position)
    decreases |es|
  {
    if es == [] then content[from..]
    else
      TailApplies(es, |content|);
      content[from..es[0].position] + es[0].inserted.bytes + Assemble(content, es[1..], End(es[0]))
  }

  lemma {:induction false} AssembleStep(content: Bytes, es: seq<Edit>, from: nat)
    requires Applicable(es, |content|) && from <= |content| && es != [] && from <= es[0].position
    ensures Applicable(es[1..], |content|) && End(es[0]) <= |content| && es[0].inserted.Text?
    ensures |es| > 1 ==> End(es[0]) <= es[1].position
    ensures Assemble(content, es, from)
         == content[from..es[0].position] + es[0].inserted.bytes + Assemble(content, es[1..], End(es[0]))
  {
    TailApplies(es, |content|);
  }

  function Sort(edits: seq<Edit>): seq<Edit> { StableSort(edits, EditAfter) }

  /** The result that the edits in any order have. */
  function Applied(content: Bytes, edits: seq<Edit>): Outcome {
    var es := Sort(edits);
    if !NoOverlap(es) then Overlapping
    else if !Fits(es, |content|) then OutOfBounds
    else if !WellFormed(es) then NotUtf8
    else Done(Assemble(content, es, 0))
  }

  predicate SplitsAt(content: Bytes, es: seq<Edit>, i: nat) {
    i <= |es| && Fits(es, |content|) && NoOverlap(es) && WellFormed(es[i..])
  }

  function StartOf(content: Bytes, es: seq<Edit>, i: nat): nat
    requires i <= |es|
  {
    if i < |es| then es[i].position else |content|
  }

  lemma {:induction false} SuffixApplies(content: Bytes, es: seq<Edit>, i: nat)
    requires SplitsAt(content, es, i)
    ensures Applicable(es[i..], |content|) && StartOf(content, es, i) <= |content|
    ensures i < |es| ==> es[i..][0] == es[i] && End(es[i]) <= StartOf(content, es, i + 1) <= |content|
    decreases |es| - i
  {
    forall k | 0 <= k < |es| - i - 1 ensures End(es[i..][k]) <= es[i..][k + 1].position {
      assert End(es[i + k]) <= es[i + k + 1].position;
    }
    if i < |es| {
      var rest := es[i + 1..];
      assert es[i..][1..] == rest;
      assert forall e :: e in rest ==> e in es[i..];
      SuffixApplies(content, es, i + 1);
    }
  }

  /** The edits from the `i`-th on, in the text from where the `i`-th begins. */
  function Tail(content: Bytes, es: seq<Edit>, i: nat): Bytes
    requires SplitsAt(content, es, i)
  {
    SuffixApplies(content, es, i);
    Assemble(content, es[i..], StartOf(content, es, i))
  }

  lemma {:induction false} TailStep(content: Bytes, es: seq<Edit>, i: nat)
    requires i < |es| && SplitsAt(content, es, i)
    ensures SplitsAt(content, es, i + 1) && es[i].inserted.Text?
    ensures End(es[i]) <= StartOf(content, es, i + 1) <= |content|
    ensures Tail(content, es, i)
         == es[i].inserted.bytes + (content[End(es[i])..StartOf(content, es, i + 1)] + Tail(content, es, i + 1))
  {
    hide Assemble, Applicable;
    SuffixApplies(content, es, i);
    var here, rest, e := es[i..], es[i + 1..], es[i];
    LaterSplits(content, es, i);
    SuffixApplies(content, es, i + 1);
    assert here[1..] == rest && here[0] == e;
    AssembleStep(content, here, e.position);
    assert content[e.position..e.position] == [];
    assert Tail(content, es, i) == [] + e.inserted.bytes + Assemble(content, rest, End(e));
    FromEarlier(content, rest, End(e), StartOf(content, es, i + 1));
  }

  lemma {:induction false} LaterSplits(content: Bytes, es: seq<Edit>, i: nat)
    requires i < |es| && SplitsAt(content, es, i)
    ensures SplitsAt(content, es, i + 1)
  {
    assert es[i..] == [es[i]] + es[i + 1..];
  }

  /** Starting earlier only adds the text in between. */
  lemma {:induction false} FromEarlier(content: Bytes, es: seq<Edit>, from: nat, to: nat)
    requires Applicable(es, |content|) && from <= to <= |content| && (es != [] ==> to <= es[0].position)
    ensures Assemble(content, es, from) == content[from..to] + Assemble(content, es, to)
  {
    hide Assemble, Applicable;
    if es == [] {
      NoEdits(content, from, 0);
      NoEdits(content, to, 0);
      assert content[from..] == content[from..to] + content[to..];
    } else {
      AssembleStep(content, es, from);
      AssembleStep(content, es, to);
      Regroup(content[from..to], content[to..es[0].position], es[0].inserted.bytes,
        Assemble(content, es[1..], End(es[0])));
      assert content[from..es[0].position] == content[from..to] + content[to..es[0].position];
    }
  }

  lemma {:induction false} Regroup(a: Bytes, b: Bytes, c: Bytes, d: Bytes)
    ensures (a + b) + c + d == a + (b + c + d)
  {
  }

  /** Sort, reject overlaps, then splice from the right so that no position moves. */
  method ApplyEdits(content: Bytes, edits: seq<Edit>) returns (outcome: Outcome)
    ensures outcome == Applied(content, edits)
  {
    hide StableSort, Assemble;
    var sorted := Sort(edits);
    var prevEnd := 0;
    for i := 0 to |sorted|
      invariant forall k :: 0 <= k < i - 1 ==> End(sorted[k]) <= sorted[k + 1].position
      invariant prevEnd == if i == 0 then 0 else End(sorted[i - 1])
    {
      if sorted[i].position < prevEnd {
        assert !(End(sorted[i - 1]) <= sorted[i - 1 + 1].position);
        return Overlapping;
      }
      prevEnd := End(sorted[i]);
    }
    assert NoOverlap(sorted);
    var output := content;
    var i := |sorted|;
    assert sorted[i..] == [];
    if Fits(sorted, |content|) { NothingAfter(content, sorted); }
    while i > 0
      invariant i <= |sorted| && WellFormed(sorted[i..])
      invariant i < |sorted| ==> Fits(sorted, |content|)
      invariant Fits(sorted, |content|) ==> SplitsAt(content, sorted, i) && StartOf(content, sorted, i) <= |content|
      invariant Fits(sorted, |content|) ==> output == content[..StartOf(content, sorted, i)] + Tail(content, sorted, i)
      invariant i == |sorted| ==> output == content
    {
      i := i - 1;
      var edit := sorted[i];
      var start, end := edit.position, End(edit);
      if Fits(sorted, |content|) { StillFits(content, sorted, i); }
      if end > |output| || start > end { return OutOfBounds; }
      if edit.inserted.Malformed? {
        assert sorted[i] in sorted;
        return NotUtf8;
      }
      Splice(content, sorted, i, output);
      assert sorted[i..] == [edit] + sorted[i + 1..];
      output := output[..start] + edit.inserted.bytes + output[end..];
    }
    assert sorted[0..] == sorted;
    WholeTail(content, sorted);
    outcome := Done(output);
  }

  lemma {:induction false} NothingAfter(content: Bytes, es: seq<Edit>)
    requires NoOverlap(es) && Fits(es, |content|)
    ensures SplitsAt(content, es, |es|) && content == content[..|content|] + Tail(content, es, |es|)
  {
    assert es[|es|..] == [];
  }

  /** Every edit ends before the next one begins, so it ends inside what was not yet touched. */
  lemma {:induction false} StillFits(content: Bytes, es: seq<Edit>, i: nat)
    requires i < |es| && SplitsAt(content, es, i + 1)
    ensures End(es[i]) <= StartOf(content, es, i + 1) <= |content|
  {
    SuffixApplies(content, es, i + 1);
    if i + 1 < |es| {
      assert End(es[i]) <= es[i + 1].position;
    }
  }

  lemma {:induction false} Splice(content: Bytes, es: seq<Edit>, i: nat, output: Bytes)
    requires i < |es| && SplitsAt(content, es, i + 1) && es[i].inserted.Text?
    requires StartOf(content, es, i + 1) <= |content|
    requires output == content[..StartOf(content, es, i + 1)] + Tail(content, es, i + 1)
    ensures SplitsAt(content, es, i) && End(es[i]) <= |output| && es[i].position <= |content|
    ensures output[..es[i].position] + es[i].inserted.bytes + output[End(es[i])..]
         == content[..es[i].position] + Tail(content, es, i)
  {
    hide Tail;
    StillFits(content, es, i);
    assert es[i..] == [es[i]] + es[i + 1..];
    TailStep(content, es, i);
    var e, to, tail := es[i], StartOf(content, es, i + 1), Tail(content, es, i + 1);
    assert output[..e.position] == content[..e.position];
    assert output[End(e)..] == content[End(e)..to] + tail;
    assert content[..e.position] + e.inserted.bytes + (content[End(e)..to] + tail)
        == content[..e.position] + (e.inserted.bytes + (content[End(e)..to] + tail));
  }

  lemma {:induction false} WholeTail(content: Bytes, es: seq<Edit>)
    requires Applicable(es, |content|)
    ensures SplitsAt(content, es, 0) && StartOf(content, es, 0) <= |content|
    ensures content[..StartOf(content, es, 0)] + Tail(content, es, 0) == Assemble(content, es, 0)
  {
    assert es[0..] == es;
    SuffixApplies(content, es, 0);
    FromEarlier(content, es, 0, StartOf(content, es, 0));
    assert content[0..StartOf(content, es, 0)] == content[..StartOf(content, es, 0)];
  }

  // ----- order of the edits -----

  predicate DistinctPositions(es: seq<Edit>) {
    forall i, j :: 0 <= i < j < |es| ==> es[i].position != es[j].position
  }

  lemma {:induction false} EditOrder()
    ensures Consistent(EditAfter)
  {
  }

  predicate Ascending(es: seq<Edit>) { forall i, j :: 0 <= i < j < |es| ==> es[i].position < es[j].position }

  lemma {:induction false} SortAscends(es: seq<Edit>)
    requires DistinctPositions(es)
    ensures Ascending(Sort(es))
  {
    EditOrder();
    SortSorts(es, EditAfter);
    SortKeeps(es, EditAfter);
    var sorted := Sort(es);
    forall i, j | 0 <= i < j < |sorted| ensures sorted[i].position < sorted[j].position {
      assert !EditAfter(sorted[i], sorted[j]);
      NoTwins(es, sorted, i, j);
    }
  }

  lemma {:induction false} NoTwins(es: seq<Edit>, sorted: seq<Edit>, i: nat, j: nat)
    requires DistinctPositions(es) && multiset(sorted) == multiset(es) && i < j < |sorted|
    ensures sorted[i].position != sorted[j].position
  {
    assert sorted[i] in multiset(es) && sorted[j] in multiset(es);
    var p :| 0 <= p < |es| && es[p] == sorted[i];
    var q :| 0 <= q < |es| && es[q] == sorted[j];
    Once(es, p);
    Twice(sorted, i, j);
  }

  lemma {:induction false} Once(es: seq<Edit>, p: nat)
    requires DistinctPositions(es) && p < |es|
    ensures multiset(es)[es[p]] == 1
  {
    assert es == es[..p] + [es[p]] + es[p + 1..];
    assert es[p] !in es[..p] && es[p] !in es[p + 1..];
  }

  lemma {:induction false} Twice(es: seq<Edit>, i: nat, j: nat)
    requires i < j < |es|
    ensures es[i] == es[j] ==> multiset(es)[es[i]] >= 2
  {
    assert es == es[..j] + es[j..];
    assert es[i] in multiset(es[..j]) && es[j] in multiset(es[j..]);
  }

  lemma {:induction false} AscendingUnique(a: seq<Edit>, b: seq<Edit>)
    requires Ascending(a) && Ascending(b) && multiset(a) == multiset(b)
    ensures a == b
  {
    if a == [] {
      assert |multiset(b)| == |b|;
    } else {
      assert |multiset(a)| == |a| && |multiset(b)| == |b|;
      assert a[0] in multiset(b) && b[0] in multiset(a);
      assert a[0] == b[0];
      assert a == [a[0]] + a[1..] && b == [b[0]] + b[1..];
      assert multiset(a[1..]) == multiset(a) - multiset{a[0]} && multiset(b[1..]) == multiset(b) - multiset{a[0]};
      AscendingUnique(a[1..], b[1..]);
    }
  }

  /** Edits at distinct positions have one result, in whatever order they are given. */
  lemma {:induction false} OrderDoesNotMatter(content: Bytes, a: seq<Edit>, b: seq<Edit>)
    requires DistinctPositions(a) && multiset(a) == multiset(b)
    ensures Applied(content, a) == Applied(content, b)
  {
    hide StableSort;
    SortAscends(a);
    EditOrder();
    SortKeeps(a, EditAfter);
    SortKeeps(b, EditAfter);
    DistinctToo(a, b);
    SortAscends(b);
    AscendingUnique(Sort(a), Sort(b));
  }

  lemma {:induction false} DistinctToo(a: seq<Edit>, b: seq<Edit>)
    requires DistinctPositions(a) && multiset(a) == multiset(b)
    ensures DistinctPositions(b)
  {
    forall i, j | 0 <= i < j < |b| ensures b[i].position != b[j].position {
      NoTwins(a, b, i, j);
    }
  }

  /** Two insertions at one place come out in the order they were given. */
  lemma {:induction false} OrderMattersAtOnePlace(content: Bytes)
    ensures var a, b := Edit(0, 0, Text([1])), Edit(0, 0, Text([2]));
      Applied(content, [a, b]) == Done([1, 2] + content) && Applied(content, [b, a]) == Done([2, 1] + content)
  {
    hide Applied;
    var a, b := Edit(0, 0, Text([1])), Edit(0, 0, Text([2]));
    TwoInsertions(content, a, b);
    TwoInsertions(content, b, a);
    assert a.inserted.bytes + b.inserted.bytes == [1, 2] && b.inserted.bytes + a.inserted.bytes == [2, 1];
  }

  lemma {:induction false} TwoInsertions(content: Bytes, a: Edit, b: Edit)
    requires a.position == b.position == 0 && a.deleted == b.deleted == 0 && a.inserted.Text? && b.inserted.Text?
    ensures Applied(content, [a, b]) == Done(a.inserted.bytes + b.inserted.bytes + content)
  {
    SortOfSorted([a, b], EditAfter);
    assert Sort([a, b]) == [a, b] && [a, b][1..] == [b] && [b][1..] == [];
    assert content[0..0] == [] && content[0..] == content;
    assert Assemble(content, [b], 0) == content[0..0] + b.inserted.bytes + content[0..];
  }

  // ----- undoing -----

  /** Edits that put back what `es` took out; `at` is where the text from `from` on begins now. */
  function Inverse(content: Bytes, es: seq<Edit>, from: nat, at: nat): seq<Edit>
    requires Applicable(es, |content|) && from <= |content| && (es != [] ==> from <= es[0].position)
    decreases |es|
  {
    if es == [] then []
    else
      TailApplies(es, |content|);
      var e := es[0];
      var start, size := at + (e.position - from), |e.inserted.bytes|;
      [Edit(start, size, Text(content[e.position..End(e)]))] + Inverse(content, es[1..], End(e), start + size)
  }

  /** Applying the inverse edits to the result gives the original text back. */
  lemma {:induction false} InverseUndoes(content: Bytes, es: seq<Edit>, output: Bytes, from: nat, at: nat)
    requires Applicable(es, |content|) && from <= |content| && (es != [] ==> from <= es[0].position)
    requires at <= |output| && output[at..] == Assemble(content, es, from)
    ensures var inverse := Inverse(content, es, from, at);
      && Applicable(inverse, |output|) && (inverse != [] ==> at <= inverse[0].position)
      && Assemble(output, inverse, at) == content[from..]
    decreases |es|
  {
    hide Assemble, Applicable, Inverse;
    if es == [] {
      NoEdits(content, from, at);
      NoEdits(output, at, at);
    } else {
      AssembleStep(content, es, from);
      var e := es[0];
      var start, size := at + (e.position - from), |e.inserted.bytes|;
      Pieces(output[at..], content[from..e.position], e.inserted.bytes, Assemble(content, es[1..], End(e)));
      assert output[at..start] == output[at..][..start - at];
      assert output[start + size..] == output[at..][start + size - at..];
      InverseUndoes(content, es[1..], output, End(e), start + size);
      InverseStep(content, es, output, from, at);
      AssembleStep(output, Inverse(content, es, from, at), at);
      assert content[from..] == content[from..e.position] + content[e.position..End(e)] + content[End(e)..];
    }
  }

  lemma {:induction false} NoEdits(content: Bytes, from: nat, at: nat)
    requires from <= |content|
    ensures Applicable([], |content|) && Assemble(content, [], from) == content[from..]
    ensures Inverse(content, [], from, at) == []
  {
  }

  lemma {:induction false} Pieces(all: Bytes, a: Bytes, b: Bytes, c: Bytes)
    requires all == a + b + c
    ensures all[..|a|] == a && all[|a| + |b|..] == c
  {
  }

  lemma {:induction false} InverseStep(content: Bytes, es: seq<Edit>, output: Bytes, from: nat, at: nat)
    requires Applicable(es, |content|) && es != [] && from <= es[0].position && es[0].position <= |content|
    requires Applicable(es[1..], |content|) && End(es[0]) <= |content| && (|es| > 1 ==> End(es[0]) <= es[1].position)
    requires es[0].inserted.Text?
    requires var start := at + (es[0].position - from) + |es[0].inserted.bytes|;
      var later := Inverse(content, es[1..], End(es[0]), start);
      start <= |output| && Applicable(later, |output|) && (later != [] ==> start <= later[0].position)
    ensures Applicable(Inverse(content, es, from, at), |output|)
    ensures var e := es[0]; var start, size := at + (e.position - from), |e.inserted.bytes|;
      var inverse := Inverse(content, es, from, at);
      && inverse != [] && inverse[0] == Edit(start, size, Text(content[e.position..End(e)]))
      && inverse[1..] == Inverse(content, es[1..], End(e), start + size)
  {
    var e := es[0];
    var start, size := at + (e.position - from), |e.inserted.bytes|;
    var first := Edit(start, size, Text(content[e.position..End(e)]));
    var later := Inverse(content, es[1..], End(e), start + size);
    var inverse := [first] + later;
    forall i | 0 <= i < |inverse| - 1 ensures End(inverse[i]) <= inverse[i + 1].position {
      if i > 0 { assert End(later[i - 1]) <= later[i - 1 + 1].position; }
    }
  }

  lemma {:induction false} NoOverlapSorted(es: seq<Edit>, i: nat, j: nat)
    requires NoOverlap(es) && i < j < |es|
    ensures es[i].position <= es[j].position
    decreases j
  {
    assert End(es[j - 1]) <= es[j - 1 + 1].position;
    if i < j - 1 { NoOverlapSorted(es, i, j - 1); }
  }

  /** The edits that take an applied edit list back. */
  function Undo(content: Bytes, edits: seq<Edit>): seq<Edit>
    requires Applied(content, edits).Done?
  {
    Inverse(content, Sort(edits), 0, 0)
  }

  /** Whatever was applied can be undone by edits again. */
  lemma {:induction false} UndoRestores(content: Bytes, edits: seq<Edit>)
    requires Applied(content, edits).Done?
    ensures Applied(Applied(content, edits).text, Undo(content, edits)) == Done(content)
  {
    hide Assemble, Inverse, StableSort;
    var es, text := Sort(edits), Applied(content, edits).text;
    assert text[0..] == text && content[0..] == content;
    InverseUndoes(content, es, text, 0, 0);
    var undo := Undo(content, edits);
    forall i, j | 0 <= i < j < |undo| ensures !EditAfter(undo[i], undo[j]) {
      NoOverlapSorted(undo, i, j);
    }
    SortOfSorted(undo, EditAfter);
  }
}
