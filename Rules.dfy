/** Transition rules: a neighbourhood together with the function that maps
    the tuple of neighbour states (in neighbourhood order, the cell itself
    first for a totalistic rule) to the cell's next state. */
module Rules {
  import opened Common
  import opened Neighbourhoods

  /** The rule's `f`: not set, an arbitrary total function supplied by the
      caller, or the birth/survival function a `Totalistic` rule builds. */
  datatype Transition =
    | Unset
    | Custom(f: seq<int> -> int)
    | Totalistic(birth: seq<int>, live: seq<int>)
  {
    /** `Rule.__call__`: ValueError when no function is set, otherwise the
        function applied to the tuple of neighbour states. */
    function Call(neighbours: seq<int>): (r: Result<int>)
      ensures r.Failure? <==> Unset? || (Totalistic? && neighbours == [])
      ensures Unset? ==> r == Failure(NoTransition)
      ensures Custom? ==> r == Success(f(neighbours))
      ensures Totalistic? ==> r == TotalisticNext(birth, live, neighbours)
    {
      match this
      case Unset => Failure(NoTransition)
      case Custom(f) => Success(f(neighbours))
      case Totalistic(birth, live) => TotalisticNext(birth, live, neighbours)
    }
  }

  /** Python's `sum` of a tuple of states. */
  function Sum(s: seq<int>): int
  {
    if s == [] then 0 else s[0] + Sum(s[1..])
  }

  lemma {:induction false} SumConcat(a: seq<int>, b: seq<int>)
    ensures Sum(a + b) == Sum(a) + Sum(b)
  {
    if a != [] {
      assert (a + b)[1..] == a[1..] + b;
      SumConcat(a[1..], b);
    } else {
      assert a + b == b;
    }
  }

  /** A sequence is its prefix before `j`, its entry at `j` and the rest. */
  lemma SplitAt(b: seq<int>, j: nat)
    requires j < |b|
    ensures b == b[..j] + [b[j]] + b[j + 1..]
  {
    assert b[..j + 1] == b[..j] + [b[j]];
    assert b == b[..j + 1] + b[j + 1..];
  }

  /** Removing an entry takes it out of the multiset and the sum. */
  lemma RemoveMiddle(p: seq<int>, x: int, t: seq<int>)
    ensures multiset(p + t) == multiset(p + [x] + t) - multiset{x}
    ensures Sum(p + [x] + t) == x + Sum(p + t)
  {
    assert multiset(p + [x] + t) == multiset(p) + multiset{x} + multiset(t);
    SumConcat(p + [x], t);
    SumConcat(p, [x]);
    SumConcat(p, t);
    assert Sum([x]) == x;
  }

  /** The sum of the states does not depend on their order. */
  lemma {:induction false} SumPermutation(a: seq<int>, b: seq<int>)
    requires multiset(a) == multiset(b)
    ensures Sum(a) == Sum(b)
    decreases |a|
  {
    if a != [] {
      var x := a[0];
      assert a == [x] + a[1..];
      assert multiset(a[1..]) == multiset(a) - multiset{x};
      assert x in multiset(b);
      var j :| 0 <= j < |b| && b[j] == x;
      var rest := b[..j] + b[j + 1..];
      SplitAt(b, j);
      RemoveMiddle(b[..j], x, b[j + 1..]);
      assert Sum(b) == x + Sum(rest);
      SumPermutation(a[1..], rest);
      assert Sum(a) == x + Sum(a[1..]);
    }
  }

  /** `Totalistic.f`: a dead cell (state 0) with a number of live neighbours
      listed in `birth`, or a live cell (state 1) with a number listed in
      `live`, becomes 1; every other cell becomes 0. The number of live
      neighbours is the sum over the tuple without its first entry, the cell
      itself. An empty tuple raises IndexError at `neighbours[0]`. */
  function TotalisticNext(birth: seq<int>, live: seq<int>, neighbours: seq<int>): (r: Result<int>)
    ensures r.Failure? <==> neighbours == []
    ensures r.Failure? ==> r.error == IndexOutOfRange
    ensures r.Success? ==> (r.value == 0 || r.value == 1)
    ensures r.Success? ==>
              (r.value == 1 <==>
                 (neighbours[0] == 0 && Sum(neighbours[1..]) in birth)
                 || (neighbours[0] == 1 && Sum(neighbours[1..]) in live))
    ensures r.Success? && birth == [] && live == [] ==> r.value == 0
  {
    if neighbours == [] then Failure(IndexOutOfRange)
    else
      var total := Sum(neighbours);
      var born := neighbours[0] == 0 && total in birth;
      var stays := neighbours[0] == 1 && total - 1 in live;
      if born || stays then Success(1) else Success(0)
  }

  /** A totalistic rule sees only the cell's own state and the multiset of
      its neighbours' states: reordering the neighbours changes nothing. */
  lemma {:induction false} TotalisticSymmetric(birth: seq<int>, live: seq<int>, n: seq<int>, m: seq<int>)
    requires n != [] && m != [] && n[0] == m[0]
    requires multiset(n[1..]) == multiset(m[1..])
    ensures TotalisticNext(birth, live, n) == TotalisticNext(birth, live, m)
  {
    SumPermutation(n[1..], m[1..]);
  }

  /** A rule: the neighbourhood whose states it reads, and its transition
      function. */
  datatype Rule = Rule(neighbourhood: Neighbourhood, transition: Transition)
}
