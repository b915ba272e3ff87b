/** Neighbourhoods: ordered lists of relative offsets, and the two factories
    that build the Moore (Chebyshev ball) and von Neumann (Manhattan ball)
    neighbourhoods of a given dimension and radius by expanding a list of
    partial offset vectors one axis at a time. */
module Neighbourhoods {
  import opened Common

  /** A list of offsets is accepted by the Neighbourhood constructor when it
      has a first element and every element has that element's length. */
  predicate Uniform(reladresses: seq<seq<int>>)
  {
    |reladresses| > 0 && forall i :: 0 <= i < |reladresses| ==> |reladresses[i]| == |reladresses[0]|
  }

  /** The relative addresses of the neighbours of a generic cell, in the
      order a rule receives their states. */
  class Neighbourhood {
    var neighbours: seq<seq<int>>

    /** The bare assignment of the offset list, without the checks that
        `New` performs first. */
    constructor (reladresses: seq<seq<int>>)
      ensures neighbours == reladresses
    {
      neighbours := reladresses;
    }

    /** The checking constructor: IndexError on an empty list (there is no
        first element to take the dimension from), ValueError when the
        offsets do not all have the same length. */
    static method New(reladresses: seq<seq<int>>) returns (r: Result<Neighbourhood>)
      ensures r.Success? <==> Uniform(reladresses)
      ensures r.Success? ==> fresh(r.value) && r.value.neighbours == reladresses
      ensures r.Failure? ==> r.error == if reladresses == [] then IndexOutOfRange else MixedDimensions
    {
      if reladresses == [] {
        return Failure(IndexOutOfRange);
      }
      var dimension := |reladresses[0]|;
      if exists i :: 0 <= i < |reladresses| && |reladresses[i]| != dimension {
        return Failure(MixedDimensions);
      }
      var n := new Neighbourhood(reladresses);
      r := Success(n);
    }

    /** `neighbourhood[index]`, with Python's list indexing. */
    function Get(index: int): (r: Result<seq<int>>)
      reads this
      ensures r.Success? <==> -|neighbours| <= index < |neighbours|
      ensures r.Success? ==> r.value == neighbours[if index < 0 then index + |neighbours| else index]
      ensures r.Failure? ==> r.error == IndexOutOfRange
    {
      match PyIndex(index, |neighbours|)
      case Some(i) => Success(neighbours[i])
      case None => Failure(IndexOutOfRange)
    }

    /** `neighbourhood[index] = val`: replaces one offset; like the source it
        does not check that `val` has the dimension of the others. */
    method Set(index: int, val: seq<int>) returns (r: Outcome)
      modifies this
      ensures r.Pass? <==> -|old(neighbours)| <= index < |old(neighbours)|
      ensures r.Pass? ==> |neighbours| == |old(neighbours)| && Get(index) == Success(val)
      ensures r.Pass? ==> neighbours == old(neighbours)[if index < 0 then index + |neighbours| else index := val]
      ensures r.Fail? ==> r.error == IndexOutOfRange && neighbours == old(neighbours)
    {
      match PyIndex(index, |neighbours|)
      case Some(i) =>
        neighbours := neighbours[i := val];
        r := Pass;
      case None =>
        r := Fail(IndexOutOfRange);
    }
  }

  // ---------------------------------------------------------------------
  // The expansion shared by both factories
  // ---------------------------------------------------------------------

  /** Which ball a factory builds. */
  datatype Metric = Chebyshev | Manhattan

  function Abs(x: int): nat
  {
    if x < 0 then -x else x
  }

  /** Manhattan norm: the sum of the absolute values of the components. */
  function Norm1(v: seq<int>): nat
  {
    if v == [] then 0 else Norm1(v[..|v| - 1]) + Abs(v[|v| - 1])
  }

  /** `v` lies in the ball of the given radius. */
  predicate Within(metric: Metric, length: nat, v: seq<int>)
  {
    match metric
    case Chebyshev => forall i :: 0 <= i < |v| ==> -(length as int) <= v[i] <= length
    case Manhattan => Norm1(v) <= length
  }

  /** How far the next component of a partial vector may reach: the radius for
      Moore; the radius minus the partial Manhattan distance for von Neumann. */
  function Reach(metric: Metric, length: nat, current: seq<int>): int
  {
    match metric
    case Chebyshev => length
    case Manhattan => length - Norm1(current)
  }

  /** `current + [1], current + [-1], ..., current + [n], current + [-n]`. */
  function Pairs(current: seq<int>, n: int): seq<seq<int>>
  {
    if n <= 0 then [] else Pairs(current, n - 1) + [current + [n], current + [-n]]
  }

  /** Every partial vector extended by a zero component, in place. */
  function ZeroExtended(layer: seq<seq<int>>): seq<seq<int>>
  {
    seq(|layer|, i requires 0 <= i < |layer| => layer[i] + [0])
  }

  /** The variants appended for the first k partial vectors of a layer. */
  function Grown(metric: Metric, length: nat, layer: seq<seq<int>>, k: nat): seq<seq<int>>
    requires k <= |layer|
  {
    if k == 0 then []
    else Grown(metric, length, layer, k - 1) + Pairs(layer[k - 1], Reach(metric, length, layer[k - 1]))
  }

  /** One pass of the outer loop: the layer for one more axis. */
  function Extend(metric: Metric, length: nat, layer: seq<seq<int>>): seq<seq<int>>
  {
    ZeroExtended(layer) + Grown(metric, length, layer, |layer|)
  }

  /** The offset list the factories build for `dim` axes. */
  function Build(metric: Metric, length: nat, dim: nat): seq<seq<int>>
  {
    if dim == 0 then [[]] else Extend(metric, length, Build(metric, length, dim - 1))
  }

  lemma ReplaceWithZero(layer: seq<seq<int>>, number: nat, rest: seq<seq<int>>)
    requires number < |layer|
    ensures (ZeroExtended(layer[..number]) + layer[number..] + rest)[number := layer[number] + [0]]
            == ZeroExtended(layer[..number + 1]) + layer[number + 1..] + rest
  {
    assert ZeroExtended(layer[..number + 1]) == ZeroExtended(layer[..number]) + [layer[number] + [0]];
    assert layer[number..] == [layer[number]] + layer[number + 1..];
  }

  lemma AppendPair(done: seq<seq<int>>, current: seq<int>, d: int, neighbours: seq<seq<int>>)
    requires d >= 1 && neighbours == done + Pairs(current, d - 1)
    ensures neighbours + [current + [d], current + [-d]] == done + Pairs(current, d)
  {
  }

  lemma PairsEmpty(current: seq<int>, d: int, reach: int)
    requires 1 <= d && reach < d && (d - 1 <= reach || d == 1)
    ensures Pairs(current, d - 1) == Pairs(current, reach)
  {
  }

  lemma FinishVector(metric: Metric, length: nat, layer: seq<seq<int>>, number: nat)
    requires number < |layer|
    ensures ZeroExtended(layer[..number + 1]) + layer[number + 1..] + Grown(metric, length, layer, number)
              + Pairs(layer[number], Reach(metric, length, layer[number]))
            == ZeroExtended(layer[..number + 1]) + layer[number + 1..] + Grown(metric, length, layer, number + 1)
  {
  }

  lemma FinishLayer(metric: Metric, length: nat, layer: seq<seq<int>>)
    ensures ZeroExtended(layer[..|layer|]) + layer[|layer|..] + Grown(metric, length, layer, |layer|)
            == Extend(metric, length, layer)
  {
    assert layer[..|layer|] == layer;
  }

  /** The innermost loop: `current + [d]` and `current + [-d]` appended for
      d = 1 .. reach. */
  method AppendPairs(done: seq<seq<int>>, current: seq<int>, reach: int) returns (neighbours: seq<seq<int>>)
    ensures neighbours == done + Pairs(current, reach)
  {
    neighbours := done;
    var d := 1;
    while d <= reach
      invariant 1 <= d && (d - 1 <= reach || d == 1)
      invariant neighbours == done + Pairs(current, d - 1)
    {
      AppendPair(done, current, d, neighbours);
      neighbours := neighbours + [current + [d], current + [-d]];
      d := d + 1;
    }
    PairsEmpty(current, d, reach);
  }

  /** One pass of the middle loop: each partial vector of the layer is
      replaced in place by itself extended with 0, and its variants are
      appended. */
  method ExpandLayer(metric: Metric, length: nat, layer: seq<seq<int>>) returns (neighbours: seq<seq<int>>)
    ensures neighbours == Extend(metric, length, layer)
  {
    neighbours := layer;
    var count := |neighbours|;
    for number := 0 to count
      invariant neighbours == ZeroExtended(layer[..number]) + layer[number..] + Grown(metric, length, layer, number)
    {
      var currentHouse := neighbours[number];
      assert currentHouse == layer[number];
      ReplaceWithZero(layer, number, Grown(metric, length, layer, number));
      neighbours := neighbours[number := currentHouse + [0]];
      var reach := if metric == Chebyshev then length else length - Norm1(currentHouse);
      assert reach == Reach(metric, length, currentHouse);
      neighbours := AppendPairs(neighbours, currentHouse, reach);
      FinishVector(metric, length, layer, number);
    }
    FinishLayer(metric, length, layer);
  }

  /** The nested loops of the factories: for every axis, each existing partial
      vector is replaced in place by itself extended with 0, and its `+d` and
      `-d` extensions for d = 1 .. Reach are appended. */
  method Expand(metric: Metric, dim: nat, length: nat) returns (neighbours: seq<seq<int>>)
    ensures neighbours == Build(metric, length, dim)
  {
    neighbours := [[]];
    for axis := 0 to dim
      invariant neighbours == Build(metric, length, axis)
    {
      neighbours := ExpandLayer(metric, length, neighbours);
    }
  }

  // ---------------------------------------------------------------------
  // What the expansion builds
  // ---------------------------------------------------------------------

  /** `v` is a vector of `t` components inside the ball. */
  predicate Good(metric: Metric, length: nat, t: nat, v: seq<int>)
  {
    |v| == t && Within(metric, length, v)
  }

  lemma Norm1Snoc(v: seq<int>, x: int)
    ensures Norm1(v + [x]) == Norm1(v) + Abs(x)
  {
    assert (v + [x])[..|v|] == v;
  }

  /** Extending a vector of the ball by 0, or by a component no longer than
      its reach, stays in the ball. */
  lemma ExtendGood(metric: Metric, length: nat, t: nat, current: seq<int>, x: int)
    requires Good(metric, length, t, current)
    requires x == 0 || Abs(x) <= Reach(metric, length, current)
    ensures Good(metric, length, t + 1, current + [x])
  {
    Norm1Snoc(current, x);
    if metric == Chebyshev {
      assert forall i :: 0 <= i < |current| ==> (current + [x])[i] == current[i];
    }
  }

  lemma ZeroExtendedGood(metric: Metric, length: nat, t: nat, layer: seq<seq<int>>)
    requires forall v :: v in layer ==> Good(metric, length, t, v)
    ensures forall x :: x in ZeroExtended(layer) ==> Good(metric, length, t + 1, x)
  {
    forall i | 0 <= i < |layer|
      ensures Good(metric, length, t + 1, ZeroExtended(layer)[i])
    {
      ExtendGood(metric, length, t, layer[i], 0);
    }
  }

  lemma {:induction false} PairsGood(metric: Metric, length: nat, t: nat, current: seq<int>, n: int)
    requires Good(metric, length, t, current) && n <= Reach(metric, length, current)
    ensures forall x :: x in Pairs(current, n) ==> Good(metric, length, t + 1, x)
  {
    if n > 0 {
      PairsGood(metric, length, t, current, n - 1);
      ExtendGood(metric, length, t, current, n);
      ExtendGood(metric, length, t, current, -n);
    }
  }

  lemma {:induction false} GrownGood(metric: Metric, length: nat, t: nat, layer: seq<seq<int>>, k: nat)
    requires k <= |layer| && forall v :: v in layer ==> Good(metric, length, t, v)
    ensures forall x :: x in Grown(metric, length, layer, k) ==> Good(metric, length, t + 1, x)
  {
    if k > 0 {
      GrownGood(metric, length, t, layer, k - 1);
      PairsGood(metric, length, t, layer[k - 1], Reach(metric, length, layer[k - 1]));
    }
  }

  /** Every offset the factories build has `dim` components and lies in the
      ball: each component in [-length, length] for Moore, Manhattan norm at
      most `length` for von Neumann. */
  lemma {:induction false} BuildGood(metric: Metric, length: nat, dim: nat)
    ensures forall v :: v in Build(metric, length, dim) ==> |v| == dim && Within(metric, length, v)
  {
    BuildAllGood(metric, length, dim);
  }

  lemma {:induction false} BuildAllGood(metric: Metric, length: nat, dim: nat)
    ensures forall v :: v in Build(metric, length, dim) ==> Good(metric, length, dim, v)
  {
    if dim > 0 {
      var layer := Build(metric, length, dim - 1);
      BuildAllGood(metric, length, dim - 1);
      ZeroExtendedGood(metric, length, dim - 1, layer);
      GrownGood(metric, length, dim - 1, layer, |layer|);
      var zs, gs := ZeroExtended(layer), Grown(metric, length, layer, |layer|);
      assert Build(metric, length, dim) == zs + gs;
      forall v | v in zs + gs
        ensures Good(metric, length, dim, v)
      {
        assert v in zs || v in gs;
      }
    }
  }

  /** The all-zero offset, the cell itself, comes first. */
  lemma {:induction false} BuildZeroFirst(metric: Metric, length: nat, dim: nat)
    ensures |Build(metric, length, dim)| > 0 && Build(metric, length, dim)[0] == seq(dim, _ => 0)
  {
    if dim > 0 {
      var layer := Build(metric, length, dim - 1);
      BuildZeroFirst(metric, length, dim - 1);
      assert Extend(metric, length, layer)[0] == ZeroExtended(layer)[0] == layer[0] + [0];
      assert seq(dim - 1, _ => 0) + [0] == seq(dim, _ => 0);
    }
  }

  lemma {:induction false} PairsContain(current: seq<int>, n: int, d: int)
    requires 1 <= d <= n
    ensures current + [d] in Pairs(current, n) && current + [-d] in Pairs(current, n)
  {
    if d < n {
      PairsContain(current, n - 1, d);
    }
  }

  lemma {:induction false} GrownContains(metric: Metric, length: nat, layer: seq<seq<int>>, k: nat, j: nat, x: seq<int>)
    requires j < k <= |layer| && x in Pairs(layer[j], Reach(metric, length, layer[j]))
    ensures x in Grown(metric, length, layer, k)
  {
    var g, ps := Grown(metric, length, layer, k - 1), Pairs(layer[k - 1], Reach(metric, length, layer[k - 1]));
    assert Grown(metric, length, layer, k) == g + ps;
    if j < k - 1 {
      GrownContains(metric, length, layer, k - 1, j, x);
      assert x in g;
    } else {
      assert x in ps;
    }
  }

  /** A partial vector of a layer, extended by 0 or by a component within its
      reach, is in the next layer. */
  lemma ExtendContains(metric: Metric, length: nat, layer: seq<seq<int>>, j: nat, x: int)
    requires j < |layer| && (x == 0 || Abs(x) <= Reach(metric, length, layer[j]))
    ensures layer[j] + [x] in Extend(metric, length, layer)
  {
    var zs, gs := ZeroExtended(layer), Grown(metric, length, layer, |layer|);
    assert Extend(metric, length, layer) == zs + gs;
    if x == 0 {
      assert zs[j] == layer[j] + [x];
    } else {
      PairsContain(layer[j], Reach(metric, length, layer[j]), Abs(x));
      assert layer[j] + [x] in Pairs(layer[j], Reach(metric, length, layer[j]));
      GrownContains(metric, length, layer, |layer|, j, layer[j] + [x]);
    }
  }

  /** Conversely, every integer vector of the ball is among the offsets:
      together with BuildGood, the offsets are exactly the ball. */
  lemma {:induction false} BuildComplete(metric: Metric, length: nat, v: seq<int>)
    requires Within(metric, length, v)
    ensures v in Build(metric, length, |v|)
  {
    if v != [] {
      var p, x := v[..|v| - 1], v[|v| - 1];
      assert v == p + [x];
      Norm1Snoc(p, x);
      if metric == Chebyshev {
        assert forall i :: 0 <= i < |p| ==> p[i] == v[i];
      }
      BuildComplete(metric, length, p);
      var layer := Build(metric, length, |p|);
      var j :| 0 <= j < |layer| && layer[j] == p;
      ExtendContains(metric, length, layer, j, x);
    }
  }

  function Pow(b: nat, e: nat): nat
  {
    if e == 0 then 1 else b * Pow(b, e - 1)
  }

  lemma {:induction false} PairsLength(current: seq<int>, n: nat)
    ensures |Pairs(current, n)| == 2 * n
  {
    if n > 0 {
      PairsLength(current, n - 1);
    }
  }

  lemma {:induction false} GrownLengthMoore(length: nat, layer: seq<seq<int>>, k: nat)
    requires k <= |layer|
    ensures |Grown(Chebyshev, length, layer, k)| == 2 * length * k
  {
    if k > 0 {
      GrownLengthMoore(length, layer, k - 1);
      PairsLength(layer[k - 1], length);
    }
  }

  lemma OneMore(a: nat, n: nat)
    ensures n + a * n == (a + 1) * n
  {
  }

  /** The Moore neighbourhood of radius `length` in `dim` axes has
      (2 * length + 1) ^ dim offsets. */
  lemma {:induction false} MooreCount(length: nat, dim: nat)
    ensures |Build(Chebyshev, length, dim)| == Pow(2 * length + 1, dim)
  {
    if dim > 0 {
      var layer := Build(Chebyshev, length, dim - 1);
      MooreCount(length, dim - 1);
      GrownLengthMoore(length, layer, |layer|);
      assert |Extend(Chebyshev, length, layer)| == |layer| + 2 * length * |layer|;
      OneMore(2 * length, |layer|);
    }
  }

  // ---------------------------------------------------------------------
  // The factories
  // ---------------------------------------------------------------------

  /** Argument handling shared by both factories: a missing or zero dimension
      becomes 2 and a missing or zero radius becomes 1 (Python treats 0 as
      "not given"); a negative dimension or radius is a ValueError, the
      dimension being checked first. */
  function FactoryArguments(dim: Option<int>, length: Option<int>): (r: Result<(nat, nat)>)
    ensures r.Success? <==> (dim.None? || dim.value >= 0) && (length.None? || length.value >= 0)
    ensures r.Failure? ==> r.error == if dim.Some? && dim.value < 0 then InvalidDimension else InvalidLength
    ensures r.Success? ==> r.value.0 >= 1 && r.value.1 >= 1
    ensures r.Success? && (dim.None? || dim.value == 0) ==> r.value.0 == 2
    ensures r.Success? && (length.None? || length.value == 0) ==> r.value.1 == 1
    ensures r.Success? && dim.Some? && dim.value != 0 ==> r.value.0 == dim.value
    ensures r.Success? && length.Some? && length.value != 0 ==> r.value.1 == length.value
  {
    var d := if dim.None? || dim.value == 0 then 2 else dim.value;
    if d < 1 then Failure(InvalidDimension)
    else
      var l := if length.None? || length.value == 0 then 1 else length.value;
      if l < 0 then Failure(InvalidLength)
      else Success((d, l))
  }

  /** The Moore neighbourhood: all offsets within Chebyshev distance `length`. */
  method Moorehood(dim: Option<int>, length: Option<int>) returns (r: Result<Neighbourhood>)
    ensures FactoryArguments(dim, length).Failure? ==> r == Failure(FactoryArguments(dim, length).error)
    ensures FactoryArguments(dim, length).Success? ==>
              var (d, l) := FactoryArguments(dim, length).value;
              r.Success? && fresh(r.value) && r.value.neighbours == Build(Chebyshev, l, d)
  {
    var args := FactoryArguments(dim, length);
    if args.Failure? {
      return Failure(args.error);
    }
    var offsets := Expand(Chebyshev, args.value.0, args.value.1);
    var n := new Neighbourhood(offsets);
    r := Success(n);
  }

  /** The von Neumann neighbourhood: all offsets within Manhattan distance
      `length`. */
  method Neumannhood(dim: Option<int>, length: Option<int>) returns (r: Result<Neighbourhood>)
    ensures FactoryArguments(dim, length).Failure? ==> r == Failure(FactoryArguments(dim, length).error)
    ensures FactoryArguments(dim, length).Success? ==>
              var (d, l) := FactoryArguments(dim, length).value;
              r.Success? && fresh(r.value) && r.value.neighbours == Build(Manhattan, l, d)
  {
    var args := FactoryArguments(dim, length);
    if args.Failure? {
      return Failure(args.error);
    }
    var offsets := Expand(Manhattan, args.value.0, args.value.1);
    var n := new Neighbourhood(offsets);
    r := Success(n);
  }
}
