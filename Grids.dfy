/** The board's storage: a dense grid of integer states kept as one flat
    row-major sequence (the last axis varies fastest, as NumPy's default
    layout and `np.ndenumerate` do), with the conversions between a cell's
    address and its flat position, and NumPy's indexing rules. */
module Grids {
  import opened Common

  /** Number of cells of a grid of the given shape. */
  function Product(shape: seq<nat>): nat
  {
    if shape == [] then 1 else Product(shape[..|shape| - 1]) * shape[|shape| - 1]
  }

  /** `a` is the address of a cell: one in-range coordinate per axis. */
  predicate InShape(a: seq<int>, shape: seq<nat>)
  {
    |a| == |shape| && forall i :: 0 <= i < |a| ==> 0 <= a[i] < shape[i]
  }

  lemma InShapePrefix(a: seq<int>, shape: seq<nat>)
    requires InShape(a, shape) && shape != []
    ensures InShape(a[..|a| - 1], shape[..|shape| - 1])
  {
  }

  lemma InShapeSnoc(a: seq<int>, x: int, shape: seq<nat>)
    requires shape != [] && InShape(a, shape[..|shape| - 1]) && 0 <= x < shape[|shape| - 1]
    ensures InShape(a + [x], shape)
  {
  }

  lemma MulBelow(x: nat, p: nat, y: nat, s: nat)
    requires x < p && y < s
    ensures x * s + y < p * s
  {
    MulMono(x, p - 1, s);
    MulSub(p, 1, s);
  }

  /** Row-major position of a cell. */
  function Flatten(a: seq<int>, shape: seq<nat>): (k: nat)
    requires InShape(a, shape)
    ensures k < Product(shape)
  {
    if shape == [] then 0
    else
      var m := |shape| - 1;
      InShapePrefix(a, shape);
      var k := Flatten(a[..m], shape[..m]) * shape[m] + a[m];
      MulBelow(Flatten(a[..m], shape[..m]), Product(shape[..m]), a[m], shape[m]);
      k
  }

  lemma MulSub(a: int, b: int, c: int)
    ensures a * c - b * c == (a - b) * c
  {
  }

  lemma MulAtLeast(d: int, n: int)
    requires d >= 1 && n > 0
    ensures d * n >= n
  {
  }

  lemma MulMono(a: int, b: int, c: nat)
    requires a <= b
    ensures a * c <= b * c
  {
    MulSub(b, a, c);
  }

  lemma DivBelow(k: nat, p: nat, s: nat)
    requires k < p * s
    ensures s > 0 && k / s < p
  {
    if s != 0 && k / s >= p {
      MulMono(p, k / s, s);
    }
  }

  /** The address of the cell at row-major position k. */
  function Unflatten(k: nat, shape: seq<nat>): (a: seq<int>)
    requires k < Product(shape)
    ensures InShape(a, shape)
    decreases |shape|
  {
    if shape == [] then []
    else
      var m := |shape| - 1;
      DivBelow(k, Product(shape[..m]), shape[m]);
      var front := Unflatten(k / shape[m], shape[..m]);
      InShapeSnoc(front, k % shape[m], shape);
      front + [k % shape[m]]
  }

  /** Unflatten undoes Flatten ... */
  lemma {:induction false} UnflattenFlatten(a: seq<int>, shape: seq<nat>)
    requires InShape(a, shape)
    ensures Unflatten(Flatten(a, shape), shape) == a
  {
    if shape != [] {
      var m := |shape| - 1;
      InShapePrefix(a, shape);
      var f := Flatten(a[..m], shape[..m]);
      var k := f * shape[m] + a[m];
      assert k / shape[m] == f && k % shape[m] == a[m] by {
        DivModUnique(k, shape[m], f, a[m]);
      }
      UnflattenFlatten(a[..m], shape[..m]);
      assert a == a[..m] + [a[m]];
    }
  }

  /** ... and Flatten undoes Unflatten, so the two are a bijection between
      the addresses of a shape and the positions below its product. */
  lemma {:induction false} FlattenUnflatten(k: nat, shape: seq<nat>)
    requires k < Product(shape)
    ensures Flatten(Unflatten(k, shape), shape) == k
    decreases |shape|
  {
    if shape != [] {
      var m := |shape| - 1;
      DivBelow(k, Product(shape[..m]), shape[m]);
      var a := Unflatten(k, shape);
      assert a[..m] == Unflatten(k / shape[m], shape[..m]);
      FlattenUnflatten(k / shape[m], shape[..m]);
    }
  }

  /** Distinct cells have distinct positions. */
  lemma FlattenInjective(a: seq<int>, b: seq<int>, shape: seq<nat>)
    requires InShape(a, shape) && InShape(b, shape) && Flatten(a, shape) == Flatten(b, shape)
    ensures a == b
  {
    UnflattenFlatten(a, shape);
    UnflattenFlatten(b, shape);
  }

  lemma DivModUnique(x: int, n: int, q: int, r: int)
    requires n > 0 && 0 <= r < n && x == q * n + r
    ensures x / n == q && x % n == r
  {
    var q', r' := x / n, x % n;
    assert x == q' * n + r';
    MulSub(q, q', n);
    if q > q' {
      MulAtLeast(q - q', n);
    } else if q < q' {
      MulSub(q', q, n);
      MulAtLeast(q' - q, n);
    }
  }

  /** NumPy accepts, per axis of length n, an integer in [-n, n); a negative
      one counts from the end of the axis. */
  predicate Addressable(a: seq<int>, shape: seq<nat>)
  {
    |a| == |shape| && forall i :: 0 <= i < |a| ==> -(shape[i] as int) <= a[i] < shape[i]
  }

  /** The cell NumPy reaches with an addressable index. */
  function Normalise(a: seq<int>, shape: seq<nat>): (b: seq<int>)
    requires Addressable(a, shape)
    ensures InShape(b, shape)
    ensures forall i :: 0 <= i < |a| ==> b[i] == if a[i] < 0 then a[i] + shape[i] else a[i]
  {
    seq(|a|, i requires 0 <= i < |a| => if a[i] < 0 then a[i] + shape[i] else a[i])
  }

  /** A grid value: the shape and the flat contents of a board. */
  datatype Grid = Grid(shape: seq<nat>, cells: seq<int>) {

    predicate Valid()
    {
      |cells| == Product(shape)
    }

    /** `cells[index]` for a full index tuple: IndexError unless every
        component is within NumPy's bounds. */
    function Read(index: seq<int>): (r: Result<int>)
      requires Valid()
      ensures r.Success? <==> Addressable(index, shape)
      ensures r.Failure? ==> r.error == IndexOutOfRange
      ensures InShape(index, shape) ==> r == Success(cells[Flatten(index, shape)])
      ensures r.Success? ==> r.value == cells[Flatten(Normalise(index, shape), shape)]
    {
      if Addressable(index, shape) then
        var b := Normalise(index, shape);
        assert InShape(index, shape) ==> b == index;
        Success(cells[Flatten(b, shape)])
      else Failure(IndexOutOfRange)
    }
  }
}
