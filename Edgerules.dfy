/** Boundary conditions: how the board reads a neighbour whose absolute
    address may lie outside the grid. The resolver either answers with a
    constant state or with the address to read instead. */
module Edgerules {
  import opened Common
  import opened Grids

  /** The three boundary modes: a Dirichlet constant ('D'), the 'N' mode that
      sends coordinates to an edge of the board, and (sheared) wrap-around. */
  datatype Kind = Dirichlet | Neumann | Wrap

  /** A boundary condition as the constructor leaves it. */
  datatype Edgerule = Edgerule(kind: Kind, offset: seq<int>, constant: int)

  /** What a lookup resolves to: `(True, const)` or `(False, address)`. */
  datatype Resolved = Constant(value: int) | Address(address: seq<int>)

  /** The constructor: 'D' and 'N' keep their mode and use the offset (0,);
      any other mode string, or none, means wrap, whose constant is always 0;
      a missing or empty offset becomes (0,); a missing constant becomes 0. */
  function NewEdgerule(kind: Option<string>, offset: Option<seq<int>>, constant: Option<int>): (e: Edgerule)
    ensures e.kind == Dirichlet <==> kind == Some("D")
    ensures e.kind == Neumann <==> kind == Some("N")
    ensures e.offset != []
    ensures e.kind != Wrap ==> e.offset == [0]
    ensures e.kind == Wrap ==> e.constant == 0 && e.offset == if offset.Some? && offset.value != [] then offset.value else [0]
    ensures e.kind == Dirichlet ==> e.constant == if constant.Some? then constant.value else 0
  {
    var c := if constant.None? then 0 else constant.value;
    var special := kind == Some("D") || kind == Some("N");
    var o := if offset.None? || offset.value == [] || special then [0] else offset.value;
    if kind == Some("D") then Edgerule(Dirichlet, o, c)
    else if kind == Some("N") then Edgerule(Neumann, o, c)
    else Edgerule(Wrap, o, 0)
  }

  /** The offset compared against an address of n components: padded with
      zeros when it is shorter, left as it is (not truncated) otherwise. */
  function Padded(offset: seq<int>, n: nat): (oc: seq<int>)
    ensures |oc| >= n && |oc| >= |offset|
    ensures forall i :: 0 <= i < |oc| ==> oc[i] == if i < |offset| then offset[i] else 0
  {
    if n > |offset| then offset + seq(n - |offset|, _ => 0) else offset
  }

  /** The resolver rejects an offset that is at least as long as the address
      and has no zero among its first n entries. */
  predicate HasPivot(offset: seq<int>, n: nat)
  {
    n > |offset| || exists i :: 0 <= i < n && offset[i] == 0
  }

  /** `offsetcomp.index(0)`: the position of the first zero. */
  function FirstZero(s: seq<int>): (z: nat)
    requires exists i :: 0 <= i < |s| && s[i] == 0
    ensures z < |s| && s[z] == 0 && forall j :: 0 <= j < z ==> s[j] != 0
  {
    if s[0] == 0 then 0
    else
      assert exists i :: 0 <= i < |s[1..]| && s[1..][i] == 0 by {
        var i :| 0 <= i < |s| && s[i] == 0;
        assert s[1..][i - 1] == 0;
      }
      1 + FirstZero(s[1..])
  }

  /** The pivot axis `zeroindex`: it always lies below the address length. */
  function Pivot(offset: seq<int>, n: nat): (z: nat)
    requires HasPivot(offset, n)
    ensures z < n && Padded(offset, n)[z] == 0
    ensures forall j :: 0 <= j < z ==> Padded(offset, n)[j] != 0
  {
    var oc := Padded(offset, n);
    if n > |offset| then
      assert oc[|offset|] == 0;
      FirstZero(oc)
    else
      var i :| 0 <= i < n && offset[i] == 0;
      assert oc[i] == 0;
      FirstZero(oc)
  }

  /** The in-range test as written: it checks `address[i] + offsetcomp[i]`,
      not `address[i]`, against the board. */
  predicate Inside(address: seq<int>, oc: seq<int>, shape: seq<nat>)
    requires |address| == |shape| <= |oc|
  {
    forall i :: 0 <= i < |address| ==> 0 <= address[i] + oc[i] < shape[i]
  }

  predicate Positive(shape: seq<nat>)
  {
    forall i :: 0 <= i < |shape| ==> shape[i] > 0
  }

  /** The 'N' substitute: 0 for a negative component, the last index of the
      axis for every other one. */
  function EdgeAddress(address: seq<int>, shape: seq<nat>): (b: seq<int>)
    requires |address| == |shape|
    ensures |b| == |address|
    ensures forall i :: 0 <= i < |b| ==> b[i] == if address[i] < 0 then 0 else shape[i] as int - 1
  {
    seq(|address|, i requires 0 <= i < |address| => if address[i] < 0 then 0 else shape[i] as int - 1)
  }

  /** The wrap substitute: every component shifted by its offset times the
      number of whole periods the pivot coordinate lies away, then reduced
      modulo its axis (Python's `//` and `%`, which for a positive divisor
      are Dafny's). */
  function Sheared(address: seq<int>, oc: seq<int>, z: nat, shape: seq<nat>): (b: seq<int>)
    requires |address| == |shape| <= |oc| && z < |address| && Positive(shape)
    ensures InShape(b, shape)
    ensures forall i :: 0 <= i < |b| ==> b[i] == (address[i] + oc[i] * (address[z] / shape[z])) % shape[i]
  {
    seq(|address|, i requires 0 <= i < |address| => (address[i] + oc[i] * (address[z] / shape[z])) % shape[i])
  }

  /** `Edgerule.__call__(address, shape)`. */
  function Resolve(e: Edgerule, address: seq<int>, shape: seq<nat>): (r: Result<Resolved>)
    ensures |address| != |shape| ==> r == Failure(AddressShapeMismatch)
    ensures |address| == |shape| && !HasPivot(e.offset, |address|) ==> r == Failure(NoZeroOffset)
    ensures r == Failure(DivisionByZero) <==>
              |address| == |shape| && HasPivot(e.offset, |address|) && e.kind == Wrap
              && !Inside(address, Padded(e.offset, |address|), shape) && !Positive(shape)
    ensures r.Success? && r.value.Address? ==> |r.value.address| == |shape|
    ensures r.Success? && Inside(address, Padded(e.offset, |address|), shape) ==> r.value == Address(address)
    ensures |address| == |shape| && HasPivot(e.offset, |address|) && Inside(address, Padded(e.offset, |address|), shape) ==>
              r == Success(Address(address))
    ensures r.Success? && e.kind == Wrap && !Inside(address, Padded(e.offset, |address|), shape) ==>
              r.value.Address? && InShape(r.value.address, shape)
    ensures |address| == |shape| && HasPivot(e.offset, |address|) && !Inside(address, Padded(e.offset, |address|), shape) ==>
              (e.kind == Dirichlet ==> r == Success(Constant(e.constant)))
              && (e.kind == Neumann ==> r == Success(Address(EdgeAddress(address, shape))))
              && (e.kind == Wrap && Positive(shape) ==>
                    r == Success(Address(Sheared(address, Padded(e.offset, |address|), Pivot(e.offset, |address|), shape))))
  {
    if |address| != |shape| then Failure(AddressShapeMismatch)
    else if !HasPivot(e.offset, |address|) then Failure(NoZeroOffset)
    else
      var oc := Padded(e.offset, |address|);
      var z := Pivot(e.offset, |address|);
      if Inside(address, oc, shape) then Success(Address(address))
      else
        match e.kind
        case Dirichlet => Success(Constant(e.constant))
        case Neumann => Success(Address(EdgeAddress(address, shape)))
        case Wrap =>
          if !Positive(shape) then Failure(DivisionByZero)
          else Success(Address(Sheared(address, oc, z, shape)))
  }

  // ---------------------------------------------------------------------
  // Properties of the resolver
  // ---------------------------------------------------------------------

  /** Every component of the offset is zero: the offset of 'D' and 'N' rules
      and of a plain (unsheared) wrap. */
  predicate ZeroOffset(offset: seq<int>)
  {
    forall i :: 0 <= i < |offset| ==> offset[i] == 0
  }

  lemma ModOfInRange(x: int, n: int)
    requires 0 <= x < n
    ensures x % n == x
  {
    DivModUnique(x, n, 0, x);
  }

  lemma ModShift(x: int, k: int, n: int)
    requires n > 0
    ensures (x + k * n) % n == x % n
  {
    var q, r := x / n, x % n;
    assert x + k * n == (q + k) * n + r;
    DivModUnique(x + k * n, n, q + k, r);
  }

  /** With a zero offset the pivot always exists (for a non-empty address)
      and the in-range test is the plain one. */
  lemma ZeroOffsetPivot(offset: seq<int>, a: seq<int>, shape: seq<nat>)
    requires ZeroOffset(offset) && |a| == |shape| && |a| > 0
    ensures HasPivot(offset, |a|)
    ensures Inside(a, Padded(offset, |a|), shape) <==> InShape(a, shape)
  {
    if |a| <= |offset| {
      assert offset[0] == 0;
    }
    var oc := Padded(offset, |a|);
    assert forall i :: 0 <= i < |a| ==> oc[i] == 0;
  }

  /** Dirichlet with its (0,) offset: a cell of the board resolves to
      itself, and every other address, whichever axis it leaves the board on,
      resolves to the constant. */
  lemma {:induction false} DirichletResolve(e: Edgerule, a: seq<int>, shape: seq<nat>)
    requires e.kind == Dirichlet && ZeroOffset(e.offset) && |a| == |shape| && |a| > 0
    ensures Resolve(e, a, shape) == if InShape(a, shape) then Success(Address(a)) else Success(Constant(e.constant))
  {
    ZeroOffsetPivot(e.offset, a, shape);
  }

  /** The 'N' mode with its (0,) offset: a cell of the board resolves to
      itself; any other address is sent, axis by axis, to 0 where the
      component is negative and to the last index of the axis everywhere
      else, including on the axes where it was already in range. */
  lemma {:induction false} NeumannResolve(e: Edgerule, a: seq<int>, shape: seq<nat>)
    requires e.kind == Neumann && ZeroOffset(e.offset) && |a| == |shape| && |a| > 0
    ensures !InShape(a, shape) ==> Resolve(e, a, shape) == Success(Address(EdgeAddress(a, shape)))
    ensures InShape(a, shape) ==> Resolve(e, a, shape) == Success(Address(a))
  {
    ZeroOffsetPivot(e.offset, a, shape);
  }

  /** For the 'N' and 'D' modes (offset (0,)) and a board with no empty
      axis, a resolved address always names a cell of the board, so reading
      it cannot fail. */
  lemma {:induction false} EdgeResolveInShape(e: Edgerule, a: seq<int>, shape: seq<nat>)
    requires e.kind != Wrap && ZeroOffset(e.offset) && |a| == |shape| && |a| > 0 && Positive(shape)
    ensures Resolve(e, a, shape).Success?
    ensures Resolve(e, a, shape).value.Address? ==> InShape(Resolve(e, a, shape).value.address, shape)
  {
    ZeroOffsetPivot(e.offset, a, shape);
  }

  /** The oddity of the 'N' mode: the address (2, -1) on a 5 x 5 board leaves
      it only on the second axis, yet its in-range first coordinate is moved
      to the last row as well. */
  lemma NeumannMovesInRangeComponent()
    ensures Resolve(NewEdgerule(Some("N"), None, None), [2, -1], [5, 5]) == Success(Address([4, 0]))
  {
    var e := NewEdgerule(Some("N"), None, None);
    var oc := Padded(e.offset, 2);
    assert oc[1] == 0;
    assert !Inside([2, -1], oc, [5, 5]);
    assert EdgeAddress([2, -1], [5, 5]) == [4, 0];
  }

  /** Wrap with a zero offset is the plain torus: every address resolves to
      its components reduced modulo their axes. */
  lemma {:induction false} TorusResolve(e: Edgerule, a: seq<int>, shape: seq<nat>)
    requires e.kind == Wrap && ZeroOffset(e.offset) && |a| == |shape| && |a| > 0 && Positive(shape)
    ensures Resolve(e, a, shape) == Success(Address(seq(|a|, i requires 0 <= i < |a| => a[i] % shape[i])))
  {
    ZeroOffsetPivot(e.offset, a, shape);
    var torus := seq(|a|, i requires 0 <= i < |a| => a[i] % shape[i]);
    if InShape(a, shape) {
      forall i | 0 <= i < |a|
        ensures torus[i] == a[i]
      {
        ModOfInRange(a[i], shape[i]);
      }
      assert torus == a;
    } else {
      var oc := Padded(e.offset, |a|);
      assert forall i :: 0 <= i < |a| ==> oc[i] == 0;
      assert Sheared(a, oc, Pivot(e.offset, |a|), shape) == torus;
    }
  }

  /** Hence on the plain torus, moving an address by whole periods along any
      axis does not change what it resolves to. */
  lemma {:induction false} TorusPeriodic(e: Edgerule, a: seq<int>, shape: seq<nat>, i: nat, k: int)
    requires e.kind == Wrap && ZeroOffset(e.offset) && |a| == |shape| && |a| > 0 && Positive(shape)
    requires i < |a|
    ensures Resolve(e, a[i := a[i] + k * shape[i]], shape) == Resolve(e, a, shape)
  {
    var a' := a[i := a[i] + k * shape[i]];
    TorusResolve(e, a, shape);
    TorusResolve(e, a', shape);
    ModShift(a[i], k, shape[i]);
    assert seq(|a'|, j requires 0 <= j < |a'| => a'[j] % shape[j]) == seq(|a|, j requires 0 <= j < |a| => a[j] % shape[j]);
  }

  /** The wrap formula is periodic along every axis other than the pivot. */
  lemma {:induction false} ShearedPeriodic(a: seq<int>, oc: seq<int>, z: nat, shape: seq<nat>, i: nat, k: int)
    requires |a| == |shape| <= |oc| && z < |a| && Positive(shape)
    requires i < |a| && i != z
    ensures Sheared(a[i := a[i] + k * shape[i]], oc, z, shape) == Sheared(a, oc, z, shape)
  {
    var a' := a[i := a[i] + k * shape[i]];
    var q := a[z] / shape[z];
    assert a'[z] == a[z];
    ModShift(a[i] + oc[i] * q, k, shape[i]);
    assert a'[i] + oc[i] * q == a[i] + oc[i] * q + k * shape[i];
  }

  lemma ModAdd(y: int, o: int, n: int)
    requires n > 0
    ensures (y + o) % n == (y % n + o) % n
  {
    assert y + o == (y % n + o) + (y / n) * n;
    ModShift(y % n + o, y / n, n);
  }

  /** Along the pivot axis the formula is a sheared torus: one more period
      on the pivot coordinate moves every other coordinate by its offset. */
  lemma {:induction false} ShearedAlongPivot(a: seq<int>, oc: seq<int>, z: nat, shape: seq<nat>)
    requires |a| == |shape| <= |oc| && z < |a| && oc[z] == 0 && Positive(shape)
    ensures forall i :: 0 <= i < |a| ==>
              Sheared(a[z := a[z] + shape[z]], oc, z, shape)[i] == (Sheared(a, oc, z, shape)[i] + oc[i]) % shape[i]
  {
    forall i | 0 <= i < |a|
      ensures Sheared(a[z := a[z] + shape[z]], oc, z, shape)[i] == (Sheared(a, oc, z, shape)[i] + oc[i]) % shape[i]
    {
      ShearedPivotComponent(a, oc, z, shape, i);
    }
  }

  lemma ShearedPivotComponent(a: seq<int>, oc: seq<int>, z: nat, shape: seq<nat>, i: nat)
    requires |a| == |shape| <= |oc| && z < |a| && oc[z] == 0 && Positive(shape) && i < |a|
    ensures Sheared(a[z := a[z] + shape[z]], oc, z, shape)[i] == (Sheared(a, oc, z, shape)[i] + oc[i]) % shape[i]
  {
    var n := shape[z];
    var q := a[z] / n;
    DivModUnique(a[z] + n, n, q + 1, a[z] % n);
    if i == z {
      ShearedPivotSelf(a, oc, z, shape, q);
    } else {
      ShearedPivotOther(a, oc, z, shape, i, q);
    }
  }

  lemma ShearedPivotSelf(a: seq<int>, oc: seq<int>, z: nat, shape: seq<nat>, q: int)
    requires |a| == |shape| <= |oc| && z < |a| && oc[z] == 0 && Positive(shape)
    requires q == a[z] / shape[z]
    ensures Sheared(a[z := a[z] + shape[z]], oc, z, shape)[z] == (Sheared(a, oc, z, shape)[z] + oc[z]) % shape[z]
  {
    var n := shape[z];
    var x := a[z] % n;
    assert Sheared(a[z := a[z] + n], oc, z, shape)[z] == (a[z] + n) % n;
    assert Sheared(a, oc, z, shape)[z] == x;
    ModShift(a[z], 1, n);
    ModOfInRange(x, n);
  }

  lemma ShearedPivotOther(a: seq<int>, oc: seq<int>, z: nat, shape: seq<nat>, i: nat, q: int)
    requires |a| == |shape| <= |oc| && z < |a| && Positive(shape) && i < |a| && i != z
    requires q == a[z] / shape[z] && (a[z] + shape[z]) / shape[z] == q + 1
    ensures Sheared(a[z := a[z] + shape[z]], oc, z, shape)[i] == (Sheared(a, oc, z, shape)[i] + oc[i]) % shape[i]
  {
    var m, o := shape[i], oc[i];
    var y := a[i] + o * q;
    assert a[i] + o * (q + 1) == y + o;
    assert Sheared(a[z := a[z] + shape[z]], oc, z, shape)[i] == (y + o) % m;
    assert Sheared(a, oc, z, shape)[i] == y % m;
    ModAdd(y, o, m);
  }

  /** The oddity of the sheared in-range test: with offset (-1, 0) on a
      5 x 5 board, the address (5, 2) passes the test because 5 - 1 is in
      range, so it is returned unchanged although it names no cell, and
      reading it from the board raises IndexError. */
  lemma ShearedTestPassesOutsideAddress(cells: seq<int>)
    requires |cells| == 25
    ensures Resolve(NewEdgerule(None, Some([-1, 0]), None), [5, 2], [5, 5]) == Success(Address([5, 2]))
    ensures !InShape([5, 2], [5, 5])
    ensures Grid([5, 5], cells).Read([5, 2]) == Failure(IndexOutOfRange)
  {
    var e := NewEdgerule(None, Some([-1, 0]), None);
    assert e.offset == [-1, 0];
    assert e.offset[1] == 0;
    var oc := Padded(e.offset, 2);
    assert oc == [-1, 0];
    assert Inside([5, 2], oc, [5, 5]);
    assert Product([5, 5]) == 25 by {
      assert [5, 5][..1] == [5];
      assert [5][..0] == [];
    }
    assert !Addressable([5, 2], [5, 5]);
  }

  /** The other side of the same test: with offset (1, 0), the address
      (-1, 2) on a 5×5 board is returned unchanged, names no cell of the
      board, and NumPy's negative indexing reads cell (4, 2) from it. */
  lemma ShearedTestPassesNegativeAddress(cells: seq<int>)
    requires |cells| == 25
    ensures Resolve(NewEdgerule(None, Some([1, 0]), None), [-1, 2], [5, 5]) == Success(Address([-1, 2]))
    ensures !InShape([-1, 2], [5, 5])
    ensures Grid([5, 5], cells).Read([-1, 2]) == Success(cells[Flatten([4, 2], [5, 5])])
  {
    var e := NewEdgerule(None, Some([1, 0]), None);
    assert e.offset == [1, 0];
    assert e.offset[1] == 0;
    var oc := Padded(e.offset, 2);
    assert oc == [1, 0];
    assert Inside([-1, 2], oc, [5, 5]);
    assert Product([5, 5]) == 25 by {
      assert [5, 5][..1] == [5];
      assert [5][..0] == [];
    }
    assert Addressable([-1, 2], [5, 5]);
    assert Normalise([-1, 2], [5, 5]) == [4, 2];
  }
}
