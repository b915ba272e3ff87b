/** The board: a grid of states with a boundary condition, the gathering of
    a cell's neighbour states, and the synchronous generation step. The
    functions at the top are the specification of one generation on grid
    values; the class below performs it in place. */
module Boards {
  import opened Common
  import opened Grids
  import opened Neighbourhoods
  import opened Edgerules
  import opened Rules

  // ---------------------------------------------------------------------
  // One generation on grid values
  // ---------------------------------------------------------------------

  /** The neighbour's address: index plus offset, component by component,
      over the index's axes. IndexError when the offset has fewer components
      than the index; components beyond the index's length are ignored. */
  function AbsoluteAddress(index: seq<int>, rel: seq<int>): (r: Result<seq<int>>)
    ensures r.Success? <==> |rel| >= |index|
    ensures r.Failure? ==> r.error == IndexOutOfRange
    ensures r.Success? ==> |r.value| == |index| && forall i :: 0 <= i < |index| ==> r.value[i] == index[i] + rel[i]
  {
    if |rel| < |index| then Failure(IndexOutOfRange)
    else Success(seq(|index|, i requires 0 <= i < |index| => index[i] + rel[i]))
  }

  /** The state of the neighbour of `index` at offset `rel`: the boundary
      constant, or the grid read at the address the boundary rule gives. */
  function NeighbourValue(g: Grid, e: Edgerule, index: seq<int>, rel: seq<int>): (r: Result<int>)
    requires g.Valid()
  {
    match AbsoluteAddress(index, rel)
    case Failure(err) => Failure(err)
    case Success(abs) =>
      match Resolve(e, abs, g.shape)
      case Failure(err) => Failure(err)
      case Success(Constant(c)) => Success(c)
      case Success(Address(b)) => g.Read(b)
  }

  /** The lookups of all offsets, in neighbourhood order. */
  function NeighbourValues(g: Grid, e: Edgerule, index: seq<int>, offs: seq<seq<int>>): (rs: seq<Result<int>>)
    requires g.Valid()
    ensures |rs| == |offs|
    ensures forall k :: 0 <= k < |offs| ==> rs[k] == NeighbourValue(g, e, index, offs[k])
  {
    seq(|offs|, k requires 0 <= k < |offs| => NeighbourValue(g, e, index, offs[k]))
  }

  /** `Board.neighbourhood(index, adresses)` on a grid value. */
  function NeighbourList(g: Grid, e: Edgerule, index: seq<int>, offs: seq<seq<int>>): Result<seq<int>>
    requires g.Valid()
  {
    Collect(NeighbourValues(g, e, index, offs))
  }

  /** The neighbour list has one state per offset, in offset order, and
      fails exactly when some lookup fails, with the first failure. */
  lemma NeighbourListSpec(g: Grid, e: Edgerule, index: seq<int>, offs: seq<seq<int>>)
    requires g.Valid()
    ensures NeighbourList(g, e, index, offs).Success? <==>
              forall k :: 0 <= k < |offs| ==> NeighbourValue(g, e, index, offs[k]).Success?
    ensures NeighbourList(g, e, index, offs).Success? ==>
              |NeighbourList(g, e, index, offs).value| == |offs|
              && forall k :: 0 <= k < |offs| ==>
                   NeighbourList(g, e, index, offs).value[k] == NeighbourValue(g, e, index, offs[k]).value
    ensures NeighbourList(g, e, index, offs).Failure? ==>
              exists k :: 0 <= k < |offs| && NeighbourValue(g, e, index, offs[k]) == Failure(NeighbourList(g, e, index, offs).error)
                          && forall j :: 0 <= j < k ==> NeighbourValue(g, e, index, offs[j]).Success?
  {
    var rs := NeighbourValues(g, e, index, offs);
    CollectSuccess(rs);
    if Collect(rs).Failure? {
      CollectFailure(rs);
    }
  }

  /** A neighbour that lies on the board is read from the board, whatever the
      boundary mode, when the rule's offset is zero. */
  lemma {:induction false} NeighbourOnBoard(g: Grid, e: Edgerule, index: seq<int>, rel: seq<int>)
    requires g.Valid() && ZeroOffset(e.offset) && |index| == |g.shape| > 0 && |rel| >= |index|
    requires InShape(AbsoluteAddress(index, rel).value, g.shape)
    ensures NeighbourValue(g, e, index, rel) == Success(g.cells[Flatten(AbsoluteAddress(index, rel).value, g.shape)])
  {
    var abs := AbsoluteAddress(index, rel).value;
    ZeroOffsetPivot(e.offset, abs, g.shape);
  }

  /** Under a Dirichlet rule a neighbour off the board has the rule's
      constant as its state. */
  lemma {:induction false} NeighbourOffBoardDirichlet(g: Grid, e: Edgerule, index: seq<int>, rel: seq<int>)
    requires g.Valid() && e.kind == Dirichlet && ZeroOffset(e.offset) && |index| == |g.shape| > 0 && |rel| >= |index|
    requires !InShape(AbsoluteAddress(index, rel).value, g.shape)
    ensures NeighbourValue(g, e, index, rel) == Success(e.constant)
  {
    DirichletResolve(e, AbsoluteAddress(index, rel).value, g.shape);
  }

  /** Under the 'D' and 'N' modes on a board without an empty axis, every
      lookup of a long enough offset succeeds. */
  lemma {:induction false} NeighbourDefined(g: Grid, e: Edgerule, index: seq<int>, rel: seq<int>)
    requires g.Valid() && e.kind != Wrap && ZeroOffset(e.offset) && |index| == |g.shape| > 0 && Positive(g.shape)
    requires |rel| >= |index|
    ensures NeighbourValue(g, e, index, rel).Success?
  {
    EdgeResolveInShape(e, AbsoluteAddress(index, rel).value, g.shape);
  }

  /** On the plain torus a neighbour is the cell at its address reduced
      modulo the axes. */
  lemma {:induction false} NeighbourTorus(g: Grid, e: Edgerule, index: seq<int>, rel: seq<int>)
    requires g.Valid() && e.kind == Wrap && ZeroOffset(e.offset) && |index| == |g.shape| > 0 && Positive(g.shape)
    requires |rel| >= |index|
    ensures var abs := AbsoluteAddress(index, rel).value;
            var torus := seq(|abs|, i requires 0 <= i < |abs| => abs[i] % g.shape[i]);
            InShape(torus, g.shape) && NeighbourValue(g, e, index, rel) == Success(g.cells[Flatten(torus, g.shape)])
  {
    var abs := AbsoluteAddress(index, rel).value;
    TorusResolve(e, abs, g.shape);
  }

  /** The next state of the cell at address `a`: the transition applied to
      its neighbour states. */
  function NextCell(g: Grid, e: Edgerule, offs: seq<seq<int>>, t: Transition, a: seq<int>): Result<int>
    requires g.Valid()
  {
    match NeighbourList(g, e, a, offs)
    case Failure(err) => Failure(err)
    case Success(ns) => t.Call(ns)
  }

  /** The next states of all cells, in row-major order (`np.ndenumerate`). */
  function CellResults(g: Grid, e: Edgerule, offs: seq<seq<int>>, t: Transition): (rs: seq<Result<int>>)
    requires g.Valid()
    ensures |rs| == |g.cells|
    ensures forall k :: 0 <= k < |rs| ==> rs[k] == NextCell(g, e, offs, t, Unflatten(k, g.shape))
  {
    seq(|g.cells|, k requires 0 <= k < |g.cells| => NextCell(g, e, offs, t, Unflatten(k, g.shape)))
  }

  /** The grid of the next generation, or the first error met. */
  function Successor(g: Grid, e: Edgerule, offs: seq<seq<int>>, t: Transition): (r: Result<Grid>)
    requires g.Valid()
    ensures r.Success? ==> r.value.Valid() && r.value.shape == g.shape
  {
    match Collect(CellResults(g, e, offs, t))
    case Failure(err) => Failure(err)
    case Success(cs) => Success(Grid(g.shape, cs))
  }

  /** Every cell of the next generation is the transition applied to the
      neighbour states of that cell, all read from the previous grid. */
  lemma {:induction false} SuccessorAt(g: Grid, e: Edgerule, offs: seq<seq<int>>, t: Transition, a: seq<int>)
    requires g.Valid() && InShape(a, g.shape)
    ensures Successor(g, e, offs, t).Success? ==> NextCell(g, e, offs, t, a).Success?
    ensures Successor(g, e, offs, t).Success? ==> Successor(g, e, offs, t).value.Read(a) == NextCell(g, e, offs, t, a)
  {
    if Successor(g, e, offs, t).Success? {
      var rs := CellResults(g, e, offs, t);
      CollectSuccess(rs);
      var k := Flatten(a, g.shape);
      UnflattenFlatten(a, g.shape);
      assert rs[k] == NextCell(g, e, offs, t, a);
    }
  }

  /** The generation fails exactly when some cell's next state fails, and
      then with the error of the first such cell in row-major order. */
  lemma {:induction false} SuccessorFailure(g: Grid, e: Edgerule, offs: seq<seq<int>>, t: Transition)
    requires g.Valid()
    ensures Successor(g, e, offs, t).Failure? <==>
              exists a :: InShape(a, g.shape) && NextCell(g, e, offs, t, a).Failure?
    ensures Successor(g, e, offs, t).Failure? ==>
              exists a :: InShape(a, g.shape) && NextCell(g, e, offs, t, a) == Failure(Successor(g, e, offs, t).error)
                          && forall b :: InShape(b, g.shape) && Flatten(b, g.shape) < Flatten(a, g.shape) ==>
                               NextCell(g, e, offs, t, b).Success?
  {
    var rs := CellResults(g, e, offs, t);
    CollectSuccess(rs);
    if Successor(g, e, offs, t).Failure? {
      CollectFailure(rs);
      var k :| 0 <= k < |rs| && rs[k] == Failure(Collect(rs).error) && forall j :: 0 <= j < k ==> rs[j].Success?;
      var a := Unflatten(k, g.shape);
      FlattenUnflatten(k, g.shape);
      forall b | InShape(b, g.shape) && Flatten(b, g.shape) < Flatten(a, g.shape)
        ensures NextCell(g, e, offs, t, b).Success?
      {
        UnflattenFlatten(b, g.shape);
        assert rs[Flatten(b, g.shape)] == NextCell(g, e, offs, t, b);
      }
    } else {
      forall a | InShape(a, g.shape)
        ensures NextCell(g, e, offs, t, a).Success?
      {
        UnflattenFlatten(a, g.shape);
        assert rs[Flatten(a, g.shape)] == NextCell(g, e, offs, t, a);
      }
    }
  }

  /** `nextstate` on a grid value: the new grid and success, or the old grid
      and the error. */
  function Step(g: Grid, e: Edgerule, offs: seq<seq<int>>, t: Transition): (r: (Grid, Outcome))
    requires g.Valid()
    ensures r.0.Valid() && r.0.shape == g.shape
    ensures r.1.Fail? ==> r.0 == g
  {
    match Successor(g, e, offs, t)
    case Failure(err) => (g, Fail(err))
    case Success(h) => (h, Pass)
  }

  /** n generations, stopping at the first failing one; the grid is the one
      the last successful generation left. */
  function Run(g: Grid, e: Edgerule, offs: seq<seq<int>>, t: Transition, n: nat): (r: (Grid, Outcome))
    requires g.Valid()
    ensures r.0.Valid() && r.0.shape == g.shape
    decreases n
  {
    if n == 0 then (g, Pass)
    else
      var s := Step(g, e, offs, t);
      if s.1.Fail? then s else Run(s.0, e, offs, t, n - 1)
  }

  /** One generation, then the rest of the run. */
  lemma RunUnfold(g: Grid, e: Edgerule, offs: seq<seq<int>>, t: Transition, n: nat)
    requires g.Valid() && n > 0
    ensures Step(g, e, offs, t).1.Fail? ==> Run(g, e, offs, t, n) == Step(g, e, offs, t)
    ensures Step(g, e, offs, t).1.Pass? ==> Run(g, e, offs, t, n) == Run(Step(g, e, offs, t).0, e, offs, t, n - 1)
  {
  }

  /** Running m generations and then n more is running m + n generations;
      a failure within the first m ends the run there. */
  predicate Additive(g: Grid, e: Edgerule, offs: seq<seq<int>>, t: Transition, m: nat, n: nat)
    requires g.Valid()
  {
    (Run(g, e, offs, t, m).1.Fail? ==> Run(g, e, offs, t, m + n) == Run(g, e, offs, t, m))
    && (Run(g, e, offs, t, m).1.Pass? ==> Run(g, e, offs, t, m + n) == Run(Run(g, e, offs, t, m).0, e, offs, t, n))
  }

  lemma {:induction false} RunAdditive(g: Grid, e: Edgerule, offs: seq<seq<int>>, t: Transition, m: nat, n: nat)
    requires g.Valid()
    ensures Additive(g, e, offs, t, m, n)
    decreases m
  {
    if m == 0 {
      RunAdditiveBase(g, e, offs, t, n);
    } else if Step(g, e, offs, t).1.Fail? {
      RunAdditiveFail(g, e, offs, t, m, n);
    } else {
      var h := Step(g, e, offs, t).0;
      var k: nat := m - 1;
      RunAdditive(h, e, offs, t, k, n);
      RunAdditiveStep(g, h, e, offs, t, k, n);
    }
  }

  lemma RunAdditiveBase(g: Grid, e: Edgerule, offs: seq<seq<int>>, t: Transition, n: nat)
    requires g.Valid()
    ensures Additive(g, e, offs, t, 0, n)
  {
    assert Run(g, e, offs, t, 0) == (g, Pass);
  }

  lemma RunAdditiveFail(g: Grid, e: Edgerule, offs: seq<seq<int>>, t: Transition, m: nat, n: nat)
    requires g.Valid() && m > 0 && Step(g, e, offs, t).1.Fail?
    ensures Additive(g, e, offs, t, m, n)
  {
    RunUnfold(g, e, offs, t, m);
    RunUnfold(g, e, offs, t, m + n);
  }

  lemma RunAdditiveStep(g: Grid, h: Grid, e: Edgerule, offs: seq<seq<int>>, t: Transition, k: nat, n: nat)
    requires g.Valid() && Step(g, e, offs, t) == (h, Pass)
    requires Additive(h, e, offs, t, k, n)
    ensures Additive(g, e, offs, t, k + 1, n)
  {
    RunUnfold(g, e, offs, t, k + 1);
    RunUnfold(g, e, offs, t, k + 1 + n);
    assert k + 1 + n - 1 == k + n;
  }

  /** The number of generations `advance` runs: a missing count or 0 means
      one; a negative count runs `range(steps)`, which is empty. */
  function StepCount(steps: Option<int>): (n: nat)
    ensures steps == None || steps == Some(0) ==> n == 1
    ensures steps.Some? && steps.value < 0 ==> n == 0
    ensures steps.Some? && steps.value > 0 ==> n == steps.value
  {
    match steps
    case None => 1
    case Some(s) => if s == 0 then 1 else if s < 0 then 0 else s
  }

  // ---------------------------------------------------------------------
  // The board object
  // ---------------------------------------------------------------------

  class Board {
    const shape: seq<nat>
    var cells: array<int>
    const edgerules: Edgerule

    predicate Valid()
      reads this
    {
      cells.Length == Product(shape)
    }

    /** The board's current grid. */
    function Contents(): Grid
      reads this, cells
    {
      Grid(shape, cells[..])
    }

    /** `Board(matrix, edgerules)`: the board keeps the caller's array
        itself, not a copy. */
    constructor (matrix: array<int>, shape: seq<nat>, edgerules: Edgerule)
      requires matrix.Length == Product(shape)
      ensures Valid() && cells == matrix && this.shape == shape && this.edgerules == edgerules
    {
      this.shape := shape;
      this.edgerules := edgerules;
      cells := matrix;
    }

    /** `Emptyboard(dimensions, edgerules)`: a fresh all-zero grid. */
    constructor Empty(dimensions: seq<nat>, edgerules: Edgerule)
      ensures Valid() && fresh(cells) && shape == dimensions && this.edgerules == edgerules
      ensures forall a :: InShape(a, dimensions) ==> Contents().Read(a) == Success(0)
    {
      shape := dimensions;
      this.edgerules := edgerules;
      cells := new int[Product(dimensions)](_ => 0);
      new;
      forall a | InShape(a, dimensions)
        ensures Contents().Read(a) == Success(0)
      {
        assert cells[Flatten(a, dimensions)] == 0;
      }
    }

    /** `board[index]` for a full index tuple. */
    function Get(index: seq<int>): (r: Result<int>)
      reads this, cells
      requires Valid() && |index| >= |shape|
      ensures r.Success? <==> Addressable(index, shape)
      ensures r.Failure? ==> r.error == IndexOutOfRange
      ensures r.Success? ==> r.value == cells[Flatten(Normalise(index, shape), shape)]
    {
      Contents().Read(index)
    }

    /** `board[index] = val` for a full index tuple: the one addressed cell
        changes, every other cell keeps its state. */
    method Set(index: seq<int>, val: int) returns (r: Outcome)
      requires Valid() && |index| >= |shape|
      modifies cells
      ensures r.Pass? <==> Addressable(index, shape)
      ensures r.Fail? ==> r.error == IndexOutOfRange && cells[..] == old(cells[..])
      ensures r.Pass? ==> cells[..] == old(cells[..])[Flatten(Normalise(index, shape), shape) := val]
      ensures r.Pass? ==> Get(index) == Success(val)
      ensures r.Pass? ==> forall b :: InShape(b, shape) && b != Normalise(index, shape) ==> Get(b) == old(Get(b))
    {
      if !Addressable(index, shape) {
        return Fail(IndexOutOfRange);
      }
      var a := Normalise(index, shape);
      var k := Flatten(a, shape);
      cells[k] := val;
      forall b | InShape(b, shape) && b != a
        ensures Get(b) == old(Get(b))
      {
        if Flatten(b, shape) == k {
          FlattenInjective(b, a, shape);
        }
      }
      return Pass;
    }

    /** `Board.neighbourhood(index, adresses)`: the neighbour states in the
        order of the neighbourhood's offsets. The board is not changed. */
    method NeighbourStates(index: seq<int>, adresses: Neighbourhood) returns (r: Result<seq<int>>)
      requires Valid()
      ensures r == NeighbourList(Contents(), edgerules, index, adresses.neighbours)
    {
      var offs := adresses.neighbours;
      ghost var rs := NeighbourValues(Contents(), edgerules, index, offs);
      var neighbours: seq<int> := [];
      for k := 0 to |offs|
        invariant Collect(rs[..k]) == Success(neighbours)
      {
        var abs := AbsoluteAddress(index, offs[k]);
        var neighbour: Result<int>;
        if abs.Failure? {
          neighbour := Failure(abs.error);
        } else {
          var resolved := Resolve(edgerules, abs.value, shape);
          if resolved.Failure? {
            neighbour := Failure(resolved.error);
          } else if resolved.value.Constant? {
            neighbour := Success(resolved.value.value);
          } else {
            neighbour := Get(resolved.value.address);
          }
        }
        assert neighbour == rs[k];
        if neighbour.Failure? {
          CollectStopsAt(rs, k);
          return Failure(neighbour.error);
        }
        CollectSnoc(rs, k, neighbours);
        neighbours := neighbours + [neighbour.value];
      }
      assert rs[..|offs|] == rs;
      return Success(neighbours);
    }

    /** `Board.nextstate(rule)`: ValueError without a rule; otherwise every
        cell's next state is computed from the current grid into a fresh
        zero grid, which then replaces the board's grid. On an error the
        board keeps its grid. */
    method NextState(rule: Option<Rule>) returns (r: Outcome)
      requires Valid()
      modifies this
      ensures Valid()
      ensures rule.None? ==> r == Fail(NoRule)
      ensures rule.Some? ==>
                (Contents(), r) == Step(old(Contents()), edgerules, rule.value.neighbourhood.neighbours, rule.value.transition)
      ensures r.Pass? ==> fresh(cells)
      ensures r.Fail? ==> cells == old(cells)
    {
      if rule.None? {
        return Fail(NoRule);
      }
      var adressbook := rule.value.neighbourhood;
      var t := rule.value.transition;
      ghost var g := Contents();
      ghost var rs := CellResults(g, edgerules, adressbook.neighbours, t);
      var next := new int[cells.Length](_ => 0);
      var k := 0;
      while k < cells.Length
        invariant 0 <= k <= cells.Length == next.Length == |rs|
        invariant cells == old(cells) && Contents() == g
        invariant Collect(rs[..k]) == Success(next[..k])
      {
        var state := CellState(Unflatten(k, shape), adressbook, t);
        if state.Failure? {
          CollectStopsAt(rs, k);
          return Fail(state.error);
        }
        ghost var done := next[..k];
        CollectSnoc(rs, k, done);
        next[k] := state.value;
        assert next[..k + 1] == done + [state.value];
        k := k + 1;
      }
      assert rs[..k] == rs;
      assert next[..] == next[..k];
      cells := next;
      return Pass;
    }

    /** The body of the `nextstate` loop for one cell: its neighbour states
        gathered from the current grid, then the transition applied. */
    method CellState(index: seq<int>, adressbook: Neighbourhood, t: Transition) returns (state: Result<int>)
      requires Valid()
      ensures state == NextCell(Contents(), edgerules, adressbook.neighbours, t, index)
    {
      var neighbours := NeighbourStates(index, adressbook);
      if neighbours.Failure? {
        state := Failure(neighbours.error);
      } else {
        state := t.Call(neighbours.value);
      }
    }

    /** `Board.advance(rule, steps)`: ValueError without a rule; otherwise
        `nextstate` repeated StepCount(steps) times. A failing generation
        stops the run and leaves the grid of the generations before it. */
    method Advance(rule: Option<Rule>, steps: Option<int>) returns (r: Outcome)
      requires Valid()
      modifies this
      ensures Valid()
      ensures rule.None? ==> r == Fail(NoRule) && cells == old(cells)
      ensures rule.Some? ==>
                (Contents(), r) == Run(old(Contents()), edgerules, rule.value.neighbourhood.neighbours, rule.value.transition, StepCount(steps))
    {
      if rule.None? {
        return Fail(NoRule);
      }
      var n := StepCount(steps);
      ghost var offs := rule.value.neighbourhood.neighbours;
      ghost var t := rule.value.transition;
      ghost var goal := Run(Contents(), edgerules, offs, t, n);
      for i := 0 to n
        invariant Valid()
        invariant Run(Contents(), edgerules, offs, t, n - i) == goal
      {
        ghost var before := Contents();
        ghost var step := Step(before, edgerules, offs, t);
        RunUnfold(before, edgerules, offs, t, n - i);
        r := NextState(rule);
        assert (Contents(), r) == step;
        if r.Fail? {
          return;
        }
      }
      return Pass;
    }
  }

  /** A board with a stored rule. Only the stored-rule fallback of
      `nextstate` is modelled; the Python constructor cannot run. */
  class Automata {
    const board: Board
    var rules: Option<Rule>

    constructor (board: Board, rules: Option<Rule>)
      ensures this.board == board && this.rules == rules
    {
      this.board := board;
      this.rules := rules;
    }

    /** `Automata.nextstate(rules)`: the given rule, or the stored one when
        none is given. */
    method NextState(rules: Option<Rule>) returns (r: Outcome)
      requires board.Valid()
      modifies board
      ensures board.Valid()
      ensures rules.None? && this.rules.None? ==> r == Fail(NoRule) && board.cells == old(board.cells)
      ensures rules.Some? ==>
                (board.Contents(), r) == Step(old(board.Contents()), board.edgerules, rules.value.neighbourhood.neighbours, rules.value.transition)
      ensures rules.None? && this.rules.Some? ==>
                (board.Contents(), r) == Step(old(board.Contents()), board.edgerules, this.rules.value.neighbourhood.neighbours, this.rules.value.transition)
    {
      var chosen := if rules.None? then this.rules else rules;
      r := board.NextState(chosen);
    }
  }
}
