# A verified model of the `class_code.py` cellular-automaton engine

The engine runs a discrete cellular automaton on an N-dimensional grid of
integer states. Its parts are:

- a **neighbourhood**: an ordered list of relative offsets;
- the **Moore** and **von Neumann factories**, which build the offsets of a
  Chebyshev or Manhattan ball one axis at a time;
- a **boundary rule** (`Edgerule`), which answers a lookup outside the
  board with a constant (Dirichlet), an edge cell (`'N'` mode), or a
  sheared wrap-around address;
- a **rule**: a neighbourhood plus a transition function, either custom or
  totalistic (birth/survival lists);
- a **board**, which gathers each cell's neighbour states through the
  boundary rule and computes the next generation synchronously into a fresh
  zero grid.

The model has six modules:

| module | models |
|---|---|
| `Common` | exceptions as an `Error` datatype, result types, Python list indexing, and "collect results in order, stop at the first error" |
| `Grids` | row-major storage with a proven address/position bijection, and NumPy's index rules including negative indices |
| `Neighbourhoods` | the `Neighbourhood` class and both factories; the in-place nested loop is proved equal to a recursive definition, and facts about that definition are proved |
| `Edgerules` | the constructor and resolver exactly as written |
| `Rules` | transition functions |
| `Boards` | a specification of one generation on grid values, plus a `Board` class over an `array<int>` whose methods are proved against it |

The grid is stored flat in row-major order, the order `np.ndenumerate`
visits cells.

Where the code and its docstrings disagree, the model follows the code:

- The `'N'` mode is described as a von Neumann boundary. For an address off
  the board, the code moves every non-negative component to the last index
  of its axis, including components that were already in range
  (class_code.py:146). `Edgerules.NeumannMovesInRangeComponent` exhibits this.
- The in-range test adds the offset to the address (class_code.py:141). With
  a non-zero offset, an address that names no cell can therefore come back
  unchanged. Reading it fails when a component is at or past its axis length,
  or below minus that length (`Edgerules.ShearedTestPassesOutsideAddress`).
  A component in [-length, 0) is read by NumPy's negative indexing from the
  other end of the axis, with no error (`Edgerules.ShearedTestPassesNegativeAddress`).
- `Neighbourhood.__setitem__` does not check the dimension of the new
  offset, and neither does the model.
- `Totalistic` does not check that states are 0 or 1. A cell whose state is
  neither becomes 0.
- `advance` raises no error for a negative step count. It runs
  `range(steps)`, which is empty, so the board is unchanged.

## Model

| member | source | states |
|---|---|---|
| Common.PyIndex | class_code.py:39 | a Python list index is accepted exactly in [-n, n), and a negative one counts from the end |
| Common.CollectSuccess | class_code.py:282-291 | gathering results in order succeeds exactly when every element succeeds, and then yields their values position by position |
| Common.CollectFailure | class_code.py:282-291 | a failed gathering reports the error of the first failing element |
| Common.CollectFirstFailure | class_code.py:312-314 | the first failure in order is the one reported |
| Grids.Flatten | class_code.py:312 | a cell's row-major position is below the cell count |
| Grids.Unflatten | class_code.py:312 | the position-to-address conversion yields an in-range address |
| Grids.UnflattenFlatten | class_code.py:312 | Unflatten inverts Flatten |
| Grids.FlattenUnflatten | class_code.py:312 | Flatten inverts Unflatten, so positions and addresses are in bijection |
| Grids.FlattenInjective | class_code.py:375 | distinct cells have distinct positions |
| Grids.Normalise | class_code.py:357 | a NumPy index within [-n, n) on each axis reaches the cell counted from the end for negative components |
| Grids.Grid.Read | class_code.py:357 | reading succeeds exactly for NumPy-addressable indices, otherwise IndexError; a negative component reads the cell counted from the end of its axis (the normalised index), so an in-range index reads its own cell |
| Neighbourhoods.Neighbourhood.New | class_code.py:19-22 | an empty list raises IndexError; offsets of mixed lengths raise ValueError; otherwise the neighbourhood holds exactly the given list |
| Neighbourhoods.Neighbourhood.constructor | class_code.py:22 | the bare assignment that `New` guards: the neighbourhood holds exactly the given list |
| Neighbourhoods.Neighbourhood.Get | class_code.py:39 | Python list indexing of the offsets |
| Neighbourhoods.Neighbourhood.Set | class_code.py:57 | an accepted index replaces exactly that offset and reading it back gives the new value; a bad index raises IndexError and changes nothing |
| Neighbourhoods.Expand | class_code.py:511-517 | the in-place nested loop produces exactly the list the recursive axis-by-axis definition Build gives |
| Neighbourhoods.ExpandLayer | class_code.py:513-517 | one pass of the middle loop turns a layer into exactly its extension by one axis: each vector extended by 0 in place, followed by the appended variants |
| Neighbourhoods.AppendPairs | class_code.py:516-517 | the innermost loop appends exactly the `+d`/`-d` extensions for d = 1 .. reach, after what was already there |
| Neighbourhoods.BuildGood | class_code.py:511-517 | every offset has `dim` components and lies in the ball: each component in [-length, length] (Moore), or Manhattan norm at most `length` (von Neumann) |
| Neighbourhoods.BuildZeroFirst | class_code.py:511-517 | the list is non-empty and its first offset is the all-zero vector |
| Neighbourhoods.BuildComplete | class_code.py:569-576 | every integer vector of the ball appears in the list |
| Neighbourhoods.MooreCount | class_code.py:511-517 | the Moore list has exactly (2·length+1)^dim offsets |
| Neighbourhoods.FactoryArguments | class_code.py:498-505 | a missing or zero `dim` means 2 and a missing or zero `length` means 1; a negative `dim` raises first, then a negative `length`; the values used are at least 1 |
| Neighbourhoods.Moorehood | class_code.py:498-518 | on invalid arguments, the argument error; otherwise a new neighbourhood holding the Chebyshev expansion |
| Neighbourhoods.Neumannhood | class_code.py:556-577 | on invalid arguments, the argument error; otherwise a new neighbourhood holding the Manhattan expansion |
| Edgerules.NewEdgerule | class_code.py:101-110 | 'D' and 'N' keep their mode and get the offset (0,); any other mode means wrap with constant 0; a missing or empty offset becomes (0,); a missing constant becomes 0 |
| Edgerules.Pivot | class_code.py:140 | the pivot `zeroindex` is a valid axis below the address length, holds a zero, and no zero comes before it |
| Edgerules.Resolve | class_code.py:132-150 | a length mismatch raises; a long offset without a zero among the relevant entries raises; division by zero happens exactly in wrap mode off the test on a board with an empty axis; otherwise an address passing the in-range test succeeds and is returned unchanged; off the test, Dirichlet gives its constant, 'N' the edge substitute, and wrap on a board without an empty axis the sheared address, which names a cell of the board |
| Edgerules.Sheared | class_code.py:149 | the wrap formula yields an in-range address, each component `(a[i] + o[i]·(a[z] div s[z])) mod s[i]` |
| Edgerules.EdgeAddress | class_code.py:146 | the 'N' substitute is 0 for a negative component and the last index of the axis otherwise |
| Edgerules.DirichletResolve | class_code.py:141-144 | with its (0,) offset, Dirichlet returns a board cell itself and the constant for every address off the board |
| Edgerules.NeumannResolve | class_code.py:141-147 | with its (0,) offset, 'N' returns a board cell itself and the edge substitute for every address off the board |
| Edgerules.EdgeResolveInShape | class_code.py:141-147 | for 'D' and 'N' on a board without an empty axis, resolution never fails, and every returned address names a cell |
| Edgerules.NeumannMovesInRangeComponent | class_code.py:146 | the address (2, -1) on a 5×5 board resolves to (4, 0), moving the in-range first component as well |
| Edgerules.TorusResolve | class_code.py:141-150 | wrap mode with an all-zero offset is the plain torus: every address resolves to its components modulo their axes |
| Edgerules.TorusPeriodic | class_code.py:149 | on the plain torus, moving an address along an axis by whole periods does not change what it resolves to |
| Edgerules.ShearedPeriodic | class_code.py:149 | the wrap formula is periodic along every axis other than the pivot |
| Edgerules.ShearedAlongPivot | class_code.py:149 | one more period on the pivot coordinate shifts every other coordinate by its offset, modulo its axis |
| Edgerules.ShearedTestPassesOutsideAddress | class_code.py:141 | with offset (-1, 0), the address (5, 2) on a 5×5 board is returned unchanged although it names no cell, and reading it raises IndexError |
| Edgerules.ShearedTestPassesNegativeAddress | class_code.py:141 | with offset (1, 0), the address (-1, 2) on a 5×5 board is returned unchanged although it names no cell, and NumPy reads cell (4, 2) from it |
| Rules.Transition.Call | class_code.py:217-219 | no function set raises ValueError; otherwise the function applied to the neighbour tuple |
| Rules.TotalisticNext | class_code.py:442-447 | an empty tuple raises IndexError; the result is 0 or 1; it is 1 exactly for a dead cell whose live-neighbour count is in `birth`, or a live cell whose count is in `live`; empty lists always give 0 |
| Rules.SumPermutation | class_code.py:443-444 | the sum of the states does not depend on their order |
| Rules.TotalisticSymmetric | class_code.py:442-447 | a totalistic rule depends only on the cell's own state and the multiset of its neighbours' states |
| Boards.AbsoluteAddress | class_code.py:284 | the absolute address is index plus offset on the index's axes; an offset with too few components raises IndexError |
| Boards.NeighbourListSpec | class_code.py:282-291 | the neighbour list has one state per offset, in offset order, each the boundary constant or the grid read at the resolved address; it fails exactly when some lookup fails, with the first error |
| Boards.NeighbourOnBoard | class_code.py:283-290 | with a zero offset, a neighbour lying on the board is read from the board in every mode |
| Boards.NeighbourOffBoardDirichlet | class_code.py:283-290 | under Dirichlet, a neighbour off the board has the constant as its state |
| Boards.NeighbourDefined | class_code.py:283-290 | under 'D' and 'N' on a board without an empty axis, every lookup succeeds |
| Boards.NeighbourTorus | class_code.py:283-290 | on the plain torus, a neighbour is the cell at its address reduced modulo the axes |
| Boards.Successor | class_code.py:310-316 | the next generation has the shape of the old one |
| Boards.SuccessorAt | class_code.py:312-314 | each cell of the next generation is the rule applied to that cell's neighbour states, read from the previous grid |
| Boards.SuccessorFailure | class_code.py:312-314 | a generation fails exactly when some cell fails, and with the error of the first such cell in row-major order |
| Boards.Step | class_code.py:308-316 | a failed generation leaves the grid as it was; a successful one keeps the shape |
| Boards.Run | class_code.py:339-340 | repeated generations keep the shape |
| Boards.RunAdditive | class_code.py:339-340 | m generations followed by n more are m + n generations, and a failure in the first m ends the run |
| Boards.StepCount | class_code.py:336-339 | a missing or zero count means one generation; a negative count means none; a positive count is used as given |
| Boards.Board.constructor | class_code.py:262-263 | the board keeps the caller's array itself, with the given shape and boundary rule |
| Boards.Board.Empty | class_code.py:418-419 | a fresh all-zero grid of the given dimensions |
| Boards.Board.Get | class_code.py:357 | reading succeeds exactly for NumPy-addressable indices, otherwise IndexError, and yields the addressed cell |
| Boards.Board.Set | class_code.py:375 | writing to an addressable index changes exactly that cell, and reading it back gives the new value; otherwise IndexError and no change |
| Boards.Board.NeighbourStates | class_code.py:282-291 | the loop returns exactly the neighbour list of the current grid, and does not change the board |
| Boards.Board.CellState | class_code.py:313-314 | one cell's next state, computed from the current grid |
| Boards.Board.NextState | class_code.py:308-316 | no rule raises ValueError; otherwise the board ends in the grid the generation specification gives, in a fresh array; on any error the board keeps its grid |
| Boards.Board.Advance | class_code.py:334-340 | no rule raises ValueError; otherwise the board and the outcome are those of StepCount(steps) repeated generations |
| Boards.Automata.NextState | class_code.py:631-633 | the given rule is used, or the stored one when none is given; with neither, ValueError |

## Left out

- `__str__` and `__repr__` methods: they only format text.
- example_uses.py and the commented-out demonstration and interactive blocks (class_code.py:670-729): they are I/O and dead code.
- `Automata.__init__` (class_code.py:612): it passes an extra argument to `Board.__init__` and cannot run. `Boards.Automata.constructor` only pairs a board with a stored rule.
- `Automata.advance` (class_code.py:654): it passes `(steps, rules)` to `Board.advance` in the wrong order, and its defaulting of `steps` comes after the call. It is not modelled.
- The `length == 0` branches of the factories (class_code.py:508, class_code.py:566) are unreachable, because a zero length becomes 1. They are not written.
- NumPy element types: states are unbounded integers. The fixed-width `int` dtype of `np.zeros`, its overflow, and conversion of other dtypes on assignment are not modelled.
- Boards.Board.Get: an index with fewer components than the board has axes selects a sub-array in NumPy. The model requires at least as many components as axes.
- Boards.Board.Set: under the same requirement, sub-array assignment and broadcasting are not modelled.
- Boards.Board.Empty: negative dimensions, which make `np.zeros` raise, are excluded by the type of `dimensions`.
- Rules.Transition.Call: a custom transition is a total Dafny function. A Python callable that raises, loops or returns a non-integer is not modelled.
- Python truthiness beyond the defaults above: `None` and a falsy value are both treated as a missing argument, and a rule or neighbourhood object is always truthy.
- Neighbourhoods.Moorehood: the factories construct the neighbourhood directly. The dimension check of `Neighbourhood.__init__` cannot fail on an expansion, whose offsets all have `dim` components (Neighbourhoods.BuildGood).
- Neighbourhoods.Neumannhood: the number of von Neumann offsets and the absence of duplicates are not proved. Completeness and bounds are.
- `Neighbourhood.__init__` keeps the caller's list object (class_code.py:22), and `__setitem__` mutates that list in place (class_code.py:57). The model stores the offsets as a value, so a caller holding the same list does not see the update.
- `Board.neighbourhood` iterates a `Neighbourhood` through `__getitem__` until IndexError, which visits the offsets in order. The model reads the offset list directly.
