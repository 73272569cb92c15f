/** The SpaceRun track: an ordered list of integer grid cells (lane, row)
    that the game prunes behind the player and extends ahead of it with
    straight steps and L-shaped bends.  Everything here is a pure
    specification; the widget in module Game runs the same steps in place
    and is proved equal to these functions. */
module Track {

  /** One grid cell of the path: `lane` is the signed column (0 is the
      centre), `row` counts forward. */
  datatype Cell = Cell(lane: int, row: int)

  /** A result of `random.randint(0, 2)`: 0 straight, 1 right bend, 2 left bend.
      The random source is a stream of draws indexed from 0. */
  type Draw = r: int | 0 <= r <= 2

  const NumVerticalLines: int := 18
  /** Lowest lane index, `-int(NUM_VERTICAL_LINES / 2) + 1`, that is -8. */
  const StartIndex: int := -(NumVerticalLines / 2) + 1
  /** `start_index + NUM_VERTICAL_LINES - 1`, that is 9; tiles use lanes up to 8. */
  const EndIndex: int := StartIndex + NumVerticalLines - 1
  const NumTiles: nat := 12
  const InitialStraightPathLength: nat := 15

  const Straight: Draw := 0
  const RightBend: Draw := 1
  const LeftBend: Draw := 2

  /** The generator's state: the path, the row the player has reached
      (`current_y_loop`) and how many random draws have been consumed. */
  datatype Track = Track(tiles: seq<Cell>, yLoop: int, drawn: int)

  // ---------------------------------------------------------------------
  // Shapes of paths

  predicate InLanes(c: Cell) {
    StartIndex <= c.lane <= EndIndex - 1
  }

  /** A one-lane sideways step within a row. */
  predicate Lateral(a: Cell, b: Cell) {
    b.row == a.row && (b.lane == a.lane + 1 || b.lane == a.lane - 1)
  }

  /** A one-row step forward within a lane. */
  predicate Forward(a: Cell, b: Cell) {
    b.lane == a.lane && b.row == a.row + 1
  }

  predicate Adjacent(a: Cell, b: Cell) {
    Lateral(a, b) || Forward(a, b)
  }

  /** The step from cell `i` to cell `i + 1` is a grid neighbour step. */
  predicate StepAt(s: seq<Cell>, i: int)
    requires 0 <= i < |s| - 1
  {
    Adjacent(s[i], s[i + 1])
  }

  /** A sideways step at `i` is followed by a forward step. */
  predicate TurnAt(s: seq<Cell>, i: int)
    requires 0 <= i < |s| - 2
  {
    Lateral(s[i], s[i + 1]) ==> Forward(s[i + 1], s[i + 2])
  }

  /** Every cell lies inside the lane bounds, consecutive cells are grid
      neighbours, and a sideways step is always followed by a forward one. */
  predicate WellFormed(s: seq<Cell>) {
    (forall i :: 0 <= i < |s| ==> InLanes(s[i])) &&
    (forall i :: 0 <= i < |s| - 1 ==> StepAt(s, i)) &&
    (forall i :: 0 <= i < |s| - 2 ==> TurnAt(s, i))
  }

  predicate RowsNonDecreasing(s: seq<Cell>) {
    forall i, j :: 0 <= i <= j < |s| ==> s[i].row <= s[j].row
  }

  /** The state the game keeps between frames while it runs: a well-formed
      path of at least NUM_TILES cells, none of them behind the player, whose
      last cell is at least one row ahead of the player. */
  predicate PlayInvariant(t: Track) {
    WellFormed(t.tiles) &&
    |t.tiles| >= NumTiles &&
    (forall i :: 0 <= i < |t.tiles| ==> t.tiles[i].row >= t.yLoop) &&
    t.tiles[|t.tiles| - 1].row > t.yLoop
  }

  // ---------------------------------------------------------------------
  // The operations

  /** `prefill_tiles_coordinates` on an empty list: the straight run
      (0, 0), (0, 1), ..., (0, 14). */
  function Prefill(): (s: seq<Cell>)
    ensures |s| == InitialStraightPathLength
    ensures forall i :: 0 <= i < |s| ==> s[i] == Cell(0, i)
  {
    seq(InitialStraightPathLength, i => Cell(0, i))
  }

  /** The list left by the deletion loop: the cells whose row is not behind
      `yLoop`, in their original order. */
  function Prune(s: seq<Cell>, yLoop: int): (r: seq<Cell>)
    ensures |r| <= |s|
  {
    if s == [] then []
    else (if s[0].row < yLoop then [] else [s[0]]) + Prune(s[1..], yLoop)
  }

  /** The bend actually taken at `lane` for draw `r`: a draw is overridden
      next to either edge so that the lane stays inside the bounds. */
  function Direction(lane: int, r: Draw): (d: Draw)
    ensures lane <= StartIndex ==> d == RightBend
    ensures lane >= EndIndex - 1 ==> d == LeftBend
    ensures StartIndex < lane < EndIndex - 1 ==> d == r
  {
    var forced := if lane <= StartIndex then RightBend else r;
    if lane >= EndIndex - 1 then LeftBend else forced
  }

  /** Lane change of a step in direction `d`. */
  function Shift(d: Draw): (s: int) {
    if d == RightBend then 1 else if d == LeftBend then -1 else 0
  }

  /** Where the next iteration of the generation loop starts after the
      iteration from `c` that uses the draw at position `pos`: a straight
      uses one row, a bend two. */
  function NextStart(c: Cell, draws: int -> Draw, pos: int): (n: Cell)
    ensures var d := Direction(c.lane, draws(pos));
            n.row == c.row + (if d == Straight then 1 else 2) && n.lane - c.lane == Shift(d)
  {
    var d := Direction(c.lane, draws(pos));
    Cell(c.lane + Shift(d), c.row + (if d == Straight then 1 else 2))
  }

  /** The cells that the iteration from `c` using the draw at position `pos`
      appends: the cell itself, then for a bend the cell beside it and the
      one in front of that. */
  function Segment(c: Cell, draws: int -> Draw, pos: int): (r: seq<Cell>)
    ensures var d := Direction(c.lane, draws(pos));
            |r| == (if d == Straight then 1 else 3) && r[0] == c &&
            (d != Straight ==> Lateral(r[0], r[1]) && Forward(r[1], r[2]))
    ensures Forward(r[|r| - 1], NextStart(c, draws, pos))
  {
    var d := Direction(c.lane, draws(pos));
    if d == RightBend then
      [c, Cell(c.lane + 1, c.row), Cell(c.lane + 1, c.row + 1)]
    else if d == LeftBend then
      [c, Cell(c.lane - 1, c.row), Cell(c.lane - 1, c.row + 1)]
    else
      [c]
  }

  /** The iterations of the generation loop from cell `c` that use the
      random draws at positions `pos` up to `end` (exclusive), one each. */
  function Extend(c: Cell, draws: int -> Draw, pos: int, end: int): (r: seq<Cell>)
    ensures pos <= end ==> end - pos <= |r| <= 3 * (end - pos)
    ensures pos < end ==> r[0] == c
    decreases end - pos
  {
    if pos >= end then []
    else Segment(c, draws, pos) + Extend(NextStart(c, draws, pos), draws, pos + 1, end)
  }

  /** Where the generation loop stands after the iterations that use the
      draws at positions `pos` up to `end` (exclusive), starting from `c`. */
  function Cursor(c: Cell, draws: int -> Draw, pos: int, end: int): (r: Cell)
    ensures pos <= end ==> r.row >= c.row + (end - pos)
    decreases end - pos
  {
    if pos >= end then c
    else Cursor(NextStart(c, draws, pos), draws, pos + 1, end)
  }

  /** Where generation starts: one row past the last kept cell, or (0, 0)
      when pruning emptied the list. */
  function StartCell(kept: seq<Cell>): (c: Cell)
    ensures |kept| > 0 ==> Forward(kept[|kept| - 1], c)
    ensures kept == [] ==> c == Cell(0, 0)
  {
    if |kept| > 0 then Cell(kept[|kept| - 1].lane, kept[|kept| - 1].row + 1)
    else Cell(0, 0)
  }

  /** Iterations of `for i in range(len(kept), NUM_TILES)`: enough to bring
      the count up to NUM_TILES, and none once it is reached. */
  function Iterations(keptLength: nat): (n: nat)
    ensures keptLength + n >= NumTiles
    ensures n > 0 ==> keptLength + n == NumTiles
  {
    if keptLength < NumTiles then NumTiles - keptLength else 0
  }

  /** One call of `generate_tiles_coordinates`. */
  function Generate(t: Track, draws: int -> Draw): (r: Track)
    ensures r.yLoop == t.yLoop
    ensures |r.tiles| >= NumTiles
    ensures t.drawn <= r.drawn <= t.drawn + NumTiles
  {
    var kept := Prune(t.tiles, t.yLoop);
    var n := Iterations(|kept|);
    Track(kept + Extend(StartCell(kept), draws, t.drawn, t.drawn + n), t.yLoop, t.drawn + n)
  }

  /** One pass of the scroll loop's body: the player reaches the next row
      and the generator runs. */
  function NextRow(t: Track, draws: int -> Draw): (r: Track)
    ensures r.yLoop == t.yLoop + 1
    ensures t.drawn <= r.drawn <= t.drawn + NumTiles
  {
    Generate(t.(yLoop := t.yLoop + 1), draws)
  }

  /** `k` applications of `step`, starting from `t`. */
  function Iterate(step: Track -> Track, t: Track, k: nat): (r: Track)
    decreases k
  {
    if k == 0 then t else Iterate(step, step(t), k - 1)
  }

  /** One more application, added at the back. */
  lemma {:induction false} IterateStep(step: Track -> Track, t: Track, k: nat)
    ensures Iterate(step, t, k + 1) == step(Iterate(step, t, k))
    decreases k
  {
    if k > 0 {
      IterateStep(step, step(t), k - 1);
    }
  }

  /** `k` passes of the scroll loop's body move the player exactly `k`
      rows ahead. */
  lemma {:induction false} IterateNextRow(t: Track, draws: int -> Draw, k: nat)
    ensures Iterate(u => NextRow(u, draws), t, k).yLoop == t.yLoop + k
    decreases k
  {
    if k > 0 {
      IterateNextRow(NextRow(t, draws), draws, k - 1);
    }
  }

  /** `k` passes of the scroll loop's body; the player ends `k` rows ahead. */
  function Scroll(t: Track, draws: int -> Draw, k: nat): (r: Track)
    ensures r.yLoop == t.yLoop + k
  {
    IterateNextRow(t, draws, k);
    Iterate(u => NextRow(u, draws), t, k)
  }

  /** One more pass of the scroll loop, added at the back. */
  lemma ScrollStep(t: Track, draws: int -> Draw, k: nat)
    ensures Scroll(t, draws, k + 1) == NextRow(Scroll(t, draws, k), draws)
  {
    IterateStep(u => NextRow(u, draws), t, k);
  }

  // ---------------------------------------------------------------------
  // Pruning

  /** A cell occurs in the pruned list exactly as often as in the old list
      when its row is at least `yLoop`, and not at all otherwise. */
  lemma {:induction false} PruneCounts(s: seq<Cell>, yLoop: int, c: Cell)
    ensures multiset(Prune(s, yLoop))[c] == if c.row >= yLoop then multiset(s)[c] else 0
  {
    if s != [] {
      PruneCounts(s[1..], yLoop, c);
      assert s == [s[0]] + s[1..];
    }
  }

  /** Pruning a concatenation prunes each part and keeps them in order, so
      the kept cells of any list are in their original relative order. */
  lemma {:induction false} PruneAppend(a: seq<Cell>, b: seq<Cell>, yLoop: int)
    ensures Prune(a + b, yLoop) == Prune(a, yLoop) + Prune(b, yLoop)
  {
    if a != [] {
      assert (a + b)[1..] == a[1..] + b;
      PruneAppend(a[1..], b, yLoop);
    } else {
      assert a + b == b;
    }
  }

  /** No kept cell is behind `yLoop`. */
  lemma {:induction false} PruneDropsBehind(s: seq<Cell>, yLoop: int)
    ensures forall i :: 0 <= i < |Prune(s, yLoop)| ==> Prune(s, yLoop)[i].row >= yLoop
  {
    if s != [] {
      PruneDropsBehind(s[1..], yLoop);
    }
  }

  /** One step of the back-to-front deletion loop: the pruned suffix from
      `i` is cell `i` (when it is not behind `yLoop`) followed by the
      pruned suffix from `i + 1`. */
  lemma PruneFrom(s: seq<Cell>, i: int, yLoop: int)
    requires 0 <= i < |s|
    ensures Prune(s[i..], yLoop) == (if s[i].row < yLoop then [] else [s[i]]) + Prune(s[i + 1..], yLoop)
    ensures s[..i + 1] == s[..i] + [s[i]]
  {
    assert s[i..][1..] == s[i + 1..];
  }

  lemma {:induction false} PruneKeepsAll(s: seq<Cell>, yLoop: int)
    requires forall i :: 0 <= i < |s| ==> s[i].row >= yLoop
    ensures Prune(s, yLoop) == s
  {
    if s != [] {
      PruneKeepsAll(s[1..], yLoop);
    }
  }

  /** On a path whose rows never decrease, pruning cuts off a prefix: the
      result is a suffix of the old list and every removed cell is behind
      `yLoop`, so the order of the kept cells is the old order. */
  lemma {:induction false} PruneSortedIsSuffix(s: seq<Cell>, yLoop: int)
    requires RowsNonDecreasing(s)
    ensures Prune(s, yLoop) == s[|s| - |Prune(s, yLoop)|..]
    ensures forall i :: 0 <= i < |s| - |Prune(s, yLoop)| ==> s[i].row < yLoop
  {
    if s != [] {
      var kept := Prune(s, yLoop);
      if s[0].row < yLoop {
        var t := s[1..];
        assert RowsNonDecreasing(t) by {
          forall i, j | 0 <= i <= j < |t| ensures t[i].row <= t[j].row {
            assert t[i] == s[i + 1] && t[j] == s[j + 1];
          }
        }
        PruneSortedIsSuffix(t, yLoop);
        assert kept == Prune(t, yLoop);
        assert t[|t| - |kept|..] == s[|s| - |kept|..];
        assert forall i :: 1 <= i < |s| - |kept| ==> s[i] == t[i - 1];
      } else {
        assert forall i :: 0 <= i < |s| ==> s[i].row >= yLoop by {
          forall i | 0 <= i < |s| ensures s[i].row >= yLoop {
            assert s[0].row <= s[i].row;
          }
        }
        PruneKeepsAll(s, yLoop);
      }
    }
  }

  // ---------------------------------------------------------------------
  // Shapes

  lemma {:induction false} WellFormedRowsNonDecreasing(s: seq<Cell>)
    requires WellFormed(s)
    ensures RowsNonDecreasing(s)
  {
    if |s| > 1 {
      WellFormedSuffix(s, 1);
      WellFormedRowsNonDecreasing(s[1..]);
      assert forall j :: 1 <= j < |s| ==> s[j] == s[1..][j - 1];
      assert forall j :: 0 <= j < |s| ==> s[0].row <= s[j].row by {
        forall j | 0 <= j < |s| ensures s[0].row <= s[j].row {
          if j > 0 {
            assert StepAt(s, 0);
            assert s[0].row <= s[1].row <= s[1..][j - 1].row;
          }
        }
      }
    }
  }

  lemma WellFormedSuffix(s: seq<Cell>, k: nat)
    requires WellFormed(s) && k <= |s|
    ensures WellFormed(s[k..])
  {
    var t := s[k..];
    assert forall i :: 0 <= i < |t| ==> t[i] == s[k + i];
    forall i | 0 <= i < |t| - 1 ensures StepAt(t, i) {
      assert StepAt(s, k + i);
    }
    forall i | 0 <= i < |t| - 2 ensures TurnAt(t, i) {
      assert TurnAt(s, k + i);
    }
  }

  /** Two well-formed paths joined by a forward step form a well-formed path. */
  lemma JoinForward(a: seq<Cell>, b: seq<Cell>)
    requires WellFormed(a) && WellFormed(b)
    requires a != [] && b != [] && Forward(a[|a| - 1], b[0])
    ensures WellFormed(a + b)
  {
    var s := a + b;
    forall i | 0 <= i < |s| - 1 ensures StepAt(s, i) {
      if i < |a| - 1 {
        assert StepAt(a, i);
        assert s[i] == a[i] && s[i + 1] == a[i + 1];
      } else if i >= |a| {
        assert StepAt(b, i - |a|);
        assert s[i] == b[i - |a|] && s[i + 1] == b[i - |a| + 1];
      }
    }
    forall i | 0 <= i < |s| - 2 ensures TurnAt(s, i) {
      if i < |a| - 2 {
        assert TurnAt(a, i);
        assert s[i] == a[i] && s[i + 1] == a[i + 1] && s[i + 2] == a[i + 2];
      } else if i >= |a| {
        assert TurnAt(b, i - |a|);
        assert s[i] == b[i - |a|] && s[i + 1] == b[i - |a| + 1] && s[i + 2] == b[i - |a| + 2];
      } else if i == |a| - 1 {
        assert s[i] == a[|a| - 1] && s[i + 1] == b[0];
        assert !Lateral(s[i], s[i + 1]);
      }
    }
    assert forall i :: 0 <= i < |s| ==> s[i] == if i < |a| then a[i] else b[i - |a|];
  }

  /** From a cell inside the lane bounds, one step keeps every cell it
      appends, and the next start, inside the bounds; the appended cells form
      a well-formed piece of path. */
  lemma SegmentWellFormed(c: Cell, draws: int -> Draw, pos: int)
    requires InLanes(c)
    ensures WellFormed(Segment(c, draws, pos))
    ensures InLanes(NextStart(c, draws, pos))
  {
  }

  /** One more iteration of the generation loop, added at the back: it
      appends the segment taken from the cell the loop has reached, and moves
      the loop on to that segment's next start. */
  lemma {:induction false} ExtendSnoc(c: Cell, draws: int -> Draw, pos: int, end: int)
    requires pos <= end
    ensures var here := Cursor(c, draws, pos, end);
            Extend(c, draws, pos, end + 1) == Extend(c, draws, pos, end) + Segment(here, draws, end) &&
            Cursor(c, draws, pos, end + 1) == NextStart(here, draws, end)
    decreases end - pos
  {
    if pos < end {
      ExtendSnoc(NextStart(c, draws, pos), draws, pos + 1, end);
      var here, first, rest := Cursor(c, draws, pos, end), Segment(c, draws, pos), Extend(NextStart(c, draws, pos), draws, pos + 1, end);
      assert (first + rest) + Segment(here, draws, end) == first + (rest + Segment(here, draws, end));
    }
  }

  /** Concatenation of paths is associative; stated as a lemma so that the
      generation loop's proof instantiates it at one term only. */
  lemma AppendAssoc(a: seq<Cell>, b: seq<Cell>, c: seq<Cell>)
    ensures (a + b) + c == a + (b + c)
  {
  }

  /** Pruning keeps only cells of the list, so it keeps them in the lanes. */
  lemma PruneInLanes(s: seq<Cell>, yLoop: int)
    requires forall i :: 0 <= i < |s| ==> InLanes(s[i])
    ensures forall c :: c in Prune(s, yLoop) ==> InLanes(c)
  {
    var kept := Prune(s, yLoop);
    forall i | 0 <= i < |kept| ensures InLanes(kept[i]) {
      PruneCounts(s, yLoop, kept[i]);
      assert kept[i] in multiset(kept);
      assert kept[i] in s;
    }
  }

  /** Every cell the generation loop appends from a start inside the lane
      bounds stays inside them, and the appended cells form a well-formed
      path. */
  lemma {:induction false} ExtendWellFormed(c: Cell, draws: int -> Draw, pos: int, end: int)
    requires InLanes(c)
    ensures WellFormed(Extend(c, draws, pos, end))
    decreases end - pos
  {
    if pos < end {
      SegmentWellFormed(c, draws, pos);
      ExtendWellFormed(NextStart(c, draws, pos), draws, pos + 1, end);
      if pos + 1 < end {
        JoinForward(Segment(c, draws, pos), Extend(NextStart(c, draws, pos), draws, pos + 1, end));
      }
    }
  }

  /** Rows gained along a well-formed path: at most one step in two is
      sideways, so the last row is at least (|s| - 2) / 2 rows past the first. */
  lemma {:induction false} RowSpread(s: seq<Cell>)
    requires WellFormed(s) && |s| >= 1
    ensures 2 * (s[|s| - 1].row - s[0].row) >= |s| - 2
    decreases |s|
  {
    if |s| >= 3 {
      assert StepAt(s, 0) && TurnAt(s, 0) && StepAt(s, 1);
      if Forward(s[0], s[1]) {
        WellFormedSuffix(s, 1);
        RowSpread(s[1..]);
      } else {
        WellFormedSuffix(s, 2);
        RowSpread(s[2..]);
      }
    } else if |s| == 2 {
      assert StepAt(s, 0);
    }
  }

  // ---------------------------------------------------------------------
  // The generator

  /** What one generator call appends: the kept cells stay in front, in
      order; the loop runs max(0, NUM_TILES - |kept|) times, each time using
      one random draw and appending one or three cells, so the result has at
      least NUM_TILES cells and nothing is appended when NUM_TILES or more
      were kept; when fewer were kept, the first appended cell is (last lane,
      last row + 1), or (0, 0) if nothing was kept. */
  lemma GenerateAppends(t: Track, draws: int -> Draw)
    ensures var kept := Prune(t.tiles, t.yLoop);
            var r := Generate(t, draws);
            |r.tiles| >= NumTiles && |r.tiles| >= |kept| &&
            (|kept| >= NumTiles ==> r.tiles == kept && r.drawn == t.drawn) &&
            r.tiles[..|kept|] == kept &&
            r.drawn == t.drawn + Iterations(|kept|) &&
            |kept| + Iterations(|kept|) <= |r.tiles| <= |kept| + 3 * Iterations(|kept|) &&
            (|kept| < NumTiles ==> r.tiles[|kept|] == StartCell(kept))
  {
  }

  /** Starting from any list whose cells lie inside the lane bounds, every
      cell of the generated list lies inside them too. */
  lemma GenerateInLanes(t: Track, draws: int -> Draw)
    requires forall i :: 0 <= i < |t.tiles| ==> InLanes(t.tiles[i])
    ensures var r := Generate(t, draws).tiles;
            forall i :: 0 <= i < |r| ==> InLanes(r[i])
  {
    var kept := Prune(t.tiles, t.yLoop);
    var n := Iterations(|kept|);
    PruneInLanes(t.tiles, t.yLoop);
    assert |kept| > 0 ==> kept[|kept| - 1] in kept;
    ExtendWellFormed(StartCell(kept), draws, t.drawn, t.drawn + n);
    var e := Extend(StartCell(kept), draws, t.drawn, t.drawn + n);
    assert Generate(t, draws).tiles == kept + e;
  }

  /** On a well-formed path whose last cell is not behind `yLoop`, pruning
      keeps a non-empty, well-formed suffix ending with the same cell. */
  lemma PruneKeepsTail(s: seq<Cell>, yLoop: int)
    requires WellFormed(s) && |s| > 0 && s[|s| - 1].row >= yLoop
    ensures var kept := Prune(s, yLoop);
            |kept| > 0 && WellFormed(kept) && kept[|kept| - 1] == s[|s| - 1]
  {
    WellFormedRowsNonDecreasing(s);
    PruneSortedIsSuffix(s, yLoop);
    var kept := Prune(s, yLoop);
    WellFormedSuffix(s, |s| - |kept|);
  }

  /** Generation from a non-empty well-formed list continues it: the
      result is well formed and begins with the same cell. */
  lemma ContinueWellFormed(kept: seq<Cell>, draws: int -> Draw, pos: int, end: int)
    requires WellFormed(kept) && |kept| > 0
    ensures var r := kept + Extend(StartCell(kept), draws, pos, end);
            WellFormed(r) && r[0] == kept[0]
  {
    if pos < end {
      var c := StartCell(kept);
      assert InLanes(kept[|kept| - 1]);
      ExtendWellFormed(c, draws, pos, end);
      JoinForward(kept, Extend(c, draws, pos, end));
    } else {
      assert kept + Extend(StartCell(kept), draws, pos, end) == kept;
    }
  }

  /** The generator keeps the play invariant from one row to the next:
      when the player reaches the next row, some cell survives pruning (so
      the (0, 0) restart never happens during play), the first appended
      cell continues the kept path, and the result is again a well-formed
      window of at least NUM_TILES cells, none behind the player, ending
      ahead of the player. */
  lemma {:induction false} NextRowKeepsInvariant(t: Track, draws: int -> Draw)
    requires PlayInvariant(t)
    ensures |Prune(t.tiles, t.yLoop + 1)| > 0
    ensures PlayInvariant(NextRow(t, draws))
    ensures NextRow(t, draws).yLoop == t.yLoop + 1
  {
    var y := t.yLoop + 1;
    PruneKeepsTail(t.tiles, y);
    PruneDropsBehind(t.tiles, y);
    GenerateWindow(t.(yLoop := y), draws);
  }

  /** When pruning keeps a non-empty well-formed list, none of it behind
      the player, one generator call yields a list satisfying the play
      invariant. */
  lemma GenerateWindow(t: Track, draws: int -> Draw)
    requires var kept := Prune(t.tiles, t.yLoop);
             WellFormed(kept) && |kept| > 0 && kept[0].row >= t.yLoop
    ensures PlayInvariant(Generate(t, draws))
  {
    var kept := Prune(t.tiles, t.yLoop);
    var n := Iterations(|kept|);
    ContinueWindow(kept, draws, t.drawn, t.drawn + n, t.yLoop);
  }

  /** Generation that continues a non-empty well-formed list, none of it
      behind `y`, until it holds at least NUM_TILES cells, yields a list
      satisfying the play invariant at row `y`. */
  lemma ContinueWindow(kept: seq<Cell>, draws: int -> Draw, pos: int, end: int, y: int)
    requires WellFormed(kept) && |kept| > 0 && kept[0].row >= y
    requires pos <= end && |kept| + (end - pos) >= NumTiles
    ensures PlayInvariant(Track(kept + Extend(StartCell(kept), draws, pos, end), y, end))
  {
    ContinueWellFormed(kept, draws, pos, end);
    WindowInvariant(kept + Extend(StartCell(kept), draws, pos, end), y, end);
  }

  /** A well-formed path of at least NUM_TILES cells whose first cell is not
      behind `y` satisfies the play invariant at row `y`: its rows never
      decrease, and they advance far enough to end past `y`. */
  lemma WindowInvariant(r: seq<Cell>, y: int, drawn: int)
    requires WellFormed(r) && |r| >= NumTiles && r[0].row >= y
    ensures PlayInvariant(Track(r, y, drawn))
  {
    WellFormedRowsNonDecreasing(r);
    assert forall i :: 0 <= i < |r| ==> r[i].row >= y by {
      forall i | 0 <= i < |r| ensures r[i].row >= y {
        assert r[0].row <= r[i].row;
      }
    }
    RowSpread(r);
  }

  /** The straight run a new game starts from satisfies the play invariant
      at row 0. */
  lemma PrefillKeepsInvariant(drawn: int)
    ensures PlayInvariant(Track(Prefill(), 0, drawn))
  {
    var s := Prefill();
    assert forall i :: 0 <= i < |s| - 1 ==> Forward(s[i], s[i + 1]);
  }
}
