/** The SpaceRun main widget: scroll state, the tile path, the ship's
    hitbox and the game-state flags, updated in place once per frame.
    Rendering, audio, timers and the perspective transform are not part of
    this model; the window's size and the perspective point are fields that
    the window system sets. */
module Game {
  import opened Track

  /** A point in track space (before the perspective transform). */
  datatype Point = Point(x: real, y: real)

  /** The score label: blank until the first row is passed, then the number
      of rows passed. */
  datatype Score = Blank | Shown(rows: int)

  const VerticalLineSpacing: real := 0.25
  const HorizontalLineSpacing: real := 0.1
  const Speed: real := 0.6
  const ShipWidth: real := 0.1
  const ShipHeight: real := 0.035
  const ShipBaseY: real := 0.04

  /** Inclusive box test: `lo.x <= p.x <= hi.x and lo.y <= p.y <= hi.y`. */
  predicate InBox(p: Point, lo: Point, hi: Point) {
    lo.x <= p.x <= hi.x && lo.y <= p.y <= hi.y
  }

  class MainWidget {
    // Set by the window system.
    var width: real
    var height: real
    var perspectivePointX: real

    var speedY: real
    var speedModifier: real
    var currentOffsetY: real
    var currentOffsetX: real
    var currentSpeedX: real

    var tilesCoordinates: seq<Cell>
    var currentYLoop: int
    var score: Score

    var shipCoordinates: seq<Point>

    var stateGameOver: bool
    var stateGameStarted: bool

    /** The results `random.randint(0, 2)` returns, in order, and how many
        of them the generator has used so far. */
    const draws: int -> Draw
    var drawn: int

    /** The generator's part of the state. */
    function TrackState(): (t: Track)
      reads this`tilesCoordinates, this`currentYLoop, this`drawn
    {
      Track(tilesCoordinates, currentYLoop, drawn)
    }

    /** The object invariant: three ship points, a non-negative forward
        offset and difficulty term, and a path satisfying the play
        invariant at the current row. */
    ghost predicate Valid()
      reads this`shipCoordinates, this`currentOffsetY, this`speedModifier, this`tilesCoordinates, this`currentYLoop, this`drawn
    {
      |shipCoordinates| == 3 &&
      currentOffsetY >= 0.0 &&
      speedModifier >= 0.0 &&
      PlayInvariant(TrackState())
    }

    // -------------------------------------------------------------------
    // Construction and restart

    /** `__init__`: three zero ship points, both flags false, then
        `reset_game`.  The window's size and the perspective point are
        given; so is the random source. */
    constructor (w: real, h: real, ppx: real, source: int -> Draw)
      ensures Valid()
      ensures width == w && height == h && perspectivePointX == ppx && draws == source
      ensures tilesCoordinates == Prefill() && currentYLoop == 0 && drawn == 0
      ensures currentOffsetY == 0.0 && currentOffsetX == 0.0 && currentSpeedX == 0.0
      ensures speedModifier == 0.0 && speedY == 0.0 && score == Blank
      ensures shipCoordinates == [Point(0.0, 0.0), Point(0.0, 0.0), Point(0.0, 0.0)]
      ensures !stateGameOver && !stateGameStarted
    {
      width, height, perspectivePointX := w, h, ppx;
      draws := source;
      drawn := 0;
      speedY := 0.0;
      score := Blank;
      shipCoordinates := [Point(0.0, 0.0), Point(0.0, 0.0), Point(0.0, 0.0)];
      stateGameStarted := false;
      new;
      ResetGame();
    }

    /** `reset_game`: zero scroll state, a fresh straight path, game over
        cleared. */
    method ResetGame()
      requires |shipCoordinates| == 3
      modifies this`currentOffsetY, this`currentOffsetX, this`currentSpeedX, this`currentYLoop,
        this`speedModifier, this`tilesCoordinates, this`stateGameOver
      ensures Valid()
      ensures currentOffsetY == 0.0 && currentOffsetX == 0.0 && currentSpeedX == 0.0
      ensures currentYLoop == 0 && speedModifier == 0.0
      ensures tilesCoordinates == Prefill()
      ensures !stateGameOver
    {
      currentOffsetY := 0.0;
      currentOffsetX := 0.0;
      currentSpeedX := 0.0;
      currentYLoop := 0;
      speedModifier := 0.0;

      tilesCoordinates := [];
      PrefillTilesCoordinates();

      stateGameOver := false;
      PrefillKeepsInvariant(drawn);
    }

    /** `prefill_tiles_coordinates`: append the straight run (0, 0) ...
        (0, 14). */
    method PrefillTilesCoordinates()
      modifies this`tilesCoordinates
      ensures tilesCoordinates == old(tilesCoordinates) + Prefill()
    {
      for i := 0 to InitialStraightPathLength
        invariant tilesCoordinates == old(tilesCoordinates) + Prefill()[..i]
      {
        tilesCoordinates := tilesCoordinates + [Cell(0, i)];
        assert Prefill()[..i + 1] == Prefill()[..i] + [Cell(0, i)];
      }
    }

    /** `on_menu_button_pressed`: a restart, after which the game runs. */
    method OnMenuButtonPressed()
      requires |shipCoordinates| == 3
      modifies this`currentOffsetY, this`currentOffsetX, this`currentSpeedX, this`currentYLoop,
        this`speedModifier, this`tilesCoordinates, this`stateGameOver, this`stateGameStarted
      ensures Valid()
      ensures currentOffsetY == 0.0 && currentOffsetX == 0.0 && currentSpeedX == 0.0
      ensures currentYLoop == 0 && speedModifier == 0.0
      ensures tilesCoordinates == Prefill()
      ensures !stateGameOver && stateGameStarted
    {
      ResetGame();
      stateGameStarted := true;
    }

    // -------------------------------------------------------------------
    // Path generation

    /** `generate_tiles_coordinates`: delete every cell behind the player,
        then run the generation loop until the list holds NUM_TILES cells'
        worth of iterations.  The list and the random stream's position are
        worked on as local copies and written back at the end. */
    method GenerateTilesCoordinates()
      modifies this`tilesCoordinates, this`drawn
      ensures TrackState() == Generate(old(TrackState()), draws)
    {
      DeleteBehind();
      AppendTiles();
    }

    /** The deletion loop of `generate_tiles_coordinates`: walk the list
        back to front and delete every cell whose row is behind the player.
        What is left is exactly the cells not behind the player, in their
        old order. */
    method DeleteBehind()
      modifies this`tilesCoordinates
      ensures tilesCoordinates == Prune(old(tilesCoordinates), currentYLoop)
    {
      ghost var all := tilesCoordinates;
      var i := |tilesCoordinates|;
      while i > 0
        invariant 0 <= i <= |all|
        invariant tilesCoordinates == all[..i] + Prune(all[i..], currentYLoop)
      {
        i := i - 1;
        PruneFrom(all, i, currentYLoop);
        if tilesCoordinates[i].row < currentYLoop {
          tilesCoordinates := tilesCoordinates[..i] + tilesCoordinates[i + 1..];
        }
      }
      assert all[0..] == all;
    }

    /** The rest of `generate_tiles_coordinates`: start one row past the
        last cell (or at (0, 0) when the list is empty), then for each of
        the `NUM_TILES - len(tiles_coordinates)` iterations append the
        current cell, take the next random draw, force it at the lane
        bounds, append the two cells of a bend, and move one row on.  The
        list grows by exactly those iterations, and one draw is used per
        iteration.  The loop appends to a local copy of the list and of the
        draw count, which are written back at the end. */
    method AppendTiles()
      modifies this`tilesCoordinates, this`drawn
      ensures drawn == old(drawn) + Iterations(|old(tilesCoordinates)|)
      ensures tilesCoordinates ==
        old(tilesCoordinates) + Extend(StartCell(old(tilesCoordinates)), draws, old(drawn), drawn)
    {
      var kept, first := tilesCoordinates, drawn;
      var tiles, pos := kept, first;
      var lastY := 0;
      var lastX := 0;

      if |tiles| > 0 {
        var lastCoordinates := tiles[|tiles| - 1];
        lastY := lastCoordinates.row + 1;
        lastX := lastCoordinates.lane;
      }

      ghost var start := StartCell(kept);
      var k := |tiles|;
      while k < NumTiles
        invariant |kept| <= k && pos == first + (k - |kept|) <= first + Iterations(|kept|)
        invariant k < NumTiles ==> pos < first + Iterations(|kept|)
        invariant tiles == kept + Extend(start, draws, first, pos)
        invariant Cell(lastX, lastY) == Cursor(start, draws, first, pos)
      {
        ghost var before := Extend(start, draws, first, pos);
        ghost var here := Cell(lastX, lastY);
        tiles, lastX, lastY := GenerateStep(tiles, draws, pos, lastX, lastY);
        pos := pos + 1;
        k := k + 1;
        ExtendSnoc(start, draws, first, pos - 1);
        AppendAssoc(kept, before, Segment(here, draws, pos - 1));
      }
      tilesCoordinates, drawn := tiles, pos;
    }

    // -------------------------------------------------------------------
    // Geometry

    /** `get_line_x_from_index`: x of vertical line `index`; tile lane `i`
        spans lines `i` and `i + 1`. */
    function LineX(index: int): (x: real)
      reads this`perspectivePointX, this`width, this`currentOffsetX
      ensures width > 0.0 ==> (x < perspectivePointX + currentOffsetX <==> index <= 0)
    {
      PositiveProduct(index as real - 0.5, VerticalLineSpacing * width);
      perspectivePointX + (index as real - 0.5) * (VerticalLineSpacing * width) + currentOffsetX
    }

    /** `get_line_y_from_index`: y of horizontal line `index`. */
    function LineY(index: int): (y: real)
      reads this`height, this`currentOffsetY
      ensures height > 0.0 ==> (y + currentOffsetY > 0.0 <==> index > 0)
      ensures index == 0 ==> y == -currentOffsetY
    {
      PositiveProduct(index as real, HorizontalLineSpacing * height);
      PositiveProduct(-index as real, HorizontalLineSpacing * height);
      index as real * (HorizontalLineSpacing * height) - currentOffsetY
    }

    /** `get_tile_coordinates`: the corner of cell (tiX, tiY), rows counted
        from the current row. */
    function TileCoordinates(tiX: int, tiY: int): (p: Point)
      reads this`perspectivePointX, this`width, this`currentOffsetX, this`height, this`currentOffsetY, this`currentYLoop
      ensures width > 0.0 ==> (p.x < perspectivePointX + currentOffsetX <==> tiX <= 0)
      ensures height > 0.0 && 0.0 <= currentOffsetY < HorizontalLineSpacing * height ==>
                (p.y <= 0.0 <==> tiY <= currentYLoop)
    {
      var k, spacing := tiY - currentYLoop, HorizontalLineSpacing * height;
      PositiveProduct((k - 1) as real, spacing);
      PositiveProduct(-k as real, spacing);
      assert k as real * spacing == (k - 1) as real * spacing + spacing;
      Point(LineX(tiX), LineY(tiY - currentYLoop))
    }

    /** Lines are evenly spaced: one index further is one spacing further,
        so with a positive width and height the line positions strictly
        increase with their index. */
    lemma LinesIncrease(i: int, j: int)
      requires i < j
      ensures LineX(i + 1) - LineX(i) == VerticalLineSpacing * width
      ensures LineY(i + 1) - LineY(i) == HorizontalLineSpacing * height
      ensures width > 0.0 ==> LineX(i) < LineX(j)
      ensures height > 0.0 ==> LineY(i) < LineY(j)
    {
      var spacingX, spacingY := VerticalLineSpacing * width, HorizontalLineSpacing * height;
      Distribute((i + 1) as real - 0.5, i as real - 0.5, 1.0, spacingX);
      Distribute((i + 1) as real, i as real, 1.0, spacingY);
      Distribute(j as real - 0.5, i as real - 0.5, (j - i) as real, spacingX);
      Distribute(j as real, i as real, (j - i) as real, spacingY);
      PositiveProduct((j - i) as real, spacingX);
      PositiveProduct((j - i) as real, spacingY);
    }

    /** Every tile's box is non-degenerate: its lower corner is strictly
        below and left of its upper corner. */
    lemma TileBoxOrdered(tiX: int, tiY: int)
      requires width > 0.0 && height > 0.0
      ensures TileCoordinates(tiX, tiY).x < TileCoordinates(tiX + 1, tiY + 1).x
      ensures TileCoordinates(tiX, tiY).y < TileCoordinates(tiX + 1, tiY + 1).y
    {
      LinesIncrease(tiX, tiX + 1);
      LinesIncrease(tiY - currentYLoop, tiY + 1 - currentYLoop);
    }

    // -------------------------------------------------------------------
    // The ship and collisions

    /** The ship's three points computed by `update_ship`: left base corner,
        apex, right base corner. */
    function ShipPoints(): (s: seq<Point>)
      reads this`width, this`height
      ensures |s| == 3
      ensures s[1].x == width / 2.0 && s[0].y == s[2].y == ShipBaseY * height
      ensures width > 0.0 ==> s[0].x < s[1].x < s[2].x
      ensures height > 0.0 ==> s[0].y < s[1].y
    {
      var centerX := width / 2.0;
      var baseY := ShipBaseY * height;
      var shipHalfWidth := ShipWidth * width / 2.0;
      var shipHeight := ShipHeight * height;
      [Point(centerX - shipHalfWidth, baseY), Point(centerX, baseY + shipHeight),
       Point(centerX + shipHalfWidth, baseY)]
    }

    /** `update_ship`, without the transform to screen space. */
    method UpdateShip()
      requires |shipCoordinates| == 3
      modifies this`shipCoordinates
      ensures shipCoordinates == ShipPoints()
    {
      var centerX := width / 2.0;
      var baseY := ShipBaseY * height;
      var shipHalfWidth := ShipWidth * width / 2.0;
      var shipHeight := ShipHeight * height;

      shipCoordinates := shipCoordinates[0 := Point(centerX - shipHalfWidth, baseY)];
      shipCoordinates := shipCoordinates[1 := Point(centerX, baseY + shipHeight)];
      shipCoordinates := shipCoordinates[2 := Point(centerX + shipHalfWidth, baseY)];
    }

    /** Some ship point lies in the inclusive box of cell (tiX, tiY). */
    predicate HitsTile(tiX: int, tiY: int)
      reads this`shipCoordinates, this`perspectivePointX, this`width, this`currentOffsetX, this`height, this`currentOffsetY, this`currentYLoop
      requires |shipCoordinates| == 3
    {
      exists i :: 0 <= i < 3 && InBox(shipCoordinates[i], TileCoordinates(tiX, tiY), TileCoordinates(tiX + 1, tiY + 1))
    }

    /** The scan reaches tile `i`: no tile up to it is more than one row
        ahead of the player. */
    predicate Reached(i: int)
      reads this`tilesCoordinates, this`currentYLoop
      requires 0 <= i < |tilesCoordinates|
    {
      forall j :: 0 <= j <= i ==> tilesCoordinates[j].row <= currentYLoop + 1
    }

    /** The scan of the path from tile `i` on succeeds: it meets a hit tile
        before any tile more than one row ahead of the player. */
    predicate OnTrackFrom(i: nat)
      reads this`tilesCoordinates, this`shipCoordinates, this`perspectivePointX, this`width, this`currentOffsetX, this`height, this`currentOffsetY, this`currentYLoop
      requires |shipCoordinates| == 3
      decreases |tilesCoordinates| - i
    {
      i < |tilesCoordinates| && tilesCoordinates[i].row <= currentYLoop + 1 &&
      (HitsTile(tilesCoordinates[i].lane, tilesCoordinates[i].row) || OnTrackFrom(i + 1))
    }

    /** The ship is on the track: the scan of the whole path succeeds. */
    predicate OnTrack()
      reads this`tilesCoordinates, this`shipCoordinates, this`perspectivePointX, this`width, this`currentOffsetX, this`height, this`currentOffsetY, this`currentYLoop
      requires |shipCoordinates| == 3
    {
      OnTrackFrom(0)
    }

    /** The scan from tile `i` succeeds exactly when some tile `k` from `i`
        on is hit and no tile from `i` up to `k` is too far ahead. */
    lemma {:induction false} OnTrackFromExists(i: nat)
      requires |shipCoordinates| == 3 && i <= |tilesCoordinates|
      ensures OnTrackFrom(i) <==>
        exists k :: i <= k < |tilesCoordinates| &&
          (forall j :: i <= j <= k ==> tilesCoordinates[j].row <= currentYLoop + 1) &&
          HitsTile(tilesCoordinates[k].lane, tilesCoordinates[k].row)
      decreases |tilesCoordinates| - i
    {
      if i < |tilesCoordinates| {
        OnTrackFromExists(i + 1);
        if OnTrackFrom(i) && !HitsTile(tilesCoordinates[i].lane, tilesCoordinates[i].row) {
          var k :| i + 1 <= k < |tilesCoordinates| &&
            (forall j :: i + 1 <= j <= k ==> tilesCoordinates[j].row <= currentYLoop + 1) &&
            HitsTile(tilesCoordinates[k].lane, tilesCoordinates[k].row);
          assert forall j :: i <= j <= k ==> tilesCoordinates[j].row <= currentYLoop + 1;
        }
        if !OnTrackFrom(i) {
          forall k | i <= k < |tilesCoordinates| &&
              (forall j :: i <= j <= k ==> tilesCoordinates[j].row <= currentYLoop + 1)
            ensures !HitsTile(tilesCoordinates[k].lane, tilesCoordinates[k].row)
          {
            if k > i {
              assert forall j :: i + 1 <= j <= k ==> tilesCoordinates[j].row <= currentYLoop + 1;
            }
          }
        }
      }
    }

    /** On track means: some tile the scan reaches is hit. */
    lemma OnTrackExists()
      requires |shipCoordinates| == 3
      ensures OnTrack() <==>
        exists i :: 0 <= i < |tilesCoordinates| && Reached(i) &&
          HitsTile(tilesCoordinates[i].lane, tilesCoordinates[i].row)
    {
      OnTrackFromExists(0);
    }

    /** `check_ship_collision_with_tile`. */
    method CheckShipCollisionWithTile(tiX: int, tiY: int) returns (hit: bool)
      requires |shipCoordinates| == 3
      ensures hit <==> HitsTile(tiX, tiY)
    {
      var lo := TileCoordinates(tiX, tiY);
      var hi := TileCoordinates(tiX + 1, tiY + 1);
      for i := 0 to 3
        invariant forall j :: 0 <= j < i ==> !InBox(shipCoordinates[j], lo, hi)
      {
        var p := shipCoordinates[i];
        if lo.x <= p.x <= hi.x && lo.y <= p.y <= hi.y {
          return true;
        }
      }
      return false;
    }

    /** `check_ship_collision`: scan the path in order, give up at the first
        tile more than one row ahead, succeed at the first tile hit.  An
        empty path reports a collision failure. */
    method CheckShipCollision() returns (onTrack: bool)
      requires |shipCoordinates| == 3
      ensures onTrack <==> OnTrack()
      ensures tilesCoordinates == [] ==> !onTrack
    {
      for i := 0 to |tilesCoordinates|
        invariant OnTrack() == OnTrackFrom(i)
      {
        var tile := tilesCoordinates[i];
        if tile.row > currentYLoop + 1 {
          return false;
        }
        var hit := CheckShipCollisionWithTile(tile.lane, tile.row);
        if hit {
          return true;
        }
      }
      return false;
    }

    /** On a path whose rows never decrease, the order of the scan does not
        matter: the ship is on the track exactly when it hits some tile at
        most one row ahead. */
    lemma OnTrackAnyOrder()
      requires |shipCoordinates| == 3 && RowsNonDecreasing(tilesCoordinates)
      ensures OnTrack() <==>
        (exists i :: 0 <= i < |tilesCoordinates| && tilesCoordinates[i].row <= currentYLoop + 1 &&
           HitsTile(tilesCoordinates[i].lane, tilesCoordinates[i].row))
    {
      OnTrackExists();
      forall i | 0 <= i < |tilesCoordinates| && tilesCoordinates[i].row <= currentYLoop + 1
        ensures Reached(i)
      {
      }
    }

    /** A ship centred under the perspective point, with no sideways drift
        and a forward offset below one row, always has its base corners in
        lane 0 of the current row or of the next. */
    lemma CentredShipHitsLaneZero()
      requires width > 0.0 && height > 0.0
      requires perspectivePointX == width / 2.0 && currentOffsetX == 0.0
      requires 0.0 <= currentOffsetY < HorizontalLineSpacing * height
      requires shipCoordinates == ShipPoints()
      ensures HitsTile(0, currentYLoop) || HitsTile(0, currentYLoop + 1)
    {
      var p := shipCoordinates[0];
      assert TileCoordinates(0, currentYLoop).x <= p.x <= TileCoordinates(1, currentYLoop + 1).x;
      if currentOffsetY <= 0.06 * height {
        assert InBox(p, TileCoordinates(0, currentYLoop), TileCoordinates(1, currentYLoop + 1));
      } else {
        assert InBox(p, TileCoordinates(0, currentYLoop + 1), TileCoordinates(1, currentYLoop + 2));
      }
    }

    /** On a straight stretch in lane 0 covering the current row and the
        next, a centred ship is on the track. */
    lemma CentredShipOnStraightTrack()
      requires width > 0.0 && height > 0.0
      requires perspectivePointX == width / 2.0 && currentOffsetX == 0.0
      requires 0.0 <= currentOffsetY < HorizontalLineSpacing * height
      requires shipCoordinates == ShipPoints()
      requires RowsNonDecreasing(tilesCoordinates)
      requires Cell(0, currentYLoop) in tilesCoordinates && Cell(0, currentYLoop + 1) in tilesCoordinates
      ensures OnTrack()
    {
      CentredShipHitsLaneZero();
      OnTrackAnyOrder();
      var row := if HitsTile(0, currentYLoop) then currentYLoop else currentYLoop + 1;
      var i :| 0 <= i < |tilesCoordinates| && tilesCoordinates[i] == Cell(0, row);
      assert HitsTile(tilesCoordinates[i].lane, tilesCoordinates[i].row);
    }

    // -------------------------------------------------------------------
    // The frame update and the game state machine

    /** `update(dt)` without rendering, sound and timers.  While the game
        runs, the forward offset grows by `speed_y * dt * 60` and each whole
        row spacing in it moves the player one row ahead and runs the
        generator; the sideways offset grows by `speed_x * dt * 60`.  Then the
        collision check decides whether the game is over; the transition
        fires only in a frame where the game was not already over. */
    method Update(dt: real) returns (gameOverFired: bool, ghost rows: nat)
      requires Valid() && dt >= 0.0
      requires stateGameStarted && !stateGameOver ==> height > 0.0
      modifies this`speedY, this`currentOffsetY, this`currentOffsetX, this`currentYLoop, this`score,
        this`tilesCoordinates, this`drawn, this`shipCoordinates, this`stateGameOver
      ensures Valid()
      ensures shipCoordinates == ShipPoints()
      ensures old(stateGameStarted && !stateGameOver) ==>
        Advanced(old(TrackState()), old(currentOffsetX), old(currentOffsetY), old(score), dt * 60.0, rows)
      ensures old(!stateGameStarted || stateGameOver) ==>
        rows == 0 && currentOffsetY == old(currentOffsetY) && currentOffsetX == old(currentOffsetX) &&
        currentYLoop == old(currentYLoop) && tilesCoordinates == old(tilesCoordinates) &&
        drawn == old(drawn) && score == old(score) && speedY == old(speedY)
      ensures stateGameOver <==> old(stateGameOver) || !OnTrack()
      ensures gameOverFired <==> !old(stateGameOver) && stateGameOver
    {
      rows := Move(dt);
      gameOverFired := CheckGameOver();
    }

    /** The part of `update` before the collision check: place the ship,
        and while the game runs, advance the offsets and the track. */
    method Move(dt: real) returns (ghost rows: nat)
      requires Valid() && dt >= 0.0
      requires stateGameStarted && !stateGameOver ==> height > 0.0
      modifies this`speedY, this`currentOffsetY, this`currentOffsetX, this`currentYLoop, this`score,
        this`tilesCoordinates, this`drawn, this`shipCoordinates
      ensures Valid()
      ensures shipCoordinates == ShipPoints()
      ensures old(stateGameStarted && !stateGameOver) ==>
        Advanced(old(TrackState()), old(currentOffsetX), old(currentOffsetY), old(score), dt * 60.0, rows)
      ensures old(!stateGameStarted || stateGameOver) ==>
        rows == 0 && currentOffsetY == old(currentOffsetY) && currentOffsetX == old(currentOffsetX) &&
        currentYLoop == old(currentYLoop) && tilesCoordinates == old(tilesCoordinates) &&
        drawn == old(drawn) && score == old(score) && speedY == old(speedY)
    {
      UpdateShip();
      rows := 0;
      if !stateGameOver && stateGameStarted {
        rows := Advance(dt * 60.0);
      }
    }

    /** The end of `update`: unless the ship is on the track, the game is
        over; the transition (with its sounds and timers) fires only when it
        was not over before. */
    method CheckGameOver() returns (fired: bool)
      requires |shipCoordinates| == 3
      modifies this`stateGameOver
      ensures stateGameOver <==> old(stateGameOver) || !OnTrack()
      ensures fired <==> !old(stateGameOver) && stateGameOver
    {
      var onTrack := CheckShipCollision();
      fired := false;
      if !onTrack && !stateGameOver {
        stateGameOver := true;
        fired := true;
      }
    }

    /** The state one running frame leaves, against the track `before`,
        the offsets `offsetX`, `offsetY` and the score `score0` it started
        from: the forward speed is set from the height and the speed
        modifier; both offsets have moved by their speed times
        `timeFactor`; `rows` whole row spacings have been taken off the
        forward offset, leaving less than one; the player is `rows` rows
        further on, with the generator run once per row; and the score
        shows the new row if the player moved at all. */
    ghost predicate Advanced(before: Track, offsetX: real, offsetY: real, score0: Score, timeFactor: real, rows: nat)
      reads this`speedY, this`height, this`speedModifier, this`currentOffsetY, this`currentOffsetX, this`currentSpeedX, this`width,
        this`tilesCoordinates, this`currentYLoop, this`drawn, this`score
    {
      speedY == Speed * height / 100.0 + speedModifier &&
      currentOffsetY == offsetY + speedY * timeFactor - rows as real * (HorizontalLineSpacing * height) &&
      0.0 <= currentOffsetY < HorizontalLineSpacing * height &&
      currentOffsetX == offsetX + currentSpeedX * width / 100.0 * timeFactor &&
      currentYLoop == before.yLoop + rows &&
      TrackState() == Scroll(before, draws, rows) &&
      score == if rows > 0 then Shown(currentYLoop) else score0
    }

    /** The running branch of `update`: the forward offset grows by
        `speed_y * dt * 60`, the scroll loop consumes every whole row spacing
        in it, and the sideways offset grows by `speed_x * dt * 60`. */
    method Advance(timeFactor: real) returns (ghost rows: nat)
      requires currentOffsetY >= 0.0 && speedModifier >= 0.0 && PlayInvariant(TrackState())
      requires timeFactor >= 0.0 && height > 0.0
      modifies this`speedY, this`currentOffsetY, this`currentOffsetX, this`currentYLoop, this`score,
        this`tilesCoordinates, this`drawn
      ensures Advanced(old(TrackState()), old(currentOffsetX), old(currentOffsetY), old(score), timeFactor, rows)
      ensures PlayInvariant(TrackState())
    {
      Accelerate(timeFactor);
      rows := ScrollRows(HorizontalLineSpacing * height);
      Drift(timeFactor);
    }

    /** The start of the running branch of `update`: the forward speed is
        `SPEED * height / 100` plus the difficulty term, and the forward
        offset grows by the speed times `timeFactor`, so it stays
        non-negative. */
    method Accelerate(timeFactor: real)
      requires currentOffsetY >= 0.0 && speedModifier >= 0.0
      requires timeFactor >= 0.0 && height > 0.0
      modifies this`speedY, this`currentOffsetY
      ensures speedY == Speed * height / 100.0 + speedModifier
      ensures currentOffsetY == old(currentOffsetY) + speedY * timeFactor
      ensures currentOffsetY >= old(currentOffsetY) >= 0.0
    {
      speedY := Speed * height / 100.0 + speedModifier;
      PositiveProduct(speedY, timeFactor);
      currentOffsetY := currentOffsetY + speedY * timeFactor;
    }

    /** The end of the running branch of `update`: the sideways offset grows
        by `current_speed_x * width / 100` times `timeFactor`. */
    method Drift(timeFactor: real)
      modifies this`currentOffsetX
      ensures currentOffsetX == old(currentOffsetX) + currentSpeedX * width / 100.0 * timeFactor
    {
      var speedX := currentSpeedX * width / 100.0;
      currentOffsetX := currentOffsetX + speedX * timeFactor;
    }

    /** The `while` loop of `update`: while the forward offset holds a
        whole row spacing, subtract it, move the player one row ahead, show
        the new score and run the generator.  It ends with less than one
        spacing left, having moved the player exactly as many rows as
        spacings were subtracted. */
    method ScrollRows(spacingY: real) returns (ghost rows: nat)
      requires spacingY > 0.0 && currentOffsetY >= 0.0 && PlayInvariant(TrackState())
      modifies this`currentOffsetY, this`currentYLoop, this`score, this`tilesCoordinates, this`drawn
      ensures currentYLoop == old(currentYLoop) + rows
      ensures currentOffsetY == old(currentOffsetY) - rows as real * spacingY
      ensures 0.0 <= currentOffsetY < spacingY
      ensures TrackState() == Scroll(old(TrackState()), draws, rows)
      ensures PlayInvariant(TrackState())
      ensures score == if rows > 0 then Shown(currentYLoop) else old(score)
    {
      ghost var start := TrackState();
      ghost var oldScore := score;
      rows := 0;
      while currentOffsetY >= spacingY
        invariant currentOffsetY == old(currentOffsetY) - rows as real * spacingY
        invariant currentOffsetY >= 0.0
        invariant TrackState() == Scroll(start, draws, rows)
        invariant PlayInvariant(TrackState())
        invariant score == if rows > 0 then Shown(currentYLoop) else oldScore
        decreases currentOffsetY / spacingY
      {
        SpacingStep(currentOffsetY, spacingY);
        ghost var left, before := currentOffsetY, rows;
        currentOffsetY := currentOffsetY - spacingY;
        AdvanceRow(start, rows);
        rows := rows + 1;
        MoreSpacings(old(currentOffsetY), left, before, rows, spacingY);
      }
    }

    /** One pass of the scroll loop's body on the path: the player moves
        one row ahead, the shown score follows, and the generator runs. */
    method AdvanceRow(ghost start: Track, ghost rows: nat)
      requires TrackState() == Scroll(start, draws, rows) && PlayInvariant(TrackState())
      modifies this`currentYLoop, this`score, this`tilesCoordinates, this`drawn
      ensures currentYLoop == old(currentYLoop) + 1 && score == Shown(currentYLoop)
      ensures TrackState() == Scroll(start, draws, rows + 1)
      ensures PlayInvariant(TrackState())
    {
      ghost var before := TrackState();
      currentYLoop := currentYLoop + 1;
      score := Shown(currentYLoop);
      NextRowKeepsInvariant(before, draws);
      GenerateTilesCoordinates();
      ScrollStep(start, draws, rows);
    }

    /** `play_game_over_voice_sound`, the callback scheduled two seconds
        after the game-over transition: the voice plays only if the game is
        still over when it fires (a restart in between cancels it). */
    method PlayGameOverVoiceSound() returns (played: bool)
      ensures played <==> stateGameOver
    {
      played := stateGameOver;
    }
  }

  /** The body of the generation loop, from the cell (`lastX`, `lastY`):
      append that cell, take the draw at `pos`, force a right bend at the
      lowest lane and a left bend at the highest, append the two further
      cells of a bend, and move one row on.  It appends exactly that cell's
      segment and stops at its next start. */
  method GenerateStep(tiles: seq<Cell>, draws: int -> Draw, pos: int, lastX: int, lastY: int)
    returns (next: seq<Cell>, x: int, y: int)
    ensures next == tiles + Segment(Cell(lastX, lastY), draws, pos)
    ensures Cell(x, y) == NextStart(Cell(lastX, lastY), draws, pos)
  {
    var startIndex := StartIndex;
    var endIndex := EndIndex;
    x, y := lastX, lastY;
    next := tiles + [Cell(x, y)];

    var r := draws(pos);
    if x <= startIndex {
      r := RightBend;
    }
    if x >= endIndex - 1 {
      r := LeftBend;
    }

    if r == RightBend {
      x := x + 1;
      next := next + [Cell(x, y)];
      y := y + 1;
      next := next + [Cell(x, y)];
      assert next == tiles + [Cell(lastX, lastY), Cell(x, lastY), Cell(x, y)];
    }
    if r == LeftBend {
      x := x - 1;
      next := next + [Cell(x, y)];
      y := y + 1;
      next := next + [Cell(x, y)];
      assert next == tiles + [Cell(lastX, lastY), Cell(x, lastY), Cell(x, y)];
    }

    y := y + 1;
  }

  /** Taking one spacing off a non-negative offset that holds one leaves
      it non-negative, with one spacing fewer in it. */
  lemma SpacingStep(y: real, spacing: real)
    requires spacing > 0.0 && y >= spacing
    ensures 0.0 <= y - spacing && 0.0 <= y / spacing
    ensures (y - spacing) / spacing == y / spacing - 1.0
  {
    var q := y / spacing;
    assert q * spacing == y;
    var e := (y - spacing) / spacing - (q - 1.0);
    assert e * spacing == 0.0;
    PositiveProduct(e, spacing);
  }

  /** If `left` is what remains of `offset` after `rows` spacings, one
      spacing less remains after `more = rows + 1` of them. */
  lemma MoreSpacings(offset: real, left: real, rows: nat, more: nat, spacing: real)
    requires more == rows + 1 && left == offset - rows as real * spacing
    ensures left - spacing == offset - more as real * spacing
  {
  }

  /** Multiplication distributes over a difference `d` of two factors. */
  lemma Distribute(a: real, b: real, d: real, c: real)
    requires a - b == d
    ensures a * c - b * c == d * c
  {
  }

  /** Multiplying by a positive (or a non-negative) number keeps the sign. */
  lemma PositiveProduct(a: real, b: real)
    ensures a > 0.0 && b > 0.0 ==> a * b > 0.0
    ensures a < 0.0 && b > 0.0 ==> a * b < 0.0
    ensures a >= 0.0 && b >= 0.0 ==> a * b >= 0.0
  {
  }
}
