/** The engine's four operations: level generation, pour, undo (isWin is the pure
    Rules.IsWin). The board is an array of bottles whose entries pour and undo
    update in place; the history is a stack of move logs. */
module SandSortGame {
  import opened Bottles
  import opened Rules

  /** Every level's bottles hold 4 units. */
  const Capacity := 4

  /** The session's move history: move logs pushed after each successful pour and
      popped by undo. */
  class MoveHistory {
    var entries: seq<Move>

    constructor ()
      ensures entries == []
    {
      entries := [];
    }

    method Push(m: Move)
      modifies this
      ensures entries == old(entries) + [m]
    {
      entries := entries + [m];
    }
  }

  /** Pours from bottle fromIdx onto bottle toIdx. Refuses (None, nothing changed)
      on an empty source, a full destination or a destination whose top colour
      differs; otherwise moves the source's top run, as much of it as fits, and
      returns the log of the units moved. */
  method Pour(fromIdx: nat, toIdx: nat, bottles: array<Bottle>, capacity: int) returns (log: Option<Move>)
    requires fromIdx < bottles.Length && toIdx < bottles.Length
    modifies bottles
    ensures log == PourLog(old(bottles[..]), fromIdx, toIdx, capacity)
    ensures log.None? <==> Refused(old(bottles[fromIdx]), old(bottles[toIdx]), capacity)
    ensures log.None? ==> bottles[..] == old(bottles[..])
    ensures bottles[..] == AfterPour(old(bottles[..]), fromIdx, toIdx, capacity)
  {
    ghost var board := bottles[..];
    var from := bottles[fromIdx];
    var to := bottles[toIdx];
    if |from| == 0 || |to| == capacity {
      return None;
    }
    var sandColor := Top(from);
    if |to| > 0 && Top(to) != sandColor {
      return None;
    }
    var added: seq<Color> := [];

    // the same-coloured run on top of the source
    var countToMove := 0;
    var i := |from| - 1;
    while i >= 0
      invariant -1 <= i < |from|
      invariant countToMove == |from| - 1 - i
      invariant forall j :: i < j < |from| ==> from[j] == sandColor
      decreases i + 1
    {
      if from[i] != sandColor {
        break;
      }
      countToMove := countToMove + 1;
      i := i - 1;
    }
    assert countToMove == RunOf(from, sandColor);

    var space := capacity - |to|;
    var actualMove := Min(countToMove, space);
    if actualMove == 0 {
      return None;
    }

    var k := 0;
    while k < actualMove
      invariant 0 <= k <= Max(actualMove, 0)
      invariant bottles[..] == Transfer(board, fromIdx, toIdx, k)
      invariant added == Repeat(sandColor, k)
    {
      ghost var before := bottles[..];
      assert |before[fromIdx]| > 0 && Top(before[fromIdx]) == sandColor by {
        if fromIdx != toIdx {
          TransferMoves(board, fromIdx, toIdx, k);
          assert before[fromIdx] == Drop(from, k);
        }
      }
      // val = from.pop(); to.push(val); moveLog.added.push(val)
      var val := Top(bottles[fromIdx]);
      assert val == sandColor;
      bottles[fromIdx] := Drop(bottles[fromIdx], 1);
      bottles[toIdx] := bottles[toIdx] + [val];
      added := added + [val];
      assert bottles[..] == Step(before, fromIdx, toIdx);
      k := k + 1;
    }
    assert !Refused(from, to, capacity) && ActualMove(from, to, capacity) == actualMove;
    assert |added| == Max(actualMove, 0);
    log := Some(Move(fromIdx, toIdx, added));
  }

  /** Undoes the last recorded move: with an empty history returns false and
      changes nothing; otherwise pops the last log and moves |added| units back
      from its `to` bottle onto its `from` bottle, one pop/push at a time. */
  method Undo(bottles: array<Bottle>, history: MoveHistory) returns (undone: bool)
    requires history.entries != [] ==> Revertible(bottles[..], history.entries[|history.entries| - 1])
    modifies bottles, history
    ensures undone <==> old(history.entries) != []
    ensures !undone ==> bottles[..] == old(bottles[..]) && history.entries == old(history.entries)
    ensures undone ==> history.entries == old(history.entries)[..|old(history.entries)| - 1]
    ensures undone ==> bottles[..] == Revert(old(bottles[..]), old(history.entries)[|old(history.entries)| - 1])
  {
    if |history.entries| == 0 {
      return false;
    }
    var lastMove := history.entries[|history.entries| - 1];
    history.entries := history.entries[..|history.entries| - 1];

    ghost var board := bottles[..];
    var amount := |lastMove.added|;
    for k := 0 to amount
      modifies bottles
      invariant bottles[..] == Transfer(board, lastMove.to, lastMove.from, k)
    {
      ghost var before := bottles[..];
      var val := Top(bottles[lastMove.to]);
      bottles[lastMove.to] := Drop(bottles[lastMove.to], 1);
      bottles[lastMove.from] := bottles[lastMove.from] + [val];
      assert bottles[..] == Step(before, lastMove.to, lastMove.from);
    }
    return true;
  }

  /** A pour whose log is pushed onto the history, followed by undo, leaves both
      the bottles and the history as they were. */
  method PourThenUndo(fromIdx: nat, toIdx: nat, bottles: array<Bottle>, capacity: int, history: MoveHistory)
    requires fromIdx < bottles.Length && toIdx < bottles.Length
    modifies bottles, history
    ensures bottles[..] == old(bottles[..])
    ensures history.entries == old(history.entries)
  {
    ghost var board := bottles[..];
    var log := Pour(fromIdx, toIdx, bottles, capacity);
    if log.Some? {
      UndoInvertsPour(board, fromIdx, toIdx, capacity);
      history.Push(log.value);
      var undone := Undo(bottles, history);
    }
  }

  /** Fisher-Yates shuffle of balls in place; j stands for the index the source
      draws with Math.random, so every choice of j is covered. */
  method Shuffle(balls: array<Color>)
    modifies balls
    ensures multiset(balls[..]) == old(multiset(balls[..]))
  {
    var i := balls.Length - 1;
    while i > 0
      invariant i < balls.Length
      invariant multiset(balls[..]) == old(multiset(balls[..]))
    {
      var j :| 0 <= j <= i;
      balls[i], balls[j] := balls[j], balls[i];
      i := i - 1;
    }
  }

  /** A freshly generated level. */
  datatype Level = Level(
    level: int,
    colorCount: nat,
    totalBottles: nat,
    capacity: nat,
    bottles: seq<Bottle>,
    history: seq<Move>)

  /** The unshuffled balls: Capacity units of each of the colours 0 .. colorCount - 1,
      the first colorCount palette entries, pushed colour by colour. */
  method MakeBalls(colorCount: nat) returns (balls: array<Color>)
    requires colorCount <= PaletteSize
    ensures fresh(balls)
    ensures balls.Length == colorCount * Capacity
    ensures forall c: Color :: multiset(balls[..])[c] == if c < colorCount then Capacity else 0
  {
    var pushed: seq<Color> := [];
    for color := 0 to colorCount
      invariant |pushed| == color * Capacity
      invariant forall c: Color :: multiset(pushed)[c] == if c < color then Capacity else 0
    {
      for i := 0 to Capacity
        invariant |pushed| == color * Capacity + i
        invariant forall c: Color ::
          multiset(pushed)[c] == if c < color then Capacity else if c == color then i else 0
      {
        pushed := pushed + [color];
      }
    }
    balls := new Color[|pushed|](k requires 0 <= k < |pushed| => pushed[k]);
    assert balls[..] == pushed;
  }

  /** Pushes the next Capacity balls, from index start on, onto bottle b, stopping
      early if the balls run out; returns the index of the next ball. */
  method FillBottle(bottles: array<Bottle>, b: nat, balls: array<Color>, start: nat) returns (ballIdx: nat)
    requires b < bottles.Length && start <= balls.Length
    modifies bottles
    ensures ballIdx == Min(start + Capacity, balls.Length)
    ensures bottles[b] == old(bottles[b]) + balls[start..ballIdx]
    ensures forall m :: 0 <= m < bottles.Length && m != b ==> bottles[m] == old(bottles[m])
  {
    ballIdx := start;
    for k := 0 to Capacity
      invariant ballIdx == Min(start + k, balls.Length)
      invariant bottles[b] == old(bottles[b]) + balls[start..ballIdx]
      invariant forall m :: 0 <= m < bottles.Length && m != b ==> bottles[m] == old(bottles[m])
    {
      if ballIdx < balls.Length {
        assert balls[start..ballIdx + 1] == balls[start..ballIdx] + [balls[ballIdx]];
        bottles[b] := bottles[b] + [balls[ballIdx]];
        ballIdx := ballIdx + 1;
      }
    }
  }

  /** Deals the balls in order, Capacity to a bottle, into the first
      totalBottles - 2 bottles; the last two stay empty. */
  method Deal(balls: array<Color>, totalBottles: nat) returns (bottles: array<Bottle>)
    requires totalBottles >= 2 && balls.Length == (totalBottles - 2) * Capacity
    ensures fresh(bottles) && bottles.Length == totalBottles
    ensures forall i :: 0 <= i < totalBottles - 2 ==> |bottles[i]| == Capacity
    ensures bottles[totalBottles - 2] == [] && bottles[totalBottles - 1] == []
    ensures Units(bottles[..]) == multiset(balls[..])
  {
    bottles := new Bottle[totalBottles](_ => []);
    var fillCount := totalBottles - 2;
    var ballIdx := 0;
    UnitsOfEmpty(bottles[..]);
    for b := 0 to fillCount
      invariant ballIdx == b * Capacity
      invariant forall m :: 0 <= m < totalBottles ==> |bottles[m]| == if m < b then Capacity else 0
      invariant Units(bottles[..]) == multiset(balls[..ballIdx])
    {
      assert ballIdx + Capacity <= balls.Length by {
        assert (b + 1) * Capacity == ballIdx + Capacity;
        assert fillCount * Capacity == balls.Length;
      }
      ghost var before := bottles[..];
      var next := FillBottle(bottles, b, balls, ballIdx);
      UnitsFill(before, bottles[..], b, balls[..], ballIdx, next);
      ballIdx := next;
    }
    assert balls[..ballIdx] == balls[..];
  }

  /** Builds level `level`: 3 colours at level 1 and one more every 5 levels, at most
      the palette size; 4 units of each colour, shuffled, dealt 4 to a bottle into
      the first colorCount bottles, followed by 2 empty buffer bottles. */
  method GenerateLevel(level: int) returns (g: Level)
    requires level >= 1
    ensures g.level == level && g.history == []
    ensures g.colorCount == Min(3 + (level - 1) / 5, PaletteSize)
    ensures g.totalBottles == g.colorCount + 2 && g.capacity == 4
    ensures |g.bottles| == g.totalBottles
    ensures forall i :: 0 <= i < g.colorCount ==> |g.bottles[i]| == g.capacity
    ensures g.bottles[g.colorCount] == [] && g.bottles[g.colorCount + 1] == []
    ensures forall c: Color :: Units(g.bottles)[c] == if c < g.colorCount then g.capacity else 0
    ensures Fits(g.bottles, g.capacity)
  {
    var colorCount := 3 + (level - 1) / 5;
    if colorCount > PaletteSize {
      colorCount := PaletteSize;
    }
    var totalBottles := colorCount + 2;
    var capacity := Capacity;
    var balls := MakeBalls(colorCount);
    Shuffle(balls);
    var bottles := Deal(balls, totalBottles);
    g := Level(level, colorCount, totalBottles, capacity, bottles[..], []);
  }
}
