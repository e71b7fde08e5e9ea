/** The rules of the engine as pure functions over a board (a sequence of bottles):
    the pop/push transfer that both pour and undo perform, the pour rule with its
    move log, undo, the win test, and the properties these promise. */
module Rules {
  import opened Bottles

  datatype Option<T> = None | Some(value: T)

  /** A move log: the indices poured between and the units moved, in the order
      they were popped off the source. */
  datatype Move = Move(from: nat, to: nat, added: seq<Color>)

  /** One `pop` of bottle src followed by a `push` of that unit onto bottle dst.
      Both act on the same board, so when src == dst the unit goes back where it was. */
  function Step(bs: seq<Bottle>, src: nat, dst: nat): (r: seq<Bottle>)
    requires src < |bs| && dst < |bs| && |bs[src]| > 0
    ensures |r| == |bs|
    ensures src == dst ==> r == bs
    ensures src != dst ==> r[src] == Drop(bs[src], 1) && r[dst] == bs[dst] + [Top(bs[src])]
    ensures forall i :: 0 <= i < |bs| && i != src && i != dst ==> r[i] == bs[i]
  {
    var popped := bs[src := Drop(bs[src], 1)];
    assert src == dst ==> Drop(bs[src], 1) + [Top(bs[src])] == bs[src];
    popped[dst := popped[dst] + [Top(bs[src])]]
  }

  /** n rounds of Step: the board after the counted pop/push loops of pour and undo. */
  function Transfer(bs: seq<Bottle>, src: nat, dst: nat, n: nat): (r: seq<Bottle>)
    requires src < |bs| && dst < |bs| && n <= |bs[src]|
    ensures |r| == |bs|
    ensures src == dst ==> r == bs
    ensures src != dst ==> |r[src]| == |bs[src]| - n && |r[dst]| == |bs[dst]| + n
    ensures forall i :: 0 <= i < |bs| && i != src && i != dst ==> r[i] == bs[i]
    decreases n
  {
    if n == 0 then bs
    else
      Step(Transfer(bs, src, dst, n - 1), src, dst)
  }

  /** Between two distinct bottles, a transfer of n units pops the top n units of
      the source and pushes them onto the destination in reverse order. */
  lemma {:induction false} TransferMoves(bs: seq<Bottle>, src: nat, dst: nat, n: nat)
    requires src < |bs| && dst < |bs| && src != dst && n <= |bs[src]|
    ensures Transfer(bs, src, dst, n)[src] == Drop(bs[src], n)
    ensures Transfer(bs, src, dst, n)[dst] == bs[dst] + Reverse(TopUnits(bs[src], n))
  {
    if n > 0 {
      TransferMoves(bs, src, dst, n - 1);
      var b := bs[src];
      var prev := TopUnits(b, n - 1);
      var moved := TopUnits(b, n);
      assert moved == [b[|b| - n]] + prev;
      assert moved[1..] == prev;
      assert Reverse(moved) == Reverse(prev) + [b[|b| - n]];
      assert Drop(Drop(b, n - 1), 1) == Drop(b, n);
    }
  }

  /** After a transfer of n units and a transfer of n units back, the destination
      bottle is as it was. */
  lemma RoundTripDst(bs: seq<Bottle>, src: nat, dst: nat, n: nat)
    requires src < |bs| && dst < |bs| && src != dst && n <= |bs[src]|
    ensures n <= |Transfer(bs, src, dst, n)[dst]|
    ensures Transfer(Transfer(bs, src, dst, n), dst, src, n)[dst] == bs[dst]
  {
    var mid := Transfer(bs, src, dst, n);
    var moved := TopUnits(bs[src], n);
    TransferMoves(bs, src, dst, n);
    assert mid[dst] == bs[dst] + Reverse(moved);
    TransferMoves(mid, dst, src, n);
    SplitTop(bs[dst], Reverse(moved));
  }

  /** Moving the top n units of a onto d, reversed, and then the top n units of
      the result back onto what is left of a, reversed again, rebuilds both. */
  lemma Rejoin(a: Bottle, d: Bottle, n: nat)
    requires n <= |a|
    ensures TopUnits(d + Reverse(TopUnits(a, n)), n) == Reverse(TopUnits(a, n))
    ensures Drop(a, n) + Reverse(TopUnits(d + Reverse(TopUnits(a, n)), n)) == a
  {
    var moved := TopUnits(a, n);
    SplitTop(d, Reverse(moved));
    ReverseTwice(moved);
  }

  /** After a transfer of n units and a transfer of n units back, the source
      bottle is as it was: the units come back in their original order. */
  lemma RoundTripSrc(bs: seq<Bottle>, src: nat, dst: nat, n: nat)
    requires src < |bs| && dst < |bs| && src != dst && n <= |bs[src]|
    ensures n <= |Transfer(bs, src, dst, n)[dst]|
    ensures Transfer(Transfer(bs, src, dst, n), dst, src, n)[src] == bs[src]
  {
    var mid := Transfer(bs, src, dst, n);
    TransferMoves(bs, src, dst, n);
    TransferMoves(mid, dst, src, n);
    Rejoin(bs[src], bs[dst], n);
  }

  /** Transferring n units back undoes a transfer of n units, whatever their colours. */
  lemma TransferRoundTrip(bs: seq<Bottle>, src: nat, dst: nat, n: nat)
    requires src < |bs| && dst < |bs| && n <= |bs[src]|
    ensures n <= |Transfer(bs, src, dst, n)[dst]|
    ensures Transfer(Transfer(bs, src, dst, n), dst, src, n) == bs
  {
    if src != dst {
      RoundTripSrc(bs, src, dst, n);
      RoundTripDst(bs, src, dst, n);
      SameBoard(Transfer(Transfer(bs, src, dst, n), dst, src, n), bs);
    }
  }

  /** Two boards that agree bottle by bottle are equal. */
  lemma SameBoard(a: seq<Bottle>, b: seq<Bottle>)
    requires |a| == |b| && forall i :: 0 <= i < |a| ==> a[i] == b[i]
    ensures a == b
  {
  }

  /** Splitting the top |x| units off a + x gives back a and x. */
  lemma SplitTop(a: Bottle, x: Bottle)
    ensures Drop(a + x, |x|) == a && TopUnits(a + x, |x|) == x
  {
  }

  lemma ReverseTwice(s: seq<Color>)
    ensures Reverse(Reverse(s)) == s
  {
    assert forall i :: 0 <= i < |s| ==> Reverse(Reverse(s))[i] == s[i];
  }

  lemma {:induction false} StepConserves(bs: seq<Bottle>, src: nat, dst: nat)
    requires src < |bs| && dst < |bs| && |bs[src]| > 0
    ensures Units(Step(bs, src, dst)) == Units(bs)
  {
    var b := bs[src];
    var v := Top(b);
    var popped := bs[src := Drop(b, 1)];
    UnitsUpdate(bs, src, Drop(b, 1));
    assert b == Drop(b, 1) + [v];
    assert multiset(b) == multiset(Drop(b, 1)) + multiset{v};
    UnitsPush(popped, dst, v);
    var u := Units(popped);
    forall c ensures (u + multiset{v})[c] == Units(bs)[c] {
      assert (u + multiset(b))[c] == (Units(bs) + multiset(Drop(b, 1)))[c];
    }
  }

  /** A transfer neither creates nor destroys units: every colour keeps its count. */
  lemma {:induction false} TransferConserves(bs: seq<Bottle>, src: nat, dst: nat, n: nat)
    requires src < |bs| && dst < |bs| && n <= |bs[src]|
    ensures Units(Transfer(bs, src, dst, n)) == Units(bs)
    decreases n
  {
    if n > 0 {
      TransferConserves(bs, src, dst, n - 1);
      StepConserves(Transfer(bs, src, dst, n - 1), src, dst);
    }
  }

  /** The guards of pour: an empty source, a full destination, or a destination
      whose top differs from the source's top. */
  predicate Refused(src: Bottle, dst: Bottle, capacity: int)
  {
    |src| == 0 || |dst| == capacity || (|dst| > 0 && Top(dst) != Top(src))
  }

  /** `actualMove`: the source's top run, limited by the room left in the destination. */
  function ActualMove(src: Bottle, dst: Bottle, capacity: int): (n: int)
    requires |src| > 0
    ensures n <= RunOf(src, Top(src)) && n <= capacity - |dst|
    ensures n == RunOf(src, Top(src)) || n == capacity - |dst|
    ensures |dst| < capacity ==> 1 <= n
  {
    Min(RunOf(src, Top(src)), capacity - |dst|)
  }

  /** What pour returns: None when it refuses, otherwise the log of the units moved.
      The counted loop runs max(actualMove, 0) times and pops the source's top colour
      every time. */
  function PourLog(bs: seq<Bottle>, f: nat, t: nat, capacity: int): (r: Option<Move>)
    requires f < |bs| && t < |bs|
    ensures r.Some? ==> r.value.from == f && r.value.to == t && |r.value.added| <= |bs[f]|
  {
    var src := bs[f];
    var dst := bs[t];
    if Refused(src, dst, capacity) then None
    else if ActualMove(src, dst, capacity) == 0 then None
    else Some(Move(f, t, Repeat(Top(src), Max(ActualMove(src, dst, capacity), 0))))
  }

  /** The board after pour(f, t). */
  function AfterPour(bs: seq<Bottle>, f: nat, t: nat, capacity: int): (r: seq<Bottle>)
    requires f < |bs| && t < |bs|
    ensures |r| == |bs|
    ensures Refused(bs[f], bs[t], capacity) ==> r == bs
    ensures forall i :: 0 <= i < |bs| && i != f && i != t ==> r[i] == bs[i]
  {
    match PourLog(bs, f, t, capacity)
    case None => bs
    case Some(m) => Transfer(bs, f, t, |m.added|)
  }

  /** Pour refuses exactly on its three guards: the later `actualMove === 0` guard
      never fires, because a non-empty source has a top run of at least one. */
  lemma PourRefusedIff(bs: seq<Bottle>, f: nat, t: nat, capacity: int)
    requires f < |bs| && t < |bs|
    ensures PourLog(bs, f, t, capacity).None? <==> Refused(bs[f], bs[t], capacity)
  {
    if !Refused(bs[f], bs[t], capacity) {
      assert RunOf(bs[f], Top(bs[f])) >= 1;
    }
  }

  /** How much a successful pour moves: min(run, space), at least one when the
      destination is not over capacity, and never past the capacity. */
  lemma PourAmount(bs: seq<Bottle>, f: nat, t: nat, capacity: int)
    requires f < |bs| && t < |bs| && PourLog(bs, f, t, capacity).Some?
    requires |bs[t]| <= capacity
    ensures var n := |PourLog(bs, f, t, capacity).value.added|;
      && n == Min(RunOf(bs[f], Top(bs[f])), capacity - |bs[t]|)
      && 1 <= n
      && |AfterPour(bs, f, t, capacity)[t]| <= capacity
      && (f != t ==>
            |AfterPour(bs, f, t, capacity)[f]| == |bs[f]| - n && |AfterPour(bs, f, t, capacity)[t]| == |bs[t]| + n)
  {
    assert RunOf(bs[f], Top(bs[f])) >= 1;
  }

  /** The units a pour moves between two bottles are the source's top units, all of
      the source's top colour, and the log records exactly them: the source loses
      them, the destination gains `added` on top, and the rest of the top run
      (run - n units) stays on the source. */
  lemma PourMovesTopRun(bs: seq<Bottle>, f: nat, t: nat, capacity: int)
    requires f < |bs| && t < |bs| && f != t && PourLog(bs, f, t, capacity).Some?
    ensures var added := PourLog(bs, f, t, capacity).value.added;
      var after := AfterPour(bs, f, t, capacity);
      && added == Reverse(TopUnits(bs[f], |added|))
      && (forall k :: 0 <= k < |added| ==> added[k] == Top(bs[f]))
      && after[f] + added == bs[f]
      && after[t] == bs[t] + added
      && RunOf(after[f], Top(bs[f])) == RunOf(bs[f], Top(bs[f])) - |added|
  {
    var src, c := bs[f], Top(bs[f]);
    var added := PourLog(bs, f, t, capacity).value.added;
    var n := |added|;
    TransferMoves(bs, f, t, n);
    var moved := TopUnits(src, n);
    assert Reverse(moved) == added;
    assert Drop(src, n) + Reverse(moved) == src;
    RunOfDrop(src, c, n);
  }

  /** A pour touches only bottles f and t, conserves the count of every colour,
      keeps every bottle within capacity, and a pour of a bottle onto itself
      leaves the board as it was. */
  lemma PourInvariants(bs: seq<Bottle>, f: nat, t: nat, capacity: int)
    requires f < |bs| && t < |bs|
    ensures var after := AfterPour(bs, f, t, capacity);
      && |after| == |bs|
      && (forall i :: 0 <= i < |bs| && i != f && i != t ==> after[i] == bs[i])
      && Units(after) == Units(bs)
      && (Fits(bs, capacity) ==> Fits(after, capacity))
      && (f == t ==> after == bs)
  {
    match PourLog(bs, f, t, capacity)
    case None =>
    case Some(m) =>
      TransferConserves(bs, f, t, |m.added|);
      if Fits(bs, capacity) {
        PourAmount(bs, f, t, capacity);
      }
  }

  /** The units undo moves back: pops from m.to, pushes onto m.from. */
  predicate Revertible(bs: seq<Bottle>, m: Move)
  {
    m.from < |bs| && m.to < |bs| && |m.added| <= |bs[m.to]|
  }

  /** The board after undoing move m. */
  function Revert(bs: seq<Bottle>, m: Move): (r: seq<Bottle>)
    requires Revertible(bs, m)
    ensures |r| == |bs|
    ensures m.from != m.to ==>
      |r[m.to]| == |bs[m.to]| - |m.added| && |r[m.from]| == |bs[m.from]| + |m.added|
    ensures forall i :: 0 <= i < |bs| && i != m.from && i != m.to ==> r[i] == bs[i]
  {
    Transfer(bs, m.to, m.from, |m.added|)
  }

  /** Undoing the move a successful pour logged restores every bottle, element
      for element. */
  lemma UndoInvertsPour(bs: seq<Bottle>, f: nat, t: nat, capacity: int)
    requires f < |bs| && t < |bs| && PourLog(bs, f, t, capacity).Some?
    ensures var m := PourLog(bs, f, t, capacity).value;
      Revertible(AfterPour(bs, f, t, capacity), m)
      && Revert(AfterPour(bs, f, t, capacity), m) == bs
  {
    var m := PourLog(bs, f, t, capacity).value;
    TransferRoundTrip(bs, f, t, |m.added|);
  }

  /** All units of b equal b's first unit (the inner `every` of isWin). */
  function AllLike(b: Bottle, first: Color): (r: bool)
    ensures r <==> forall j :: 0 <= j < |b| ==> b[j] == first
  {
    b == [] || (b[0] == first && AllLike(b[1..], first))
  }

  /** isWin: every bottle is empty, or holds capacity units all of one colour. */
  function IsWin(bottles: seq<Bottle>, capacity: int): (win: bool)
    ensures win <==> forall i :: 0 <= i < |bottles| ==> Solved(bottles[i], capacity)
  {
    if bottles == [] then true
    else
      var bottle := bottles[0];
      var done :=
        if |bottle| == 0 then true
        else if |bottle| != capacity then false
        else AllLike(bottle, bottle[0]);
      done && IsWin(bottles[1..], capacity)
  }

  /** From a won board every pour that succeeds empties a full bottle into an
      empty one, so the board stays won. */
  lemma PourKeepsWin(bs: seq<Bottle>, f: nat, t: nat, capacity: int)
    requires f < |bs| && t < |bs| && PourLog(bs, f, t, capacity).Some?
    requires IsWin(bs, capacity)
    ensures f != t && |bs[f]| == capacity && |bs[t]| == 0
    ensures AfterPour(bs, f, t, capacity)[f] == [] && AfterPour(bs, f, t, capacity)[t] == bs[f]
    ensures IsWin(AfterPour(bs, f, t, capacity), capacity)
  {
    var src, c := bs[f], Top(bs[f]);
    assert Solved(src, capacity) && Solved(bs[t], capacity);
    assert |src| == capacity;
    assert f != t && |bs[t]| == 0;
    assert forall j :: 0 <= j < |src| ==> src[j] == src[0];
    assert c == src[0];
    RunOfUniform(src, c);
    PourMovesTopRun(bs, f, t, capacity);
    var after := AfterPour(bs, f, t, capacity);
    var added := PourLog(bs, f, t, capacity).value.added;
    assert |added| == capacity;
    assert after[f] == [];
    assert after[t] == added;
    assert added == src by {
      assert forall k :: 0 <= k < |src| ==> added[k] == src[k];
    }
    assert Solved(after[f], capacity) && Solved(after[t], capacity);
    PourInvariants(bs, f, t, capacity);
    assert forall i :: 0 <= i < |after| ==> Solved(after[i], capacity) by {
      forall i | 0 <= i < |after| ensures Solved(after[i], capacity) {
        if i != f && i != t {
          assert after[i] == bs[i];
        }
      }
    }
  }

  /** A session of pour requests (from, to) as the board receives them: a refused
      pour changes nothing and is not recorded, a successful one changes the board
      and its log is pushed onto the history. */
  function Play(s0: seq<Bottle>, requests: seq<(nat, nat)>, capacity: int): (r: (seq<Bottle>, seq<Move>))
    requires forall q :: q in requests ==> q.0 < |s0| && q.1 < |s0|
    ensures |r.0| == |s0|
    ensures |r.1| <= |requests|
    ensures forall m :: m in r.1 ==> m.from < |s0| && m.to < |s0|
    decreases |requests|
  {
    if requests == [] then (s0, [])
    else
      var (s, h) := Play(s0, requests[..|requests| - 1], capacity);
      var (f, t) := requests[|requests| - 1];
      match PourLog(s, f, t, capacity)
      case None => (s, h)
      case Some(m) => (AfterPour(s, f, t, capacity), h + [m])
  }

  /** Every entry of h, from the last back to the first, can be undone in turn. */
  predicate Undoable(s: seq<Bottle>, h: seq<Move>)
    decreases |h|
  {
    h == [] || (Revertible(s, h[|h| - 1]) && Undoable(Revert(s, h[|h| - 1]), h[..|h| - 1]))
  }

  /** The board after calling undo until the history is empty. */
  function UndoAll(s: seq<Bottle>, h: seq<Move>): (r: seq<Bottle>)
    requires Undoable(s, h)
    ensures |r| == |s|
    ensures Units(r) == Units(s)
    decreases |h|
  {
    if h == [] then s
    else
      var m := h[|h| - 1];
      TransferConserves(s, m.to, m.from, |m.added|);
      UndoAll(Revert(s, m), h[..|h| - 1])
  }

  /** Undoing a whole session, last move first, restores the starting board
      element for element. */
  lemma {:induction false} UndoAllRestores(s0: seq<Bottle>, requests: seq<(nat, nat)>, capacity: int)
    requires forall q :: q in requests ==> q.0 < |s0| && q.1 < |s0|
    ensures var (s, h) := Play(s0, requests, capacity);
      Undoable(s, h) && UndoAll(s, h) == s0
    decreases |requests|
  {
    if requests != [] {
      var prefix := requests[..|requests| - 1];
      UndoAllRestores(s0, prefix, capacity);
      var (s, h) := Play(s0, prefix, capacity);
      var (f, t) := requests[|requests| - 1];
      assert requests[|requests| - 1] in requests;
      match PourLog(s, f, t, capacity)
      case None =>
      case Some(m) =>
        UndoInvertsPour(s, f, t, capacity);
        var h' := h + [m];
        assert h'[..|h'| - 1] == h && h'[|h'| - 1] == m;
    }
  }

  /** Every board a session reaches holds the same units as the starting board, so
      each colour keeps its count, and no bottle ever goes over capacity. */
  lemma {:induction false} PlayInvariants(s0: seq<Bottle>, requests: seq<(nat, nat)>, capacity: int)
    requires forall q :: q in requests ==> q.0 < |s0| && q.1 < |s0|
    ensures Units(Play(s0, requests, capacity).0) == Units(s0)
    ensures Fits(s0, capacity) ==> Fits(Play(s0, requests, capacity).0, capacity)
    decreases |requests|
  {
    if requests != [] {
      var prefix := requests[..|requests| - 1];
      PlayInvariants(s0, prefix, capacity);
      var (s, h) := Play(s0, prefix, capacity);
      var (f, t) := requests[|requests| - 1];
      assert requests[|requests| - 1] in requests;
      PourInvariants(s, f, t, capacity);
    }
  }
}
