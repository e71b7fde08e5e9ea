/** Colours, bottles and the facts about stacks of units that the pour rule relies on. */
module Bottles {

  /** Number of entries in the palette. Colours are compared only for identity,
      so a colour is an index into the palette. */
  const PaletteSize := 14

  type Color = c: nat | c < PaletteSize

  /** A bottle is a stack of units; its last element is the top. */
  type Bottle = seq<Color>

  function Min(a: int, b: int): (m: int) { if a < b then a else b }

  function Max(a: int, b: int): (m: int) { if a < b then b else a }

  function Top(b: Bottle): (c: Color)
    requires |b| > 0
  {
    b[|b| - 1]
  }

  /** b with its top n units popped. */
  function Drop(b: Bottle, n: nat): (r: Bottle)
    requires n <= |b|
  {
    b[..|b| - n]
  }

  /** The top n units of b, bottom first. */
  function TopUnits(b: Bottle, n: nat): (r: Bottle)
    requires n <= |b|
  {
    b[|b| - n..]
  }

  function Repeat(c: Color, n: nat): (r: seq<Color>) { seq(n, _ => c) }

  function Reverse(s: seq<Color>): (r: seq<Color>)
    ensures |r| == |s|
    ensures forall i :: 0 <= i < |s| ==> r[i] == s[|s| - 1 - i]
  {
    if s == [] then [] else Reverse(s[1..]) + [s[0]]
  }

  /** Length of the maximal run of colour c at the top of b: every unit of the run
      is c, and the unit just below it (if any) is not. */
  function RunOf(b: Bottle, c: Color): (n: nat)
    ensures n <= |b|
    ensures forall i :: |b| - n <= i < |b| ==> b[i] == c
    ensures n < |b| ==> b[|b| - 1 - n] != c
  {
    if b == [] || Top(b) != c then 0 else 1 + RunOf(Drop(b, 1), c)
  }

  /** Popping m units off a run of c shortens the run by exactly m. */
  lemma {:induction false} RunOfDrop(b: Bottle, c: Color, m: nat)
    requires m <= RunOf(b, c)
    ensures RunOf(Drop(b, m), c) == RunOf(b, c) - m
  {
    if m > 0 {
      assert Drop(b, m) == Drop(Drop(b, 1), m - 1);
      RunOfDrop(Drop(b, 1), c, m - 1);
    }
  }

  /** A bottle every unit of which is c has a run of c as long as itself. */
  lemma RunOfUniform(b: Bottle, c: Color)
    requires forall i :: 0 <= i < |b| ==> b[i] == c
    ensures RunOf(b, c) == |b|
  {
  }

  /** Every unit in every bottle, as a multiset: Units(bs)[c] is the number of
      units of colour c on the board. */
  function Units(bs: seq<Bottle>): (u: multiset<Color>)
  {
    if bs == [] then multiset{} else Units(bs[..|bs| - 1]) + multiset(bs[|bs| - 1])
  }

  /** Replacing one bottle changes the units on the board by exactly the
      difference between the old and the new bottle. */
  lemma {:induction false} UnitsUpdate(bs: seq<Bottle>, i: nat, b: Bottle)
    requires i < |bs|
    ensures Units(bs[i := b]) + multiset(bs[i]) == Units(bs) + multiset(b)
  {
    var last := |bs| - 1;
    var rest, updated := bs[..last], bs[i := b];
    assert updated[..last] == if i == last then rest else rest[i := b];
    assert Units(bs) == Units(rest) + multiset(bs[last]);
    if i == last {
      assert Units(updated) == Units(rest) + multiset(b);
    } else {
      assert rest[i] == bs[i];
      UnitsUpdate(rest, i, b);
      calc {
        Units(updated) + multiset(bs[i]);
        Units(rest[i := b]) + multiset(bs[last]) + multiset(bs[i]);
        Units(rest[i := b]) + multiset(bs[i]) + multiset(bs[last]);
        Units(rest) + multiset(b) + multiset(bs[last]);
        Units(bs) + multiset(b);
      }
    }
  }

  /** A board of empty bottles holds no units. */
  lemma {:induction false} UnitsOfEmpty(bs: seq<Bottle>)
    requires forall i :: 0 <= i < |bs| ==> bs[i] == []
    ensures Units(bs) == multiset{}
  {
    if bs != [] {
      UnitsOfEmpty(bs[..|bs| - 1]);
    }
  }

  /** Pushing x onto bottle i adds exactly one unit x to the board. */
  lemma UnitsPush(bs: seq<Bottle>, i: nat, x: Color)
    requires i < |bs|
    ensures Units(bs[i := bs[i] + [x]]) == Units(bs) + multiset{x}
  {
    var pushed := bs[i] + [x];
    UnitsUpdate(bs, i, pushed);
    assert multiset(pushed) == multiset(bs[i]) + multiset{x};
    var u := Units(bs[i := pushed]);
    forall c ensures u[c] == (Units(bs) + multiset{x})[c] {
      assert (u + multiset(bs[i]))[c] == (Units(bs) + multiset(pushed))[c];
    }
  }

  /** Filling the empty bottle i of a board holding the units units[..lo] with the
      units units[lo..hi], and changing nothing else, gives a board holding
      units[..hi]. */
  lemma UnitsFill(bs: seq<Bottle>, filled: seq<Bottle>, i: nat, units: seq<Color>, lo: nat, hi: nat)
    requires i < |bs| == |filled| && |bs[i]| == 0 && lo <= hi <= |units|
    requires filled[i] == bs[i] + units[lo..hi]
    requires forall m :: 0 <= m < |bs| && m != i ==> filled[m] == bs[m]
    requires Units(bs) == multiset(units[..lo])
    ensures Units(filled) == multiset(units[..hi])
  {
    var s := units[lo..hi];
    assert bs[i] == [] && filled[i] == s;
    assert filled == bs[i := s];
    UnitsUpdate(bs, i, s);
    var u := Units(filled);
    forall c ensures u[c] == (Units(bs) + multiset(s))[c] {
      assert (u + multiset(bs[i]))[c] == (Units(bs) + multiset(s))[c];
    }
    assert units[..hi] == units[..lo] + s;
  }

  /** No bottle holds more than capacity units. */
  predicate Fits(bs: seq<Bottle>, capacity: int)
  {
    forall i :: 0 <= i < |bs| ==> |bs[i]| <= capacity
  }

  /** A bottle counts as done when it is empty, or full and of one colour. */
  predicate Solved(b: Bottle, capacity: int)
  {
    |b| == 0 || (|b| == capacity && forall j :: 0 <= j < |b| ==> b[j] == b[0])
  }
}
