/** The 64-entry anti-replay window shared by both ends (src/replay_window.h and
    its twin in server/UDP/Session.h), refined against the set of all numbers it
    ever accepted. The reference semantics are those of section 3.4.3 of RFC 4303. */
module Replay {
  import opened Bits

  const WINDOW: nat := 64
  const SEQ_LIMIT: nat := 0x1_0000_0000
  const WORD: nat := 0x1_0000_0000_0000_0000
  const NONE: nat := 0xFFFF_FFFF_FFFF_FFFF

  /** Every number accepted so far and the largest of them, -1 when there is none. */
  datatype Window = Window(highest: int, seen: set<nat>) {
    ghost predicate Valid()
    {
      && (highest == -1 <==> seen == {})
      && (seen != {} ==> highest >= 0 && highest in seen)
      && forall x :: x in seen ==> x <= highest
    }

    predicate TooOld(s: nat)
    {
      highest - s >= WINDOW
    }

    predicate Accepts(s: nat)
    {
      s !in seen && !TooOld(s)
    }

    function Offer(s: nat): Window
    {
      if Accepts(s) then Window(if s > highest then s else highest, seen + {s}) else this
    }
  }

  const FRESH := Window(-1, {})

  class ReplayWindow {
    var m_highest: nat
    var m_window: nat
    ghost var seen: set<nat>

    ghost predicate Valid()
      reads this
    {
      if m_highest == NONE then
        seen == {}
      else
        && m_highest < SEQ_LIMIT
        && m_window < WORD
        && m_highest in seen
        && (forall x :: x in seen ==> x <= m_highest)
        && (forall age: nat | age < WINDOW :: Bit(m_window, age) == (age <= m_highest && m_highest - age in seen))
    }

    ghost function View(): Window
      reads this
    {
      Window(if m_highest == NONE then -1 else m_highest, seen)
    }

    constructor ()
      ensures Valid() && View() == FRESH
    {
      m_highest, m_window, seen := NONE, 0, {};
    }

    method Reset()
      modifies this
      ensures Valid() && View() == FRESH
    {
      m_highest, m_window, seen := NONE, 0, {};
    }

    method TooOld(seqNo: nat) returns (tooOld: bool)
      requires Valid() && seqNo < SEQ_LIMIT
      ensures tooOld == View().TooOld(seqNo)
      ensures tooOld ==> !View().Accepts(seqNo)
    {
      if m_highest == NONE {
        return false;
      }
      if seqNo > m_highest {
        return false;
      }
      return m_highest - seqNo >= WINDOW;
    }

    method Accept(seqNo: nat) returns (ok: bool)
      requires Valid() && seqNo < SEQ_LIMIT
      modifies this
      ensures Valid()
      ensures ok == old(View()).Accepts(seqNo)
      ensures View() == old(View()).Offer(seqNo)
    {
      hide Bit, And, Or, Pow2;
      if m_highest == NONE {
        m_highest, m_window, seen := seqNo, 1, {seqNo};
        OneIsBitZero();
        return true;
      }
      if seqNo > m_highest {
        var shift := seqNo - m_highest;
        var next := if shift >= WINDOW then 1 else Or(m_window * Pow2(shift) % WORD, 1);
        forall age: nat | age < WINDOW
          ensures Bit(next, age) == (age == 0 || (age >= shift && Bit(m_window, age - shift)))
        {
          ShiftedBit(m_window, shift, age);
        }
        ShiftedFits(m_window, shift);
        m_window, m_highest, seen := next, seqNo, seen + {seqNo};
        return true;
      }
      var age := m_highest - seqNo;
      if age >= WINDOW {
        return false;
      }
      var bit := Pow2(age);
      AndPow2(m_window, age);
      if And(m_window, bit) != 0 {
        return false;
      }
      forall i: nat | i < WINDOW
        ensures Bit(Or(m_window, bit), i) == (i == age || Bit(m_window, i))
      {
        OrBits(m_window, bit, i);
        Pow2Bits(age, i);
      }
      Pow2Less(age, 64);
      WordSizes();
      OrFits(m_window, bit, 64);
      m_window, seen := Or(m_window, bit), seen + {seqNo};
      return true;
    }
  }

  lemma OneIsBitZero()
    ensures forall age: nat :: Bit(1, age) == (age == 0)
  {
    forall age: nat
      ensures Bit(1, age) == (age == 0)
    {
      Pow2Bits(0, age);
    }
  }

  lemma OrFits(x: nat, y: nat, k: nat)
    requires x < Pow2(k) && y < Pow2(k)
    ensures Or(x, y) < Pow2(k)
  {
    if x != 0 && y != 0 && k != 0 {
      OrFits(x / 2, y / 2, k - 1);
    }
  }

  lemma ShiftedFits(w: nat, shift: nat)
    ensures Or(w * Pow2(shift) % WORD, 1) < WORD
  {
    WordSizes();
    OrFits(w * Pow2(shift) % WORD, 1, 64);
  }

  lemma ShiftedBit(w: nat, shift: nat, age: nat)
    requires 0 < shift && age < WINDOW
    ensures var next := if shift >= WINDOW then 1 else Or(w * Pow2(shift) % WORD, 1);
            Bit(next, age) == (age == 0 || (age >= shift && Bit(w, age - shift)))
  {
    WordSizes();
    Pow2Bits(0, age);
    if shift < WINDOW {
      OrBits(w * Pow2(shift) % WORD, 1, age);
      ModBits(w * Pow2(shift), 64, age);
      ShiftBits(w, shift, age);
    }
  }

  // ---- whole runs ---------------------------------------------------------

  /** The window after a list of authenticated frames, newest last. */
  ghost function After(xs: seq<nat>): Window
  {
    if xs == [] then FRESH else After(xs[..|xs| - 1]).Offer(xs[|xs| - 1])
  }

  /** Whether frame number i of the list was let through. */
  ghost predicate Passed(xs: seq<nat>, i: nat)
    requires i < |xs|
  {
    After(xs[..i]).Accepts(xs[i])
  }

  lemma {:induction false} RunInvariant(xs: seq<nat>)
    ensures After(xs).Valid()
    ensures xs == [] ==> After(xs).highest == -1
    ensures xs != [] ==> After(xs).highest in xs
    ensures forall i :: 0 <= i < |xs| ==> xs[i] <= After(xs).highest
    ensures forall i :: 0 <= i < |xs| ==> xs[i] in After(xs).seen || After(xs).TooOld(xs[i])
    ensures forall x :: x in After(xs).seen ==> x in xs
  {
    if xs != [] {
      var front := xs[..|xs| - 1];
      RunInvariant(front);
      assert xs == front + [xs[|xs| - 1]];
    }
  }

  /** The window's verdict in closed form: a frame passes exactly when its number
      never came before, accepted or not, and is less than 64 behind the largest
      number that came before it. */
  lemma VerdictClosedForm(xs: seq<nat>, i: nat)
    requires i < |xs|
    ensures Passed(xs, i) <==>
            xs[i] !in xs[..i] && forall j :: 0 <= j < i ==> xs[j] - xs[i] < WINDOW
  {
    var before := xs[..i];
    RunInvariant(before);
    var w := After(before);
    if Passed(xs, i) {
      assert xs[i] !in before;
      forall j | 0 <= j < i
        ensures xs[j] - xs[i] < WINDOW
      {
        assert before[j] <= w.highest;
      }
    }
    if xs[i] !in before && forall j :: 0 <= j < i ==> xs[j] - xs[i] < WINDOW {
      if i > 0 {
        var j :| 0 <= j < |before| && before[j] == w.highest;
        assert xs[j] - xs[i] < WINDOW;
      }
    }
  }

  /** Each number gets through at most once. */
  lemma AtMostOnce(xs: seq<nat>, i: nat, j: nat)
    requires i < j < |xs| && xs[i] == xs[j]
    ensures !Passed(xs, j)
  {
    VerdictClosedForm(xs, j);
    assert xs[..j][i] == xs[j];
  }

  /** On an ordered transport no genuine frame is refused. */
  lemma InOrderAllPass(xs: seq<nat>, i: nat)
    requires forall j, k :: 0 <= j < k < |xs| ==> xs[j] < xs[k]
    requires i < |xs|
    ensures Passed(xs, i)
  {
    VerdictClosedForm(xs, i);
  }

  /** Refusal for age is final: whatever arrives later, the number stays too old. */
  lemma {:induction false} TooOldStays(xs: seq<nat>, ys: seq<nat>, s: nat)
    requires After(xs).TooOld(s)
    ensures After(xs + ys).TooOld(s)
  {
    if ys == [] {
      assert xs + ys == xs;
    } else {
      TooOldStays(xs, ys[..|ys| - 1], s);
      assert (xs + ys)[..|xs + ys| - 1] == xs + ys[..|ys| - 1];
    }
  }
}
