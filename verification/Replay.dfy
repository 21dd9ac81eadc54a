/** The 128-packet sliding receive window of one voice session.

The window keeps a high-water mark and a bitmap of two 64-bit words.  Its
reference is the unbounded set of every sequence accepted so far: the bitmap
must give, for ever, the decisions that the set would give.
*/
module Replay {

  const REPLAY_WINDOW_SIZE: nat := 128
  const MAX_UINT64: nat := 0xFFFF_FFFF_FFFF_FFFF

  type uint64 = x: int | 0 <= x <= MAX_UINT64 witness 0

  // ----- Reference: an unbounded memory of accepted sequences -----

  /** Whether a memory of accepted sequences admits `s`: it is not zero, was never
      accepted, and no accepted sequence is a whole window ahead of it. */
  ghost predicate Admits(accepted: set<uint64>, s: uint64) {
    s != 0 && s !in accepted && forall a | a in accepted :: a - s < REPLAY_WINDOW_SIZE
  }

  ghost function Remember(accepted: set<uint64>, s: uint64): set<uint64> {
    if Admits(accepted, s) then accepted + {s} else accepted
  }

  ghost function RememberAll(accepted: set<uint64>, arrivals: seq<uint64>): set<uint64>
    decreases |arrivals|
  {
    if arrivals == [] then accepted
    else RememberAll(Remember(accepted, arrivals[0]), arrivals[1..])
  }

  /** Whether arrival `i` of a run that starts with an empty memory is accepted. */
  ghost predicate AcceptedAt(arrivals: seq<uint64>, i: nat)
    requires i < |arrivals|
  {
    Admits(RememberAll({}, arrivals[..i]), arrivals[i])
  }

  lemma {:induction false} RememberAllAppend(accepted: set<uint64>, arrivals: seq<uint64>, s: uint64)
    ensures RememberAll(accepted, arrivals + [s]) == Remember(RememberAll(accepted, arrivals), s)
    decreases |arrivals|
  {
    if arrivals == [] {
      assert RememberAll(Remember(accepted, s), []) == Remember(accepted, s);
      assert ([] + [s])[1..] == [];
    } else {
      assert (arrivals + [s])[1..] == arrivals[1..] + [s];
      RememberAllAppend(Remember(accepted, arrivals[0]), arrivals[1..], s);
    }
  }

  lemma {:induction false} MemoryGrows(arrivals: seq<uint64>, i: nat, j: nat)
    requires i <= j <= |arrivals|
    ensures RememberAll({}, arrivals[..i]) <= RememberAll({}, arrivals[..j])
    decreases j
  {
    if i < j {
      MemoryGrows(arrivals, i, j - 1);
      assert arrivals[..j] == arrivals[..j - 1] + [arrivals[j - 1]];
      RememberAllAppend({}, arrivals[..j - 1], arrivals[j - 1]);
    }
  }

  /** No run accepts one sequence twice. */
  lemma NoSequenceAcceptedTwice(arrivals: seq<uint64>, i: nat, j: nat)
    requires i < j < |arrivals|
    requires AcceptedAt(arrivals, i) && AcceptedAt(arrivals, j)
    ensures arrivals[i] != arrivals[j]
  {
    assert arrivals[..i + 1] == arrivals[..i] + [arrivals[i]];
    RememberAllAppend({}, arrivals[..i], arrivals[i]);
    MemoryGrows(arrivals, i + 1, j);
  }

  // ----- 64-bit words, bit 0 first -----

  function Zeros(n: nat): (s: seq<bool>)
    ensures |s| == n && forall i | 0 <= i < n :: !s[i]
  {
    if n == 0 then [] else Zeros(n - 1) + [false]
  }

  type Word = w: seq<bool> | |w| == 64 witness Zeros(64)

  const ZERO: Word := Zeros(64)

  function ShiftLeft(w: Word, n: nat): Word {
    seq(64, i requires 0 <= i < 64 => i >= n && w[i - n])
  }

  function ShiftRight(w: Word, n: nat): Word {
    seq(64, i requires 0 <= i < 64 => i + n < 64 && w[i + n])
  }

  function Or(v: Word, w: Word): Word {
    seq(64, i requires 0 <= i < 64 => v[i] || w[i])
  }

  function And(v: Word, w: Word): Word {
    seq(64, i requires 0 <= i < 64 => v[i] && w[i])
  }

  // The word 1 << bit.
  function Mask(bit: nat): Word
    requires bit < 64
  {
    ShiftLeft(ZERO[0 := true], bit)
  }

  lemma MaskTest(w: Word, bit: nat)
    requires bit < 64
    ensures And(w, Mask(bit)) == ZERO <==> !w[bit]
  {
    assert And(w, Mask(bit))[bit] == w[bit];
    assert forall i | 0 <= i < 64 && i != bit :: !And(w, Mask(bit))[i];
  }

  /** Slot `offset` of the bitmap: word offset / 64, bit offset % 64. */
  predicate Slot(lo: Word, hi: Word, offset: nat)
    requires offset < REPLAY_WINDOW_SIZE
  {
    if offset < 64 then lo[offset] else hi[offset - 64]
  }

  /** The bitmap marks exactly the accepted sequences of the current window. */
  ghost predicate Represents(high: uint64, lo: Word, hi: Word, accepted: set<uint64>) {
    && (if accepted == {} then high == 0 else high in accepted)
    && (forall a | a in accepted :: 0 < a <= high)
    && (forall offset: nat | offset < REPLAY_WINDOW_SIZE && offset <= high ::
          Slot(lo, hi, offset) <==> (high - offset) as uint64 in accepted)
  }

  class ReplayWindow {
    var high: uint64
    const bits: array<Word>
    ghost var accepted: set<uint64>

    ghost predicate Valid()
      reads this, bits
    {
      bits.Length == 2 && Represents(high, bits[0], bits[1], accepted)
    }

    constructor ()
      ensures Valid() && fresh(bits)
      ensures accepted == {} && high == 0
    {
      high := 0;
      bits := new Word[2](_ => ZERO);
      accepted := {};
    }

    /** Read-only precheck: answers what Accept would answer. */
    method WouldAccept(s: uint64) returns (ok: bool)
      requires Valid()
      ensures ok <==> Admits(accepted, s)
    {
      if s == 0 {
        return false;
      }
      if s > high {
        return true;
      }
      var offset := high - s;
      if offset >= REPLAY_WINDOW_SIZE {
        return false;
      }
      MaskTest(bits[offset / 64], offset % 64);
      assert Slot(bits[0], bits[1], offset) <==> s in accepted;
      return And(bits[offset / 64], Mask(offset % 64)) == ZERO;
    }

    method Accept(s: uint64) returns (ok: bool, advanced: bool)
      requires Valid()
      modifies this`high, this`accepted, bits
      ensures Valid()
      ensures ok <==> Admits(old(accepted), s)
      ensures accepted == Remember(old(accepted), s)
      ensures advanced <==> s > old(high)
      ensures high == if advanced then s else old(high)
    {
      if s == 0 {
        return false, false;
      }
      if s > high {
        var delta := s - high;
        if delta >= REPLAY_WINDOW_SIZE {
          bits[0], bits[1] := ZERO, ZERO;
        } else {
          ShiftBitmap(delta);
        }
        ghost var lo, hi := bits[0], bits[1];
        ghost var was := high;
        high := s;
        bits[0] := Or(bits[0], Mask(0));
        accepted := accepted + {s};
        forall offset: nat | offset < REPLAY_WINDOW_SIZE && offset <= high
          ensures Slot(bits[0], bits[1], offset) <==> (high - offset) as uint64 in accepted
        {
          assert Slot(bits[0], bits[1], offset) <==> offset == 0 || Slot(lo, hi, offset);
          if delta < REPLAY_WINDOW_SIZE && offset >= delta {
            assert Slot(lo, hi, offset) <==> old(Slot(bits[0], bits[1], offset - delta));
          }
        }
        return true, true;
      }
      var offset := high - s;
      if offset >= REPLAY_WINDOW_SIZE {
        return false, false;
      }
      var mask := Mask(offset % 64);
      MaskTest(bits[offset / 64], offset % 64);
      assert Slot(bits[0], bits[1], offset) <==> s in accepted;
      if And(bits[offset / 64], mask) != ZERO {
        return false, false;
      }
      bits[offset / 64] := Or(bits[offset / 64], mask);
      accepted := accepted + {s};
      assert forall o: nat | o < REPLAY_WINDOW_SIZE ::
          Slot(bits[0], bits[1], o) <==> o == offset || old(Slot(bits[0], bits[1], o));
      return true, false;
    }

    /** Shifts the 128-bit bitmap left by n, dropping the oldest bits: every slot
        moves n places up and the n newest slots are empty. */
    method ShiftBitmap(n: nat)
      requires bits.Length == 2 && n < REPLAY_WINDOW_SIZE
      modifies bits
      ensures forall offset: nat | offset < REPLAY_WINDOW_SIZE ::
                Slot(bits[0], bits[1], offset) <==>
                offset >= n && old(Slot(bits[0], bits[1], offset - n))
    {
      hide Slot, Or, ShiftLeft, ShiftRight;
      if n == 0 {
        return;
      }
      if n < 64 {
        ghost var lo, hi := bits[0], bits[1];
        bits[1] := Or(ShiftLeft(bits[1], n), ShiftRight(bits[0], 64 - n));
        bits[0] := ShiftLeft(bits[0], n);
        ShiftWithin(lo, hi, n, bits[0], bits[1]);
      } else {
        ghost var lo, hi := bits[0], bits[1];
        bits[1] := ShiftLeft(bits[0], n - 64);
        bits[0] := ZERO;
        ShiftAcross(lo, hi, n, bits[0], bits[1]);
      }
    }
  }

  /** A fresh window fed with a run of packets decides as the unbounded memory does,
      and never accepts one sequence twice. */
  method AcceptAll(arrivals: seq<uint64>) returns (decisions: seq<bool>)
    ensures |decisions| == |arrivals|
    ensures forall i | 0 <= i < |arrivals| :: decisions[i] <==> AcceptedAt(arrivals, i)
    ensures forall i, j | 0 <= i < j < |arrivals| && decisions[i] && decisions[j] :: arrivals[i] != arrivals[j]
  {
    var window := new ReplayWindow();
    decisions := [];
    for n := 0 to |arrivals|
      invariant window.Valid() && fresh(window) && fresh(window.bits)
      invariant window.accepted == RememberAll({}, arrivals[..n])
      invariant |decisions| == n && forall i | 0 <= i < n :: decisions[i] <==> AcceptedAt(arrivals, i)
    {
      assert arrivals[..n + 1] == arrivals[..n] + [arrivals[n]];
      RememberAllAppend({}, arrivals[..n], arrivals[n]);
      var ok, advanced := window.Accept(arrivals[n]);
      decisions := decisions + [ok];
    }
    forall i, j | 0 <= i < j < |arrivals| && decisions[i] && decisions[j] ensures arrivals[i] != arrivals[j] {
      NoSequenceAcceptedTwice(arrivals, i, j);
    }
  }

  lemma ShiftWithin(lo: Word, hi: Word, n: nat, lo': Word, hi': Word)
    requires 0 < n < 64 && lo' == ShiftLeft(lo, n) && hi' == Or(ShiftLeft(hi, n), ShiftRight(lo, 64 - n))
    ensures forall offset: nat | offset < REPLAY_WINDOW_SIZE ::
              Slot(lo', hi', offset) <==> offset >= n && Slot(lo, hi, offset - n)
  {}

  lemma ShiftAcross(lo: Word, hi: Word, n: nat, lo': Word, hi': Word)
    requires 64 <= n < REPLAY_WINDOW_SIZE && lo' == ZERO && hi' == ShiftLeft(lo, n - 64)
    ensures forall offset: nat | offset < REPLAY_WINDOW_SIZE ::
              Slot(lo', hi', offset) <==> offset >= n && Slot(lo, hi, offset - n)
  {}
}
