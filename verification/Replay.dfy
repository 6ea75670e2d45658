/**
 The 128-packet sliding replay window of a voice session
 (crates/zephyrvox-voice/src/replay.rs).

 `Window` is the unbounded view: the highest sequence accepted and the set of all
 sequences accepted so far. `ReplayWindow` is the two-word bitmap. Its methods are
 proved against the view, and `DecisionByHistory` says what the view decides from
 the arrivals alone, with no window in sight.
 */
module Replay {
  import opened Common
  import opened Bits

  const WINDOW := 128

  datatype Window = Window(high: u64, accepted: set<u64>)

  const EMPTY := Window(0, {})

  predicate Admissible(w: Window, sequence: u64) {
    && sequence != 0
    && (sequence > w.high || (w.high - sequence < WINDOW && sequence !in w.accepted))
  }

  function Admit(w: Window, sequence: u64): Window {
    if Admissible(w, sequence)
    then Window(Max(w.high, sequence), w.accepted + {sequence})
    else w
  }

  /** The window after a run of arrivals, in any order, with repeats. */
  function AdmitAll(arrivals: seq<u64>): Window {
    if |arrivals| == 0 then EMPTY
    else Admit(AdmitAll(arrivals[..|arrivals| - 1]), arrivals[|arrivals| - 1])
  }

  /** The highest arrival, whether or not it was accepted; zero for none. */
  function Highest(arrivals: seq<u64>): u64 {
    if |arrivals| == 0 then 0
    else Max(Highest(arrivals[..|arrivals| - 1]), arrivals[|arrivals| - 1])
  }

  /**
   What the window knows, stated on the arrivals: it stands at their maximum, and
   within its span it has accepted exactly what has arrived.
   */
  lemma {:induction false} WindowTracksArrivals(arrivals: seq<u64>)
    ensures AdmitAll(arrivals).high == Highest(arrivals)
    ensures forall s :: s in AdmitAll(arrivals).accepted ==> s in arrivals && s != 0
    ensures forall s: u64 :: s != 0 && s in arrivals && Highest(arrivals) - s < WINDOW
              ==> s in AdmitAll(arrivals).accepted
    ensures forall s :: s in arrivals ==> s <= Highest(arrivals)
  {
    if |arrivals| > 0 {
      var n := |arrivals| - 1;
      WindowTracksArrivals(arrivals[..n]);
      assert arrivals == arrivals[..n] + [arrivals[n]];
    }
  }

  /**
   The decision on the next arrival depends only on what has arrived: it is accepted
   exactly when it is non-zero, has not arrived before and is less than 128 behind
   the highest arrival.
   */
  lemma DecisionByHistory(arrivals: seq<u64>, next: u64)
    ensures Admissible(AdmitAll(arrivals), next)
       <==> next != 0 && next !in arrivals && Highest(arrivals) - next < WINDOW
  {
    WindowTracksArrivals(arrivals);
  }

  /** Nothing is accepted twice, however far apart the two arrivals are. */
  lemma {:induction false} NeverAcceptedTwice(arrivals: seq<u64>, i: nat, j: nat)
    requires i < j < |arrivals| && arrivals[i] == arrivals[j]
    ensures !Admissible(AdmitAll(arrivals[..j]), arrivals[j])
  {
    assert arrivals[i] in arrivals[..j];
    DecisionByHistory(arrivals[..j], arrivals[j]);
  }

  /** Bit `offset` of the 128-bit map, word 0 holding the newest 64. */
  predicate MapBit(low: u64, top: u64, offset: nat)
    requires offset < WINDOW
  {
    if offset < 64 then Bit(low, offset) else Bit(top, offset - 64)
  }

  /** The second map is the first moved up by `shift`, zeros entering at the bottom. */
  ghost predicate IsShift(low: u64, top: u64, low': u64, top': u64, shift: nat) {
    forall o: nat :: o < WINDOW ==>
        (MapBit(low', top', o) <==> o >= shift && MapBit(low, top, o - shift))
  }

  /** The second map is the first with `offset` marked. */
  ghost predicate IsMarked(low: u64, top: u64, low': u64, top': u64, offset: nat) {
    forall o: nat :: o < WINDOW ==>
        (MapBit(low', top', o) <==> o == offset || MapBit(low, top, o))
  }

  /** The map records, for each sequence in the window, whether it was accepted. */
  ghost predicate Tracks(w: Window, low: u64, top: u64) {
    && (forall s :: s in w.accepted ==> 1 <= s <= w.high)
    && (forall s: u64 {:trigger s in w.accepted} :: 1 <= s <= w.high && w.high - s < WINDOW ==>
          (s in w.accepted <==> MapBit(low, top, w.high - s)))
  }

  ghost predicate IsClear(low: u64, top: u64) {
    forall o: nat :: o < WINDOW ==> !MapBit(low, top, o)
  }

  class ReplayWindow {
    var high: u64
    const bits: array<u64>
    /** Every sequence ever accepted, including those that left the window. */
    ghost var accepted: set<u64>

    ghost predicate Valid()
      reads this, bits
    {
      bits.Length == 2 && Tracks(View(), bits[0], bits[1])
    }

    ghost function View(): Window
      reads this
    {
      Window(high, accepted)
    }

    constructor ()
      ensures Valid() && fresh(bits) && View() == EMPTY
    {
      high := 0;
      accepted := {};
      bits := new u64[2](_ => 0);
    }

    /** `would_accept`: reads the bitmap without changing it. */
    method WouldAccept(sequence: u64) returns (isNew: bool)
      requires Valid()
      ensures isNew <==> Admissible(View(), sequence)
    {
      if sequence == 0 {
        return false;
      }
      if sequence > high {
        return true;
      }
      var offset := high - sequence;
      if offset >= 128 {
        return false;
      }
      var word, bit := offset / 64, offset % 64;
      AndMask(bits[word], bit);
      assert MapBit(bits[0], bits[1], offset) == Bit(bits[word], bit);
      return And(bits[word], Pow2(bit)) == 0;
    }

    /** `accept`: refuses what `would_accept` refuses and records the rest. */
    method Accept(sequence: u64) returns (taken: bool)
      requires Valid()
      modifies this`high, this`accepted, bits
      ensures Valid()
      ensures taken <==> Admissible(old(View()), sequence)
      ensures View() == Admit(old(View()), sequence)
    {
      hide Tracks, IsShift, IsMarked, IsClear, Admit, Admissible;
      AdmitCases(View(), sequence);
      ghost var w, low, top := View(), bits[0], bits[1];
      taken := WouldAccept(sequence);
      if !taken {
        return;
      }
      if sequence > high {
        var shift := sequence - high;
        if shift >= 128 {
          ClearMap();
        } else {
          ShiftLeft(shift);
        }
        ghost var low', top' := bits[0], bits[1];
        high := sequence;
        Mark(0);
        AdvanceTracks(w, low, top, low', top', bits[0], bits[1], sequence);
      } else {
        Mark(high - sequence);
        FillTracks(w, low, top, bits[0], bits[1], sequence);
      }
      accepted := accepted + {sequence};
    }

    method ClearMap()
      requires bits.Length == 2
      modifies bits
      ensures IsClear(bits[0], bits[1])
    {
      bits[0], bits[1] := 0, 0;
      ZeroMap();
    }

    /** Marks one offset of the map. */
    method Mark(offset: nat)
      requires bits.Length == 2 && offset < WINDOW
      modifies bits
      ensures IsMarked(old(bits[0]), old(bits[1]), bits[0], bits[1], offset)
    {
      SetMapBit(bits[0], bits[1], offset);
      bits[offset / 64] := Or64(bits[offset / 64], Mask64(offset % 64));
    }

    /** `shift_left`: moves the whole 128-bit map up, across the word boundary. */
    method ShiftLeft(shift: nat)
      requires bits.Length == 2 && shift < WINDOW
      modifies bits
      ensures IsShift(old(bits[0]), old(bits[1]), bits[0], bits[1], shift)
    {
      if shift == 0 {
      } else if shift < 64 {
        ShortShift(bits[0], bits[1], shift);
        bits[1] := Or64(Shl64(bits[1], shift), Shr64(bits[0], 64 - shift));
        bits[0] := Shl64(bits[0], shift);
      } else {
        LongShift(bits[0], bits[1], shift);
        bits[1] := Shl64(bits[0], shift - 64);
        bits[0] := 0;
      }
    }
  }

  lemma AdmitCases(w: Window, sequence: u64)
    ensures !Admissible(w, sequence) ==> Admit(w, sequence) == w
    ensures Admissible(w, sequence) ==>
              Admit(w, sequence)
                == Window(if sequence > w.high then sequence else w.high, w.accepted + {sequence})
    ensures Admissible(w, sequence) && sequence <= w.high ==> w.high - sequence < WINDOW
  {
  }

  lemma ZeroMap()
    ensures IsClear(0, 0)
  {
    forall o: nat | o < WINDOW ensures !MapBit(0, 0, o) {
      BitZero(if o < 64 then o else o - 64);
    }
  }

  /** A sequence above the window: the map moves up, or empties, and bit 0 is marked. */
  lemma AdvanceTracks(w: Window, low: u64, top: u64, low': u64, top': u64,
                      low'': u64, top'': u64, sequence: u64)
    requires Tracks(w, low, top) && sequence > w.high
    requires sequence - w.high < WINDOW ==> IsShift(low, top, low', top', sequence - w.high)
    requires sequence - w.high >= WINDOW ==> IsClear(low', top')
    requires IsMarked(low', top', low'', top'', 0)
    ensures Tracks(Admit(w, sequence), low'', top'')
  {
    var next := Admit(w, sequence);
    forall s: u64 | 1 <= s <= next.high && next.high - s < WINDOW
      ensures s in next.accepted <==> MapBit(low'', top'', next.high - s)
    {
      var o := sequence - s;
      assert MapBit(low'', top'', o) <==> o == 0 || MapBit(low', top', o);
      if s <= w.high && sequence - w.high < WINDOW {
        assert MapBit(low', top', o) <==> MapBit(low, top, w.high - s);
      }
    }
  }

  /** A missing sequence within the window: its bit is marked. */
  lemma FillTracks(w: Window, low: u64, top: u64, low': u64, top': u64, sequence: u64)
    requires Tracks(w, low, top) && Admissible(w, sequence) && sequence <= w.high
    requires IsMarked(low, top, low', top', w.high - sequence)
    ensures Tracks(Admit(w, sequence), low', top')
  {
    forall s: u64 | 1 <= s <= w.high && w.high - s < WINDOW
      ensures s in w.accepted + {sequence} <==> MapBit(low', top', w.high - s)
    {
      assert s in w.accepted <==> MapBit(low, top, w.high - s);
    }
  }

  /** Setting one masked bit of one word marks one offset and nothing else. */
  lemma SetMapBit(low: u64, top: u64, offset: nat)
    requires offset < WINDOW
    ensures offset < 64 ==> IsMarked(low, top, Or64(low, Mask64(offset)), top, offset)
    ensures offset >= 64 ==> IsMarked(low, top, low, Or64(top, Mask64(offset - 64)), offset)
  {
    var bit := offset % 64;
    if offset < 64 {
      SetWordBit(low, bit);
    } else {
      SetWordBit(top, bit);
    }
  }

  ghost predicate IsWordMarked(word: u64, word': u64, bit: nat) {
    forall i: nat :: i < 64 ==> (Bit(word', i) <==> i == bit || Bit(word, i))
  }

  lemma SetWordBit(word: u64, bit: nat)
    requires bit < 64
    ensures IsWordMarked(word, Or64(word, Mask64(bit)), bit)
  {
    var mask := Mask64(bit);
    forall i: nat | i < 64
      ensures Bit(Or64(word, mask), i) <==> i == bit || Bit(word, i)
    {
      Or64Bit(word, mask, i);
      Mask64Bit(bit, i);
    }
  }

  /** `shift_left` below a whole word. */
  lemma ShortShift(low: u64, top: u64, shift: nat)
    requires 0 < shift < 64
    ensures IsShift(low, top, Shl64(low, shift),
                    Or64(Shl64(top, shift), Shr64(low, 64 - shift)), shift)
  {
    var low', top' := Shl64(low, shift), Or64(Shl64(top, shift), Shr64(low, 64 - shift));
    forall o: nat | o < WINDOW
      ensures MapBit(low', top', o) <==> o >= shift && MapBit(low, top, o - shift)
    {
      ShortShiftBit(low, top, shift, o);
    }
  }

  lemma ShortShiftBit(low: u64, top: u64, shift: nat, o: nat)
    requires 0 < shift < 64 && o < WINDOW
    ensures MapBit(Shl64(low, shift), Or64(Shl64(top, shift), Shr64(low, 64 - shift)), o)
       <==> o >= shift && MapBit(low, top, o - shift)
  {
    if o < 64 {
      ShlBit(low, shift, o);
    } else {
      TopWordBit(low, top, shift, o - 64);
    }
  }

  /** A bit of the upper word comes from that word or from the top of the lower one. */
  lemma TopWordBit(low: u64, top: u64, shift: nat, i: nat)
    requires 0 < shift < 64 && i < 64
    ensures Bit(Or64(Shl64(top, shift), Shr64(low, 64 - shift)), i)
       <==> if i >= shift then Bit(top, i - shift) else Bit(low, i + 64 - shift)
  {
    Or64Bit(Shl64(top, shift), Shr64(low, 64 - shift), i);
    ShlBit(top, shift, i);
    ShrBit(low, 64 - shift, i);
  }

  /** `shift_left` by a whole word or more. */
  lemma LongShift(low: u64, top: u64, shift: nat)
    requires 64 <= shift < WINDOW
    ensures IsShift(low, top, 0, Shl64(low, shift - 64), shift)
  {
    var top' := Shl64(low, shift - 64);
    forall o: nat | o < WINDOW
      ensures MapBit(0, top', o) <==> o >= shift && MapBit(low, top, o - shift)
    {
      if o < 64 {
        BitZero(o);
      } else {
        ShlBit(low, shift - 64, o - 64);
      }
    }
  }
}
