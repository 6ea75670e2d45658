/**
 The request identifiers of commands (`next_request_id`,
 crates/zephyrvox-realtime/src/connection.rs, and `valid_request_id`,
 crates/zephyrvox-realtime/src/frame.rs).
 */
module RequestIds {
  import opened Common

  const DIGITS := "0123456789abcdef"

  /** Lower-case hexadecimal, zero-padded to at least `width` digits. */
  function Hex(n: nat, width: nat): (s: string)
    ensures |s| >= width
    ensures forall k :: 0 <= k < |s| ==> s[k] in DIGITS
    decreases n + width
  {
    if n == 0 && width == 0 then ""
    else Hex(n / 16, if width == 0 then 0 else width - 1) + [DIGITS[n % 16]]
  }

  function Pow16(k: nat): (p: nat)
    ensures p >= 1
  {
    if k == 0 then 1 else 16 * Pow16(k - 1)
  }

  lemma DigitsDiffer(a: nat, b: nat)
    requires a < 16 && b < 16 && DIGITS[a] == DIGITS[b]
    ensures a == b
  {
  }

  /** A number of at most `width` digits takes exactly `width`. */
  lemma {:induction false} HexLength(n: nat, width: nat)
    requires n < Pow16(width)
    ensures |Hex(n, width)| == width
    decreases width
  {
    if width > 0 {
      HexLength(n / 16, width - 1);
    }
  }

  /** At one width, the text tells the number. */
  lemma {:induction false} HexInjective(a: nat, b: nat, width: nat)
    requires Hex(a, width) == Hex(b, width)
    ensures a == b
    decreases a + width
  {
    var narrower := if width == 0 then 0 else width - 1;
    if (a == 0 || b == 0) && width == 0 {
    } else {
      var s, t := Hex(a, width), Hex(b, width);
      assert s[..|s| - 1] == Hex(a / 16, narrower) && t[..|t| - 1] == Hex(b / 16, narrower);
      assert s[|s| - 1] == t[|t| - 1];
      DigitsDiffer(a % 16, b % 16);
      HexInjective(a / 16, b / 16, narrower);
    }
  }

  /** The clock reading in at least eleven digits, then the sequence in sixteen. */
  function RequestId(millis: nat, sequence: u64): string {
    "zv-" + Hex(millis, 11) + "-" + Hex(sequence, 16)
  }

  lemma SequenceDigits(sequence: u64)
    ensures |Hex(sequence, 16)| == 16
  {
    assert Pow16(4) == 0x1_0000 by { assert Pow16(2) == 0x100; }
    assert Pow16(8) == 0x1_0000_0000 by { assert Pow16(6) == 0x100_0000; }
    assert Pow16(12) == 0x1_0000_0000_0000 by { assert Pow16(10) == 0x100_0000_0000; }
    assert Pow16(16) == U64_SIZE by { assert Pow16(14) == 0x100_0000_0000_0000; }
    HexLength(sequence, 16);
  }

  /** Two identifiers are equal only for the same clock reading and the same sequence. */
  lemma RequestIdInjective(m: nat, a: u64, n: nat, b: u64)
    requires RequestId(m, a) == RequestId(n, b)
    ensures m == n && a == b
  {
    SequenceDigits(a);
    SequenceDigits(b);
    var s, t := RequestId(m, a), RequestId(n, b);
    assert s[|s| - 16..] == Hex(a, 16) && t[|t| - 16..] == Hex(b, 16);
    HexInjective(a, b, 16);
    assert s[3..|s| - 17] == Hex(m, 11) && t[3..|t| - 17] == Hex(n, 11);
    HexInjective(m, n, 11);
  }

  predicate IsIdCharacter(c: char) {
    '0' <= c <= '9' || 'a' <= c <= 'z' || 'A' <= c <= 'Z' || c == '_' || c == '-'
  }

  /** `valid_request_id`: the grammar a reply's identifier has to meet. */
  predicate IsValid(id: string) {
    16 <= |id| <= 64 && HasIdCharacters(id)
  }

  predicate HasIdCharacters(s: string) {
    forall k :: 0 <= k < |s| ==> IsIdCharacter(s[k])
  }

  lemma DigitsAreIdCharacters(s: string)
    requires forall k :: 0 <= k < |s| ==> s[k] in DIGITS
    ensures HasIdCharacters(s)
  {
    forall k | 0 <= k < |s| ensures IsIdCharacter(s[k]) {
      var d :| 0 <= d < |DIGITS| && DIGITS[d] == s[k];
    }
  }

  lemma IdCharactersJoin(a: string, b: string)
    requires HasIdCharacters(a) && HasIdCharacters(b)
    ensures HasIdCharacters(a + b)
  {
  }

  lemma {:induction false} HexBound(n: nat, width: nat, bound: nat)
    requires n < Pow16(bound) && width <= bound
    ensures |Hex(n, width)| <= bound
    decreases bound
  {
    if bound > 0 {
      if n > 0 || width > 0 {
        HexBound(n / 16, if width == 0 then 0 else width - 1, bound - 1);
      }
    }
  }

  /** Every identifier the client makes is one it accepts back, for any 128-bit clock reading. */
  lemma OwnIdsAreValid(millis: nat, sequence: u64)
    requires millis < Pow16(32)
    ensures IsValid(RequestId(millis, sequence))
  {
    HexBound(millis, 11, 32);
    SequenceDigits(sequence);
    hide HasIdCharacters, Hex;
    var clock, counter := Hex(millis, 11), Hex(sequence, 16);
    DigitsAreIdCharacters(clock);
    DigitsAreIdCharacters(counter);
    SeparatorsAreIdCharacters();
    IdCharactersJoin("zv-", clock);
    IdCharactersJoin("zv-" + clock, "-");
    IdCharactersJoin("zv-" + clock + "-", counter);
  }

  lemma SeparatorsAreIdCharacters()
    ensures HasIdCharacters("zv-") && HasIdCharacters("-")
  {
  }

  // ----- what the text means ---------------------------------------------------------------

  function DigitValue(c: char): nat {
    if '0' <= c <= '9' then c as int - '0' as int
    else if 'a' <= c <= 'f' then c as int - 'a' as int + 10
    else 0
  }

  /** The number a hexadecimal text stands for. */
  function HexValue(s: string): nat {
    if |s| == 0 then 0 else 16 * HexValue(s[..|s| - 1]) + DigitValue(s[|s| - 1])
  }

  lemma DigitReads(n: nat)
    requires n < 16
    ensures DigitValue(DIGITS[n]) == n
  {
  }

  lemma {:induction false} HexReads(n: nat, width: nat)
    ensures HexValue(Hex(n, width)) == n
    decreases n + width
  {
    if n > 0 || width > 0 {
      var narrower := if width == 0 then 0 else width - 1;
      HexReads(n / 16, narrower);
      DigitReads(n % 16);
      assert Hex(n, width)[..|Hex(n, width)| - 1] == Hex(n / 16, narrower);
    }
  }

  lemma Parts(prefix: string, clock: string, counter: string, id: string)
    requires |prefix| == 3 && |clock| >= 11 && |counter| == 16
    requires id == prefix + clock + "-" + counter
    ensures |id| >= 31 && id[..3] == prefix && id[3..|id| - 17] == clock
    ensures id[|id| - 17] == '-' && id[|id| - 16..] == counter
  {
  }

  /** An identifier is "zv-", the clock reading, a dash and the sequence in sixteen digits. */
  lemma RequestIdReads(millis: nat, sequence: u64)
    ensures var id := RequestId(millis, sequence);
      && |id| >= 31 && id[..3] == "zv-" && id[|id| - 17] == '-'
      && HexValue(id[3..|id| - 17]) == millis && HexValue(id[|id| - 16..]) == sequence
  {
    var id, clock, counter := RequestId(millis, sequence), Hex(millis, 11), Hex(sequence, 16);
    assert |counter| == 16 by { SequenceDigits(sequence); }
    assert HexValue(clock) == millis by { HexReads(millis, 11); }
    assert HexValue(counter) == sequence by { HexReads(sequence, 16); }
    var prefix := "zv-";
    assert id == prefix + clock + "-" + counter;
    hide RequestId, Hex, HexValue;
    Parts(prefix, clock, counter, id);
  }
}
