/**
 * Instants and the wall clock.
 *
 * An instant is an integer count of microseconds (the resolution of Python's `datetime`).
 * The stored checkpoint text written by `isoformat` and read by `fromisoformat` is modelled
 * by a signed decimal rendering of that count: what `Encode` writes, `Decode` reads back,
 * and text that is not of that form does not decode.
 */
module Timestamps {
  import opened Wrappers

  const MICROS_PER_DAY: int := 86_400_000_000
  /** `timedelta(days=90)`: how far back the window starts when no checkpoint is usable. */
  const FALLBACK_WINDOW: int := 90 * MICROS_PER_DAY

  predicate IsDigit(c: char) {
    '0' <= c <= '9'
  }

  function Digit(d: nat): (c: char)
    requires d < 10
    ensures IsDigit(c) && c as int - '0' as int == d
  {
    (d + '0' as int) as char
  }

  /** The decimal digits of `n`, most significant first. */
  function DigitsText(n: nat): (s: string)
    ensures 1 <= |s|
    ensures forall i :: 0 <= i < |s| ==> IsDigit(s[i])
    decreases n
  {
    if n < 10 then [Digit(n)] else DigitsText(n / 10) + [Digit(n % 10)]
  }

  /** The value of a string of decimal digits (the empty string reads as 0); `None` on any other character. */
  function DigitsValue(s: string): (v: Option<nat>)
    ensures v.Some? <==> forall i :: 0 <= i < |s| ==> IsDigit(s[i])
    decreases |s|
  {
    if s == [] then Some(0)
    else if !IsDigit(s[|s| - 1]) then None
    else match DigitsValue(s[..|s| - 1])
      case None => None
      case Some(high) => Some(high * 10 + (s[|s| - 1] as int - '0' as int))
  }

  /** The stored text of an instant (stands for `datetime.isoformat`). */
  function Encode(t: int): (text: string)
    ensures text != [] && (text[0] == '-' <==> t < 0)
  {
    if t < 0 then "-" + DigitsText(-t) else DigitsText(t)
  }

  /** Reads stored text back as an instant (stands for `datetime.fromisoformat`); `None` when it does not parse. */
  function Decode(text: string): (t: Option<int>)
    ensures text == [] ==> t == None
    ensures t.Some? ==> text[0] == '-' || IsDigit(text[0])
    ensures t.Some? ==> forall i :: 0 < i < |text| ==> IsDigit(text[i])
  {
    if text == [] then None
    else if text[0] == '-' then
      if |text| == 1 then None
      else match DigitsValue(text[1..])
        case None => None
        case Some(n) => Some(-(n as int))
    else match DigitsValue(text)
      case None => None
      case Some(n) => Some(n as int)
  }

  lemma {:induction false} DigitsRoundTrip(n: nat)
    ensures DigitsValue(DigitsText(n)) == Some(n)
    decreases n
  {
    if n >= 10 {
      var s := DigitsText(n);
      assert s[..|s| - 1] == DigitsText(n / 10);
      DigitsRoundTrip(n / 10);
    }
  }

  /** The text of a non-negative instant reads back as that instant. */
  lemma DecodeDigits(n: nat)
    ensures Decode(DigitsText(n)) == Some(n as int)
  {
    var text := DigitsText(n);
    DigitsRoundTrip(n);
    assert IsDigit(text[0]);
  }

  /** The text of a negative instant, a minus sign before the digits, reads back as that instant. */
  lemma DecodeMinusDigits(n: nat)
    ensures Decode("-" + DigitsText(n)) == Some(-(n as int))
  {
    var text := "-" + DigitsText(n);
    DigitsRoundTrip(n);
    assert text[1..] == DigitsText(n);
  }

  /** What is stored is read back unchanged. */
  lemma DecodeEncode(t: int)
    ensures Decode(Encode(t)) == Some(t)
  {
    if t < 0 {
      DecodeMinusDigits(-t);
    } else {
      DecodeDigits(t);
    }
  }

  /**
   * The wall clock (`datetime.utcnow`). Successive readings are `reading(0)`, `reading(1)`, ...;
   * nothing is assumed about their order, and `taken` counts the readings made so far.
   */
  class Clock {
    const reading: nat -> int
    var taken: nat

    constructor (reading: nat -> int)
      ensures this.reading == reading && taken == 0
    {
      this.reading := reading;
      taken := 0;
    }

    method UtcNow() returns (now: int)
      modifies this
      ensures now == reading(old(taken))
      ensures taken == old(taken) + 1
    {
      now := reading(taken);
      taken := taken + 1;
    }
  }
}
