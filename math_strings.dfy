/**
  The random-value helpers of core/math/strings.go. The random source
  (`math/rand`) is not modelled: each operation takes the draws it would make
  as an argument, with the range the generator guarantees for them.
 */
module MathStrings {
  import opened Common

  /** A Go `byte`. */
  newtype byte = x: int | 0 <= x < 256

  /** The 62 runes `RandomString` picks from: lower case, upper case, then the digits from 0 down to 1. */
  const Charset: string := "abcdefghijklmnopqrstuvwxyzABCDEFGHIJKLMNOPQRSTUVWXYZ0987654321"

  /** The digits `RandomNumberString` picks from, `1` first and `0` last. */
  const NumSets: string := "1234567890"

  predicate IsAlphanumeric(c: char)
  {
    'a' <= c <= 'z' || 'A' <= c <= 'Z' || '0' <= c <= '9'
  }

  /** Where an alphanumeric rune sits in `Charset`. */
  function CharsetIndex(c: char): (i: nat)
    requires IsAlphanumeric(c)
    ensures i < 62
  {
    if 'a' <= c <= 'z' then c as int - 'a' as int
    else if 'A' <= c <= 'Z' then 26 + c as int - 'A' as int
    else if c == '0' then 52
    else 62 - (c as int - '0' as int)
  }

  lemma LowerRun()
    ensures Run('a', 26) == "abcdefghijklmnopqrstuvwxyz"
  {
  }

  lemma UpperRun()
    ensures Run('A', 26) == "ABCDEFGHIJKLMNOPQRSTUVWXYZ"
  {
  }

  lemma CharsetLiterals()
    ensures Charset == "abcdefghijklmnopqrstuvwxyz" + "ABCDEFGHIJKLMNOPQRSTUVWXYZ" + "0987654321"
  {
  }

  /** `Charset` is the run of lower-case letters, the run of upper-case letters, then the digits. */
  lemma CharsetParts()
    ensures Charset == Run('a', 26) + Run('A', 26) + "0987654321"
  {
    CharsetLiterals();
    LowerRun();
    UpperRun();
  }

  /** Position `i` of `Charset` holds an alphanumeric rune whose index is `i`. */
  lemma CharsetAt(i: nat)
    requires i < 62
    ensures |Charset| == 62
    ensures IsAlphanumeric(Charset[i]) && CharsetIndex(Charset[i]) == i
  {
    var lower, upper, digits := Run('a', 26), Run('A', 26), "0987654321";
    CharsetParts();
    if i < 26 {
      assert Charset[i] == lower[i];
    } else if i < 52 {
      assert Charset[i] == upper[i - 26];
    } else {
      assert Charset[i] == digits[i - 52];
    }
  }

  /**
    `Charset` holds every lower-case letter, upper-case letter and digit exactly
    once: `CharsetIndex` and indexing into `Charset` are inverse bijections
    between the 62 positions and the 62 alphanumeric runes.
   */
  lemma CharsetIsAlphanumeric()
    ensures |Charset| == 62
    ensures forall i :: 0 <= i < |Charset| ==>
      IsAlphanumeric(Charset[i]) && CharsetIndex(Charset[i]) == i
    ensures forall c :: IsAlphanumeric(c) ==> Charset[CharsetIndex(c)] == c
  {
    CharsetAt(0);
    forall i | 0 <= i < |Charset|
      ensures IsAlphanumeric(Charset[i]) && CharsetIndex(Charset[i]) == i
    {
      CharsetAt(i);
    }
    forall c | IsAlphanumeric(c)
      ensures Charset[CharsetIndex(c)] == c
    {
      CharsetIndexInverse(c);
    }
  }

  /** Looking up the index of an alphanumeric rune gives the rune back. */
  lemma CharsetIndexInverse(c: char)
    requires IsAlphanumeric(c)
    ensures Charset[CharsetIndex(c)] == c
  {
    var i := CharsetIndex(c);
    CharsetAt(i);
    var d := Charset[i];
    assert CharsetIndex(d) == CharsetIndex(c);
    CharsetIndexInjective(c, d);
  }

  /** Distinct alphanumeric runes have distinct indices. */
  lemma CharsetIndexInjective(c: char, d: char)
    requires IsAlphanumeric(c) && IsAlphanumeric(d)
    requires CharsetIndex(c) == CharsetIndex(d)
    ensures c == d
  {
  }

  /**
    `RandomString(length)`: `draws[i]` is the value of the i-th call
    `rand.Intn(len(charset))`, which lies in `[0, 62)`.
   */
  method RandomString(length: nat, draws: seq<nat>) returns (s: string)
    requires |draws| == length
    requires forall i :: 0 <= i < length ==> draws[i] < |Charset|
    ensures |s| == length
    ensures forall i :: 0 <= i < length ==> s[i] == Charset[draws[i]]
    ensures forall i :: 0 <= i < length ==> IsAlphanumeric(s[i])
  {
    CharsetIsAlphanumeric();
    var str := new char[length];
    for i := 0 to length
      invariant forall k :: 0 <= k < i ==> str[k] == Charset[draws[k]]
    {
      str[i] := Charset[draws[i]];
    }
    s := str[..];
  }

  /**
    `RandomNumber(min, max)`: `draw` is the value of `rand.Intn(max-min+1)`,
    which lies in `[0, max-min]`. `rand.Intn` panics when its argument is not
    positive: when `max < min`, and when the 64-bit `max-min+1` wraps around.
   */
  function RandomNumber(min: int, max: int, draw: nat): (r: int)
    requires min <= max
    requires max - min < 0x7FFF_FFFF_FFFF_FFFF
    requires draw < max - min + 1
    ensures min <= r <= max
    ensures r - min == draw
  {
    draw as int + min
  }

  /** Every rune of `NumSets` is a decimal digit; position `k` holds the digit `(k + 1) % 10`. */
  lemma NumSetsDigits()
    ensures |NumSets| == 10
    ensures forall k :: 0 <= k < 10 ==> NumSets[k] as int - '0' as int == (k + 1) % 10
  {
    assert NumSets == Run('1', 9) + "0";
    forall k | 0 <= k < 10
      ensures NumSets[k] as int - '0' as int == (k + 1) % 10
    {
      if k < 9 {
        assert NumSets[k] == Run('1', 9)[k];
      }
    }
  }

  /** The digit `RandomNumberString` writes for the random byte `b`. */
  function DigitFor(b: byte): (d: char)
    ensures '0' <= d <= '9'
    ensures d as int - '0' as int == (b as int % 10 + 1) % 10
  {
    NumSetsDigits();
    NumSets[b as int % 10]
  }

  /**
    `RandomNumberString(length)`: `random` is what `rand.Read` writes into the
    buffer and `readError` the error it returns. On an error the result is the
    empty text and that error; otherwise every byte of the buffer is
    overwritten in place by `NumSets[byte % 10]`.
   */
  method RandomNumberString(length: nat, random: seq<byte>, readError: Option<Error>)
    returns (s: string, err: Option<Error>)
    requires |random| == length
    ensures err == readError
    ensures readError.Some? ==> s == ""
    ensures readError.None? ==> |s| == length
    ensures readError.None? ==> forall i :: 0 <= i < length ==> s[i] == DigitFor(random[i])
  {
    var buffer := new byte[length](i requires 0 <= i < length => random[i]);
    if readError.Some? {
      return "", readError;
    }
    for i := 0 to length
      invariant forall k :: 0 <= k < i ==> buffer[k] as int == DigitFor(random[k]) as int
      invariant forall k :: i <= k < length ==> buffer[k] == random[k]
    {
      buffer[i] := DigitFor(buffer[i]) as int as byte;
    }
    s := seq(length, i requires 0 <= i < length reads buffer => buffer[i] as int as char);
    err := None;
  }
}
