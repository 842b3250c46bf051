/**
  The string helpers of core/stringable/stringable.go. `Capitalize`,
  `UpperCase` and `LowerCase` are pure expressions; `Reverse` swaps a rune
  array in place from both ends; `RemoveVowels` and `RemoveConsonants`
  accumulate the kept runes in a loop.
 */
module Stringable {
  import opened Common
  import opened GoStrings

  /** The runes `RemoveVowels` drops. */
  const Vowels: string := "aeiouAEIOU"

  /** The runes `RemoveConsonants` drops. */
  const Consonants: string := "bcdfghjklmnpqrstvwxyzBCDFGHJKLMNPQRSTVWXYZ"

  predicate IsAsciiLetter(c: char)
  {
    'a' <= c <= 'z' || 'A' <= c <= 'Z'
  }

  /** The vowel list is the ten vowel letters in both cases. */
  lemma VowelRanges(c: char)
    ensures c in Vowels <==> c in "aeiou" || c in "AEIOU"
  {
    assert Vowels == "aeiou" + "AEIOU";
  }

  /** The lower-case consonants are the five runs between the vowels. */
  lemma LowerConsonantRanges(c: char)
    ensures c in "bcdfghjklmnpqrstvwxyz" <==>
      'b' <= c <= 'd' || 'f' <= c <= 'h' || 'j' <= c <= 'n' || 'p' <= c <= 't' || 'v' <= c <= 'z'
  {
    assert "bcdfghjklmnpqrstvwxyz" == Run('b', 3) + Run('f', 3) + Run('j', 5) + Run('p', 5) + Run('v', 5);
    InRun(c, 'b', 3); InRun(c, 'f', 3); InRun(c, 'j', 5); InRun(c, 'p', 5); InRun(c, 'v', 5);
  }

  /** The upper-case consonants are the five runs between the vowels. */
  lemma UpperConsonantRanges(c: char)
    ensures c in "BCDFGHJKLMNPQRSTVWXYZ" <==>
      'B' <= c <= 'D' || 'F' <= c <= 'H' || 'J' <= c <= 'N' || 'P' <= c <= 'T' || 'V' <= c <= 'Z'
  {
    assert "BCDFGHJKLMNPQRSTVWXYZ" == Run('B', 3) + Run('F', 3) + Run('J', 5) + Run('P', 5) + Run('V', 5);
    InRun(c, 'B', 3); InRun(c, 'F', 3); InRun(c, 'J', 5); InRun(c, 'P', 5); InRun(c, 'V', 5);
  }

  /** The consonant list is the runs of lower- and upper-case letters between the vowels. */
  lemma ConsonantRanges(c: char)
    ensures c in Consonants <==>
      'b' <= c <= 'd' || 'f' <= c <= 'h' || 'j' <= c <= 'n' || 'p' <= c <= 't' || 'v' <= c <= 'z'
      || 'B' <= c <= 'D' || 'F' <= c <= 'H' || 'J' <= c <= 'N' || 'P' <= c <= 'T' || 'V' <= c <= 'Z'
  {
    assert Consonants == "bcdfghjklmnpqrstvwxyz" + "BCDFGHJKLMNPQRSTVWXYZ";
    LowerConsonantRanges(c);
    UpperConsonantRanges(c);
  }

  /** The two lists are disjoint and together are exactly the 52 ASCII letters. */
  lemma LettersSplit(c: char)
    ensures |Vowels| == 10 && |Consonants| == 42
    ensures !(c in Vowels && c in Consonants)
    ensures IsAsciiLetter(c) <==> c in Vowels || c in Consonants
  {
    VowelRanges(c);
    ConsonantRanges(c);
  }

  // ---------------------------------------------------------------------------
  // Case mapping
  // ---------------------------------------------------------------------------

  /**
    `Capitalize`: the empty text is returned as is; otherwise the first rune is
    upper-cased and the rest is kept.
   */
  function Capitalize(s: string): (r: string)
    ensures |r| == |s|
    ensures |s| > 0 ==> r[0] == UpperChar(s[0]) && r[1..] == s[1..]
  {
    if |s| == 0 then s
    else ToUpper(s[..1]) + s[1..]
  }

  /** Capitalizing twice is capitalizing once, and agrees with `UpperCase` on the first rune. */
  lemma CapitalizeIdempotent(s: string)
    ensures Capitalize(Capitalize(s)) == Capitalize(s)
    ensures |s| > 0 ==> Capitalize(s)[..1] == UpperCase(s[..1])
  {
    if |s| > 0 {
      var r := Capitalize(s);
      assert r == [r[0]] + r[1..];
      assert Capitalize(r) == [UpperChar(r[0])] + r[1..];
    }
  }

  /** `UpperCase`: `strings.ToUpper`. */
  function UpperCase(s: string): (r: string)
    ensures |r| == |s|
    ensures forall i :: 0 <= i < |r| ==> !('a' <= r[i] <= 'z')
    ensures forall i :: 0 <= i < |s| && 'a' <= s[i] <= 'z' ==> r[i] as int == s[i] as int - 32
    ensures forall i :: 0 <= i < |s| && !('a' <= s[i] <= 'z') ==> r[i] == s[i]
  {
    ToUpper(s)
  }

  /** `LowerCase`: `strings.ToLower`. */
  function LowerCase(s: string): (r: string)
    ensures |r| == |s|
    ensures forall i :: 0 <= i < |r| ==> !('A' <= r[i] <= 'Z')
    ensures forall i :: 0 <= i < |s| && 'A' <= s[i] <= 'Z' ==> r[i] as int == s[i] as int + 32
    ensures forall i :: 0 <= i < |s| && !('A' <= s[i] <= 'Z') ==> r[i] == s[i]
  {
    ToLower(s)
  }

  /** Both case mappings are idempotent, and each undoes the other on letters. */
  lemma CaseMappingIdempotent(s: string)
    ensures UpperCase(UpperCase(s)) == UpperCase(s)
    ensures LowerCase(LowerCase(s)) == LowerCase(s)
    ensures UpperCase(LowerCase(s)) == UpperCase(s)
    ensures LowerCase(UpperCase(s)) == LowerCase(s)
  {
  }

  // ---------------------------------------------------------------------------
  // Reverse
  // ---------------------------------------------------------------------------

  /** The runes of `s` in the opposite order. */
  function Reversed(s: string): (r: string)
    ensures |r| == |s|
  {
    seq(|s|, k requires 0 <= k < |s| => s[|s| - 1 - k])
  }

  /** Reversing twice gives back the text. */
  lemma ReversedInvolution(s: string)
    ensures Reversed(Reversed(s)) == s
  {
  }

  /** `Reverse`: swaps the rune array in place from both ends towards the middle. */
  method Reverse(s: string) returns (r: string)
    ensures |r| == |s|
    ensures forall k :: 0 <= k < |s| ==> r[k] == s[|s| - 1 - k]
    ensures r == Reversed(s)
  {
    var runes := new char[|s|](k requires 0 <= k < |s| => s[k]);
    var i, j := 0, |s| - 1;
    while i < j
      invariant j == |s| - 1 - i
      invariant 0 <= i <= j + 1 <= |s|
      invariant forall k :: 0 <= k < i ==> runes[k] == s[|s| - 1 - k] && runes[|s| - 1 - k] == s[k]
      invariant forall k :: i <= k <= j ==> runes[k] == s[k]
    {
      runes[i], runes[j] := runes[j], runes[i];
      i, j := i + 1, j - 1;
    }
    r := runes[..];
  }

  // ---------------------------------------------------------------------------
  // RemoveVowels, RemoveConsonants
  // ---------------------------------------------------------------------------

  /** The runes of `s` not in `drop`, in their original order. */
  function Strip(s: string, drop: string): (r: string)
    ensures |r| <= |s|
    ensures forall k :: 0 <= k < |r| ==> r[k] in s && r[k] !in drop
    decreases |s|
  {
    if |s| == 0 then ""
    else
      var last := s[|s| - 1];
      Strip(s[..|s| - 1], drop) + (if last in drop then "" else [last])
  }

  /** Stripping distributes over concatenation, so the kept runes keep their order. */
  lemma {:induction false} StripAppend(a: string, b: string, drop: string)
    ensures Strip(a + b, drop) == Strip(a, drop) + Strip(b, drop)
    decreases |b|
  {
    if |b| == 0 {
      assert a + b == a;
    } else {
      var b' := b[..|b| - 1];
      assert (a + b)[..|a + b| - 1] == a + b';
      StripAppend(a, b', drop);
    }
  }

  /** A text with no rune from `drop` is left as it is. */
  lemma {:induction false} StripNothing(s: string, drop: string)
    requires forall k :: 0 <= k < |s| ==> s[k] !in drop
    ensures Strip(s, drop) == s
    decreases |s|
  {
    if |s| > 0 {
      StripNothing(s[..|s| - 1], drop);
      assert s[..|s| - 1] + [s[|s| - 1]] == s;
    }
  }

  /** Stripping is idempotent. */
  lemma StripIdempotent(s: string, drop: string)
    ensures Strip(Strip(s, drop), drop) == Strip(s, drop)
  {
    StripNothing(Strip(s, drop), drop);
  }

  /** The text with all runes of `Vowels` dropped. */
  method RemoveVowels(s: string) returns (result: string)
    ensures result == Strip(s, Vowels)
    ensures forall k :: 0 <= k < |result| ==> result[k] !in Vowels
  {
    result := "";
    for i := 0 to |s|
      invariant result == Strip(s[..i], Vowels)
    {
      assert s[..i + 1][..i] == s[..i];
      if s[i] !in Vowels {
        result := result + [s[i]];
      }
    }
    assert s[..|s|] == s;
  }

  /** The text with all runes of `Consonants` dropped. */
  method RemoveConsonants(s: string) returns (result: string)
    ensures result == Strip(s, Consonants)
    ensures forall k :: 0 <= k < |result| ==> result[k] !in Consonants
  {
    result := "";
    for i := 0 to |s|
      invariant result == Strip(s[..i], Consonants)
    {
      assert s[..i + 1][..i] == s[..i];
      if s[i] !in Consonants {
        result := result + [s[i]];
      }
    }
    assert s[..|s|] == s;
  }

  /** Dropping vowels and then consonants leaves no ASCII letter. */
  lemma StripAllLetters(s: string)
    ensures forall k :: 0 <= k < |Strip(Strip(s, Vowels), Consonants)| ==>
      !IsAsciiLetter(Strip(Strip(s, Vowels), Consonants)[k])
  {
    var v := Strip(s, Vowels);
    var r := Strip(v, Consonants);
    forall k | 0 <= k < |r|
      ensures !IsAsciiLetter(r[k])
    {
      LettersSplit(r[k]);
    }
  }
}
