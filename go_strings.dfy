/**
  The behaviour of the Go standard-library string operations that the core
  relies on (`strings.Split`, `strings.Join`, `strings.TrimSpace`,
  `strings.ToUpper`, `strings.ToLower`, `strings.Contains`, `strings.Count`,
  `strings.ReplaceAll`), stated over `seq<char>` where one `char` is one rune.
  Case mapping is modelled for ASCII letters only.
 */
module GoStrings {

  // ---------------------------------------------------------------------------
  // Split and Join with a one-character separator
  // ---------------------------------------------------------------------------

  /** `strings.Split(s, string(sep))`: the pieces between occurrences of `sep`. */
  function Split(s: string, sep: char): (parts: seq<string>)
    ensures |parts| >= 1
    decreases |s|
  {
    if |s| == 0 then [""]
    else
      var rest := Split(s[1..], sep);
      if s[0] == sep then [""] + rest
      else [[s[0]] + rest[0]] + rest[1..]
  }

  /** No piece of a split holds the separator. */
  lemma {:induction false} SplitPiecesFree(s: string, sep: char)
    ensures forall i :: 0 <= i < |Split(s, sep)| ==> sep !in Split(s, sep)[i]
    decreases |s|
  {
    if |s| > 0 {
      SplitPiecesFree(s[1..], sep);
      var rest := Split(s[1..], sep);
      if s[0] != sep {
        var parts := Split(s, sep);
        forall i | 0 <= i < |parts|
          ensures sep !in parts[i]
        {
          if i == 0 {
            assert parts[0] == [s[0]] + rest[0];
          } else {
            assert parts[i] == rest[i];
          }
        }
      }
    }
  }

  /** `strings.Join(parts, string(sep))`. */
  function Join(parts: seq<string>, sep: char): string
  {
    if |parts| == 0 then ""
    else if |parts| == 1 then parts[0]
    else parts[0] + [sep] + Join(parts[1..], sep)
  }

  /** Joining the pieces of a split gives back the original text. */
  lemma {:induction false} JoinSplit(s: string, sep: char)
    ensures Join(Split(s, sep), sep) == s
    decreases |s|
  {
    if |s| > 0 {
      JoinSplit(s[1..], sep);
      var rest := Split(s[1..], sep);
      if s[0] != sep && |rest| > 1 {
        assert rest == [rest[0]] + rest[1..];
        assert Join(rest, sep) == rest[0] + [sep] + Join(rest[1..], sep);
      }
    }
  }

  /** The first piece of a split is the text up to the first separator, or all of it. */
  lemma {:induction false} SplitFirst(s: string, sep: char)
    ensures var p := Split(s, sep)[0];
      |p| <= |s| && s[..|p|] == p && (|p| < |s| ==> s[|p|] == sep)
    decreases |s|
  {
    if |s| > 0 && s[0] != sep {
      SplitFirst(s[1..], sep);
    }
  }

  /** A text without the separator splits into itself alone. */
  lemma {:induction false} SplitNoSeparator(s: string, sep: char)
    requires sep !in s
    ensures Split(s, sep) == [s]
    decreases |s|
  {
    if |s| > 0 {
      SplitNoSeparator(s[1..], sep);
      assert [s[0]] + s[1..] == s;
    }
  }

  /** Splitting at a first separator peels off the text before it. */
  lemma {:induction false} SplitAtSeparator(a: string, b: string, sep: char)
    requires sep !in a
    ensures Split(a + [sep] + b, sep) == [a] + Split(b, sep)
    decreases |a|
  {
    if |a| == 0 {
      assert a + [sep] + b == [sep] + b;
      assert ([sep] + b)[1..] == b;
    } else {
      SplitAtSeparator(a[1..], b, sep);
      assert (a + [sep] + b)[1..] == a[1..] + [sep] + b;
      assert [a[0]] + a[1..] == a;
    }
  }

  /** Splitting a join of separator-free pieces gives back the pieces. */
  lemma {:induction false} SplitJoin(parts: seq<string>, sep: char)
    requires |parts| >= 1
    requires forall i :: 0 <= i < |parts| ==> sep !in parts[i]
    ensures Split(Join(parts, sep), sep) == parts
    decreases |parts|
  {
    if |parts| == 1 {
      SplitNoSeparator(parts[0], sep);
    } else {
      SplitJoin(parts[1..], sep);
      SplitAtSeparator(parts[0], Join(parts[1..], sep), sep);
      assert [parts[0]] + parts[1..] == parts;
    }
  }

  // ---------------------------------------------------------------------------
  // TrimSpace
  // ---------------------------------------------------------------------------

  /** `unicode.IsSpace`: the Unicode White_Space characters Go recognises. */
  predicate IsSpace(c: char)
  {
    c == ' ' || '\t' <= c <= '\r' || c == '\U{85}' || c == '\U{A0}' || c == '\U{1680}'
    || '\U{2000}' <= c <= '\U{200A}' || c == '\U{2028}' || c == '\U{2029}'
    || c == '\U{202F}' || c == '\U{205F}' || c == '\U{3000}'
  }

  /** The number of white-space runes `s` starts with. */
  function LeadingSpace(s: string): (n: nat)
    ensures n <= |s|
    ensures forall k :: 0 <= k < n ==> IsSpace(s[k])
    ensures n < |s| ==> !IsSpace(s[n])
    decreases |s|
  {
    if |s| > 0 && IsSpace(s[0]) then 1 + LeadingSpace(s[1..]) else 0
  }

  /** The number of white-space runes `s` ends with. */
  function TrailingSpace(s: string): (n: nat)
    ensures n <= |s|
    ensures forall k :: |s| - n <= k < |s| ==> IsSpace(s[k])
    ensures n < |s| ==> !IsSpace(s[|s| - n - 1])
    decreases |s|
  {
    if |s| > 0 && IsSpace(s[|s| - 1]) then 1 + TrailingSpace(s[..|s| - 1]) else 0
  }

  /**
    `strings.TrimSpace`: the text between the first and the last rune that is
    not white space, or the empty text when there is none.
   */
  function TrimSpace(s: string): (r: string)
    ensures |r| > 0 ==> !IsSpace(r[0]) && !IsSpace(r[|r| - 1])
    ensures |r| <= |s|
  {
    var start := LeadingSpace(s);
    var stop := |s| - TrailingSpace(s);
    if start < stop then s[start..stop] else ""
  }

  /** Trimming keeps a middle slice of the text and removes only white space around it. */
  lemma TrimSpaceSlice(s: string)
    ensures var i := LeadingSpace(s);
      var r := TrimSpace(s);
      i + |r| <= |s| && r == s[i..i + |r|]
      && (forall k :: 0 <= k < i ==> IsSpace(s[k]))
      && (forall k :: i + |r| <= k < |s| ==> IsSpace(s[k]))
  {
    var i := LeadingSpace(s);
    var stop := |s| - TrailingSpace(s);
    if i >= stop {
      assert TrimSpace(s) == "";
      assert s[i..i] == "";
    }
  }

  /** Text without white space at either end is its own trimming. */
  lemma TrimSpaceNoSpace(s: string)
    requires |s| > 0 ==> !IsSpace(s[0]) && !IsSpace(s[|s| - 1])
    ensures TrimSpace(s) == s
  {
    if |s| > 0 {
      assert LeadingSpace(s) == 0;
      assert TrailingSpace(s) == 0;
      assert s[0..|s|] == s;
    }
  }

  /** Trimming twice is trimming once. */
  lemma TrimSpaceIdempotent(s: string)
    ensures TrimSpace(TrimSpace(s)) == TrimSpace(s)
  {
    TrimSpaceNoSpace(TrimSpace(s));
  }

  // ---------------------------------------------------------------------------
  // ASCII case mapping
  // ---------------------------------------------------------------------------

  /** `unicode.ToUpper` on one rune, for ASCII letters. */
  function UpperChar(c: char): (u: char)
    ensures 'a' <= c <= 'z' ==> 'A' <= u <= 'Z' && u as int == c as int - 32
    ensures !('a' <= c <= 'z') ==> u == c
  {
    if 'a' <= c <= 'z' then (c as int - 32) as char else c
  }

  /** `unicode.ToLower` on one rune, for ASCII letters. */
  function LowerChar(c: char): (l: char)
    ensures 'A' <= c <= 'Z' ==> 'a' <= l <= 'z' && l as int == c as int + 32
    ensures !('A' <= c <= 'Z') ==> l == c
  {
    if 'A' <= c <= 'Z' then (c as int + 32) as char else c
  }

  /** `strings.ToUpper`: every rune mapped by `UpperChar`. */
  function ToUpper(s: string): string
  {
    seq(|s|, i requires 0 <= i < |s| => UpperChar(s[i]))
  }

  /** `strings.ToLower`: every rune mapped by `LowerChar`. */
  function ToLower(s: string): string
  {
    seq(|s|, i requires 0 <= i < |s| => LowerChar(s[i]))
  }

  // ---------------------------------------------------------------------------
  // Contains, Count, ReplaceAll
  // ---------------------------------------------------------------------------

  /** `strings.HasPrefix`. */
  predicate HasPrefix(s: string, prefix: string)
  {
    |prefix| <= |s| && s[..|prefix|] == prefix
  }

  /** `strings.Contains`: `sub` occurs somewhere in `s`. */
  predicate Contains(s: string, sub: string)
    decreases |s|
  {
    HasPrefix(s, sub) || (|s| > 0 && Contains(s[1..], sub))
  }

  /**
    `strings.Count` for a non-empty pattern: the number of non-overlapping
    occurrences of `pat`, scanning from the left.
   */
  function Count(s: string, pat: string): nat
    requires |pat| > 0
    decreases |s|
  {
    if |s| < |pat| then 0
    else if s[..|pat|] == pat then 1 + Count(s[|pat|..], pat)
    else Count(s[1..], pat)
  }

  /**
    `strings.ReplaceAll` for a non-empty pattern: every non-overlapping
    occurrence of `pat`, found scanning from the left, replaced by `rep`.
   */
  function ReplaceAll(s: string, pat: string, rep: string): string
    requires |pat| > 0
    decreases |s|
  {
    if |s| < |pat| then s
    else if s[..|pat|] == pat then rep + ReplaceAll(s[|pat|..], pat, rep)
    else [s[0]] + ReplaceAll(s[1..], pat, rep)
  }

  /** The scan finds an occurrence exactly when the pattern is contained in the text. */
  lemma {:induction false} CountPositiveIffContains(s: string, pat: string)
    requires |pat| > 0
    ensures Count(s, pat) > 0 <==> Contains(s, pat)
    decreases |s|
  {
    if |s| < |pat| {
      NotContainsShort(s, pat);
    } else if s[..|pat|] != pat {
      CountPositiveIffContains(s[1..], pat);
    }
  }

  /** A text shorter than the pattern cannot contain it. */
  lemma {:induction false} NotContainsShort(s: string, pat: string)
    requires |s| < |pat|
    ensures !Contains(s, pat)
    decreases |s|
  {
    if |s| > 0 {
      NotContainsShort(s[1..], pat);
    }
  }

  /** Replacing a pattern that does not occur changes nothing. */
  lemma {:induction false} ReplaceAllAbsent(s: string, pat: string, rep: string)
    requires |pat| > 0
    requires !Contains(s, pat)
    ensures ReplaceAll(s, pat, rep) == s
    decreases |s|
  {
    if |s| >= |pat| {
      ReplaceAllAbsent(s[1..], pat, rep);
      assert [s[0]] + s[1..] == s;
    }
  }

  /** Each replacement changes the length by `|rep| - |pat|`. */
  lemma {:induction false} ReplaceAllLength(s: string, pat: string, rep: string)
    requires |pat| > 0
    ensures |ReplaceAll(s, pat, rep)| == |s| + Count(s, pat) * (|rep| - |pat|)
    decreases |s|
  {
    var d := |rep| - |pat|;
    if |s| < |pat| {
      assert Count(s, pat) == 0;
    } else if s[..|pat|] == pat {
      var t := s[|pat|..];
      ReplaceAllLength(t, pat, rep);
      var c := Count(t, pat);
      assert |ReplaceAll(s, pat, rep)| == |rep| + |t| + c * d;
      assert Count(s, pat) == c + 1;
      DistributeOne(c, d);
    } else {
      ReplaceAllLength(s[1..], pat, rep);
      assert Count(s, pat) == Count(s[1..], pat);
    }
  }

  /** `(c + 1) * d == c * d + d`. */
  lemma DistributeOne(c: int, d: int)
    ensures (c + 1) * d == c * d + d
  {
  }

  /** A text contains whatever its tail contains. */
  lemma {:induction false} ContainsInSuffix(a: string, b: string, w: string)
    requires Contains(b, w)
    ensures Contains(a + b, w)
    decreases |a|
  {
    if |a| == 0 {
      assert a + b == b;
    } else {
      ContainsInSuffix(a[1..], b, w);
      assert (a + b)[1..] == a[1..] + b;
    }
  }

  /** A text contains whatever a prefix of it contains. */
  lemma {:induction false} ContainsInPrefix(a: string, b: string, w: string)
    requires Contains(a, w)
    ensures Contains(a + b, w)
    decreases |a|
  {
    if HasPrefix(a, w) {
      assert (a + b)[..|w|] == a[..|w|];
    } else {
      ContainsInPrefix(a[1..], b, w);
      assert (a + b)[1..] == a[1..] + b;
    }
  }

  /**
    When the pattern occurs, the result of the replacement contains anything
    the replacement text contains.
   */
  lemma {:induction false} ReplaceAllInserts(s: string, pat: string, rep: string, w: string)
    requires |pat| > 0
    requires Contains(s, pat)
    requires Contains(rep, w)
    ensures Contains(ReplaceAll(s, pat, rep), w)
    decreases |s|
  {
    if |s| < |pat| {
      NotContainsShort(s, pat);
      assert false;
    } else if s[..|pat|] == pat {
      ContainsInPrefix(rep, ReplaceAll(s[|pat|..], pat, rep), w);
    } else {
      assert !HasPrefix(s, pat);
      ReplaceAllInserts(s[1..], pat, rep, w);
      ContainsInSuffix([s[0]], ReplaceAll(s[1..], pat, rep), w);
    }
  }

  /** The pieces separated by the text `sep`. */
  function JoinWith(pieces: seq<string>, sep: string): string
  {
    if |pieces| == 0 then ""
    else if |pieces| == 1 then pieces[0]
    else pieces[0] + sep + JoinWith(pieces[1..], sep)
  }

  /**
    A prefix in which no occurrence of the pattern starts is copied through
    unchanged, and the scan resumes right after it.
   */
  lemma {:induction false} ReplaceAllSkip(a: string, b: string, pat: string, rep: string)
    requires |pat| > 0
    requires forall k :: 0 <= k < |a| ==> !HasPrefix((a + b)[k..], pat)
    ensures ReplaceAll(a + b, pat, rep) == a + ReplaceAll(b, pat, rep)
    decreases |a|
  {
    if |a| == 0 {
      assert a + b == b;
    } else {
      NoMatchShift(a, b, pat);
      ReplaceAllSkip(a[1..], b, pat, rep);
      ReplaceAllStep(a, b, pat, rep);
    }
  }

  /** Dropping the first rune keeps a match-free prefix match-free; no match starts at the front. */
  lemma NoMatchShift(a: string, b: string, pat: string)
    requires |pat| > 0 && |a| > 0
    requires forall k :: 0 <= k < |a| ==> !HasPrefix((a + b)[k..], pat)
    ensures !HasPrefix(a + b, pat)
    ensures forall k :: 0 <= k < |a[1..]| ==> !HasPrefix((a[1..] + b)[k..], pat)
  {
    assert (a + b)[0..] == a + b;
    forall k | 0 <= k < |a[1..]|
      ensures !HasPrefix((a[1..] + b)[k..], pat)
    {
      assert (a[1..] + b)[k..] == (a + b)[k + 1..];
    }
  }

  /** One step of the scan past a rune where no match starts. */
  lemma ReplaceAllStep(a: string, b: string, pat: string, rep: string)
    requires |pat| > 0 && |a| > 0
    requires !HasPrefix(a + b, pat)
    requires ReplaceAll(a[1..] + b, pat, rep) == a[1..] + ReplaceAll(b, pat, rep)
    ensures ReplaceAll(a + b, pat, rep) == a + ReplaceAll(b, pat, rep)
  {
    var s := a + b;
    assert s[1..] == a[1..] + b;
    if |s| < |pat| {
      assert ReplaceAll(b, pat, rep) == b;
    } else {
      assert ReplaceAll(s, pat, rep) == [s[0]] + ReplaceAll(s[1..], pat, rep);
    }
    assert [a[0]] + a[1..] == a;
  }

  /**
    A text with exactly one occurrence of the pattern, which no earlier
    overlapping occurrence hides, has that occurrence replaced and nothing else.
   */
  lemma ReplaceSingle(before: string, after: string, pat: string, rep: string)
    requires |pat| > 0
    requires forall k :: 0 <= k < |before| ==> !HasPrefix((before + pat + after)[k..], pat)
    requires !Contains(after, pat)
    ensures ReplaceAll(before + pat + after, pat, rep) == before + rep + after
  {
    var tail := pat + after;
    assert before + pat + after == before + tail;
    ReplaceAllSkip(before, tail, pat, rep);
    assert tail[..|pat|] == pat && tail[|pat|..] == after;
    ReplaceAllAbsent(after, pat, rep);
    assert before + (rep + after) == before + rep + after;
  }

  /** No occurrence of a pattern can start at a rune other than its first. */
  lemma NoStartWithoutFirstRune(a: string, b: string, pat: string)
    requires |pat| > 0 && pat[0] !in a
    ensures forall k :: 0 <= k < |a| ==> !HasPrefix((a + b)[k..], pat)
  {
    forall k | 0 <= k < |a|
      ensures !HasPrefix((a + b)[k..], pat)
    {
      assert (a + b)[k..][0] == a[k];
    }
  }

  /**
    When the pattern's first rune occurs in none of the pieces, replacing the
    pattern in the pieces joined by it is joining them by the replacement:
    every occurrence is replaced and all other text is kept in place.
   */
  lemma {:induction false} ReplaceAllJoined(pieces: seq<string>, pat: string, rep: string)
    requires |pat| > 0
    requires forall i :: 0 <= i < |pieces| ==> pat[0] !in pieces[i]
    ensures ReplaceAll(JoinWith(pieces, pat), pat, rep) == JoinWith(pieces, rep)
    decreases |pieces|
  {
    if |pieces| == 1 {
      NoStartWithoutFirstRune(pieces[0], "", pat);
      assert pieces[0] + "" == pieces[0];
      ReplaceAllSkip(pieces[0], "", pat, rep);
    } else if |pieces| > 1 {
      var rest := JoinWith(pieces[1..], pat);
      assert JoinWith(pieces, pat) == pieces[0] + (pat + rest);
      NoStartWithoutFirstRune(pieces[0], pat + rest, pat);
      ReplaceAllSkip(pieces[0], pat + rest, pat, rep);
      assert (pat + rest)[..|pat|] == pat && (pat + rest)[|pat|..] == rest;
      ReplaceAllJoined(pieces[1..], pat, rep);
    }
  }
}
