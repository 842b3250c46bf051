/**
  The terminal colour helper of core/helper/color.go: eight `fmt` format strings,
  each an ECMA-48 Select Graphic Rendition sequence (section 8.3.117 of ECMA-48:
  CSI 1;3N m, bold with foreground colour N) around one `%s` verb and followed
  by the reset sequence CSI 0 m; and `ColorizeCmd`, which formats a text with one
  of them.
 */
module Color {

  /** The ESC control character that starts every Control Sequence Introducer. */
  const Esc: char := '\U{1B}'

  /** CSI 0 m: reset all rendition attributes. */
  const Reset: string := [Esc] + "[0m"

  const Black: string := "\U{1B}[1;30m%s\U{1B}[0m"
  const Red: string := "\U{1B}[1;31m%s\U{1B}[0m"
  const Green: string := "\U{1B}[1;32m%s\U{1B}[0m"
  const Yellow: string := "\U{1B}[1;33m%s\U{1B}[0m"
  const Blue: string := "\U{1B}[1;34m%s\U{1B}[0m"
  const Magenta: string := "\U{1B}[1;35m%s\U{1B}[0m"
  const Cyan: string := "\U{1B}[1;36m%s\U{1B}[0m"
  const White: string := "\U{1B}[1;37m%s\U{1B}[0m"

  /** The eight colour constants, in ECMA-48 colour-number order 0..7. */
  const Palette: seq<string> := [Black, Red, Green, Yellow, Blue, Magenta, Cyan, White]

  /** CSI 1;3N m: bold, foreground colour number `n`. */
  function SgrPrefix(n: nat): (p: string)
    requires n < 8
    ensures |p| == 7 && p[0] == Esc && '%' !in p
  {
    [Esc] + "[1;3" + [('0' as int + n) as char] + "m"
  }

  /** Every colour constant is its SGR prefix, one `%s` verb, and the reset sequence. */
  lemma PaletteShape(n: nat)
    requires n < |Palette|
    ensures Palette[n] == SgrPrefix(n) + "%s" + Reset
  {
  }

  // ---------------------------------------------------------------------------
  // fmt.Sprintf with one string operand
  // ---------------------------------------------------------------------------

  /**
    The format strings this model renders: every `%` starts one of the verbs
    `%s` or `%%` (the only verbs the colour constants use).
   */
  predicate PlainVerbs(f: string)
    decreases |f|
  {
    if |f| == 0 then true
    else if f[0] == '%' then |f| >= 2 && (f[1] == 's' || f[1] == '%') && PlainVerbs(f[2..])
    else PlainVerbs(f[1..])
  }

  /**
    `fmt.Sprintf(f, arg)` from the current position: `%%` prints a percent
    sign, the first `%s` prints `arg`, a later one `%!s(MISSING)`, and an
    operand no verb consumed is reported as `%!(EXTRA string=arg)`.
    The operand is never itself scanned for verbs.
   */
  function Render(f: string, arg: string, used: bool): string
    requires PlainVerbs(f)
    decreases |f|
  {
    if |f| == 0 then (if used then "" else "%!(EXTRA string=" + arg + ")")
    else if f[0] == '%' then
      if f[1] == '%' then "%" + Render(f[2..], arg, used)
      else if !used then arg + Render(f[2..], arg, true)
      else "%!s(MISSING)" + Render(f[2..], arg, used)
    else [f[0]] + Render(f[1..], arg, used)
  }

  /** `fmt.Sprintf(f, arg)` with a single string operand. */
  function Sprintf(f: string, arg: string): string
    requires PlainVerbs(f)
  {
    Render(f, arg, false)
  }

  /** Text without `%` adds no verb. */
  lemma {:induction false} PlainVerbsLiteral(p: string, rest: string)
    requires '%' !in p
    requires PlainVerbs(rest)
    ensures PlainVerbs(p + rest)
    decreases |p|
  {
    if |p| == 0 {
      assert p + rest == rest;
    } else {
      assert (p + rest)[0] == p[0];
      assert (p + rest)[1..] == p[1..] + rest;
      PlainVerbsLiteral(p[1..], rest);
    }
  }

  /** Text without `%` is copied through unchanged. */
  lemma {:induction false} RenderLiteral(p: string, rest: string, arg: string, used: bool)
    requires '%' !in p
    requires PlainVerbs(rest)
    ensures PlainVerbs(p + rest)
    ensures Render(p + rest, arg, used) == p + Render(rest, arg, used)
    decreases |p|
  {
    PlainVerbsLiteral(p, rest);
    if |p| == 0 {
      assert p + rest == rest;
    } else {
      var s := p + rest;
      assert s[0] == p[0];
      assert s[1..] == p[1..] + rest;
      RenderLiteral(p[1..], rest, arg, used);
      assert Render(s, arg, used) == [p[0]] + Render(s[1..], arg, used);
      assert [p[0]] + p[1..] == p;
    }
  }

  /** `ColorizeCmd(color, text)`: `fmt.Sprintf(color, text)`. */
  function ColorizeCmd(color: string, text: string): string
    requires PlainVerbs(color)
  {
    Sprintf(color, text)
  }

  /**
    For every colour constant the output is the SGR prefix, the text verbatim
    (even when it holds `%`), and the reset; so it is two characters shorter
    than the constant plus the text.
   */
  lemma {:induction false} ColorizeCmdShape(n: nat, text: string)
    requires n < |Palette|
    ensures PlainVerbs(Palette[n])
    ensures ColorizeCmd(Palette[n], text) == SgrPrefix(n) + text + Reset
    ensures |ColorizeCmd(Palette[n], text)| == |Palette[n]| - 2 + |text|
  {
    PaletteShape(n);
    var p := SgrPrefix(n);
    assert PlainVerbs(Reset) && Render(Reset, text, true) == Reset by {
      assert Reset + "" == Reset;
      RenderLiteral(Reset, "", text, true);
    }
    var tail := "%s" + Reset;
    assert tail[2..] == Reset;
    assert PlainVerbs(tail);
    assert Render(tail, text, false) == text + Reset;
    RenderLiteral(p, tail, text, false);
    assert Palette[n] == p + tail;
  }
}
