// ANSI terminal styling: SGR escape sequences for eight colours and six text
// attributes, and a left-to-right composition of string transformers.
module Chroma {
  import opened Strings

  const Escape: char := 27 as char

  /** The SGR sequence ESC '[' code 'm'. */
  function Sgr(code: string): string
  {
    [Escape, '['] + code + "m"
  }

  /** The colour names in code order, black = 30 through white = 37. */
  const ColorNames: seq<string> := ["black", "red", "green", "yellow", "blue", "magenta", "cyan", "white"]

  /** ansiColorMap as init fills it. */
  const AnsiColorMap: map<string, string> := map[
    "black" := "30", "red" := "31", "green" := "32", "yellow" := "33",
    "blue" := "34", "magenta" := "35", "cyan" := "36", "white" := "37"]

  /** ansiFormatMap as init fills it. */
  const AnsiFormatMap: map<string, string> := map[
    "reset" := "0", "bold" := "1", "italic" := "3", "underline" := "4",
    "blink" := "5", "inverse" := "7", "hidden" := "8"]

  /** getColorCode: the colour's code, or the default-foreground 39 for an unknown name. */
  function ColorCode(color: string): (r: string)
    ensures color in AnsiColorMap ==> r == Sgr(AnsiColorMap[color])
    ensures color !in AnsiColorMap ==> r == Sgr("39")
  {
    var code := if color in AnsiColorMap then AnsiColorMap[color] else "39";
    Sgr(code)
  }

  /** getFormatCode: the attribute's code, or the reset code 0 for an unknown name. */
  function FormatCode(format: string): (r: string)
    ensures format in AnsiFormatMap ==> r == Sgr(AnsiFormatMap[format])
    ensures format !in AnsiFormatMap ==> r == Sgr("0")
  {
    var code := if format in AnsiFormatMap then AnsiFormatMap[format] else "0";
    Sgr(code)
  }

  const Reset: string := Sgr("0")

  /**
   * The eight colour names get codes 30 to 37 in order, and no other name
   * is a colour.
   */
  lemma ColorTable()
    ensures forall i :: 0 <= i < 8 ==> ColorCode(ColorNames[i]) == Sgr(NatToDecimal(30 + i))
    ensures forall c :: c in AnsiColorMap <==> c in ColorNames
  {
    assert NatToDecimal(30) == "30" && NatToDecimal(31) == "31" && NatToDecimal(32) == "32";
    assert NatToDecimal(33) == "33" && NatToDecimal(34) == "34" && NatToDecimal(35) == "35";
    assert NatToDecimal(36) == "36" && NatToDecimal(37) == "37";
  }

  /** Color(c): a transformer wrapping its argument in the colour and a reset. */
  function Color(color: string): (f: string -> string)
    ensures forall s :: f(s) == ColorCode(color) + s + Reset
  {
    s => ColorCode(color) + s + FormatCode("reset")
  }

  function Bold(s: string): (r: string)
    ensures r == Sgr("1") + s + Reset
  {
    FormatCode("bold") + s + FormatCode("reset")
  }

  function Italic(s: string): (r: string)
    ensures r == Sgr("3") + s + Reset
  {
    FormatCode("italic") + s + FormatCode("reset")
  }

  function Underline(s: string): (r: string)
    ensures r == Sgr("4") + s + Reset
  {
    FormatCode("underline") + s + FormatCode("reset")
  }

  function Blink(s: string): (r: string)
    ensures r == Sgr("5") + s + Reset
  {
    FormatCode("blink") + s + FormatCode("reset")
  }

  function Inverse(s: string): (r: string)
    ensures r == Sgr("7") + s + Reset
  {
    FormatCode("inverse") + s + FormatCode("reset")
  }

  function Hidden(s: string): (r: string)
    ensures r == Sgr("8") + s + Reset
  {
    FormatCode("hidden") + s + FormatCode("reset")
  }

  /** The transformers applied in list order: the last one is applied last. */
  function ApplyAll(funcs: seq<string -> string>, s: string): string
  {
    if funcs == [] then s else funcs[|funcs| - 1](ApplyAll(funcs[..|funcs| - 1], s))
  }

  /** Format: reassign s to each transformer's result in turn. */
  method Format(s: string, funcs: seq<string -> string>) returns (r: string)
    ensures r == ApplyAll(funcs, s)
  {
    r := s;
    for i := 0 to |funcs|
      invariant r == ApplyAll(funcs[..i], s)
    {
      assert funcs[..i + 1][..i] == funcs[..i];
      r := funcs[i](r);
    }
    assert funcs[..|funcs|] == funcs;
  }

  /** Reading left to right: the first transformer sees the input, the rest see its result. */
  lemma {:induction false} ApplyAllFirst(funcs: seq<string -> string>, s: string)
    requires |funcs| >= 1
    ensures ApplyAll(funcs, s) == ApplyAll(funcs[1..], funcs[0](s))
  {
    if |funcs| > 1 {
      var init := funcs[..|funcs| - 1];
      ApplyAllFirst(init, s);
      assert init[1..] == funcs[1..][..|funcs[1..]| - 1];
    }
  }

  /** A chain of wrappers nests: Format(s, Bold, Color(c)) is the colour around the bold text. */
  lemma FormatNests(s: string, color: string)
    ensures ApplyAll([Bold, Color(color)], s) == ColorCode(color) + Sgr("1") + s + Reset + Reset
  {
    var funcs: seq<string -> string> := [Bold, Color(color)];
    assert funcs[..1] == [Bold];
    assert ApplyAll(funcs[..1], s) == Bold(s);
  }

  /** Every wrapper can be undone: dropping the opening and closing sequences gives the input. */
  lemma WrapperStrips(s: string, color: string)
    ensures var w := Color(color)(s); w[|ColorCode(color)|..|w| - |Reset|] == s
    ensures var w := Bold(s); w[4..|w| - 4] == s
  {
    assert |Reset| == 4;
    assert |Sgr("1")| == 4;
  }
}
