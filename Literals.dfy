/** Literal forms: RustDumpVisitor.removePlusAndSuffix and the integer, long
    and double literal visitors. */
module Literals {
  import opened Text

  const LongSuffixes: set<char> := {'l', 'L'}

  /** The characters whose presence marks a double literal as already
      floating-point looking. */
  const FloatMarkers: set<char> := {'.', 'e', 'E', 'x', 'X'}

  /** One leading `+` removed, if there is one. */
  function StripPlus(value: string): string {
    if |value| > 0 && value[0] == '+' then value[1..] else value
  }

  /** removePlusAndSuffix: drop one leading `+`, then one trailing character
      among `suffixes`. */
  function RemovePlusAndSuffix(value: string, suffixes: set<char>): string {
    var v := StripPlus(value);
    if EndsWithAny(v, suffixes) then v[..|v| - 1] else v
  }

  /** The integer literal visitor passes no suffixes. */
  function IntegerLiteralText(value: string): string {
    RemovePlusAndSuffix(value, {})
  }

  function LongLiteralText(value: string): string {
    RemovePlusAndSuffix(value, LongSuffixes)
  }

  /** `.0` is appended BEFORE the suffix is stripped. */
  function DoubleLiteralText(value: string): string {
    var v := if !ContainsAny(value, FloatMarkers) then value + ".0" else value;
    RemovePlusAndSuffix(v, LongSuffixes)
  }

  /** The result is the value with at most one leading `+` and at most one
      trailing suffix character cut off, and nothing else changed. */
  lemma RemovePlusAndSuffixInfix(value: string, suffixes: set<char>)
    ensures var r := RemovePlusAndSuffix(value, suffixes);
      var a := if |value| > 0 && value[0] == '+' then 1 else 0;
      && a + |r| <= |value| <= a + |r| + 1
      && r == value[a .. a + |r|]
      && (|value| == a + |r| + 1 <==> EndsWithAny(value[a..], suffixes))
  {
  }

  /** Integer literals only lose a leading `+`: no suffix is ever removed. */
  lemma IntegerLiteralKeepsSuffix(value: string)
    ensures IntegerLiteralText(value) == StripPlus(value)
    ensures |value| > 0 && value[0] == '+' ==> "+" + IntegerLiteralText(value) == value
  {
  }

  /** A double literal without `.`, `e`, `E`, `x` or `X` becomes its
      `+`-stripped text followed by `.0` (the suffix strip cannot fire, the
      text ends in `0`); any other double is treated like a long literal. */
  lemma DoubleLiteralForms(value: string)
    ensures !ContainsAny(value, FloatMarkers) ==> DoubleLiteralText(value) == StripPlus(value) + ".0"
    ensures ContainsAny(value, FloatMarkers) ==> DoubleLiteralText(value) == LongLiteralText(value)
  {
    if !ContainsAny(value, FloatMarkers) {
      var v := value + ".0";
      if |value| > 0 && value[0] == '+' {
        assert StripPlus(v) == value[1..] + ".0";
      } else {
        assert StripPlus(v) == v;
      }
      assert !EndsWithAny(StripPlus(v), LongSuffixes);
    }
  }

  /** A double written without a marker comes out looking floating-point. */
  lemma DoubleLiteralLooksFloating(value: string)
    requires !ContainsAny(value, FloatMarkers)
    ensures ContainsAny(DoubleLiteralText(value), FloatMarkers)
  {
    DoubleLiteralForms(value);
    if !ContainsAny(value, FloatMarkers) {
      var r := DoubleLiteralText(value);
      assert r[|r| - 2] == '.';
    }
  }

  lemma LiteralExamples()
    ensures LongLiteralText("+5L") == "5"
    ensures IntegerLiteralText("+5") == "5"
    ensures DoubleLiteralText("5") == "5.0"
    ensures DoubleLiteralText("5L") == "5L.0"
    ensures DoubleLiteralText("1.5") == "1.5"
  {
    DoubleLiteralForms("5");
    DoubleLiteralForms("5L");
    assert ContainsAny("1.5", FloatMarkers) by { assert "1.5"[1] == '.'; }
  }
}
