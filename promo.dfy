/**
 The promo-code field: what the user typed is upper-cased and trimmed, then
 matched against the two known codes.
 */
module Promo {
  import opened Text

  datatype PromoCode = Save10 | Game20

  /** How the handler classifies the field's contents. */
  datatype PromoInput = Recognised(code: PromoCode) | Blank | Unrecognised

  /** The code as the user must spell it after normalising, and as the
      discount row shows it. */
  function CodeName(code: PromoCode): string {
    match code
    case Save10 => "SAVE10"
    case Game20 => "GAME20"
  }

  /** Fraction of the subtotal the code takes off. */
  function Rate(code: PromoCode): real {
    match code
    case Save10 => 0.10
    case Game20 => 0.20
  }

  /** `value.toUpperCase().trim()`, with the per-character upper case of
      `Text.Upper`: no longer than the input, and with no space left at either
      end. */
  function Normalize(input: string): (r: string)
    ensures |r| <= |input|
    ensures Tight(r)
  {
    Trim(Upper(input))
  }

  function Classify(input: string): PromoInput {
    var code := Normalize(input);
    if code == "SAVE10" then Recognised(Save10)
    else if code == "GAME20" then Recognised(Game20)
    else if code == "" then Blank
    else Unrecognised
  }

  /** A code is recognised exactly when the normalised input is its name; the
      empty normal form is reported blank, and anything else unknown. */
  lemma ClassifyMeaning(input: string, code: PromoCode)
    ensures Classify(input) == Recognised(code) <==> Normalize(input) == CodeName(code)
    ensures Classify(input) == Blank <==> Normalize(input) == ""
    ensures Classify(input) == Unrecognised <==>
              Normalize(input) !in {"", CodeName(Save10), CodeName(Game20)}
  {
  }

  /** Normalising twice is normalising once. */
  lemma NormalizeIdempotent(input: string)
    ensures Normalize(Normalize(input)) == Normalize(input)
  {
    var u := Upper(input);
    UpperIdempotent(input);
    TrimSplit(u);
    UpperConcat(u[..LeadingSpace(u)] + Trim(u), u[LeadingSpace(u) + |Trim(u)|..]);
    UpperConcat(u[..LeadingSpace(u)], Trim(u));
    UpperLengthSplit(u[..LeadingSpace(u)], Trim(u), u[LeadingSpace(u) + |Trim(u)|..]);
    TrimIdempotent(u);
  }

  /** When a concatenation is its own upper case, so is each part. */
  lemma UpperLengthSplit(a: string, b: string, c: string)
    requires Upper(a + b + c) == a + b + c
    requires Upper(a + b + c) == Upper(a) + Upper(b) + Upper(c)
    ensures Upper(b) == b
  {
    var s := a + b + c;
    assert |Upper(a)| == |a| && |Upper(b)| == |b|;
    assert Upper(b) == (Upper(a) + Upper(b) + Upper(c))[|a|..|a| + |b|];
    assert b == s[|a|..|a| + |b|];
  }

  /** The field is reported blank exactly when it holds nothing but spaces. */
  lemma BlankIffAllSpace(input: string)
    ensures Classify(input) == Blank <==> AllSpace(input)
  {
    TrimEmpty(Upper(input));
    UpperAllSpace(input);
  }

  /** Matching ignores letter case. */
  lemma ClassifyIgnoresCase(input: string)
    ensures Classify(Upper(input)) == Classify(input)
  {
    UpperIdempotent(input);
  }

  /** Normalising ignores spaces and line breaks around the input. */
  lemma NormalizeIgnoresPadding(l: string, input: string, t: string)
    requires AllSpace(l) && AllSpace(t)
    ensures Normalize(l + input + t) == Normalize(input)
  {
    UpperConcat(l + input, t);
    UpperConcat(l, input);
    UpperOfSpace(l);
    UpperOfSpace(t);
    TrimPadding(l, Upper(input), t);
  }

  /** Matching ignores spaces and line breaks around the code. */
  lemma ClassifyIgnoresPadding(l: string, input: string, t: string)
    requires AllSpace(l) && AllSpace(t)
    ensures Classify(l + input + t) == Classify(input)
  {
    NormalizeIgnoresPadding(l, input, t);
  }

  /** A string that trimming leaves alone normalises to its upper case. */
  lemma NormalizeTight(s: string)
    requires Tight(Upper(s))
    ensures Normalize(s) == Upper(s)
  {
    assert [] + Upper(s) + [] == Upper(s);
    TrimUnique([], Upper(s), []);
  }

  lemma CodeNameTight(code: PromoCode)
    ensures Tight(CodeName(code))
  {
  }

  /** An input whose normal form is a code's name is recognised as that code. */
  lemma ClassifyCodeName(input: string, code: PromoCode)
    requires Normalize(input) == CodeName(code)
    ensures Classify(input) == Recognised(code)
  {
  }

  /** The spellings accepted for a code: its name in any letter case, padded
      with spaces. */
  lemma AcceptsPaddedSpelling(l: string, spelling: string, t: string, code: PromoCode)
    requires AllSpace(l) && AllSpace(t)
    requires Upper(spelling) == CodeName(code)
    ensures Classify(l + spelling + t) == Recognised(code)
  {
    CodeNameTight(code);
    NormalizeTight(spelling);
    NormalizeIgnoresPadding(l, spelling, t);
    ClassifyCodeName(l + spelling + t, code);
  }

  /** Accepted: padding and lower case. */
  lemma ExamplePaddedLowerCase()
    ensures Classify(" save10\n") == Recognised(Save10)
  {
    assert Upper("save10") == "SAVE10";
    assert " " + "save10" + "\n" == " save10\n";
    AcceptsPaddedSpelling(" ", "save10", "\n", Save10);
  }

  /** Accepted: the long s (U+017F), whose upper case is S. */
  lemma ExampleLongS()
    ensures Classify("\U{17F}ave10") == Recognised(Save10)
  {
    assert Upper("\U{17F}ave10") == "SAVE10";
    assert "" + "\U{17F}ave10" + "" == "\U{17F}ave10";
    AcceptsPaddedSpelling("", "\U{17F}ave10", "", Save10);
  }

  lemma ExampleBlank()
    ensures Classify(" \t ") == Blank
  {
    BlankIffAllSpace(" \t ");
  }

  /** Rejected: a prefix of a code. */
  lemma ExamplePrefix()
    ensures Classify("save") == Unrecognised
  {
    assert Upper("save") == "SAVE";
    NormalizeTight("save");
  }
}
