/**
 * The small pure helpers of App.tsx: `formatMeasurement`, the height form of `HeightInputView`
 * and the name and prompt rules of `GenerateClothingModal`.
 */
module Forms {
  import opened Basics
  import opened JsText

  /** A character `[\d\.\-]` accepts (`\d` is ASCII 0-9 only). */
  predicate IsNumberChar(c: char) {
    ('0' <= c <= '9') || c == '.' || c == '-'
  }

  /** `/^[\d\.\-]+$/.test(v)` */
  predicate LooksNumeric(v: string) {
    |v| > 0 && forall i :: 0 <= i < |v| ==> IsNumberChar(v[i])
  }

  const InchesSuffix: string := " inches"

  /**
   * `formatMeasurement(value)`: the trimmed value, followed by " inches" exactly when it is a
   * non-empty run of digits, dots and minus signs.
   */
  function FormatMeasurement(value: string): (shown: string)
    ensures LooksNumeric(Trim(value)) ==> shown == Trim(value) + InchesSuffix
    ensures !LooksNumeric(Trim(value)) ==> shown == Trim(value)
  {
    var v := Trim(value);
    if LooksNumeric(v) then v + InchesSuffix else v
  }

  /** Formatting an already formatted measurement changes nothing: a unit is never added twice. */
  lemma FormatIdempotent(value: string)
    ensures FormatMeasurement(FormatMeasurement(value)) == FormatMeasurement(value)
  {
    var v := Trim(value);
    TrimIdempotent(value);
    if LooksNumeric(v) {
      var shown := v + InchesSuffix;
      assert shown[|shown| - 1] == 's' && !IsSpace(shown[0]);
      TrimStartFixed(shown);
      TrimEndFixed(shown);
      assert shown[|v|] == ' ' && !IsNumberChar(shown[|v|]);
    }
  }

  /** A formatted measurement never starts or ends with white space. */
  lemma FormatTrimmed(value: string)
    ensures var shown := FormatMeasurement(value); shown == [] || (!IsSpace(shown[0]) && !IsSpace(shown[|shown| - 1]))
  {
    var v := Trim(value);
    TrimEnds(value);
    if LooksNumeric(v) {
      var shown := v + InchesSuffix;
      assert shown[0] == v[0] && shown[|shown| - 1] == 's';
    }
  }

  /** `parseInt(s) >= lo` when `NaN` compares false. */
  predicate ParsesAtLeast(s: string, lo: int) {
    ParseInt(s).Some? && ParseInt(s).value >= lo
  }

  /** `parseInt(s) < hi` when `NaN` compares false. */
  predicate ParsesBelow(s: string, hi: int) {
    ParseInt(s).Some? && ParseInt(s).value < hi
  }

  /**
   * `isFormValid` of `HeightInputView`: both fields are non-blank, feet parse to at least 3 and
   * inches parse to a value in [0, 12).
   */
  predicate HeightFormValid(feet: string, inches: string) {
    && Trim(feet) != [] && Trim(inches) != []
    && ParsesAtLeast(feet, 3)
    && ParsesAtLeast(inches, 0) && ParsesBelow(inches, 12)
  }

  /** The height text handed to the workflow: `${feet}'${inches}"`. */
  function HeightText(feet: string, inches: string): string {
    feet + "'" + inches + "\""
  }

  /**
   * `handleSubmit` as written: it checks only that both fields are non-empty and parse to some
   * number, and then submits the raw field texts.
   */
  function HandleSubmit(feet: string, inches: string): (submitted: Option<string>)
    ensures submitted.Some? <==> feet != [] && inches != [] && ParseInt(feet).Some? && ParseInt(inches).Some?
    ensures submitted.Some? ==> submitted.value == HeightText(feet, inches)
  {
    if feet != [] && inches != [] && ParseInt(feet).Some? && ParseInt(inches).Some? then
      Some(HeightText(feet, inches))
    else None
  }

  /**
   * Pressing Continue: the button is disabled unless the form is valid, and then
   * `handleSubmit` runs. A height is submitted exactly when the form is valid.
   */
  function ContinueHeight(feet: string, inches: string): (submitted: Option<string>)
    ensures submitted.Some? <==> HeightFormValid(feet, inches)
    ensures submitted.Some? ==> submitted.value == HeightText(feet, inches)
  {
    if !HeightFormValid(feet, inches) then None
    else
      assert feet != [] && inches != [];
      HandleSubmit(feet, inches)
  }

  /** A one-digit field is not blank. */
  lemma OneDigitNotBlank(s: string)
    requires |s| == 1 && '0' <= s[0] <= '9'
    ensures Trim(s) == s
  {
    assert s[|s| - 1] == s[0] && !IsSpace(s[0]);
    TrimStartFixed(s);
    TrimEndFixed(s);
  }

  /** A one-digit field parses to the digit's value. */
  lemma OneDigitValue(s: string)
    requires |s| == 1 && '0' <= s[0] <= '9'
    ensures ParseInt(s) == Some(DigitValue(s[0]) as int)
  {
    assert IsDecimal(s);
    ParseDecimal(s);
    SingleDigit(s);
  }

  lemma SingleDigit(s: string)
    requires |s| == 1
    ensures DigitsValue(s, 10) == DigitValue(s[0])
  {
    assert s[..0] == [];
  }

  lemma OneDigitField(s: string)
    requires |s| == 1 && '0' <= s[0] <= '9'
    ensures Trim(s) == s
    ensures ParseInt(s) == Some(DigitValue(s[0]) as int)
  {
    OneDigitNotBlank(s);
    OneDigitValue(s);
  }

  /** The form accepts 5 ft 9 in. */
  lemma HeightAccepted()
    ensures HeightFormValid("5", "9")
  {
    OneDigitField("5");
    OneDigitField("9");
  }

  /** The form rejects 2 ft 5 in (too short). */
  lemma HeightTooShortRejected()
    ensures !HeightFormValid("2", "5")
  {
    OneDigitField("2");
  }

  /** The form rejects 5 ft 12 in (inches out of range). */
  lemma HeightInchesRejected()
    ensures !HeightFormValid("5", "12")
  {
    ParseDecimal("12");
    assert "12"[..1] == "1" && "1"[..0] == [];
    assert DigitsValue("1", 10) == 1;
    assert DigitsValue("12", 10) == 12;
    assert ParseInt("12") == Some(12);
    assert !ParsesBelow("12", 12);
  }

  /** A blank field is never valid, whatever the other field holds. */
  lemma BlankHeightRejected(feet: string, inches: string)
    requires Trim(feet) == [] || Trim(inches) == []
    ensures ContinueHeight(feet, inches) == None
  {
  }

  const MaxNameLength := 20
  const KeptPrefix := 18
  const Ellipsis: string := "..."

  /**
   * The name of a garment created from a prompt: prompts longer than 20 characters are cut to
   * their first 18 followed by "...". Lengths count Dafny characters (Unicode scalar values).
   */
  function ItemName(prompt: string): (name: string)
    ensures |name| <= MaxNameLength + 1
    ensures |prompt| <= MaxNameLength ==> name == prompt
    ensures |prompt| > MaxNameLength ==> |name| == KeptPrefix + |Ellipsis| && name[..KeptPrefix] == prompt[..KeptPrefix] && name[KeptPrefix..] == Ellipsis
  {
    if |prompt| > MaxNameLength then prompt[..KeptPrefix] + Ellipsis else prompt
  }

  /** Naming an already shortened name keeps it as it is. */
  lemma ItemNameIdempotent(prompt: string)
    ensures ItemName(ItemName(prompt)) == ItemName(prompt)
  {
    var name := ItemName(prompt);
    if |name| > MaxNameLength {
      assert name == name[..KeptPrefix] + name[KeptPrefix..];
    }
  }

  /** The prompt the modal refuses to send: white space only, the empty prompt included. */
  predicate PromptIsBlank(prompt: string) {
    forall i :: 0 <= i < |prompt| ==> IsSpace(prompt[i])
  }

  /** A prompt is blank exactly when `!prompt.trim()` holds. */
  lemma PromptBlankIffTrimEmpty(prompt: string)
    ensures PromptIsBlank(prompt) <==> Trim(prompt) == []
  {
    TrimBlankIffAllSpace(prompt);
  }
}
