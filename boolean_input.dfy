/** The boolean-input audit (Atoms/BooleanInput/BooleanInput.accessibility.js): a visible label
    and the contrast of the label, the check box and the error message. It has no target-size
    check. */
module BooleanInput {
  import opened Js
  import opened Dom
  import opened Wcag
  import opened ColorContrastChecker
  import opened Accessibility
  import opened Audit

  /** The input table of a check box: the selected colour on the box background, with the page
      background, border, outline and error highlight of the text fields. */
  const BooleanColors: InputColors := InputColors(
    "--boolean-selected-color", "--bg-color", "--boolean-bg", "--input-border-color", "--outline-color",
    Some("--input-error-highlight"))

  /** `checkColorContrastInput`: the check-box table on `input`, with the error highlight, and
      with the font ratio lowered to the non-text ratio 3, since the selected mark is not text. */
  function CheckColorContrastInput(lib: ColorLibrary, c: Component): (ok: bool)
    ensures ok <==> InputContrastHolds(lib, c, BooleanColors, "input", true, NonTextContrast, NonTextContrast)
    ensures ok ==> forall e :: e in QueryAll(c, "input") ==>
      && Meets(Pair(lib, e, "--boolean-selected-color", "--boolean-bg"), NonTextContrast)
      && Meets(Pair(lib, e, "--boolean-selected-color", "--input-error-highlight"), NonTextContrast)
      && Meets(Pair(lib, e, "--outline-color", "--bg-color"), NonTextContrast)
  {
    InputContrastHolds(lib, c, BooleanColors, "input", true, NonTextContrast, NonTextContrast)
  }

  /** The checks `checkBooleanInputAccessibility` runs. */
  datatype Check = LabelColorContrast | ColorContrastInput | InputErrorColorContrast | LabelVisible

  /** `checkBooleanInputAccessibility(component, showLabel)`: the three contrast checks, then the
      visible label; no size check, none can throw. */
  function CheckBooleanInputAccessibility(): (r: Report<Check>)
    ensures !r.aborted && |r.checks| == 4
    ensures r.checks[3] == LabelVisible
    ensures RanBefore(r, LabelColorContrast, ColorContrastInput)
    ensures RanBefore(r, ColorContrastInput, InputErrorColorContrast)
  {
    var checks := [LabelColorContrast, ColorContrastInput, InputErrorColorContrast, LabelVisible];
    assert checks[0] == LabelColorContrast && checks[1] == ColorContrastInput;
    assert checks[2] == InputErrorColorContrast;
    Report(checks, false)
  }
}
