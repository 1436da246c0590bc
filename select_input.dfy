/** The select-input audit (Atoms/SelectInput/SelectInput.accessibility.js): the checks of the
    text input, run on `select` instead of `input`. */
module SelectInput {
  import opened Dom
  import opened Wcag
  import opened ColorContrastChecker
  import opened Accessibility
  import opened FormControls
  import opened Audit
  import opened FieldAudit

  /** `checkColorContrastInput`: the text-field table on `select`, with the error highlight, at
      the engine's default ratios 3 and 7. */
  function CheckColorContrastInput(lib: ColorLibrary, c: Component): (ok: bool)
    ensures ok <==> InputContrastHolds(lib, c, FieldColors, "select", true, NonTextContrast, EnhancedContrast)
    ensures ok ==> forall e :: e in QueryAll(c, "select") ==>
      && Meets(Pair(lib, e, "--input-color", "--input-bg"), EnhancedContrast)
      && Meets(Pair(lib, e, "--input-color", "--input-error-highlight"), EnhancedContrast)
      && Meets(Pair(lib, e, "--outline-color", "--bg-color"), NonTextContrast)
  {
    FormControls.CheckColorContrastInput(lib, c, "select", EnhancedContrast)
  }

  /** `checkSelectInputAccessibility(component, showLabel, autocomplete)`: the size check on
      `select`, the label and autocomplete checks, then the input contrast, the error-message
      contrast before the label contrast. */
  function CheckSelectInputAccessibility(): (r: Report<FieldCheck>)
    ensures RunsEveryFieldCheck(r, "select")
    ensures RanBefore(r, LabelVisible, Autocomplete)
    ensures RanBefore(r, InputErrorColorContrast, ColorContrastLabel)
  {
    var checks := [InputSize("select"), LabelVisible, Autocomplete, FieldCheck.ColorContrastInput("select"),
                   InputErrorColorContrast, ColorContrastLabel];
    assert checks[1] == LabelVisible && checks[2] == Autocomplete;
    assert checks[4] == InputErrorColorContrast && checks[5] == ColorContrastLabel;
    Report(checks, false)
  }
}
