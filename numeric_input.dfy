/** The numeric-input audit (Atoms/NumericInput/NumericInput.accessibility.js): the checks of
    the text input, with the autocomplete check ahead of the label check. */
module NumericInput {
  import opened Audit
  import opened FieldAudit

  /** `checkNumericInputAccessibility(component, showLabel, autocomplete)`: the size check on
      `input`, the autocomplete check, the visible label, then the input, label and error
      contrast. */
  function CheckNumericInputAccessibility(): (r: Report<FieldCheck>)
    ensures RunsEveryFieldCheck(r, "input")
    ensures RanBefore(r, Autocomplete, LabelVisible)
    ensures RanBefore(r, ColorContrastLabel, InputErrorColorContrast)
  {
    var checks := [InputSize("input"), Autocomplete, LabelVisible, ColorContrastInput("input"),
                   ColorContrastLabel, InputErrorColorContrast];
    assert checks[1] == Autocomplete && checks[2] == LabelVisible;
    assert checks[4] == ColorContrastLabel && checks[5] == InputErrorColorContrast;
    Report(checks, false)
  }
}
