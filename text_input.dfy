/** The text-input audit (Atoms/TextInput/TextInput.accessibility.js). Its checks are the shared
    ones of `FormControls`: the visible label, the autocomplete prop, and the contrast of the
    `input` fields (`CheckColorContrastTextField`), the labels and the error messages. */
module TextInput {
  import opened Audit
  import opened FieldAudit

  /** `checkTextInputAccessibility(component, showLabel, autocomplete)`: the size check on the
      engine's default selector `input`, then the label, autocomplete and contrast checks. None
      can throw, and the props only change verdicts, which the entry point discards. */
  function CheckTextInputAccessibility(): (r: Report<FieldCheck>)
    ensures RunsEveryFieldCheck(r, "input")
    ensures RanBefore(r, LabelVisible, Autocomplete)
    ensures RanBefore(r, ColorContrastLabel, InputErrorColorContrast)
  {
    var checks := [InputSize("input"), LabelVisible, Autocomplete, ColorContrastInput("input"),
                   ColorContrastLabel, InputErrorColorContrast];
    assert checks[1] == LabelVisible && checks[2] == Autocomplete;
    assert checks[4] == ColorContrastLabel && checks[5] == InputErrorColorContrast;
    Report(checks, false)
  }
}
