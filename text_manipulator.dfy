/** The text-manipulator audit (Atoms/TextManipulator/TextManipulator.accessibility.js): the
    texts of its two labels, and the contrast of its input fields, labels and unit boxes. */
module TextManipulator {
  import opened Js
  import opened Dom
  import opened Wcag
  import opened ColorContrastChecker
  import opened Accessibility
  import opened Audit

  /** What `checkLabelTexts` returns and which of its two errors it logs. */
  datatype LabelTextsResult = LabelTextsResult(ok: bool, lineSpacingMissing: bool, paragraphSpacingMissing: bool)

  /** `checkLabelTexts(component, lineSpacingLabel, paragraphSpacingLabel)`: both label texts must
      be set and non-empty; each one that is missing is reported on its own. */
  function CheckLabelTexts(lineSpacingLabel: Option<string>, paragraphSpacingLabel: Option<string>): (r: LabelTextsResult)
    ensures r.ok <==> lineSpacingLabel.Some? && lineSpacingLabel.value != "" &&
                      paragraphSpacingLabel.Some? && paragraphSpacingLabel.value != ""
    ensures r.lineSpacingMissing <==> !Truthy(lineSpacingLabel)
    ensures r.paragraphSpacingMissing <==> !Truthy(paragraphSpacingLabel)
    ensures r.ok <==> !r.lineSpacingMissing && !r.paragraphSpacingMissing
  {
    if Truthy(lineSpacingLabel) && Truthy(paragraphSpacingLabel) then LabelTextsResult(true, false, false)
    else LabelTextsResult(false, !Truthy(lineSpacingLabel), !Truthy(paragraphSpacingLabel))
  }

  /** `checkUnitBoxColorContrast(component)`: the font colour of every `.unit-box` against the
      unit box's own background, at the engine's default ratio 7. */
  function CheckUnitBoxColorContrast(lib: ColorLibrary, c: Component): (ok: bool)
    ensures ok <==> forall e :: e in QueryAll(c, ".unit-box") ==> Meets(Pair(lib, e, "--font-color", "--unit-box-bg"), EnhancedContrast)
  {
    assert Selected(c, Some(".unit-box")) == QueryAll(c, ".unit-box");
    ColorContrastHolds(lib, c, "--font-color", "--unit-box-bg", Some(".unit-box"), EnhancedContrast)
  }

  /** The checks `checkTextManipulatorAccessibility` runs. */
  datatype Check = InputSize(selector: string) | LabelTexts | ColorContrastInput | ColorContrastLabel | UnitBoxColorContrast

  /** `checkTextManipulatorAccessibility(component, lineSpacingLabel, paragraphSpacingLabel)`: the
      size check on the engine's default selector `input` first, then the label texts and the
      three contrast checks, none of which can throw. */
  function CheckTextManipulatorAccessibility(): (r: Report<Check>)
    ensures !r.aborted && |r.checks| == 5 && r.checks[0] == InputSize("input")
    ensures RanBefore(r, Check.LabelTexts, ColorContrastInput)
    ensures RanBefore(r, ColorContrastLabel, UnitBoxColorContrast)
  {
    var checks := [InputSize("input"), Check.LabelTexts, ColorContrastInput, ColorContrastLabel, UnitBoxColorContrast];
    assert checks[1] == Check.LabelTexts && checks[2] == ColorContrastInput;
    assert checks[3] == ColorContrastLabel && checks[4] == UnitBoxColorContrast;
    Report(checks, false)
  }
}
