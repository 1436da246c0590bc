/** The custom-select audit (Atoms/CustomSelectInput/CustomSelectInput.accessible.js): the target
    size of its combo input and the contrast of that input, of its option menu, of its labels and
    of its error messages. Text here is held to the 4.5:1 minimum, not to the 7:1 of the other
    fields. */
module CustomSelectInput {
  import opened Js
  import opened Dom
  import opened Wcag
  import opened ColorContrastChecker
  import opened Accessibility
  import opened FormControls
  import opened Audit

  /** `checkColorContrastInput`: the text-field table on `.combo-input`, with the error
      highlight, at the non-text ratio 3 and the font ratio 4.5. */
  function CheckColorContrastInput(lib: ColorLibrary, c: Component): (ok: bool)
    ensures ok <==> InputContrastHolds(lib, c, FieldColors, ".combo-input", true, NonTextContrast, MinimumContrast)
    ensures ok ==> forall e :: e in QueryAll(c, ".combo-input") ==>
      && Meets(Pair(lib, e, "--input-color", "--input-bg"), MinimumContrast)
      && Meets(Pair(lib, e, "--input-color", "--input-error-highlight"), MinimumContrast)
      && Meets(Pair(lib, e, "--outline-color", "--bg-color"), NonTextContrast)
  {
    FormControls.CheckColorContrastInput(lib, c, ".combo-input", MinimumContrast)
  }

  /** `checkColorContrastComboMenu`: the options in their normal and hover colours, at 3 and 4.5.
      A menu that passes the multi-select's 7:1 rule passes this one. */
  function CheckColorContrastComboMenu(lib: ColorLibrary, c: Component): (ok: bool)
    ensures ok <==> TwoStateContrast(lib, c, FieldColors.(errorHighlight := None), FieldHoverColors, ".combo-option", MinimumContrast)
    ensures ok ==> forall e :: e in QueryAll(c, ".combo-option") ==>
      && Meets(Pair(lib, e, "--input-color", "--input-bg"), MinimumContrast)
      && Meets(Pair(lib, e, "--input-color-hover", "--input-bg-hover"), MinimumContrast)
    ensures FormControls.CheckColorContrastComboMenu(lib, c, EnhancedContrast) ==> ok
  {
    ComboMenuMonotone(lib, c, EnhancedContrast, MinimumContrast);
    FormControls.CheckColorContrastComboMenu(lib, c, MinimumContrast)
  }

  /** The checks `checkCustomSelectAccessibility` runs. */
  datatype Check = InputSize(selector: string) | ColorContrastInput | ColorContrastComboMenu
                 | ColorContrastLabel | InputErrorColorContrast

  /** `checkCustomSelectAccessibility(component)`: the size check on `.combo-input`, then the four
      contrast checks, none of which can throw. */
  function CheckCustomSelectAccessibility(): (r: Report<Check>)
    ensures !r.aborted && |r.checks| == 5 && r.checks[0] == InputSize(".combo-input")
    ensures RanBefore(r, Check.ColorContrastInput, Check.ColorContrastComboMenu)
    ensures RanBefore(r, ColorContrastLabel, InputErrorColorContrast)
  {
    var checks := [InputSize(".combo-input"), Check.ColorContrastInput, Check.ColorContrastComboMenu,
                   ColorContrastLabel, InputErrorColorContrast];
    assert checks[1] == Check.ColorContrastInput && checks[2] == Check.ColorContrastComboMenu;
    assert checks[3] == ColorContrastLabel && checks[4] == InputErrorColorContrast;
    Report(checks, false)
  }
}
