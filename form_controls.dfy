/** The checks that the input widgets (TextInput, SelectInput, NumericInput, BooleanInput,
    TextManipulator, MultiSelect, CustomSelectInput, Form) each define in their own file with the
    same body: the visible-label and autocomplete props, and the label, error-message,
    input-field and two-state colour tables they hand to the threshold engine. */
module FormControls {
  import opened Js
  import opened Dom
  import opened Wcag
  import opened ColorContrastChecker
  import opened Accessibility

  /** What `checkIfLabelIsVisible(component, showLabel)` returns and whether it logs an error. */
  datatype LabelVisibility = LabelVisibility(returned: Option<bool>, logged: bool)

  /** `checkIfLabelIsVisible`: `showLabel` comes back as given, not coerced to a boolean, and
      the error is logged whenever it is not strictly `true`, so the returned value is truthy
      exactly when nothing was logged. */
  function CheckIfLabelIsVisible(showLabel: Option<bool>): (r: LabelVisibility)
    ensures r.returned == showLabel
    ensures r.logged <==> !TruthyFlag(r.returned)
  {
    LabelVisibility(showLabel, showLabel != Some(true))
  }

  /** `checkIfAutocompleteIsOff(component, autocomplete)`: `autocomplete != 'off'`. An unset
      prop is allowed; only the exact value `'off'` fails. */
  function CheckIfAutocompleteIsOff(autocomplete: Option<string>): (ok: bool)
    ensures autocomplete.None? ==> ok
    ensures !ok <==> autocomplete == Some("off")
  {
    !(autocomplete.Some? && autocomplete.value == "off")
  }

  /** `checkColorContrastLabel` / `checkLabelColorContrast`: the font colour of every `label`
      against the background, at the engine's default ratio 7. */
  function CheckColorContrastLabel(lib: ColorLibrary, c: Component): (ok: bool)
    ensures ok <==> forall e :: e in QueryAll(c, "label") ==> Meets(Pair(lib, e, "--font-color", "--bg-color"), EnhancedContrast)
  {
    assert Selected(c, Some("label")) == QueryAll(c, "label");
    ColorContrastHolds(lib, c, "--font-color", "--bg-color", Some("label"), EnhancedContrast)
  }

  /** `checkInputErrorColorContrast`: the error colour of every `.errorMessage` against the
      background, at the engine's default ratio 7. */
  function CheckInputErrorColorContrast(lib: ColorLibrary, c: Component): (ok: bool)
    ensures ok <==> forall e :: e in QueryAll(c, ".errorMessage") ==> Meets(Pair(lib, e, "--input-error-color", "--bg-color"), EnhancedContrast)
  {
    assert Selected(c, Some(".errorMessage")) == QueryAll(c, ".errorMessage");
    ColorContrastHolds(lib, c, "--input-error-color", "--bg-color", Some(".errorMessage"), EnhancedContrast)
  }

  /** The colour table of a text field: input colour, page background, input background, border,
      outline and error highlight. */
  const FieldColors: InputColors := InputColors(
    "--input-color", "--bg-color", "--input-bg", "--input-border-color", "--outline-color",
    Some("--input-error-highlight"))

  /** `checkColorContrastInput` of the text fields: the input rule with the error highlight over
      `selector`, at the non-text ratio 3 and the font ratio `fontMin`. A passing field has its
      text readable against its own background and against the error highlight, and its focus
      outline visible against the page. */
  function CheckColorContrastInput(lib: ColorLibrary, c: Component, selector: string, fontMin: real): (ok: bool)
    ensures ok <==> InputContrastHolds(lib, c, FieldColors, selector, true, NonTextContrast, fontMin)
    ensures ok ==> forall e :: e in QueryAll(c, selector) ==>
      && Meets(Pair(lib, e, "--input-color", "--input-bg"), fontMin)
      && Meets(Pair(lib, e, "--input-color", "--input-error-highlight"), fontMin)
      && Meets(Pair(lib, e, "--outline-color", "--bg-color"), NonTextContrast)
  {
    InputContrastHolds(lib, c, FieldColors, selector, true, NonTextContrast, fontMin)
  }

  /** The `checkColorContrastInput` that TextInput, NumericInput, TextManipulator and MultiSelect
      each define with the same body: the text-field table on `input`, with the error highlight,
      at the engine's default ratios 3 and 7. */
  function CheckColorContrastTextField(lib: ColorLibrary, c: Component): (ok: bool)
    ensures ok <==> InputContrastHolds(lib, c, FieldColors, "input", true, NonTextContrast, EnhancedContrast)
    ensures ok ==> forall e :: e in QueryAll(c, "input") ==>
      && Meets(Pair(lib, e, "--input-color", "--input-bg"), EnhancedContrast)
      && Meets(Pair(lib, e, "--input-color", "--input-error-highlight"), EnhancedContrast)
      && Meets(Pair(lib, e, "--outline-color", "--bg-color"), NonTextContrast)
  {
    CheckColorContrastInput(lib, c, "input", EnhancedContrast)
  }

  /** Lowering the font ratio never turns a passing field into a failing one: fields that pass at
      7:1 (the text inputs) pass at 4.5:1 (the custom select). */
  lemma InputContrastMonotone(lib: ColorLibrary, c: Component, selector: string, fontMin: real, fontMin': real)
    requires fontMin' <= fontMin
    ensures CheckColorContrastInput(lib, c, selector, fontMin) ==> CheckColorContrastInput(lib, c, selector, fontMin')
  {
    forall e | e in QueryAll(c, selector)
      ensures InputContrastForElement(lib, e, FieldColors, true, NonTextContrast, fontMin) ==>
              InputContrastForElement(lib, e, FieldColors, true, NonTextContrast, fontMin')
    {
      InputThresholdsMonotone(lib, e, FieldColors, true, NonTextContrast, fontMin, NonTextContrast, fontMin');
    }
  }

  /** Two states of the same control, each checked with the input rule and no error highlight:
      the normal state AND the hover state (the hover state only runs when the normal state
      passes, which changes the log, not the verdict). Both states keep their text readable and
      the outline visible. */
  function TwoStateContrast(lib: ColorLibrary, c: Component, normal: InputColors, hover: InputColors, selector: string, fontMin: real): (ok: bool)
    ensures ok <==>
      InputContrastHolds(lib, c, normal, selector, false, NonTextContrast, fontMin) &&
      InputContrastHolds(lib, c, hover, selector, false, NonTextContrast, fontMin)
    ensures ok ==> forall e :: e in QueryAll(c, selector) ==>
      && Meets(Pair(lib, e, normal.font, normal.inputBackground), fontMin)
      && Meets(Pair(lib, e, hover.font, hover.inputBackground), fontMin)
      && Meets(Pair(lib, e, normal.outline, normal.background), NonTextContrast)
  {
    InputContrastHolds(lib, c, normal, selector, false, NonTextContrast, fontMin) &&
    InputContrastHolds(lib, c, hover, selector, false, NonTextContrast, fontMin)
  }

  /** The hover colours of the text-field table. */
  const FieldHoverColors: InputColors := InputColors(
    "--input-color-hover", "--bg-color", "--input-bg-hover", "--input-border-color", "--outline-color", None)

  /** `checkColorContrastComboMenu`: the options of a combo box in their normal and hover
      colours, on `.combo-option`, at the non-text ratio 3 and the font ratio `fontMin`. */
  function CheckColorContrastComboMenu(lib: ColorLibrary, c: Component, fontMin: real): (ok: bool)
    ensures ok <==> TwoStateContrast(lib, c, FieldColors.(errorHighlight := None), FieldHoverColors, ".combo-option", fontMin)
    ensures ok ==> forall e :: e in QueryAll(c, ".combo-option") ==>
      && Meets(Pair(lib, e, "--input-color", "--input-bg"), fontMin)
      && Meets(Pair(lib, e, "--input-color-hover", "--input-bg-hover"), fontMin)
  {
    TwoStateContrast(lib, c, FieldColors.(errorHighlight := None), FieldHoverColors, ".combo-option", fontMin)
  }

  /** The same for the option menu: a menu that passes at 7:1 (MultiSelect) passes at 4.5:1
      (CustomSelectInput). */
  lemma ComboMenuMonotone(lib: ColorLibrary, c: Component, fontMin: real, fontMin': real)
    requires fontMin' <= fontMin
    ensures CheckColorContrastComboMenu(lib, c, fontMin) ==> CheckColorContrastComboMenu(lib, c, fontMin')
  {
    var normal := FieldColors.(errorHighlight := None);
    forall e | e in QueryAll(c, ".combo-option")
      ensures InputContrastForElement(lib, e, normal, false, NonTextContrast, fontMin) ==>
              InputContrastForElement(lib, e, normal, false, NonTextContrast, fontMin')
      ensures InputContrastForElement(lib, e, FieldHoverColors, false, NonTextContrast, fontMin) ==>
              InputContrastForElement(lib, e, FieldHoverColors, false, NonTextContrast, fontMin')
    {
      InputThresholdsMonotone(lib, e, normal, false, NonTextContrast, fontMin, NonTextContrast, fontMin');
      InputThresholdsMonotone(lib, e, FieldHoverColors, false, NonTextContrast, fontMin, NonTextContrast, fontMin');
    }
  }
}
