/** The multi-select audit (Atoms/MultiSelect/MultiSelect.accessible.js): no autocomplete turned
    off anywhere inside the component, and the contrast of the input, the option menu, the
    selected-option chips, the labels and the error messages. */
module MultiSelect {
  import opened Js
  import opened Dom
  import opened Wcag
  import opened ColorContrastChecker
  import opened Accessibility
  import opened FormControls
  import opened Audit

  /** The elements of `els` that carry the attribute, in order. */
  function WithAttribute(els: seq<Element>, attribute: string): seq<Element>
  {
    if els == [] then []
    else WithAttribute(els[..|els| - 1], attribute) + (if Attr(els[|els| - 1], attribute).Some? then [els[|els| - 1]] else [])
  }

  /** An element is collected exactly when it is one of `els` and carries the attribute, with
      whatever value, the empty one included. */
  lemma {:induction false} WithAttributeMembers(els: seq<Element>, attribute: string)
    ensures forall e :: e in WithAttribute(els, attribute) <==> e in els && Attr(e, attribute).Some?
    ensures |WithAttribute(els, attribute)| <= |els|
  {
    if els != [] {
      var init := els[..|els| - 1];
      WithAttributeMembers(init, attribute);
      assert els == init + [els[|els| - 1]];
    }
  }

  /** `getAllElementsWithAttribute(attribute, component)`: every descendant
      (`getElementsByTagName('*')`) whose `getAttribute(attribute)` is not `null`, pushed in
      document order. */
  method GetAllElementsWithAttribute(attribute: string, c: Component) returns (matching: seq<Element>)
    ensures matching == WithAttribute(QueryAll(c, "*"), attribute)
    ensures forall e :: e in matching <==> e in QueryAll(c, "*") && Attr(e, attribute).Some?
  {
    matching := [];
    var allElements := QueryAll(c, "*");
    var i := 0;
    while i < |allElements|
      invariant 0 <= i <= |allElements|
      invariant matching == WithAttribute(allElements[..i], attribute)
    {
      if Attr(allElements[i], attribute) != None {
        matching := matching + [allElements[i]];
      }
      assert allElements[..i + 1][..i] == allElements[..i];
      i := i + 1;
    }
    assert allElements[..i] == allElements;
    WithAttributeMembers(allElements, attribute);
  }

  /** No descendant has `autocomplete` set to exactly `'off'`. */
  predicate AutocompleteNeverOff(c: Component)
  {
    forall e :: e in QueryAll(c, "*") ==> Attr(e, "autocomplete") != Some("off")
  }

  /** `checkAutocomplete(component)`: it scans the elements that carry `autocomplete` and stops at
      the first whose value is `'off'`. Restricting the scan to those elements changes nothing,
      since an element without the attribute cannot hold `'off'`. */
  method CheckAutocomplete(c: Component) returns (ok: bool)
    ensures ok <==> AutocompleteNeverOff(c)
  {
    var elements := GetAllElementsWithAttribute("autocomplete", c);
    var i := 0;
    while i < |elements|
      invariant 0 <= i <= |elements|
      invariant forall j :: 0 <= j < i ==> Attr(elements[j], "autocomplete") != Some("off")
    {
      if Attr(elements[i], "autocomplete") == Some("off") {
        assert elements[i] in QueryAll(c, "*");
        return false;
      }
      i := i + 1;
    }
    forall e | e in QueryAll(c, "*") && Attr(e, "autocomplete").Some?
      ensures Attr(e, "autocomplete") != Some("off")
    {
      assert e in elements;
      var j :| 0 <= j < |elements| && elements[j] == e;
    }
    return true;
  }

  /** `checkColorContrastComboMenu`: the options in their normal and hover colours, at the
      default ratios 3 and 7. */
  function CheckColorContrastComboMenu(lib: ColorLibrary, c: Component): (ok: bool)
    ensures ok <==> TwoStateContrast(lib, c, FieldColors.(errorHighlight := None), FieldHoverColors, ".combo-option", EnhancedContrast)
    ensures ok ==> forall e :: e in QueryAll(c, ".combo-option") ==>
      Meets(Pair(lib, e, "--input-color", "--input-bg"), EnhancedContrast) &&
      Meets(Pair(lib, e, "--input-color-hover", "--input-bg-hover"), EnhancedContrast)
  {
    FormControls.CheckColorContrastComboMenu(lib, c, EnhancedContrast)
  }

  const SelectedColors: InputColors := InputColors(
    "--primary-color", "--bg-color", "--primary-bg", "--primary-border-color", "--outline-color", None)
  const SelectedHoverColors: InputColors := InputColors(
    "--primary-color-hover", "--bg-color", "--primary-bg-hover", "--primary-border-color", "--outline-color", None)

  /** `checkColorContrastSelectedOptions`: the `.remove-option` chips in the primary colours,
      normal and hover, at the default ratios 3 and 7. */
  function CheckColorContrastSelectedOptions(lib: ColorLibrary, c: Component): (ok: bool)
    ensures ok <==>
      InputContrastHolds(lib, c, SelectedColors, ".remove-option", false, NonTextContrast, EnhancedContrast) &&
      InputContrastHolds(lib, c, SelectedHoverColors, ".remove-option", false, NonTextContrast, EnhancedContrast)
    ensures ok ==> forall e :: e in QueryAll(c, ".remove-option") ==>
      Meets(Pair(lib, e, "--primary-color", "--primary-bg"), EnhancedContrast) &&
      Meets(Pair(lib, e, "--primary-color-hover", "--primary-bg-hover"), EnhancedContrast)
  {
    TwoStateContrast(lib, c, SelectedColors, SelectedHoverColors, ".remove-option", EnhancedContrast)
  }

  /** The checks `checkMultiSelectAccessibility` runs. */
  datatype Check = InputSize(selector: string) | Autocomplete | ColorContrastInput | ColorContrastComboMenu
                 | ColorContrastLabel | InputErrorColorContrast | ColorContrastSelectedOptions

  /** `checkMultiSelectAccessibility(component)`: the target size of the `input` elements (the
      engine's default selector), then every check once, none of which can throw. */
  function CheckMultiSelectAccessibility(): (r: Report<Check>)
    ensures !r.aborted
    ensures forall k: Check :: !k.InputSize? ==> k in r.checks
    ensures |r.checks| == 7 && r.checks[0] == InputSize("input")
  {
    var checks := [InputSize("input"), Autocomplete, ColorContrastInput, ColorContrastComboMenu,
                   ColorContrastLabel, InputErrorColorContrast, ColorContrastSelectedOptions];
    EveryCheckListed(checks);
    Report(checks, false)
  }

  /** Every check other than the size check has a place in a list that names the seven in
      order. */
  lemma EveryCheckListed(checks: seq<Check>)
    requires checks == [InputSize("input"), Autocomplete, ColorContrastInput, ColorContrastComboMenu,
                        ColorContrastLabel, InputErrorColorContrast, ColorContrastSelectedOptions]
    ensures forall k: Check :: !k.InputSize? ==> k in checks
  {
    forall k: Check | !k.InputSize? ensures k in checks {
      match k
      case Autocomplete => assert checks[1] == k;
      case ColorContrastInput => assert checks[2] == k;
      case ColorContrastComboMenu => assert checks[3] == k;
      case ColorContrastLabel => assert checks[4] == k;
      case InputErrorColorContrast => assert checks[5] == k;
      case ColorContrastSelectedOptions => assert checks[6] == k;
    }
  }
}
