/** The modal audit (Molecules/Modal/Modal.accessibility.js): the border of the modal against the
    page background. */
module Modal {
  import opened Js
  import opened Dom
  import opened Wcag
  import opened ColorContrastChecker
  import opened Accessibility
  import opened Audit

  /** `checkColorContrastModal(component)`: the engine's plain check with a `null` selector, so
      only the component element itself is inspected, at the maximum ratio 21. */
  function CheckColorContrastModal(lib: ColorLibrary, c: Component): (ok: bool)
    ensures ok <==> Meets(Pair(lib, c.root, "--modal-border-color", "--bg-color"), MaximumContrast)
  {
    assert Selected(c, None) == [c.root];
    assert c.root in Selected(c, None);
    var ok := ColorContrastHolds(lib, c, "--modal-border-color", "--bg-color", None, MaximumContrast);
    assert ok <==> ColorContrastForElement(lib, "--modal-border-color", "--bg-color", c.root, MaximumContrast);
    ok
  }

  /** No descendant matters: two modals with the same root element get the same verdict. */
  lemma ModalIgnoresDescendants(lib: ColorLibrary, c: Component, c': Component)
    requires c.root == c'.root
    ensures CheckColorContrastModal(lib, c) == CheckColorContrastModal(lib, c')
  {
  }

  /** The checks `checkModalAccessibility` runs. */
  datatype Check = ColorContrastModal

  /** `checkModalAccessibility(component)`: the border contrast alone, which cannot throw. */
  function CheckModalAccessibility(): (r: Report<Check>)
    ensures !r.aborted && r.checks == [ColorContrastModal]
  {
    Report([ColorContrastModal], false)
  }
}
