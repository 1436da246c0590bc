/** The text check TextVideo and TextImage each define with the same body: the font colour of
    their text sections. */
module MediaText {
  import opened Js
  import opened Dom
  import opened Wcag
  import opened ColorContrastChecker
  import opened Accessibility

  /** `checkFontColorContrast(component)`: the font colour of every `.text-section` against the
      background, at 7:1. */
  function CheckFontColorContrast(lib: ColorLibrary, c: Component): (ok: bool)
    ensures ok <==> forall e :: e in QueryAll(c, ".text-section") ==> Meets(Pair(lib, e, "--font-color", "--bg-color"), EnhancedContrast)
  {
    assert Selected(c, Some(".text-section")) == QueryAll(c, ".text-section");
    ColorContrastHolds(lib, c, "--font-color", "--bg-color", Some(".text-section"), EnhancedContrast)
  }
}
