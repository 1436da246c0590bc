/** The text-image audit (Molecules/TextImage/TextImage.accessibility.js): an alternative text
    for the image, and the contrast of the text sections (`MediaText.CheckFontColorContrast`)
    and of the text laid over the full-size image. */
module TextImage {
  import opened Js
  import opened Dom
  import opened Wcag
  import opened ColorContrastChecker
  import opened Accessibility
  import opened Audit

  /** `checkAltTag(component)`: the `alt` of the first `img` must be set and non-empty. With no
      `img` inside, `querySelector` returns `null` and reading its attribute throws. */
  function CheckAltTag(c: Component): (r: Outcome<bool>)
    ensures r.Threw? <==> QueryAll(c, "img") == []
    ensures r == Returned(false) <==>
      QueryAll(c, "img") != [] && (Attr(QueryAll(c, "img")[0], "alt") == None || Attr(QueryAll(c, "img")[0], "alt") == Some(""))
  {
    match Query(c, "img")
    case None => Threw
    case Some(img) => if !Truthy(Attr(img, "alt")) then Returned(false) else Returned(true)
  }

  /** `checkFullImageFontColorContrast(component)`: the text over the full image against its
      outline, on every `.text-section`, at the maximum ratio 21. */
  function CheckFullImageFontColorContrast(lib: ColorLibrary, c: Component): (ok: bool)
    ensures ok <==> forall e :: e in QueryAll(c, ".text-section") ==>
      Meets(Pair(lib, e, "--full-image-font", "--full-image-font-outline"), MaximumContrast)
  {
    assert Selected(c, Some(".text-section")) == QueryAll(c, ".text-section");
    ColorContrastHolds(lib, c, "--full-image-font", "--full-image-font-outline", Some(".text-section"), MaximumContrast)
  }

  /** The checks `checkTextImageAccessibility` runs. */
  datatype Check = AltTag | FontColorContrast | FullImageFontColorContrast

  /** `checkTextImageAccessibility(component)`: the alt text (whose exception ends the audit),
      then the normal and the full-image font contrast. */
  function CheckTextImageAccessibility(c: Component): (r: Report<Check>)
    ensures |r.checks| > 0 && r.checks[0] == AltTag
    ensures r.aborted <==> QueryAll(c, "img") == []
    ensures FontColorContrast in r.checks <==> !r.aborted
    ensures FullImageFontColorContrast in r.checks <==> !r.aborted
  {
    match CheckAltTag(c)
    case Threw => Report([AltTag], true)
    case Returned(_) => Report([AltTag, FontColorContrast, FullImageFontColorContrast], false)
  }
}
