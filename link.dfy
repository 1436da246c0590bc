/** The link audit (Atoms/Link/Link.accessibility.js): a text and a programmatic description,
    the target size of block links, and the contrast of the link colours and the focus
    outline. */
module Link {
  import opened Js
  import opened Dom
  import opened Wcag
  import opened ColorContrastChecker
  import opened Accessibility
  import opened Audit

  /** `checkLinkText(component)`: the text content must be non-empty. */
  function CheckLinkText(c: Component): (ok: bool)
    ensures ok <==> |c.root.text| > 0
  {
    if c.root.text == "" then false else true
  }

  /** `checkLinkDescription(component)`: the first `a` needs a non-empty `aria-label` or
      `aria-labelledby`. With no `a` inside, reading its attribute throws. */
  function CheckLinkDescription(c: Component): (r: Outcome<bool>)
    ensures r.Threw? <==> QueryAll(c, "a") == []
    ensures r == Returned(true) <==>
      QueryAll(c, "a") != [] &&
      (Truthy(Attr(QueryAll(c, "a")[0], "aria-label")) || Truthy(Attr(QueryAll(c, "a")[0], "aria-labelledby")))
  {
    match Query(c, "a")
    case None => Threw
    case Some(a) =>
      var ariaLabel := Attr(a, "aria-label");
      var ariaLabelledBy := Attr(a, "aria-labelledby");
      Returned(!(!Truthy(ariaLabel) && !Truthy(ariaLabelledBy)))
  }

  /** `checkLinkColorContrast(component)`: the link, hover and visited colours of every `a`, each
      at 7:1 against the background. */
  function CheckLinkColorContrast(lib: ColorLibrary, c: Component): (ok: bool)
    ensures ok <==> forall e :: e in QueryAll(c, "a") ==>
      && Meets(Pair(lib, e, "--link-color", "--bg-color"), EnhancedContrast)
      && Meets(Pair(lib, e, "--link-color-hover", "--bg-color"), EnhancedContrast)
      && Meets(Pair(lib, e, "--link-color-visited", "--bg-color"), EnhancedContrast)
  {
    assert Selected(c, Some("a")) == QueryAll(c, "a");
    ColorContrastHolds(lib, c, "--link-color", "--bg-color", Some("a"), EnhancedContrast) &&
    ColorContrastHolds(lib, c, "--link-color-hover", "--bg-color", Some("a"), EnhancedContrast) &&
    ColorContrastHolds(lib, c, "--link-color-visited", "--bg-color", Some("a"), EnhancedContrast)
  }

  /** `checkOutlineColorContrast(component)`: the outline of every `a` at 3:1 against the
      background. */
  function CheckOutlineColorContrast(lib: ColorLibrary, c: Component): (ok: bool)
    ensures ok <==> forall e :: e in QueryAll(c, "a") ==> Meets(Pair(lib, e, "--outline-color", "--bg-color"), NonTextContrast)
  {
    assert Selected(c, Some("a")) == QueryAll(c, "a");
    ColorContrastHolds(lib, c, "--outline-color", "--bg-color", Some("a"), NonTextContrast)
  }

  /** The checks `checkLinkAccessibility` runs. */
  datatype Check = LinkText | LinkDescription | InputSize(selector: string) | LinkColorContrast | OutlineColorContrast

  /** `checkLinkAccessibility(component, inline)`: text, description (whose exception ends the
      audit), the target size of the `a` elements only for a link that is not inline, then the
      colour and outline contrast. */
  function CheckLinkAccessibility(c: Component, inline: Option<bool>): (r: Report<Check>)
    ensures |r.checks| > 0 && r.checks[0] == LinkText
    ensures r.aborted <==> QueryAll(c, "a") == []
    ensures InputSize("a") in r.checks <==> !r.aborted && !TruthyFlag(inline)
    ensures LinkDescription in r.checks <==> !r.aborted
    ensures LinkColorContrast in r.checks <==> !r.aborted
    ensures OutlineColorContrast in r.checks <==> !r.aborted
    ensures !r.aborted ==> r.checks[1] == LinkDescription && r.checks[|r.checks| - 2..] == [LinkColorContrast, OutlineColorContrast]
  {
    match CheckLinkDescription(c)
    case Threw => Report([LinkText], true)
    case Returned(_) =>
      var size := if !TruthyFlag(inline) then [InputSize("a")] else [];
      Report([LinkText, LinkDescription] + size + [LinkColorContrast, OutlineColorContrast], false)
  }
}
