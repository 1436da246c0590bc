/** The button audit (Atoms/Button/Button.accessibility.js): target size, a text or an
    `aria-label`, and the contrast of the theme the button is drawn in. */
module Button {
  import opened Js
  import opened Dom
  import opened Wcag
  import opened ColorContrastChecker
  import opened Accessibility
  import opened FormControls
  import opened Audit

  /** `checkButtonText(component)`: the component's text content, or else the `aria-label` of
      its first `button`, must be non-empty. With no `button` inside, `querySelector` returns
      `null` and reading its attribute throws, whatever the text. */
  function CheckButtonText(c: Component): (r: Outcome<bool>)
    ensures r.Threw? <==> QueryAll(c, "button") == []
    ensures r == Returned(false) <==>
      QueryAll(c, "button") != [] && c.root.text == "" && !Truthy(Attr(QueryAll(c, "button")[0], "aria-label"))
  {
    match Query(c, "button")
    case None => Threw
    case Some(button) =>
      var text := c.root.text;
      var ariaLabel := Attr(button, "aria-label");
      Returned(!(text == "" && !Truthy(ariaLabel)))
  }

  /** A visible text is enough: the `aria-label` only matters when the text is empty. */
  lemma TextMakesLabelOptional(c: Component)
    requires QueryAll(c, "button") != [] && c.root.text != ""
    ensures CheckButtonText(c) == Returned(true)
  {
  }

  /** The button themes the `switch` tells apart. */
  datatype Theme = Primary | Secondary | Default

  /** `switch (theme)`: strict comparison with `'primary'` and `'secondary'`; anything else,
      an unset theme included, falls to the default. */
  function ThemeOf(theme: Option<string>): (t: Theme)
    ensures t == Primary <==> theme == Some("primary")
    ensures t == Secondary <==> theme == Some("secondary")
  {
    if theme == Some("primary") then Primary
    else if theme == Some("secondary") then Secondary
    else Default
  }

  /** The normal-state colours of a theme and the selector of its buttons. */
  function ThemeColors(t: Theme): InputColors
  {
    match t
    case Primary => InputColors("--primary-color", "--bg-color", "--primary-bg", "--primary-border-color", "--outline-color", None)
    case Secondary => InputColors("--secondary-color", "--bg-color", "--secondary-bg", "--secondary-border-color", "--outline-color", None)
    case Default => InputColors("--input-color", "--bg-color", "--input-bg", "--input-border-color", "--outline-color", None)
  }

  /** The hover-state colours of a theme. */
  function ThemeHoverColors(t: Theme): InputColors
  {
    match t
    case Primary => InputColors("--primary-color-hover", "--bg-color", "--primary-bg-hover", "--primary-border-color", "--outline-color", None)
    case Secondary => InputColors("--secondary-color-hover", "--bg-color", "--secondary-bg-hover", "--secondary-border-color", "--outline-color", None)
    case Default => InputColors("--input-color-hover", "--bg-color", "--input-bg-hover", "--input-border-color", "--outline-color", None)
  }

  function ThemeSelector(t: Theme): string
  {
    match t
    case Primary => ".primary"
    case Secondary => ".secondary"
    case Default => ".default"
  }

  /** `checkButtonPrimaryColorContrast`, `checkButtonSecondaryColorContrast` and
      `checkButtonDefaultColorContrast`: the input rule without error highlight, in the normal
      AND the hover colours of the theme, at the engine's default ratios 3 and 7. Every button of
      the theme then keeps its text at 7:1 against its own background in both states, and a
      border never replaces that. */
  function CheckThemeColorContrast(lib: ColorLibrary, c: Component, t: Theme): (ok: bool)
    ensures ok <==>
      InputContrastHolds(lib, c, ThemeColors(t), ThemeSelector(t), false, NonTextContrast, EnhancedContrast) &&
      InputContrastHolds(lib, c, ThemeHoverColors(t), ThemeSelector(t), false, NonTextContrast, EnhancedContrast)
    ensures ok ==> forall e :: e in QueryAll(c, ThemeSelector(t)) ==>
      && Meets(Pair(lib, e, ThemeColors(t).font, ThemeColors(t).inputBackground), EnhancedContrast)
      && Meets(Pair(lib, e, ThemeHoverColors(t).font, ThemeHoverColors(t).inputBackground), EnhancedContrast)
      && Meets(Pair(lib, e, "--outline-color", "--bg-color"), NonTextContrast)
  {
    TwoStateContrast(lib, c, ThemeColors(t), ThemeHoverColors(t), ThemeSelector(t), EnhancedContrast)
  }

  /** The checks `checkButtonAccessibility` runs. */
  datatype Check = InputSize(selector: string) | ButtonText | ThemeColorContrast(theme: Theme)

  /** `checkButtonAccessibility(component, theme)`: the target size of the `button` elements,
      the text check (whose exception ends the audit), then the contrast check of exactly one
      theme. */
  function CheckButtonAccessibility(c: Component, theme: Option<string>): (r: Report<Check>)
    ensures |r.checks| > 0 && r.checks[0] == InputSize("button")
    ensures r.aborted <==> QueryAll(c, "button") == []
    ensures forall t: Theme :: ThemeColorContrast(t) in r.checks <==> !r.aborted && t == ThemeOf(theme)
    ensures ButtonText in r.checks <==> !r.aborted
    ensures !r.aborted ==> RanBefore(r, ButtonText, ThemeColorContrast(ThemeOf(theme)))
  {
    match CheckButtonText(c)
    case Threw => Report([InputSize("button")], true)
    case Returned(_) => Report([InputSize("button"), ButtonText, ThemeColorContrast(ThemeOf(theme))], false)
  }
}
