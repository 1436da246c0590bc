/** The text audit (Atoms/Text/Text.accessibility.js): no justified text (WCAG 2.1 Success
    Criterion 1.4.8, Visual Presentation), enhanced text contrast, and for easy-language text a
    relative font size of at least 1.2em, left alignment and `pre-line` white space. */
module Text {
  import opened Js
  import opened Dom
  import opened NumericTokens
  import opened Wcag
  import opened ColorContrastChecker
  import opened Accessibility
  import opened Audit

  /** 120% of the reader's base font size, in `em`. */
  const MinimumFontSize: real := 1.2

  /** `checkFontSizeForElement(elem)`: the number read out of `--font-size` must be truthy, the
      raw value must contain `'em'` (which `'rem'` does too), and the number must reach 1.2.
      The `try` guards nothing that can throw, since the value is always a string. */
  function CheckFontSizeForElement(e: Element): (ok: bool)
    ensures ok <==>
      && Includes(Style(e, "--font-size"), "em")
      && NumberOfMatches(Style(e, "--font-size")).Num?
      && NumberOfMatches(Style(e, "--font-size")).value >= MinimumFontSize
  {
    var fontSize := Style(e, "--font-size");
    var parsedFontSize := NumberOfMatches(fontSize);
    if IsFalsy(parsedFontSize) then false
    else if !Includes(fontSize, "em") then false
    else if LessThan(parsedFontSize, MinimumFontSize) then false
    else true
  }

  /** A value without a digit (an unset one among them) fails, whatever its unit. */
  lemma FontSizeWithoutDigitFails(e: Element)
    requires forall k :: 0 <= k < |Style(e, "--font-size")| ==> !IsDigit(Style(e, "--font-size")[k])
    ensures !CheckFontSizeForElement(e)
  {
    NoDigitIsNaN(Style(e, "--font-size"), 0);
  }

  /** `'1.2rem'` reads as 1.2. */
  lemma OnThresholdValue(v: string)
    requires v == "1.2rem"
    ensures NumberOfMatches(v) == Num(1.2)
  {
    var one, two := "1", "2";
    assert DigitsValue(one) == 1 && DigitsValue(two) == 2 && Pow10(1) == 10;
    assert v == one + "." + two + "rem";
    DecimalWithUnit(one, two, "rem");
  }

  /** `'1.1em'` reads as 1.1. */
  lemma BelowThresholdValue(v: string)
    requires v == "1.1em"
    ensures NumberOfMatches(v) == Num(1.1)
  {
    var one := "1";
    assert DigitsValue(one) == 1 && Pow10(1) == 10;
    assert v == one + "." + one + "em";
    DecimalWithUnit(one, one, "em");
  }

  /** A font size of `'1.2rem'` sits exactly on the threshold and passes; `'1.1em'` fails. */
  lemma FontSizeVerdicts(e: Element, e': Element)
    requires Style(e, "--font-size") == "1.2rem"
    requires Style(e', "--font-size") == "1.1em"
    ensures CheckFontSizeForElement(e)
    ensures !CheckFontSizeForElement(e')
  {
    OnThresholdValue(Style(e, "--font-size"));
    BelowThresholdValue(Style(e', "--font-size"));
    RemPassesUnitTest("1.2");
    assert "1.2" + "rem" == "1.2rem";
  }

  /** The unit test is a substring test: a value in `rem` passes it as well as one in `em`. */
  lemma RemPassesUnitTest(t: string)
    ensures Includes(t + "rem", "em")
  {
    var s := t + "rem";
    assert s[|t| + 1..|t| + 3] == "em";
    assert OccursAt(s, "em", |t| + 1);
    IndexOfSpec(s, "em", 0);
  }

  /** `checkAlignmentForElement(elem)`: `--text-align` must not be `'justified'`. */
  predicate CheckAlignmentForElement(e: Element)
  {
    Style(e, "--text-align") != "justified"
  }

  /** `checkAlignmentForEasyLangaugeForElement(elem)`: `text-align` must be exactly `'left'`. */
  predicate CheckAlignmentForEasyLanguageForElement(e: Element)
  {
    Style(e, "text-align") == "left"
  }

  /** `checkWhiteSpaceForElement(elem)`: `white-space` must be exactly `'pre-line'`. */
  predicate CheckWhiteSpaceForElement(e: Element)
  {
    Style(e, "white-space") == "pre-line"
  }

  /** The component itself and the easy-language nodes inside it. */
  function EasyLanguageScope(c: Component): seq<Element>
  {
    [c.root] + QueryAll(c, ".easyLanguage")
  }

  /** The component itself and all of its descendants. */
  function WholeScope(c: Component): seq<Element>
  {
    [c.root] + QueryAll(c, "*")
  }

  /** The loop the text aggregators share: `success` starts as the verdict on the component
      itself, and every node is then checked, with no early exit. */
  method CheckRootAndNodes(root: Element, nodes: seq<Element>, rule: Element -> bool) returns (success: bool)
    ensures success <==> rule(root) && forall e :: e in nodes ==> rule(e)
    ensures success <==> forall e :: e in [root] + nodes ==> rule(e)
  {
    success := rule(root);
    var nodesOk, failed := CheckEvery(nodes, rule);
    success := success && nodesOk;
    assert forall e :: e in [root] + nodes <==> e == root || e in nodes;
  }

  predicate FontSizeHolds(c: Component)
  {
    forall e :: e in EasyLanguageScope(c) ==> CheckFontSizeForElement(e)
  }

  /** `checkFontSize(component)`: the component and every `.easyLanguage` node. */
  method CheckFontSize(c: Component) returns (success: bool)
    ensures success <==> FontSizeHolds(c)
  {
    success := CheckRootAndNodes(c.root, QueryAll(c, ".easyLanguage"), CheckFontSizeForElement);
  }

  predicate AlignmentHolds(c: Component)
  {
    forall e :: e in WholeScope(c) ==> CheckAlignmentForElement(e)
  }

  /** `checkAlignment(component)`: the component and every descendant. */
  method CheckAlignment(c: Component) returns (success: bool)
    ensures success <==> AlignmentHolds(c)
    ensures success <==> forall e :: e in WholeScope(c) ==> Style(e, "--text-align") != "justified"
  {
    success := CheckRootAndNodes(c.root, QueryAll(c, "*"), CheckAlignmentForElement);
  }

  predicate AlignmentForEasyLanguageHolds(c: Component)
  {
    forall e :: e in EasyLanguageScope(c) ==> CheckAlignmentForEasyLanguageForElement(e)
  }

  /** `checkAlignmentForEasyLangauge(component)`: the component and every `.easyLanguage` node. */
  method CheckAlignmentForEasyLanguage(c: Component) returns (success: bool)
    ensures success <==> AlignmentForEasyLanguageHolds(c)
    ensures success <==> forall e :: e in EasyLanguageScope(c) ==> Style(e, "text-align") == "left"
  {
    success := CheckRootAndNodes(c.root, QueryAll(c, ".easyLanguage"), CheckAlignmentForEasyLanguageForElement);
  }

  predicate WhiteSpaceHolds(c: Component)
  {
    forall e :: e in QueryAll(c, ".easyLanguage") ==> CheckWhiteSpaceForElement(e)
  }

  /** `checkWhiteSpace(component)`: unlike the other three, `success` starts as `true`, so the
      component itself is not checked, only the `.easyLanguage` nodes. */
  method CheckWhiteSpace(c: Component) returns (success: bool)
    ensures success <==> WhiteSpaceHolds(c)
    ensures success <==> forall e :: e in QueryAll(c, ".easyLanguage") ==> Style(e, "white-space") == "pre-line"
  {
    success := true;
    var nodes := QueryAll(c, ".easyLanguage");
    var i := 0;
    while i < |nodes|
      invariant 0 <= i <= |nodes|
      invariant success <==> forall j :: 0 <= j < i ==> CheckWhiteSpaceForElement(nodes[j])
    {
      if !CheckWhiteSpaceForElement(nodes[i]) {
        success := false;
      }
      i := i + 1;
    }
    assert forall e :: e in nodes ==> exists j :: 0 <= j < |nodes| && nodes[j] == e;
  }

  /** The component's own white space never matters, whereas its own alignment does. */
  lemma WhiteSpaceIgnoresRoot(c: Component, root: Element)
    ensures WhiteSpaceHolds(c) == WhiteSpaceHolds(c.(root := root))
    ensures !CheckAlignmentForEasyLanguageForElement(root) ==> !AlignmentForEasyLanguageHolds(c.(root := root))
  {
    assert root in EasyLanguageScope(c.(root := root));
  }

  /** The font-contrast step of `checkTextAccessibility`: `checkColorContrast` with the engine's
      default ratio 7 over the selector `'*'`, that is over every descendant of the component and
      not the component itself. */
  function CheckFontColorContrast(lib: ColorLibrary, c: Component): (ok: bool)
    ensures ok <==> forall e :: e in QueryAll(c, "*") ==> Meets(Pair(lib, e, "--font-color", "--bg-color"), EnhancedContrast)
  {
    assert Selected(c, Some("*")) == QueryAll(c, "*");
    ColorContrastHolds(lib, c, "--font-color", "--bg-color", Some("*"), EnhancedContrast)
  }

  /** The checks `checkTextAccessibility` runs. */
  datatype Check = FontSize | AlignmentForEasyLanguage | WhiteSpace | Alignment | ColorContrast

  /** `checkTextAccessibility(component, easyLanguage)`: the three easy-language checks only
      when `easyLanguage` is truthy, then always the alignment and the font contrast at ratio 7
      over every descendant (`ColorContrastHolds` over `'*'`). */
  function CheckTextAccessibility(easyLanguage: Option<bool>): (r: Report<Check>)
    ensures !r.aborted
    ensures FontSize in r.checks <==> TruthyFlag(easyLanguage)
    ensures WhiteSpace in r.checks <==> TruthyFlag(easyLanguage)
    ensures AlignmentForEasyLanguage in r.checks <==> TruthyFlag(easyLanguage)
    ensures |r.checks| >= 2 && r.checks[|r.checks| - 2..] == [Alignment, ColorContrast]
    ensures TruthyFlag(easyLanguage) ==> r.checks[..3] == [FontSize, AlignmentForEasyLanguage, WhiteSpace]
  {
    var easy := if TruthyFlag(easyLanguage) then [FontSize, AlignmentForEasyLanguage, WhiteSpace] else [];
    Report(easy + [Alignment, ColorContrast], false)
  }
}
