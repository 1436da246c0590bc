/** The threshold engine (utility/accessibility.js): the touch-target size check and the colour
    contrast rules for plain text, inputs, alerts and pagination bullets. Each rule decides one
    element; each aggregator runs its rule over every selected element and reports the elements
    that failed, as the source logs one error per failing element. */
module Accessibility {
  import opened Js
  import opened Dom
  import opened NumericTokens
  import opened ColorContrastChecker
  import opened Wcag

  // ----- Target size (WCAG 2.1 Success Criterion 2.5.5) -----

  /** `value ? +value.match(/\d*\.{0,1}\d+/g)?.join('') : 0`. */
  function ParseSize(value: string): (n: JsNumber)
    ensures value == "" ==> n == Num(0.0)
    ensures value != "" && KeptFrom(value, 0) == [] ==> n == NaN
  {
    if value == "" then Num(0.0) else NumberOfMatches(value)
  }

  /** `parsedWidth < 44` is false: NaN passes. */
  predicate WidthOk(e: Element)
  {
    !LessThan(ParseSize(Style(e, "min-width")), TargetSize)
  }

  predicate HeightOk(e: Element)
  {
    !LessThan(ParseSize(Style(e, "min-height")), TargetSize)
  }

  /** A size of exactly `'44px'` meets the target. */
  lemma TargetSizeMet(v: string)
    requires v == "44px"
    ensures ParseSize(v) == Num(44.0) && !LessThan(ParseSize(v), TargetSize)
  {
    var four, digits := "4", "44";
    assert DigitsValue(four) == 4;
    assert digits[..1] == four;
    assert DigitsValue(digits) == 44;
    assert v == digits + "px";
    IntegerWithUnit(digits, "px");
  }

  /** A size of `'43.5px'` misses the target by half a pixel. */
  lemma TargetSizeMissed(v: string)
    requires v == "43.5px"
    ensures ParseSize(v) == Num(43.5) && LessThan(ParseSize(v), TargetSize)
  {
    var four, whole, five := "4", "43", "5";
    assert DigitsValue(four) == 4;
    assert whole[..1] == four;
    assert DigitsValue(whole) == 43;
    assert DigitsValue(five) == 5 && Pow10(1) == 10;
    assert v == whole + "." + five + "px";
    DecimalWithUnit(whole, five, "px");
  }

  /** The error `checkInputSize` logs before it returns false. */
  datatype SizeViolation = MinWidth(index: nat) | MinHeight(index: nat)

  /** The first element from `from` that fails `widthOk`, or else `heightOk`: the scan
      `checkInputSize` makes, with the two size tests as parameters. */
  function FirstFailure(els: seq<Element>, from: nat, widthOk: Element -> bool, heightOk: Element -> bool): (v: Option<SizeViolation>)
    requires from <= |els|
    decreases |els| - from
    ensures v.Some? ==> from <= v.value.index < |els|
  {
    if from == |els| then None
    else if !widthOk(els[from]) then Some(MinWidth(from))
    else if !heightOk(els[from]) then Some(MinHeight(from))
    else FirstFailure(els, from + 1, widthOk, heightOk)
  }

  /** The scan finds nothing iff every element from `from` on passes both tests. */
  lemma {:induction false} FirstFailureNone(els: seq<Element>, from: nat, widthOk: Element -> bool, heightOk: Element -> bool)
    requires from <= |els|
    decreases |els| - from
    ensures FirstFailure(els, from, widthOk, heightOk).None? <==>
      forall j :: from <= j < |els| ==> widthOk(els[j]) && heightOk(els[j])
  {
    if from < |els| && widthOk(els[from]) && heightOk(els[from]) {
      FirstFailureNone(els, from + 1, widthOk, heightOk);
    }
  }

  /** What the scan finds is the first element that fails, and it names the width when the width
      fails, the height only when the width passes. */
  lemma {:induction false} FirstFailureFirst(els: seq<Element>, from: nat, widthOk: Element -> bool, heightOk: Element -> bool)
    requires from <= |els|
    requires FirstFailure(els, from, widthOk, heightOk).Some?
    decreases |els| - from
    ensures var i := FirstFailure(els, from, widthOk, heightOk).value.index;
      forall j :: from <= j < i ==> widthOk(els[j]) && heightOk(els[j])
    ensures var v := FirstFailure(els, from, widthOk, heightOk).value;
      && (v.MinWidth? ==> !widthOk(els[v.index]))
      && (v.MinHeight? ==> widthOk(els[v.index]) && !heightOk(els[v.index]))
  {
    if widthOk(els[from]) && heightOk(els[from]) {
      FirstFailureFirst(els, from + 1, widthOk, heightOk);
    }
  }

  /** The first element whose width, or else whose height, is too small. */
  function FirstSizeViolation(els: seq<Element>): (v: Option<SizeViolation>)
    ensures v.Some? ==> v.value.index < |els|
  {
    FirstFailure(els, 0, WidthOk, HeightOk)
  }

  /** There is no violation iff every element is large enough; a violation names the first
      element that is not, and says width when its width is too small, height only when its
      width is large enough. */
  lemma FirstSizeViolationSpec(els: seq<Element>)
    ensures FirstSizeViolation(els).None? <==> forall j :: 0 <= j < |els| ==> WidthOk(els[j]) && HeightOk(els[j])
    ensures var v := FirstSizeViolation(els);
      v.Some? ==>
        && (forall j :: 0 <= j < v.value.index ==> WidthOk(els[j]) && HeightOk(els[j]))
        && (v.value.MinWidth? ==> !WidthOk(els[v.value.index]))
        && (v.value.MinHeight? ==> WidthOk(els[v.value.index]) && !HeightOk(els[v.value.index]))
  {
    FirstFailureNone(els, 0, WidthOk, HeightOk);
    if FirstSizeViolation(els).Some? {
      FirstFailureFirst(els, 0, WidthOk, HeightOk);
    }
  }

  /** Every selected element meets the target size, or the pointer is not coarse. */
  predicate InputSizeHolds(c: Component, selector: string, coarse: bool)
  {
    !coarse || forall e :: e in QueryAll(c, selector) ==> WidthOk(e) && HeightOk(e)
  }

  /** On a coarse pointer the size check holds exactly when the scan finds no violation. */
  lemma InputSizeHoldsIffNoViolation(c: Component, selector: string)
    ensures InputSizeHolds(c, selector, true) <==> FirstSizeViolation(QueryAll(c, selector)).None?
  {
    var els := QueryAll(c, selector);
    FirstSizeViolationSpec(els);
    if FirstSizeViolation(els).Some? {
      assert els[FirstSizeViolation(els).value.index] in els;
    }
  }

  /** The loop of `checkInputSize`: it stops at the first element that is too small, checking
      width before height. */
  method ScanSizes(inputs: seq<Element>) returns (violation: Option<SizeViolation>)
    ensures violation == FirstSizeViolation(inputs)
  {
    var i := 0;
    while i < |inputs|
      invariant 0 <= i <= |inputs|
      invariant FirstSizeViolation(inputs) == FirstFailure(inputs, i, WidthOk, HeightOk)
    {
      if !WidthOk(inputs[i]) {
        return Some(MinWidth(i));
      }
      if !HeightOk(inputs[i]) {
        return Some(MinHeight(i));
      }
      i := i + 1;
    }
    return None;
  }

  /** `checkInputSize(component, selector)`, with `coarse` for the `(pointer: coarse)` media
      query: it passes when the pointer is not coarse, and otherwise reports the first element
      that is too small. */
  method CheckInputSize(c: Component, selector: string, coarse: bool) returns (ok: bool, violation: Option<SizeViolation>)
    ensures ok <==> InputSizeHolds(c, selector, coarse)
    ensures ok <==> violation.None?
    ensures coarse ==> violation == FirstSizeViolation(QueryAll(c, selector))
  {
    if !coarse {
      return true, None;
    }
    violation := ScanSizes(QueryAll(c, selector));
    InputSizeHoldsIffNoViolation(c, selector);
    ok := violation.None?;
  }

  // ----- Reading one contrast result -----

  /** The message `hasNoErrors` logs, chosen by its `switch` on the error type. */
  datatype Diagnostic = ParseFailure | TransparentBackground | UndefinedError

  function ErrorDiagnostic(r: ContrastResult): (d: Option<Diagnostic>)
    ensures d.None? <==> !r.error
  {
    if !r.error then None
    else
      match r.errorType
      case ParsingError => Some(ParseFailure)
      case BackgroundTransparencyError => Some(TransparentBackground)
      case NoError => Some(UndefinedError)
  }

  /** `hasNoErrors(k)`: every branch of the switch returns false, the default one included. */
  function HasNoErrors(r: ContrastResult): (ok: bool)
    ensures ok <==> !r.error
  {
    ErrorDiagnostic(r).None?
  }

  /** `ratio >= min` in JavaScript, where a `null` ratio compares as 0. */
  predicate RatioAtLeast(ratio: Option<real>, min: real)
  {
    if ratio.None? then 0.0 >= min else ratio.value >= min
  }

  /** `handleWrongContrast(k, min)`. */
  function HandleWrongContrast(r: ContrastResult, min: real): bool
  {
    RatioAtLeast(r.contrastRatio, min)
  }

  /** The result has a ratio, and it reaches `min` (the bound is inclusive). */
  predicate Meets(r: ContrastResult, min: real)
  {
    r.contrastRatio.Some? && r.contrastRatio.value >= min
  }

  /** The checker run on two style properties of one element. */
  function Pair(lib: ColorLibrary, e: Element, fg: string, bg: string): ContrastResult
  {
    ColorContrastChecker.CheckColorContrast(lib, Style(e, fg), Style(e, bg))
  }

  /** `getPropertyValue(name)` with a name that may be `null`, which the DOM turns into `'null'`. */
  function NameOf(name: Option<string>): string
  {
    if name.Some? then name.value else "null"
  }

  // ----- Plain colour contrast -----

  /** `checkColorContrastForElement`: errors first, then the ratio. */
  function ColorContrastForElement(lib: ColorLibrary, fg: string, bg: string, e: Element, min: real): (ok: bool)
    ensures ok <==> Meets(Pair(lib, e, fg, bg), min)
    ensures Pair(lib, e, fg, bg).error ==> !ok
  {
    var k := Pair(lib, e, fg, bg);
    if !HasNoErrors(k) then false
    else if !HandleWrongContrast(k, min) then false
    else true
  }

  /** An errored pair fails at every threshold, even at one of 0 or below where the ratio test
      alone would pass (`null >= 0` is true): the error test must come first. */
  lemma ErrorBeforeRatio(lib: ColorLibrary, fg: string, bg: string, e: Element, min: real)
    requires Pair(lib, e, fg, bg).error
    ensures !ColorContrastForElement(lib, fg, bg, e, min)
    ensures min <= 0.0 ==> HandleWrongContrast(Pair(lib, e, fg, bg), min)
  {
  }

  /** The elements `checkColorContrast` inspects: the component itself when the selector is
      falsy, otherwise the matches of the selector. */
  function Selected(c: Component, selector: Option<string>): (els: seq<Element>)
    ensures !Truthy(selector) ==> els == [c.root]
    ensures Truthy(selector) ==> els == QueryAll(c, selector.value)
  {
    if Truthy(selector) then QueryAll(c, selector.value) else [c.root]
  }

  /** The indices below `n` of the elements that fail `rule`, in increasing order. */
  function FailingIndices(els: seq<Element>, rule: Element -> bool, n: nat): seq<nat>
    requires n <= |els|
  {
    if n == 0 then []
    else FailingIndices(els, rule, n - 1) + (if rule(els[n - 1]) then [] else [n - 1])
  }

  /** An index is reported exactly when it is below `n` and its element fails the rule. */
  lemma {:induction false} FailingIndicesMembers(els: seq<Element>, rule: Element -> bool, n: nat)
    requires n <= |els|
    ensures forall j: nat :: j in FailingIndices(els, rule, n) <==> j < n && !rule(els[j])
  {
    if n > 0 {
      FailingIndicesMembers(els, rule, n - 1);
      var r := FailingIndices(els, rule, n - 1);
      var t: seq<nat> := if rule(els[n - 1]) then [] else [n - 1];
      assert FailingIndices(els, rule, n) == r + t;
      forall j: nat
        ensures j in r + t <==> j < n && !rule(els[j])
      {
        assert j in r + t <==> j in r || j in t;
      }
    }
  }

  /** The reported indices are below `n` and strictly increasing: document order, no repeats. */
  lemma {:induction false} FailingIndicesIncreasing(els: seq<Element>, rule: Element -> bool, n: nat)
    requires n <= |els|
    ensures forall k :: 0 <= k < |FailingIndices(els, rule, n)| ==> FailingIndices(els, rule, n)[k] < n
    ensures forall k, l :: 0 <= k < l < |FailingIndices(els, rule, n)| ==>
      FailingIndices(els, rule, n)[k] < FailingIndices(els, rule, n)[l]
  {
    if n > 0 {
      FailingIndicesIncreasing(els, rule, n - 1);
      var r := FailingIndices(els, rule, n - 1);
      var t: seq<nat> := if rule(els[n - 1]) then [] else [n - 1];
      var f := r + t;
      assert FailingIndices(els, rule, n) == f;
      forall k | 0 <= k < |f|
        ensures f[k] < n
      {
        if k < |r| {
          assert f[k] == r[k];
        }
      }
      forall k, l | 0 <= k < l < |f|
        ensures f[k] < f[l]
      {
        if l >= |r| {
          assert f[l] == n - 1;
          assert f[k] == r[k];
        } else {
          assert f[k] == r[k] && f[l] == r[l];
        }
      }
    }
  }

  /** The failing indices among the first `n` elements are exactly the elements the rule
      rejects, each once and in document order, and there are none exactly when all pass. */
  lemma FailingIndicesSpec(els: seq<Element>, rule: Element -> bool, n: nat)
    requires n <= |els|
    ensures forall j: nat :: j in FailingIndices(els, rule, n) <==> j < n && !rule(els[j])
    ensures forall k, l :: 0 <= k < l < |FailingIndices(els, rule, n)| ==>
      FailingIndices(els, rule, n)[k] < FailingIndices(els, rule, n)[l]
    ensures FailingIndices(els, rule, n) == [] <==> forall j :: 0 <= j < n ==> rule(els[j])
  {
    FailingIndicesMembers(els, rule, n);
    FailingIndicesIncreasing(els, rule, n);
    var f := FailingIndices(els, rule, n);
    if f != [] {
      assert f[0] in f;
    }
  }

  /** The loop the four contrast aggregators share: it visits every element, clears `success`
      at each failure and never stops early, so every failing element is reported. */
  method CheckEvery(els: seq<Element>, rule: Element -> bool) returns (success: bool, failed: seq<nat>)
    ensures success <==> forall e :: e in els ==> rule(e)
    ensures failed == FailingIndices(els, rule, |els|)
  {
    success := true;
    failed := [];
    var i := 0;
    while i < |els|
      invariant 0 <= i <= |els|
      invariant failed == FailingIndices(els, rule, i)
      invariant success <==> forall j :: 0 <= j < i ==> rule(els[j])
    {
      if !rule(els[i]) {
        success := false;
        failed := failed + [i];
      }
      i := i + 1;
    }
    assert success <==> forall j :: 0 <= j < |els| ==> rule(els[j]);
  }

  predicate ColorContrastHolds(lib: ColorLibrary, c: Component, fg: string, bg: string, selector: Option<string>, min: real)
  {
    forall e :: e in Selected(c, selector) ==> ColorContrastForElement(lib, fg, bg, e, min)
  }

  /** `checkColorContrast(component, fgColor, bgColor, selector, minimumRatio)`. */
  method CheckColorContrast(lib: ColorLibrary, c: Component, fg: string, bg: string, selector: Option<string>, min: real)
    returns (success: bool, failed: seq<nat>)
    ensures success <==> ColorContrastHolds(lib, c, fg, bg, selector, min)
    ensures failed == FailingIndices(Selected(c, selector), e => ColorContrastForElement(lib, fg, bg, e, min), |Selected(c, selector)|)
  {
    var inputs := Selected(c, selector);
    success, failed := CheckEvery(inputs, e => ColorContrastForElement(lib, fg, bg, e, min));
  }

  // ----- Inputs -----

  /** The style properties `checkInputColorContrast` reads, in its parameter order. */
  datatype InputColors = InputColors(
    font: string, background: string, inputBackground: string,
    border: string, outline: string, errorHighlight: Option<string>)

  /** `checkInputColorContrastForElement`: all errors first (the highlight pairs only with
      `hasErrorHighlight`), then the font against the input background and the highlight at the
      font threshold, then the outline, then the border OR the input background (AND the
      highlight) against the page background. */
  function InputContrastForElement(lib: ColorLibrary, e: Element, k: InputColors, highlight: bool, min: real, fontMin: real): (ok: bool)
    ensures
      var k1, k3, k4, k5 := Pair(lib, e, k.font, k.inputBackground), Pair(lib, e, k.outline, k.background),
                            Pair(lib, e, k.border, k.background), Pair(lib, e, k.inputBackground, k.background);
      var k2, k6 := Pair(lib, e, k.font, NameOf(k.errorHighlight)), Pair(lib, e, NameOf(k.errorHighlight), k.background);
      ok <==>
        && !k1.error && !k3.error && !k4.error && !k5.error && (highlight ==> !k2.error && !k6.error)
        && Meets(k1, fontMin) && (highlight ==> Meets(k2, fontMin))
        && Meets(k3, min)
        && (Meets(k4, min) || (Meets(k5, min) && (highlight ==> Meets(k6, min))))
  {
    var k1 := Pair(lib, e, k.font, k.inputBackground);
    var k3 := Pair(lib, e, k.outline, k.background);
    var k4 := Pair(lib, e, k.border, k.background);
    var k5 := Pair(lib, e, k.inputBackground, k.background);
    var k2 := Pair(lib, e, k.font, NameOf(k.errorHighlight));
    var k6 := Pair(lib, e, NameOf(k.errorHighlight), k.background);
    var noErrors := HasNoErrors(k1) && HasNoErrors(k3) && HasNoErrors(k4) && HasNoErrors(k5);
    var noErrors := if highlight then noErrors && HasNoErrors(k2) && HasNoErrors(k6) else noErrors;
    if !noErrors then false
    else if !HandleWrongContrast(k1, fontMin) then false
    else if highlight && !HandleWrongContrast(k2, fontMin) then false
    else if !HandleWrongContrast(k3, min) then false
    else
      || RatioAtLeast(k4.contrastRatio, min)
      || (highlight && RatioAtLeast(k5.contrastRatio, min) && RatioAtLeast(k6.contrastRatio, min))
      || (!highlight && RatioAtLeast(k5.contrastRatio, min))
  }

  /** With the same colours and thresholds, an element that passes with the error highlight
      passes without it: the highlight only adds requirements. */
  lemma InputHighlightOnlyAdds(lib: ColorLibrary, e: Element, k: InputColors, min: real, fontMin: real)
    ensures InputContrastForElement(lib, e, k, true, min, fontMin) ==> InputContrastForElement(lib, e, k, false, min, fontMin)
  {
  }

  /** Lowering either threshold never turns a pass into a failure. */
  lemma InputThresholdsMonotone(lib: ColorLibrary, e: Element, k: InputColors, highlight: bool, min: real, fontMin: real, min': real, fontMin': real)
    requires min' <= min && fontMin' <= fontMin
    ensures InputContrastForElement(lib, e, k, highlight, min, fontMin) ==> InputContrastForElement(lib, e, k, highlight, min', fontMin')
  {
  }

  predicate InputContrastHolds(lib: ColorLibrary, c: Component, k: InputColors, selector: string, highlight: bool, min: real, fontMin: real)
  {
    forall e :: e in QueryAll(c, selector) ==> InputContrastForElement(lib, e, k, highlight, min, fontMin)
  }

  /** `checkInputColorContrast(component, ..., selector, hasErrorHighlight, minimumRatio, fontMinimumRatio)`. */
  method CheckInputColorContrast(lib: ColorLibrary, c: Component, k: InputColors, selector: string, highlight: bool, min: real, fontMin: real)
    returns (success: bool, failed: seq<nat>)
    ensures success <==> InputContrastHolds(lib, c, k, selector, highlight, min, fontMin)
    ensures failed == FailingIndices(QueryAll(c, selector), e => InputContrastForElement(lib, e, k, highlight, min, fontMin), |QueryAll(c, selector)|)
  {
    success, failed := CheckEvery(QueryAll(c, selector), e => InputContrastForElement(lib, e, k, highlight, min, fontMin));
  }

  // ----- Alerts -----

  /** The style properties `checkAlertColorContrast` reads, in its parameter order. */
  datatype AlertColors = AlertColors(font: string, background: string, alertBackground: string, border: string)

  /** `checkAlertColorContrastForElement`: no errors, the font against the alert background at the
      font threshold, then the border OR the alert background against the page background. */
  function AlertContrastForElement(lib: ColorLibrary, e: Element, k: AlertColors, min: real, fontMin: real): (ok: bool)
    ensures
      var k1, k2, k3 := Pair(lib, e, k.font, k.alertBackground), Pair(lib, e, k.border, k.background),
                        Pair(lib, e, k.alertBackground, k.background);
      ok <==> !k1.error && !k2.error && !k3.error && Meets(k1, fontMin) && (Meets(k2, min) || Meets(k3, min))
  {
    var k1 := Pair(lib, e, k.font, k.alertBackground);
    var k2 := Pair(lib, e, k.border, k.background);
    var k3 := Pair(lib, e, k.alertBackground, k.background);
    if !HasNoErrors(k1) || !HasNoErrors(k2) || !HasNoErrors(k3) then false
    else if !HandleWrongContrast(k1, fontMin) then false
    else RatioAtLeast(k2.contrastRatio, min) || RatioAtLeast(k3.contrastRatio, min)
  }

  predicate AlertContrastHolds(lib: ColorLibrary, c: Component, k: AlertColors, selector: string, min: real, fontMin: real)
  {
    forall e :: e in QueryAll(c, selector) ==> AlertContrastForElement(lib, e, k, min, fontMin)
  }

  /** `checkAlertColorContrast(component, ..., selector, minimumRatio, fontMinimumRatio)`. */
  method CheckAlertColorContrast(lib: ColorLibrary, c: Component, k: AlertColors, selector: string, min: real, fontMin: real)
    returns (success: bool, failed: seq<nat>)
    ensures success <==> AlertContrastHolds(lib, c, k, selector, min, fontMin)
    ensures failed == FailingIndices(QueryAll(c, selector), e => AlertContrastForElement(lib, e, k, min, fontMin), |QueryAll(c, selector)|)
  {
    success, failed := CheckEvery(QueryAll(c, selector), e => AlertContrastForElement(lib, e, k, min, fontMin));
  }

  // ----- Pagination bullets -----

  /** The style properties `checkBulletPointColorContrast` reads, in its parameter order. */
  datatype BulletColors = BulletColors(active: string, background: string, inactive: string, outline: string, border: string)

  /** `checkBulletPointColorContrastForElement`: no errors in the five pairs, the outline against
      the background, the active against the inactive colour, then the border OR (the active AND
      the inactive colour) against the background. */
  function BulletContrastForElement(lib: ColorLibrary, e: Element, k: BulletColors, min: real): (ok: bool)
    ensures
      var k1, k2, k3 := Pair(lib, e, k.active, k.background), Pair(lib, e, k.inactive, k.background),
                        Pair(lib, e, k.outline, k.background);
      var k4, k5 := Pair(lib, e, k.active, k.inactive), Pair(lib, e, k.border, k.background);
      ok <==>
        && !k1.error && !k2.error && !k3.error && !k4.error && !k5.error
        && Meets(k3, min) && Meets(k4, min)
        && (Meets(k5, min) || (Meets(k1, min) && Meets(k2, min)))
  {
    var k1 := Pair(lib, e, k.active, k.background);
    var k2 := Pair(lib, e, k.inactive, k.background);
    var k3 := Pair(lib, e, k.outline, k.background);
    var k4 := Pair(lib, e, k.active, k.inactive);
    var k5 := Pair(lib, e, k.border, k.background);
    if !HasNoErrors(k1) || !HasNoErrors(k2) || !HasNoErrors(k3) || !HasNoErrors(k4) || !HasNoErrors(k5) then false
    else if !HandleWrongContrast(k3, min) then false
    else if !HandleWrongContrast(k4, min) then false
    else RatioAtLeast(k5.contrastRatio, min) || (RatioAtLeast(k1.contrastRatio, min) && RatioAtLeast(k2.contrastRatio, min))
  }

  predicate BulletContrastHolds(lib: ColorLibrary, c: Component, k: BulletColors, selector: string, min: real)
  {
    forall e :: e in QueryAll(c, selector) ==> BulletContrastForElement(lib, e, k, min)
  }

  /** `checkBulletPointColorContrast(component, ..., selector, minimumRatio)`. */
  method CheckBulletPointColorContrast(lib: ColorLibrary, c: Component, k: BulletColors, selector: string, min: real)
    returns (success: bool, failed: seq<nat>)
    ensures success <==> BulletContrastHolds(lib, c, k, selector, min)
    ensures failed == FailingIndices(QueryAll(c, selector), e => BulletContrastForElement(lib, e, k, min), |QueryAll(c, selector)|)
  {
    success, failed := CheckEvery(QueryAll(c, selector), e => BulletContrastForElement(lib, e, k, min));
  }
}
