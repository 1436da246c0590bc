/** The text-video audit (Molecules/TextVideo/TextVideo.accessibility.js): the font contrast of
    the text sections (`MediaText.CheckFontColorContrast`) and the accessible alternatives of the
    video. */
module TextVideo {
  import opened Js
  import opened Dom
  import opened Accessibility
  import opened Audit

  /** An accessible alternative holds some content. */
  predicate HasContent(e: Element)
  {
    e.childNodes > 0
  }

  /** `checkTextVideoSlots(component, showAccessibilityControls)`: false when the controls are
      hidden (decided before any lookup) and false when there is no `.accessible-alternative`.
      Otherwise true: the `forEach` callback logs each alternative without child nodes, but its
      `return false` leaves the callback, not the function, so an empty alternative does not
      change the verdict. `emptyAlternatives` are the indices it logs. */
  method CheckTextVideoSlots(c: Component, showAccessibilityControls: Option<bool>) returns (ok: bool, emptyAlternatives: seq<nat>)
    ensures ok <==> TruthyFlag(showAccessibilityControls) && QueryAll(c, ".accessible-alternative") != []
    ensures forall j: nat :: j in emptyAlternatives <==>
      ok && j < |QueryAll(c, ".accessible-alternative")| && !HasContent(QueryAll(c, ".accessible-alternative")[j])
  {
    if !TruthyFlag(showAccessibilityControls) {
      return false, [];
    }
    var alternatives := QueryAll(c, ".accessible-alternative");
    if |alternatives| <= 0 {
      return false, [];
    }
    var _, failed := CheckEvery(alternatives, HasContent);
    FailingIndicesSpec(alternatives, HasContent, |alternatives|);
    return true, failed;
  }

  /** The checks `checkTextVideoAccessibility` runs. */
  datatype Check = FontColorContrast | TextVideoSlots

  /** `checkTextVideoAccessibility(component, showAccessibilityControls)`: the font contrast, then
      the slots; neither can throw. */
  function CheckTextVideoAccessibility(): (r: Report<Check>)
    ensures !r.aborted && |r.checks| == 2
    ensures RanBefore(r, FontColorContrast, TextVideoSlots)
  {
    var checks := [FontColorContrast, TextVideoSlots];
    assert checks[0] == FontColorContrast && checks[1] == TextVideoSlots;
    Report(checks, false)
  }
}
