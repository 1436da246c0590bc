/** The slider audit (Molecules/Slider/Slider.accessibility.js): pagination bullet contrast, the
    ARIA wiring of the navigation buttons, slides and bullets, the swiper options that break
    keyboard and assistive use, and the play/pause control autoplay needs (WCAG 2.1 Success
    Criterion 2.2.2, Pause, Stop, Hide). */
module Slider {
  import opened Js
  import opened Dom
  import opened Wcag
  import opened ColorContrastChecker
  import opened Accessibility
  import opened Audit

  /** `swiperOptions.pagination`: `true`/`false`, or an object whose `bulletClass` may be unset. */
  datatype Pagination = PaginationFlag(on: bool) | PaginationParams(bulletClass: Option<string>)

  /** `swiperOptions.navigation`: `true`/`false`, or an object with optional `prevEl`/`nextEl`
      selectors. */
  datatype Navigation = NavigationFlag(on: bool) | NavigationParams(prevEl: Option<string>, nextEl: Option<string>)

  /** The swiper options the audit reads; every one may be left unset. */
  datatype SwiperOptions = SwiperOptions(
    pagination: Option<Pagination>,
    navigation: Option<Navigation>,
    wrapperClass: Option<string>,
    slideClass: Option<string>,
    allowTouchMove: Option<bool>,
    swipeHandler: Option<string>)

  const DefaultBulletClass: string := ".swiper-pagination-bullet"

  /** `((pagination && pagination.bulletClass) ?? '.swiper-pagination-bullet').toString()`.
      `??` replaces only `null`/`undefined`: `pagination: false` survives as `false`, whose
      string is `'false'`, and an empty class name survives as `''`. */
  function PaginationBulletClass(o: SwiperOptions): (cls: string)
    ensures o.pagination.None? ==> cls == DefaultBulletClass
    ensures o.pagination == Some(PaginationFlag(false)) ==> cls == "false"
    ensures o.pagination == Some(PaginationParams(Some(""))) ==> cls == ""
  {
    match o.pagination
    case None => DefaultBulletClass
    case Some(PaginationFlag(on)) => if on then DefaultBulletClass else "false"
    case Some(PaginationParams(bulletClass)) =>
      if bulletClass.Some? then bulletClass.value else DefaultBulletClass
  }

  /** The pagination bullet colours, in the engine's parameter order. */
  const BulletTable: BulletColors := BulletColors(
    "--slider-pagination-active-color", "--bg-color", "--slider-pagination-inactive-color",
    "--outline-color", "--slider-pagination-bullet-border-color")

  /** `checkColorContrastPagination(component, swiperOptions)`: with any bullet class but the
      default it warns and fails without looking at a colour; with the default one it is the
      bullet rule over the bullets at the engine's default ratio 3. */
  function CheckColorContrastPagination(lib: ColorLibrary, c: Component, o: SwiperOptions): (ok: bool)
    ensures PaginationBulletClass(o) != DefaultBulletClass ==> !ok
    ensures PaginationBulletClass(o) == DefaultBulletClass ==>
      (ok <==> forall e :: e in QueryAll(c, DefaultBulletClass) ==> BulletContrastForElement(lib, e, BulletTable, NonTextContrast))
  {
    var bulletClass := PaginationBulletClass(o);
    if bulletClass != DefaultBulletClass then false
    else BulletContrastHolds(lib, c, BulletTable, bulletClass, NonTextContrast)
  }

  /** Turning pagination off (`pagination: false`) does not skip the contrast check: it fails it,
      because `false` is not nullish. */
  lemma PaginationOffFails(lib: ColorLibrary, c: Component, o: SwiperOptions)
    requires o.pagination == Some(PaginationFlag(false))
    ensures !CheckColorContrastPagination(lib, c, o)
  {
    assert PaginationBulletClass(o) == "false";
  }

  /** `(pagination && pagination.bulletClass) ? pagination.bulletClass : '.swiper-pagination-bullet'`,
      the bullet class `checkAriaAttributes` uses: here every falsy value takes the default. */
  function AriaBulletClass(o: SwiperOptions): (cls: string)
    ensures cls != ""
  {
    match o.pagination
    case Some(PaginationParams(bulletClass)) =>
      if Truthy(bulletClass) then bulletClass.value else DefaultBulletClass
    case _ => DefaultBulletClass
  }

  /** The two bullet classes agree except on the values `??` keeps and `?:` drops: `false` and the
      empty class name. */
  lemma BulletClassesAgree(o: SwiperOptions)
    ensures o.pagination != Some(PaginationFlag(false)) && o.pagination != Some(PaginationParams(Some(""))) ==>
      PaginationBulletClass(o) == AriaBulletClass(o)
    ensures o.pagination == Some(PaginationParams(Some(""))) ==>
      PaginationBulletClass(o) == "" && AriaBulletClass(o) == DefaultBulletClass
  {
  }

  /** `swiperOptions.wrapperClass ?? '.swiper-wrapper'`. */
  function WrapperClass(o: SwiperOptions): string
  {
    if o.wrapperClass.Some? then o.wrapperClass.value else ".swiper-wrapper"
  }

  /** `swiperOptions.slideClass ?? '.swiper-slide'`. */
  function SlideClass(o: SwiperOptions): string
  {
    if o.slideClass.Some? then o.slideClass.value else ".swiper-slide"
  }

  /** `navigation && navigation.prevEl ? navigation.prevEl : '.prev-button'`. */
  function PrevButtonClass(o: SwiperOptions): (cls: string)
    ensures cls != ""
  {
    match o.navigation
    case Some(NavigationParams(prevEl, _)) => if Truthy(prevEl) then prevEl.value else ".prev-button"
    case _ => ".prev-button"
  }

  /** `navigation && navigation.nextEl ? navigation.prevEl : '.next-button'`: once `nextEl` is
      set, the selector is read from `prevEl`, which may be unset (`None`, `undefined`). */
  function NextButtonClass(o: SwiperOptions): (cls: Option<string>)
    ensures (o.navigation.Some? && o.navigation.value.NavigationParams? && Truthy(o.navigation.value.nextEl))
      ==> cls == o.navigation.value.prevEl
    ensures !(o.navigation.Some? && o.navigation.value.NavigationParams? && Truthy(o.navigation.value.nextEl))
      ==> cls == Some(".next-button")
  {
    match o.navigation
    case Some(NavigationParams(prevEl, nextEl)) => if Truthy(nextEl) then prevEl else Some(".next-button")
    case _ => Some(".next-button")
  }

  /** With both selectors configured, the "next" check inspects the previous-button selector and
      never the next-button one: both navigation checks look at the same buttons. */
  lemma NextButtonUsesPrevSelector(o: SwiperOptions, prev: string, next: string)
    requires o.navigation == Some(NavigationParams(Some(prev), Some(next)))
    requires prev != "" && next != ""
    ensures NextButtonClass(o) == Some(PrevButtonClass(o))
    ensures next != prev ==> NextButtonClass(o) != Some(next)
  {
  }

  /** `checkNavButtonAccessibility(component, selector, swiperWrapperId)`. Its loop returns in its
      first iteration, so the first match alone decides: it needs a non-empty `aria-label`, the
      role `'button'` and `aria-controls` equal to the wrapper's id (`null === null` holds).
      With no match the function falls off its end and returns `undefined` (`None`). */
  function CheckNavButtonAccessibility(c: Component, selector: string, wrapperId: Option<string>): (r: Option<bool>)
    ensures r.None? <==> QueryAll(c, selector) == []
    ensures r == Some(true) <==>
      && QueryAll(c, selector) != []
      && var e := QueryAll(c, selector)[0];
         Truthy(Attr(e, "aria-label")) && Attr(e, "role") == Some("button") && Attr(e, "aria-controls") == wrapperId
  {
    match Query(c, selector)
    case None => None
    case Some(nav) =>
      Some(Truthy(Attr(nav, "aria-label")) && Attr(nav, "role") == Some("button") && Attr(nav, "aria-controls") == wrapperId)
  }

  /** The slides and bullets part of `checkAriaAttributes`: the first slide decides (it needs an
      `aria-label` and a `role`); with no slide the first bullet decides (it needs an
      `aria-label`); with neither it passes. */
  function SlidesAndBulletsLabelled(c: Component, o: SwiperOptions): (ok: bool)
    ensures QueryAll(c, SlideClass(o)) != [] ==>
      (ok <==> Truthy(Attr(QueryAll(c, SlideClass(o))[0], "aria-label")) && Truthy(Attr(QueryAll(c, SlideClass(o))[0], "role")))
    ensures QueryAll(c, SlideClass(o)) == [] && QueryAll(c, AriaBulletClass(o)) != [] ==>
      (ok <==> Truthy(Attr(QueryAll(c, AriaBulletClass(o))[0], "aria-label")))
    ensures QueryAll(c, SlideClass(o)) == [] && QueryAll(c, AriaBulletClass(o)) == [] ==> ok
  {
    match Query(c, SlideClass(o))
    case Some(slide) => Truthy(Attr(slide, "aria-label")) && Truthy(Attr(slide, "role"))
    case None =>
      match Query(c, AriaBulletClass(o))
      case Some(bullet) => Truthy(Attr(bullet, "aria-label"))
      case None => true
  }

  /** `checkAriaAttributes(component, swiperOptions)`. No wrapper: false. Then both navigation
      checks must be truthy (the second runs only after the first passed, and throws when its
      selector is `undefined`); then slides and bullets decide. */
  function CheckAriaAttributes(c: Component, o: SwiperOptions): (r: Outcome<bool>)
    ensures QueryAll(c, WrapperClass(o)) == [] ==> r == Returned(false)
    ensures r.Threw? <==>
      && QueryAll(c, WrapperClass(o)) != []
      && CheckNavButtonAccessibility(c, PrevButtonClass(o), Attr(QueryAll(c, WrapperClass(o))[0], "id")) == Some(true)
      && NextButtonClass(o).None?
    ensures r == Returned(true) <==>
      && QueryAll(c, WrapperClass(o)) != []
      && var id := Attr(QueryAll(c, WrapperClass(o))[0], "id");
         CheckNavButtonAccessibility(c, PrevButtonClass(o), id) == Some(true)
         && NextButtonClass(o).Some?
         && CheckNavButtonAccessibility(c, NextButtonClass(o).value, id) == Some(true)
         && SlidesAndBulletsLabelled(c, o)
  {
    match Query(c, WrapperClass(o))
    case None => Returned(false)
    case Some(wrapper) =>
      var id := Attr(wrapper, "id");
      if CheckNavButtonAccessibility(c, PrevButtonClass(o), id) != Some(true) then Returned(false)
      else
        match NextButtonClass(o)
        case None => Threw
        case Some(next) =>
          if CheckNavButtonAccessibility(c, next, id) != Some(true) then Returned(false)
          else Returned(SlidesAndBulletsLabelled(c, o))
  }

  /** A navigation button missing from the page fails the ARIA check: the `undefined` its check
      returns is falsy. */
  lemma MissingPrevButtonFails(c: Component, o: SwiperOptions)
    requires QueryAll(c, PrevButtonClass(o)) == []
    ensures CheckAriaAttributes(c, o) == Returned(false)
  {
  }

  /** The messages `checkBreakingProperties` logs. */
  datatype BreakingWarning = TouchMoveDisabled | SwipeHandlerSet

  /** The two options that break the slider for assistive use. */
  predicate BreakingPropertiesHold(o: SwiperOptions)
  {
    o.allowTouchMove != Some(false) && !Truthy(o.swipeHandler)
  }

  /** `checkBreakingProperties(component, swiperOptions)`: both tests always run and each logs;
      only an explicit `allowTouchMove: false` counts, an unset one does not. */
  method CheckBreakingProperties(o: SwiperOptions) returns (success: bool, warnings: seq<BreakingWarning>)
    ensures success <==> BreakingPropertiesHold(o)
    ensures success <==> warnings == []
    ensures TouchMoveDisabled in warnings <==> o.allowTouchMove == Some(false)
    ensures SwipeHandlerSet in warnings <==> Truthy(o.swipeHandler)
  {
    success := true;
    warnings := [];
    if o.allowTouchMove == Some(false) {
      warnings := warnings + [TouchMoveDisabled];
      success := false;
    }
    if Truthy(o.swipeHandler) {
      warnings := warnings + [SwipeHandlerSet];
      success := false;
    }
  }

  /** `checkAutoplayAccessibility(component)`: a `.play-pause-btn` must exist. */
  function CheckAutoplayAccessibility(c: Component): (ok: bool)
    ensures ok <==> exists e :: e in QueryAll(c, ".play-pause-btn")
  {
    var ok := Query(c, ".play-pause-btn").Some?;
    assert ok ==> QueryAll(c, ".play-pause-btn")[0] in QueryAll(c, ".play-pause-btn");
    ok
  }

  /** The checks `CheckSliderAccessibilty` runs. */
  datatype Check = InputSize(selector: string) | ColorContrastPagination | BreakingProperties | AriaAttributes | AutoplayAccessibility

  /** `CheckSliderAccessibilty(component, swiperOptions, hasAutoplay)`: the target size of the
      chevrons, the pagination contrast, the breaking options, the ARIA wiring and, with
      autoplay only, the play/pause control. An exception in the ARIA check ends the audit
      before the autoplay check. */
  function CheckSliderAccessibility(c: Component, o: SwiperOptions, hasAutoplay: bool): (r: Report<Check>)
    ensures r.aborted <==> CheckAriaAttributes(c, o).Threw?
    ensures |r.checks| >= 3 && r.checks[..3] == [InputSize(".slider-chevron"), ColorContrastPagination, BreakingProperties]
    ensures AriaAttributes in r.checks <==> !r.aborted
    ensures AutoplayAccessibility in r.checks <==> hasAutoplay && !r.aborted
  {
    var first := [InputSize(".slider-chevron"), ColorContrastPagination, BreakingProperties];
    match CheckAriaAttributes(c, o)
    case Threw => Report(first, true)
    case Returned(_) =>
      Report(first + [AriaAttributes] + (if hasAutoplay then [AutoplayAccessibility] else []), false)
  }
}
