# Accessibility validation of rockability-ui, in Dafny

This project models the accessibility checks that the rockability-ui Svelte components run on
themselves once they are rendered. It has three layers.

- **Contrast-result classifier** (`ColorContrastChecker`, from `utility/colorContrastChecker.js`).
  It strips `!important`, trims, and parses two CSS colours. It refuses a translucent background
  and composites a translucent foreground over the background. It reports the contrast ratio
  together with an error flag and an error type.
- **Threshold engine** (`Accessibility`, from `utility/accessibility.js`).
  - The touch-target size check: 44 CSS pixels on a coarse pointer.
  - Four contrast rules (plain text, inputs, alerts, pagination bullets). Each rule decides one
    element. Inclusive `>=` thresholds are combined with OR/AND fallbacks.
  - Aggregators that scan every selected element and report each element that fails.
- **Per-widget validators.** Slider, Text, MultiSelect, Button, Link, Form, TextInput,
  SelectInput, NumericInput, TextManipulator, TextVideo, BooleanInput, CustomSelectInput,
  TextImage and Modal each have a module.
  - The module holds the widget's prop and attribute predicates and its fixed colour tables.
  - It also holds the widget's audit entry point.
  - Checks that several widgets define with the same body live once in `FormControls` (the
    form fields) or `MediaText` (TextVideo and TextImage).

The page is data:
- An `Element` carries its computed style, its attributes, its text content and its number of
  child nodes.
- A `Component` carries its root element and the elements each selector query returns.
- `coarse` stands for the `(pointer: coarse)` media query.

The `color` package is a parameter, `ColorLibrary(parse, contrast)`:
- `parse` returns `None` where `Color(s)` would throw.
- `contrast` is the WCAG 2.1 contrast ratio.

JavaScript semantics are written out:
- truthiness of strings and flags (`Js.Truthy`, `Js.TruthyFlag`);
- `null >= x` comparing as `0 >= x` (`Accessibility.RatioAtLeast`);
- NaN comparisons being false (`NumericTokens.LessThan`);
- the regular expression `/\d*\.{0,1}\d+/g` followed by `join('')`, and which strings unary `+`
  turns into NaN (`NumericTokens`); the number it yields is the exact decimal value, not the
  nearest IEEE-754 double (see "## Left out");
- `String.prototype.trim`, `indexOf` and `replace` with a string pattern (`Js`);
- exceptions (`Js.Outcome`).

The entry points return nothing: they run their checks in order and discard the verdicts. Their
model is an `Audit.Report`, which records the checks that ran, in order, and whether a thrown
exception cut the audit short. Each check's verdict is its own member.

The WCAG 2.1 thresholds are constants in `Wcag`:
- 3 (Success Criterion 1.4.11, non-text contrast);
- 4.5 (Success Criterion 1.4.3);
- 7 (Success Criterion 1.4.6);
- 21 (the largest ratio);
- 44 (Success Criterion 2.5.5, target size).

## Model

| member | source | states |
|---|---|---|
| ColorContrastChecker.ErrorCode | utility/colorContrastChecker.js:2-7 | the three error types carry the codes 0, 1, 2 |
| ColorContrastChecker.ErrorTypeOfCode | utility/colorContrastChecker.js:2-7 | the reverse enum mapping: a code names a member iff it is 0, 1 or 2, and then the member carrying that code |
| ColorContrastChecker.ErrorCodeRoundTrip | utility/colorContrastChecker.js:2-7 | each member is recovered from its own code, so distinct members have distinct codes |
| ColorContrastChecker.CheckColorContrast | utility/colorContrastChecker.js:8-49 | error exactly when the type is not None and exactly when there is no ratio; parsing error iff either cleaned string fails to parse; transparency error iff both parse and the background alpha is below 1; otherwise ratio = contrast(background, effective foreground) |
| ColorContrastChecker.ParseFailureFirst | utility/colorContrastChecker.js:11-29 | a parse failure of either string gives `{true, ParsingError, null}` whatever the alphas |
| ColorContrastChecker.CompositeBetween | utility/colorContrastChecker.js:30-42 | for alpha in [0,1], the composited colour is opaque and each channel lies between the foreground's and the background's |
| ColorContrastChecker.BlendBetween | utility/colorContrastChecker.js:34 | one channel `f·a + b·(1−a)` lies between f and b |
| ColorContrastChecker.EffectiveForegroundExtremes | utility/colorContrastChecker.js:30-42 | an opaque foreground is left unchanged; a fully transparent one becomes the opaque background |
| ColorContrastChecker.ImportantHasOneBang | utility/colorContrastChecker.js:12-13 | `!important` starts with `!` and holds no other `!`, so it cannot overlap itself |
| ColorContrastChecker.NotInside | utility/colorContrastChecker.js:12-13 | a pattern whose first character recurs nowhere in it, appended to a string that lacks it, occurs nowhere before the appended copy |
| ColorContrastChecker.ImportantSuffixRemoved | utility/colorContrastChecker.js:12-13 | a colour followed by `!important` is cleaned to the trimmed colour |
| Js.TrimStartSpec | utility/colorContrastChecker.js:12-13 | the left trim removes a whitespace prefix and leaves no leading whitespace |
| Js.TrimEndSpec | utility/colorContrastChecker.js:12-13 | the right trim removes a whitespace suffix and leaves no trailing whitespace |
| Js.TrimSpec | utility/colorContrastChecker.js:12-13 | `trim` yields a slice of the input padded by whitespace only, with no whitespace at either end |
| Js.TrimIdempotent | utility/colorContrastChecker.js:12-13 | trimming twice equals trimming once |
| Js.IndexOf | utility/colorContrastChecker.js:12-13 | a found index lies within the string, at or after the start |
| Js.IndexOfSpec | utility/colorContrastChecker.js:12-13 | `indexOf` finds the first occurrence at or after the start; `-1` means none |
| Js.IndexOfFindsFirst | utility/colorContrastChecker.js:12-13 | the first occurrence at or after the start is the index `indexOf` reports |
| Js.RemoveFirstSpec | utility/colorContrastChecker.js:12-13 | `replace` with a string pattern removes exactly the first occurrence, or returns the string unchanged |
| NumericTokens.DigitRun | utility/accessibility.js:10-11 | the run of digits from a position is maximal |
| NumericTokens.MatchAt | utility/accessibility.js:10-11 | one match of `\d*\.{0,1}\d+` is a maximal stretch of kept characters that ends in a digit and has digits only after its dot, so at most one dot |
| NumericTokens.KeptFrom | utility/accessibility.js:10-11 | the matched characters are digits and dots only |
| NumericTokens.KeptSlice | utility/accessibility.js:10-11 | a stretch of matched characters contributes itself to the joined matches |
| NumericTokens.TokensAreKeptCharacters | utility/accessibility.js:10-11 | `match(...).join('')` equals the characters the regex keeps; no match iff nothing is kept |
| NumericTokens.ToNumber | utility/accessibility.js:10-11 | unary `+` never gives a negative number, and a string of digits reads as the number the digits spell |
| NumericTokens.ToNumberNaN | utility/accessibility.js:10-11 | unary `+` on the joined matches is NaN iff they hold two dots or are a lone dot |
| NumericTokens.ToNumberDecimal | utility/accessibility.js:10-11 | a literal `whole.fraction` reads as whole + fraction / 10^(digits of fraction) |
| NumericTokens.NumberOfMatches | utility/accessibility.js:10-11 | no match gives NaN; otherwise never negative |
| NumericTokens.NoDigitIsNaN | utility/accessibility.js:10-11 | a value with no digit parses to NaN |
| NumericTokens.IntegerWithUnit | utility/accessibility.js:10-11 | digits followed by a unit without digits (`44px`) parse to the number the digits spell |
| NumericTokens.DecimalWithUnit | utility/accessibility.js:10-11 | a decimal literal followed by a unit without digits (`43.5px`, `1.2rem`) parses to the literal's value |
| NumericTokens.KeptOfNumberAndUnit | utility/accessibility.js:10-11 | the regex keeps exactly the digits of `<digits><unit>` |
| NumericTokens.KeptOfLiteralAndUnit | utility/accessibility.js:10-11 | the regex keeps exactly the literal of `<digits>.<digits><unit>` |
| Accessibility.ParseSize | utility/accessibility.js:10-11 | an empty value parses to 0; a non-empty value without digits to NaN |
| Accessibility.TargetSizeMet | utility/accessibility.js:8-12 | a size of `44px` parses to 44 and is not below the target |
| Accessibility.TargetSizeMissed | utility/accessibility.js:8-12 | a size of `43.5px` parses to 43.5 and is below the target |
| Accessibility.FirstFailure | utility/accessibility.js:7-20 | a reported element lies at or after the start of the scan |
| Accessibility.FirstFailureNone | utility/accessibility.js:7-20 | the scan finds nothing iff every element from the start passes both tests |
| Accessibility.FirstFailureFirst | utility/accessibility.js:7-20 | what the scan finds is the first element that fails; width is named when the width fails, height only when the width passes |
| Accessibility.FirstSizeViolation | utility/accessibility.js:7-20 | a reported element is one of the inputs |
| Accessibility.FirstSizeViolationSpec | utility/accessibility.js:7-20 | no violation iff every element meets the 44px width and height; otherwise the first element that fails, width before height |
| Accessibility.ScanSizes | utility/accessibility.js:7-20 | the loop returns exactly the first violation, checking width before height |
| Accessibility.InputSizeHoldsIffNoViolation | utility/accessibility.js:2-22 | on a coarse pointer all elements pass iff the scan finds no violation |
| Accessibility.CheckInputSize | utility/accessibility.js:2-22 | passes without inspection when the pointer is not coarse; otherwise stops at the first element too small, reporting width before height |
| Accessibility.ErrorDiagnostic | utility/accessibility.js:330-347 | a diagnostic exactly when the result is an error, unknown types included |
| Accessibility.HasNoErrors | utility/accessibility.js:330-347 | true iff `error` is false |
| Accessibility.ColorContrastForElement | utility/accessibility.js:47-63 | passes iff there is a ratio and it is at least the minimum (inclusive); an errored pair always fails |
| Accessibility.ErrorBeforeRatio | utility/accessibility.js:47-63 | an errored pair fails even at a threshold of 0 or below, where `null >= min` alone would pass |
| Accessibility.Selected | utility/accessibility.js:35-38 | a falsy selector inspects the component itself; otherwise the matches of the selector |
| Accessibility.FailingIndicesMembers | utility/accessibility.js:38-46 | an index is reported iff it is in range and its element fails |
| Accessibility.FailingIndicesIncreasing | utility/accessibility.js:38-46 | the reported indices are in range and strictly increasing (document order, no repeats) |
| Accessibility.FailingIndicesSpec | utility/accessibility.js:38-46 | the reported indices are exactly the failing elements, in increasing order, and there are none iff all pass |
| Accessibility.CheckEvery | utility/accessibility.js:38-46 | visits every element with no early exit: success iff all pass, every failure reported |
| Accessibility.CheckColorContrast | utility/accessibility.js:35-46 | true iff every selected element passes the single-pair rule; every failing element reported |
| Accessibility.InputContrastForElement | utility/accessibility.js:74-180 | passes iff no pair errs (the highlight pairs only with highlight), font/input-bg (and font/highlight) reach the font ratio, outline/bg reaches the minimum, and border/bg OR input-bg/bg (AND highlight/bg) reaches it |
| Accessibility.InputHighlightOnlyAdds | utility/accessibility.js:137-180 | passing with the error highlight implies passing without it |
| Accessibility.InputThresholdsMonotone | utility/accessibility.js:137-180 | lowering either threshold never turns a pass into a failure |
| Accessibility.CheckInputColorContrast | utility/accessibility.js:64-73 | true iff every selected element passes the input rule; every failing element reported |
| Accessibility.AlertContrastForElement | utility/accessibility.js:192-242 | passes iff no pair errs, font/alert-bg reaches the font ratio, and border/bg OR alert-bg/bg reaches the minimum |
| Accessibility.CheckAlertColorContrast | utility/accessibility.js:182-191 | true iff every selected element passes the alert rule; every failing element reported |
| Accessibility.BulletContrastForElement | utility/accessibility.js:254-328 | passes iff none of the five pairs errs, outline/bg and active/inactive reach the minimum, and border/bg OR (active/bg AND inactive/bg) reaches it |
| Accessibility.CheckBulletPointColorContrast | utility/accessibility.js:244-253 | true iff every selected element passes the bullet rule; every failing element reported |
| Slider.PaginationBulletClass | Molecules/Slider/Slider.accessibility.js:12-13 | `??` falls back to the default only for an unset option: `pagination: false` gives `'false'`, an empty class stays empty |
| Slider.CheckColorContrastPagination | Molecules/Slider/Slider.accessibility.js:11-19 | false without any colour check unless the bullet class is exactly `.swiper-pagination-bullet`; otherwise the bullet rule at 3 on the five slider colours |
| Slider.PaginationOffFails | Molecules/Slider/Slider.accessibility.js:11-17 | `pagination: false` always fails the contrast check |
| Slider.AriaBulletClass | Molecules/Slider/Slider.accessibility.js:55-57 | the `?:` fallback never yields an empty class |
| Slider.BulletClassesAgree | Molecules/Slider/Slider.accessibility.js:12-13 | the two bullet-class fallbacks agree except for `false` and an empty class |
| Slider.PrevButtonClass | Molecules/Slider/Slider.accessibility.js:23-25 | the previous-button selector is never empty |
| Slider.NextButtonClass | Molecules/Slider/Slider.accessibility.js:26-28 | with a truthy `nextEl` the selector is `prevEl`; otherwise `.next-button` |
| Slider.NextButtonUsesPrevSelector | Molecules/Slider/Slider.accessibility.js:26-28 | with both set, the next button is looked up with the previous button's selector, never its own |
| Slider.CheckNavButtonAccessibility | Molecules/Slider/Slider.accessibility.js:90-109 | undefined iff nothing matches; otherwise the first match alone decides: non-empty label, role `button`, `aria-controls` equal to the wrapper id |
| Slider.SlidesAndBulletsLabelled | Molecules/Slider/Slider.accessibility.js:38-68 | the first slide decides (label and role); with no slide the first bullet's label; with neither, true |
| Slider.CheckAriaAttributes | Molecules/Slider/Slider.accessibility.js:20-69 | false with no wrapper; throws exactly when the previous button passes and the next-button selector is `undefined` (a `nextEl` without a `prevEl`); true exactly when the wrapper exists, both navigation checks pass and the slides/bullets pass |
| Slider.MissingPrevButtonFails | Molecules/Slider/Slider.accessibility.js:35-37 | no previous button (undefined is falsy) makes the ARIA check fail |
| Slider.CheckBreakingProperties | Molecules/Slider/Slider.accessibility.js:70-81 | fails iff `allowTouchMove === false` or a truthy `swipeHandler`; both evaluated, each reported |
| Slider.CheckAutoplayAccessibility | Molecules/Slider/Slider.accessibility.js:82-89 | true iff a `.play-pause-btn` exists |
| Slider.CheckSliderAccessibility | Molecules/Slider/Slider.accessibility.js:2-10 | size, pagination and breaking checks first; ARIA unless it throws; autoplay only with `hasAutoplay` and no exception |
| Text.CheckFontSizeForElement | Atoms/Text/Text.accessibility.js:21-43 | passes iff the parsed number is neither 0 nor NaN, the raw value contains `em`, and the number is at least 1.2 |
| Text.OnThresholdValue | Atoms/Text/Text.accessibility.js:24 | `1.2rem` parses to 1.2 |
| Text.BelowThresholdValue | Atoms/Text/Text.accessibility.js:24 | `1.1em` parses to 1.1 |
| Text.FontSizeVerdicts | Atoms/Text/Text.accessibility.js:21-43 | a font size of `1.2rem` passes (exactly on the threshold); `1.1em` fails |
| Text.FontSizeWithoutDigitFails | Atoms/Text/Text.accessibility.js:24-28 | a font size without digits fails |
| Text.RemPassesUnitTest | Atoms/Text/Text.accessibility.js:29 | any `rem` value passes the `em` test (as `'1.2rem'` in utility/setupCssCustomProperties.js does) |
| Text.CheckRootAndNodes | Atoms/Text/Text.accessibility.js:44-53 | the component and every node are visited: success iff all pass |
| Text.CheckFontSize | Atoms/Text/Text.accessibility.js:11-20 | the component and every `.easyLanguage` node pass the font-size rule |
| Text.CheckAlignment | Atoms/Text/Text.accessibility.js:44-61 | no element of the component and its descendants has `--text-align` equal to `justified` |
| Text.CheckAlignmentForEasyLanguage | Atoms/Text/Text.accessibility.js:62-79 | the component and every `.easyLanguage` node have `text-align` exactly `left` |
| Text.CheckWhiteSpace | Atoms/Text/Text.accessibility.js:80-97 | every `.easyLanguage` node has `white-space` exactly `pre-line` |
| Text.WhiteSpaceIgnoresRoot | Atoms/Text/Text.accessibility.js:80-89 | the white-space check does not look at the component itself, unlike the easy-language alignment check |
| Text.CheckFontColorContrast | Atoms/Text/Text.accessibility.js:9 | true iff every descendant (selector `*`, not the component) has its font colour at 7:1 against its background |
| Text.CheckTextAccessibility | Atoms/Text/Text.accessibility.js:2-10 | the easy-language checks run iff `easyLanguage`, first and in the order font size, alignment, white space; alignment and font contrast always run, last |
| MultiSelect.WithAttributeMembers | Atoms/MultiSelect/MultiSelect.accessible.js:39-49 | the collected elements are exactly the descendants carrying the attribute, empty value included |
| MultiSelect.GetAllElementsWithAttribute | Atoms/MultiSelect/MultiSelect.accessible.js:39-49 | returns, in document order, exactly the descendants on which the attribute is present |
| MultiSelect.CheckAutocomplete | Atoms/MultiSelect/MultiSelect.accessible.js:29-38 | false iff some descendant has `autocomplete` exactly `off` |
| MultiSelect.CheckColorContrastComboMenu | Atoms/MultiSelect/MultiSelect.accessible.js:14-17 | true iff the options pass the input rule without highlight in both normal and hover colours at 3/7; a passing menu has its options readable at 7:1 in both |
| MultiSelect.CheckColorContrastSelectedOptions | Atoms/MultiSelect/MultiSelect.accessible.js:18-21 | true iff the `.remove-option` chips pass the input rule without highlight in the primary and primary-hover colours at 3/7; passing chips are readable at 7:1 in both |
| MultiSelect.CheckMultiSelectAccessibility | Atoms/MultiSelect/MultiSelect.accessible.js:2-10 | the size check on `input` first, then all seven checks, none aborting |
| FormControls.CheckIfLabelIsVisible | Atoms/TextInput/TextInput.accessibility.js:22-26 | returns `showLabel` uncoerced; logs iff it is not strictly true; the same body serves SelectInput, NumericInput, BooleanInput |
| FormControls.CheckIfAutocompleteIsOff | Atoms/TextInput/TextInput.accessibility.js:27-31 | false iff `autocomplete` is `off`; an unset prop passes; the same body serves SelectInput, NumericInput, Form |
| FormControls.CheckColorContrastLabel | Atoms/TextInput/TextInput.accessibility.js:15-17 | every `label` reaches 7:1 font against background; the same body serves SelectInput, NumericInput, TextManipulator, BooleanInput, CustomSelectInput, MultiSelect |
| FormControls.CheckInputErrorColorContrast | Atoms/TextInput/TextInput.accessibility.js:19-21 | every `.errorMessage` reaches 7:1 error colour against background; the same body serves SelectInput, NumericInput, BooleanInput, CustomSelectInput, MultiSelect |
| FormControls.CheckColorContrastInput | utility/accessibility.js:64-73 | the text-field table with highlight at 3 and the given font ratio; a passing field is readable on its background and on the highlight, with a visible outline |
| FormControls.CheckColorContrastTextField | Atoms/TextInput/TextInput.accessibility.js:11-13 | true iff every `input` passes the text-field table rule with highlight at 3/7; a passing field is readable at 7:1 on its background and on the highlight, outline at 3:1; the same body serves NumericInput, TextManipulator, MultiSelect |
| FormControls.InputContrastMonotone | Atoms/CustomSelectInput/CustomSelectInput.accessible.js:9-11 | a field passing at font ratio 7 passes at 4.5 |
| FormControls.TwoStateContrast | Atoms/Button/Button.accessibility.js:26-37 | normal AND hover state pass the input rule without highlight; both readable, outline visible |
| FormControls.CheckColorContrastComboMenu | Atoms/MultiSelect/MultiSelect.accessible.js:14-17 | true iff the `.combo-option` elements pass the two-state rule (normal and hover, no highlight) at the given font ratio; passing options are readable in both |
| FormControls.ComboMenuMonotone | Atoms/CustomSelectInput/CustomSelectInput.accessible.js:12-15 | a menu passing at font ratio 7 passes at 4.5 |
| Button.CheckButtonText | Atoms/Button/Button.accessibility.js:17-25 | throws iff there is no `button`; false iff the text is empty and the `aria-label` is empty or absent |
| Button.TextMakesLabelOptional | Atoms/Button/Button.accessibility.js:20 | a non-empty text passes whatever the `aria-label` |
| Button.ThemeOf | Atoms/Button/Button.accessibility.js:5-15 | `primary` and `secondary` select their theme; anything else the default |
| Button.CheckThemeColorContrast | Atoms/Button/Button.accessibility.js:26-37 | true iff the theme's buttons pass the input rule without highlight in normal and hover colours at 3/7; they are then readable at 7:1 in both, outline at 3:1 |
| Button.CheckButtonAccessibility | Atoms/Button/Button.accessibility.js:2-16 | the size check on `button` first; aborts iff there is no `button`; otherwise the text check runs, then exactly the selected theme's check |
| Link.CheckLinkText | Atoms/Link/Link.accessibility.js:11-17 | false iff the text content is empty |
| Link.CheckLinkDescription | Atoms/Link/Link.accessibility.js:18-26 | throws iff there is no `a`; true iff the first `a` has a non-empty `aria-label` or `aria-labelledby` |
| Link.CheckLinkColorContrast | Atoms/Link/Link.accessibility.js:27-31 | every `a` reaches 7:1 in link, hover and visited colours |
| Link.CheckOutlineColorContrast | Atoms/Link/Link.accessibility.js:32-34 | every `a` has its outline at 3:1 |
| Link.CheckLinkAccessibility | Atoms/Link/Link.accessibility.js:2-10 | text first; aborts iff there is no `a`; otherwise the description second, the size check iff not inline, and the colour then outline contrast last |
| Form.CheckIfAriaLabelWasSet | Atoms/Form/Form.accessibility.js:8-14 | true iff the label is set and non-empty |
| Form.CheckFormColorContrast | Atoms/Form/Form.accessibility.js:20-22 | every `form` reaches 7:1 font against background |
| Form.CheckStatusColorContrast | Atoms/Form/Form.accessibility.js:23-28 | every status passes the alert rule at 3/7; each status text is readable at 7:1 on its own background |
| Form.Examined | Atoms/Form/Form.accessibility.js:24-27 | the `&&` chain evaluates no more statuses than there are |
| Form.ExaminedSpec | Atoms/Form/Form.accessibility.js:24-27 | the evaluated statuses are a prefix, all pass but the last, the last fails unless all were reached, and they decide the verdict |
| Form.StatusShortCircuit | Atoms/Form/Form.accessibility.js:23-28 | info is evaluated first, and the short-circuit does not change the verdict |
| Form.CheckFormAccessibility | Atoms/Form/Form.accessibility.js:2-7 | exactly the four checks in source order, none aborting |
| TextInput.CheckTextInputAccessibility | Atoms/TextInput/TextInput.accessibility.js:2-9 | size on `input` first, all six checks, label before autocomplete |
| SelectInput.CheckColorContrastInput | Atoms/SelectInput/SelectInput.accessibility.js:10-12 | true iff every `select` passes the text-field table rule with highlight at 3/7; a passing field is readable at 7:1 on its background and on the highlight, outline at 3:1 |
| SelectInput.CheckSelectInputAccessibility | Atoms/SelectInput/SelectInput.accessibility.js:2-9 | size on `select` first, all six checks, errors before labels |
| NumericInput.CheckNumericInputAccessibility | Atoms/NumericInput/NumericInput.accessibility.js:2-9 | size on `input` first, all six checks, autocomplete before label |
| TextManipulator.CheckLabelTexts | Atoms/TextManipulator/TextManipulator.accessibility.js:9-17 | true iff both labels are non-empty; each missing label reported on its own |
| TextManipulator.CheckUnitBoxColorContrast | Atoms/TextManipulator/TextManipulator.accessibility.js:24-26 | every `.unit-box` reaches 7:1 font against the unit-box background |
| TextManipulator.CheckTextManipulatorAccessibility | Atoms/TextManipulator/TextManipulator.accessibility.js:2-8 | the size check first, then the other four |
| MediaText.CheckFontColorContrast | Molecules/TextVideo/TextVideo.accessibility.js:24-26 | every `.text-section` reaches 7:1 font against background; the same body serves TextImage |
| TextVideo.CheckTextVideoSlots | Molecules/TextVideo/TextVideo.accessibility.js:6-23 | true iff the controls are shown and an alternative exists; alternatives without content are reported but do not change the verdict |
| TextVideo.CheckTextVideoAccessibility | Molecules/TextVideo/TextVideo.accessibility.js:2-5 | font contrast, then the slots |
| BooleanInput.CheckColorContrastInput | Atoms/BooleanInput/BooleanInput.accessibility.js:22-24 | the check-box table with highlight at 3/3: selected colour at 3:1 on the box and on the highlight, outline at 3:1 |
| BooleanInput.CheckBooleanInputAccessibility | Atoms/BooleanInput/BooleanInput.accessibility.js:2-7 | three contrast checks, then the label; no size check |
| CustomSelectInput.CheckColorContrastInput | Atoms/CustomSelectInput/CustomSelectInput.accessible.js:9-11 | true iff every `.combo-input` passes the text-field table rule with highlight at 3/4.5; a passing field is readable at 4.5:1 on its background and on the highlight, outline at 3:1 |
| CustomSelectInput.CheckColorContrastComboMenu | Atoms/CustomSelectInput/CustomSelectInput.accessible.js:12-15 | true iff the options pass the two-state rule at 3/4.5; options readable at 4.5:1 in normal and hover colours; implied by the 7:1 menu check |
| CustomSelectInput.CheckCustomSelectAccessibility | Atoms/CustomSelectInput/CustomSelectInput.accessible.js:2-8 | size on `.combo-input` first, then the four contrast checks |
| TextImage.CheckAltTag | Molecules/TextImage/TextImage.accessibility.js:7-14 | throws iff there is no `img`; false iff its `alt` is empty or absent |
| TextImage.CheckFullImageFontColorContrast | Molecules/TextImage/TextImage.accessibility.js:15-17 | every `.text-section` reaches 21:1 font against its outline |
| TextImage.CheckTextImageAccessibility | Molecules/TextImage/TextImage.accessibility.js:2-6 | alt text first; aborts iff there is no `img`; otherwise both contrast checks |
| Modal.CheckColorContrastModal | Molecules/Modal/Modal.accessibility.js:5-7 | only the component itself is inspected: its border reaches 21:1 against the background |
| Modal.ModalIgnoresDescendants | Molecules/Modal/Modal.accessibility.js:6 | descendants never change the verdict |
| Modal.CheckModalAccessibility | Molecules/Modal/Modal.accessibility.js:2-4 | the border check alone |

## Left out

- DOM access: `getComputedStyle`, `querySelector`/`querySelectorAll`, `getElementsByTagName`,
  `textContent`, `childNodes` and `window.matchMedia` are input data (`Dom`, `coarse`).
- Console output and message text, including `toFixed(2)` and `replaceAll`. They do not change
  results. What a log reveals about control flow is kept as data: failing indices, the first
  size violation, the breaking-property warnings, the missing labels and the evaluated statuses.
- The `color` package: CSS colour parsing and the relative-luminance formula are foreign
  floating-point code. They are the parameters `parse` and `contrast`. Channels and ratios are
  `real`, with no rounding or clamping in the channel setters.
- Invalid selectors: `querySelector('')` throws in a browser. `Dom.QueryAll` returns no element
  for the empty selector (for example an empty `wrapperClass`) instead of modelling that
  exception.
- ToNumber: the value of unary `+` is the exact decimal as a `real`; IEEE-754 double rounding
  is not modelled. A literal within one rounding step of a threshold (16 or more significant
  digits, such as `43.999999999999999px` or `1.1999999999999999em`) can get the opposite
  verdict from the browser, and integers above 2^53 are exact here but rounded there.
- LiteralValue: `whole + fraction / 10^n` exactly, for the same reason as ToNumber.
- ToNumberDecimal: states the exact literal value, not the nearest double, as ToNumber.
- IntegerWithUnit: states the exact integer the digits spell, not its rounding above 2^53.
- DecimalWithUnit: states the exact literal value, not the nearest double, as ToNumber.
- ParseSize: inherits the exact values of ToNumber, so a width or height within one double
  rounding step of 44 can be judged differently from the browser.
- CheckFontSizeForElement: inherits the exact values of ToNumber, so a font size within one
  double rounding step of 1.2 can be judged differently from the browser.
- The `try`/`catch` in `checkFontSizeForElement` (Atoms/Text/Text.accessibility.js:23-41): the
  modelled parse cannot throw, so the catch branch is unreachable.
- Which checks a short-circuit `&&` between engine calls skips: it changes only the logs. It is
  kept only for the status messages of the form (`Form.Examined`).
- Entry-point verdicts are not modelled: the entry points return nothing. Their reports record
  which checks ran and whether an exception ended the audit.
- Entry points without conditions take no parameters: their props change only the verdicts they
  discard.
- utility/localStorageStore.js, utility/setupCssCustomProperties.js,
  utility/setupWindowProperties.js and the `.d.ts` typings are not part of this model: they are
  storage I/O, test setup and type declarations.
