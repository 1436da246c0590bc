/** The form audit (Atoms/Form/Form.accessibility.js): an `aria-label` for the close button of the
    status message, autocomplete not turned off, and the contrast of the form text and of the
    four status messages. */
module Form {
  import opened Js
  import opened Dom
  import opened Wcag
  import opened ColorContrastChecker
  import opened Accessibility
  import opened FormControls
  import opened Audit

  /** `checkIfAriaLabelWasSet(component, ariaLabel)`: the label must be truthy, that is set and
      not empty. */
  function CheckIfAriaLabelWasSet(ariaLabel: Option<string>): (ok: bool)
    ensures ok <==> ariaLabel.Some? && ariaLabel.value != ""
  {
    if !Truthy(ariaLabel) then false else true
  }

  /** `checkFormColorContrast(component)`: the font colour of every `form` against the background,
      at the engine's default ratio 7. */
  function CheckFormColorContrast(lib: ColorLibrary, c: Component): (ok: bool)
    ensures ok <==> forall e :: e in QueryAll(c, "form") ==> Meets(Pair(lib, e, "--font-color", "--bg-color"), EnhancedContrast)
  {
    assert Selected(c, Some("form")) == QueryAll(c, "form");
    ColorContrastHolds(lib, c, "--font-color", "--bg-color", Some("form"), EnhancedContrast)
  }

  /** The four kinds of status message, in the order they are checked. */
  datatype Status = Info | Success | Warn | Error

  function StatusName(s: Status): string
  {
    match s
    case Info => "info"
    case Success => "success"
    case Warn => "warn"
    case Error => "error"
  }

  /** The class of a status message, `.info` to `.error`. */
  function StatusSelector(s: Status): string
  {
    "." + StatusName(s)
  }

  /** The alert table of a status: `--<name>-color`, `--bg-color`, `--<name>-bg` and
      `--<name>-border-color`. */
  function StatusColors(s: Status): AlertColors
  {
    var n := StatusName(s);
    AlertColors("--" + n + "-color", "--bg-color", "--" + n + "-bg", "--" + n + "-border-color")
  }

  /** One status passes the alert rule at the non-text ratio 3 and the font ratio 7. */
  predicate StatusHolds(lib: ColorLibrary, c: Component, s: Status)
  {
    AlertContrastHolds(lib, c, StatusColors(s), StatusSelector(s), NonTextContrast, EnhancedContrast)
  }

  const Statuses: seq<Status> := [Info, Success, Warn, Error]

  /** `checkStatusColorContrast(component)`: the four statuses joined by `&&`. Every status must
      pass, and in a passing form each message's text is readable at 7:1 on its own background. */
  function CheckStatusColorContrast(lib: ColorLibrary, c: Component): (ok: bool)
    ensures ok <==> forall s :: s in Statuses ==> StatusHolds(lib, c, s)
    ensures ok ==> forall s, e :: s in Statuses && e in QueryAll(c, StatusSelector(s)) ==>
      Meets(Pair(lib, e, StatusColors(s).font, StatusColors(s).alertBackground), EnhancedContrast)
  {
    StatusHolds(lib, c, Info) && StatusHolds(lib, c, Success) && StatusHolds(lib, c, Warn) && StatusHolds(lib, c, Error)
  }

  /** The verdict of each status in one component. */
  function StatusVerdicts(lib: ColorLibrary, c: Component): Status -> bool
  {
    s => StatusHolds(lib, c, s)
  }

  /** The statuses `&&` evaluates, from `pending` in order, given each one's verdict: each one
      up to and including the first that fails. */
  function Examined(holds: Status -> bool, pending: seq<Status>): (examined: seq<Status>)
    ensures |examined| <= |pending|
  {
    if pending == [] then []
    else if !holds(pending[0]) then [pending[0]]
    else [pending[0]] + Examined(holds, pending[1..])
  }

  /** The evaluated statuses are a prefix of the pending ones, all but the last pass, and the
      last fails unless every status was reached. They decide the verdict: the short-circuit
      changes which statuses are checked (and logged), not the result. */
  lemma {:induction false} ExaminedSpec(holds: Status -> bool, pending: seq<Status>)
    ensures Examined(holds, pending) <= pending
    ensures pending != [] ==> Examined(holds, pending) != []
    ensures forall i :: 0 <= i < |Examined(holds, pending)| - 1 ==> holds(Examined(holds, pending)[i])
    ensures |Examined(holds, pending)| < |pending| ==> !holds(Examined(holds, pending)[|Examined(holds, pending)| - 1])
    ensures (forall s :: s in pending ==> holds(s)) <==> (forall s :: s in Examined(holds, pending) ==> holds(s))
  {
    if pending != [] && holds(pending[0]) {
      var rest := Examined(holds, pending[1..]);
      ExaminedSpec(holds, pending[1..]);
      assert pending == [pending[0]] + pending[1..];
      assert Examined(holds, pending) == [pending[0]] + rest;
      forall s | s in pending ensures s == pending[0] || s in pending[1..] { }
    }
  }

  /** In the form's order, info is evaluated first, and the evaluated statuses decide the
      verdict. */
  lemma StatusShortCircuit(lib: ColorLibrary, c: Component)
    ensures CheckStatusColorContrast(lib, c) <==> forall s :: s in Examined(StatusVerdicts(lib, c), Statuses) ==> StatusHolds(lib, c, s)
    ensures Examined(StatusVerdicts(lib, c), Statuses)[0] == Info
  {
    ExaminedSpec(StatusVerdicts(lib, c), Statuses);
  }

  /** The checks `checkFormAccessibility` runs. */
  datatype Check = AriaLabel | Autocomplete | FormColorContrast | StatusColorContrast

  /** `checkFormAccessibility(component, statusCloseAriaLabel, autocomplete)`: the four checks in
      order, none of which can throw. */
  function CheckFormAccessibility(): (r: Report<Check>)
    ensures !r.aborted && |r.checks| == 4
    ensures RanBefore(r, AriaLabel, Autocomplete) && RanBefore(r, FormColorContrast, StatusColorContrast)
    ensures r.checks == [AriaLabel, Autocomplete, FormColorContrast, StatusColorContrast]
  {
    var checks := [AriaLabel, Autocomplete, FormColorContrast, StatusColorContrast];
    assert checks[0] == AriaLabel && checks[1] == Autocomplete;
    assert checks[2] == FormColorContrast && checks[3] == StatusColorContrast;
    Report(checks, false)
  }
}
