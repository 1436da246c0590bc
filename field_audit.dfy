/** What the entry points of the three text-like fields (TextInput, SelectInput, NumericInput)
    run: the same six checks, differing in the selector and in their order. */
module FieldAudit {
  import opened Audit

  /** The checks the entry points of TextInput, SelectInput and NumericInput run; the size and
      input-contrast checks record the selector they run on. */
  datatype FieldCheck = InputSize(selector: string) | LabelVisible | Autocomplete
                      | ColorContrastInput(selector: string) | ColorContrastLabel | InputErrorColorContrast

  /** An audit of a text-like field on `selector`: not cut short, the size check first, then each
      of the other five checks once. */
  predicate RunsEveryFieldCheck(r: Report<FieldCheck>, selector: string)
  {
    && !r.aborted && |r.checks| == 6 && r.checks[0] == InputSize(selector)
    && LabelVisible in r.checks && Autocomplete in r.checks && ColorContrastInput(selector) in r.checks
    && ColorContrastLabel in r.checks && InputErrorColorContrast in r.checks
  }
}
