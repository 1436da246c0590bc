/** What a widget's audit entry point does. The entry points return nothing: they call their
    checks in order, discard every verdict (each check only logs), and stop when a check throws.
    What an audit shows is therefore which checks ran, in which order, and whether it was cut
    short. Each widget names its checks with its own datatype `C`; the verdict of a check is the
    function of the widget module that models it. */
module Audit {

  /** The checks an entry point ran, in order, and whether it stopped at an exception. */
  datatype Report<C> = Report(checks: seq<C>, aborted: bool)

  /** Check `a` ran before check `b`. */
  predicate RanBefore<C(==)>(r: Report<C>, a: C, b: C)
  {
    exists i, j :: 0 <= i < j < |r.checks| && r.checks[i] == a && r.checks[j] == b
  }
}
