/** The WCAG 2.1 thresholds the auditors use. */
module Wcag {
  /** Success Criterion 1.4.11 (Non-text Contrast): 3:1 for user-interface components. */
  const NonTextContrast: real := 3.0
  /** Success Criterion 1.4.3 (Contrast, Minimum): 4.5:1 for text. */
  const MinimumContrast: real := 4.5
  /** Success Criterion 1.4.6 (Contrast, Enhanced): 7:1 for text. */
  const EnhancedContrast: real := 7.0
  /** The largest contrast ratio the formula can give (black on white). */
  const MaximumContrast: real := 21.0
  /** Success Criterion 2.5.5 (Target Size): 44 by 44 CSS pixels. */
  const TargetSize: real := 44.0
}
