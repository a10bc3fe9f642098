/** Severities of a log call and the rule that decides whether a logger's
    threshold admits a call. */
module Levels {

  /** The ordinals of the `level` enumeration: `silent` is -1, then `fatal`,
      `error`, `warning`, `notice` and `info` are 0 .. 4. A lower ordinal is a
      more severe message. */
  type Level = x: int | -1 <= x <= 4

  const Silent: Level := -1
  const Fatal: Level := 0
  const Error: Level := 1
  const Warning: Level := 2
  const Notice: Level := 3
  const Info: Level := 4

  /** A severity of a real message class, one that has an entry in the
      five-entry label table. */
  predicate IsReal(sev: Level) {
    0 <= sev
  }

  /** A call at severity `sev` passes a logger whose threshold is `threshold`:
      it is at least as severe as the threshold. */
  predicate Admits(threshold: Level, sev: Level) {
    sev <= threshold
  }

  /** With the threshold at `silent`, no real severity is admitted. */
  lemma SilentAdmitsNoRealSeverity(sev: Level)
    requires IsReal(sev)
    ensures !Admits(Silent, sev)
  {
  }

  /** A threshold admits exactly the real severities at or above it; for the
      threshold `warning` these are `fatal`, `error` and `warning`. */
  lemma WarningThresholdAdmits(sev: Level)
    requires IsReal(sev)
    ensures Admits(Warning, sev) <==> sev == Fatal || sev == Error || sev == Warning
  {
  }

  /** The `silent` sentinel is not excluded from call severities: a call made
      at `silent` passes every threshold, `silent` included. */
  lemma SilentCallIsAdmitted(threshold: Level)
    ensures Admits(threshold, Silent)
  {
  }
}
