/** The per-query settings bundle, reduced to the fields the distributed read
    reads or writes; everything else is carried as an opaque remainder. */
module QuerySettings {

  /** `settings.limits`; `maxExecutionTime` is a time span, zero meaning unlimited. */
  datatype Limits = Limits(maxExecutionTime: nat, other: string)

  datatype Settings = Settings(signRewrite: bool, queueMaxWaitMs: nat, limits: Limits, other: string)

  /** `a` and `b` agree on every field except the rewrite flag and the queue wait. */
  ghost predicate AgreeOutsideRewriteAndWait(a: Settings, b: Settings)
  {
    a.limits == b.limits && a.other == b.other
  }

  /** The settings a distributed read hands to every participant: further
      rewriting suppressed and the queue wait bounded by the execution-time
      limit through the cluster's `saturate` collaborator. */
  function DeriveSettings(settings: Settings, saturate: (nat, nat) -> nat): (r: Settings)
    ensures !r.signRewrite
    ensures r.queueMaxWaitMs == saturate(settings.queueMaxWaitMs, settings.limits.maxExecutionTime)
    ensures AgreeOutsideRewriteAndWait(r, settings)
  {
    settings.(signRewrite := false,
              queueMaxWaitMs := saturate(settings.queueMaxWaitMs, settings.limits.maxExecutionTime))
  }

  /** A nested distributed table derives again from already derived settings:
      rewriting stays suppressed and the limits stay those of the outer caller.
      This is a direct two-step use of the `DeriveSettings` contract. */
  lemma NestedDerivationKeepsSuppression(settings: Settings, saturate: (nat, nat) -> nat)
    ensures !DeriveSettings(DeriveSettings(settings, saturate), saturate).signRewrite
    ensures DeriveSettings(DeriveSettings(settings, saturate), saturate).limits == settings.limits
  {
  }
}
