/** The score_engine row of a tenant. */
module ScoreEngine {
  import opened Basics

  /** Percentages. */
  datatype Weights = Weights(ai: int, rspamd: int, attachments: int, links: int)

  datatype Thresholds = Thresholds(
    blocked: int, high: int, warning: int, caution: int, info: int, passBelow: int, flagAbove: int)

  /** The columns no tuning update owns. */
  datatype Others = Others(scoreBase: int, tagEnabled: bool, tagPrefix: string, tier2: Option<string>)

  datatype Row = Row(weights: Weights, thresholds: Thresholds, others: Others)
}
