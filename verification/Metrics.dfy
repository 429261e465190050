/** The metrics that move through the agent, reduced to their identity. */
module Metrics {

  /** A telegraf.Metric: either a plain one or a tracking handle. A tracking metric is one
      of several handles of a group; `origin` is the position of the metric in that group
      of which this handle is a copy. */
  datatype Metric = Plain(id: nat) | Tracked(handle: nat, origin: nat)
}
