/** The values every part of the client passes around: signals and routes
    (crates/core/src/signal.rs, crates/core/src/routing.rs). */
module Model {
  import opened Basics

  datatype Severity = Info | Success | Warning | Error | Critical

  datatype Action = Trigger | Acknowledge | Resolve

  /** A stamped signal. `metadata` maps each dotted path to its text. */
  datatype Signal = Signal(
    id: nat,
    source: string,
    service: Option<string>,
    component: Option<string>,
    eventType: string,
    severity: Severity,
    title: string,
    environment: Option<string>,
    team: Option<string>,
    runId: Option<string>,
    correlationId: Option<string>,
    metadata: map<string, string>,
    dedupKey: Option<string>,
    action: Action)

  datatype RouteMatch = RouteMatch(severity: seq<Severity>, environment: Option<string>, source: Option<string>) {
    predicate MatchesAnySeverity(signal: Signal) {
      && (environment.Some? ==> signal.environment == environment)
      && (source.Some? ==> signal.source == source.value)
    }

    predicate Matches(signal: Signal) {
      && (severity != [] ==> signal.severity in severity)
      && MatchesAnySeverity(signal)
    }
  }

  datatype DeliveryMode = Failover | Fanout

  /** At most `max` sends per `per` seconds. */
  datatype RateLimit = RateLimit(max: nat, per: nat)

  const DEFAULT_GROUP_WAIT: nat := 30

  /** A route; its windows are whole seconds. */
  datatype Route = Route(
    rule: RouteMatch,
    providers: seq<string>,
    mode: DeliveryMode,
    dedup: Option<nat>,
    rateLimit: Option<RateLimit>,
    groupBy: Option<seq<string>>,
    groupWait: Option<nat>) {

    predicate IsThrottled() {
      dedup.Some? || rateLimit.Some?
    }

    predicate IsGrouped() {
      groupBy.Some? || groupWait.Some?
    }

    function GroupWindow(): Option<nat> {
      if IsGrouped() then Some(if groupWait.Some? then groupWait.value else DEFAULT_GROUP_WAIT) else None
    }

    /** Whether planning must ask the throttle about this route. A grouped
        route is asked about `dedup` only. */
    predicate GatesSignals() {
      if IsGrouped() then dedup.Some? else IsThrottled()
    }
  }
}
