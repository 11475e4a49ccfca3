/** Notification triggers and targets, and which of them a host is excluded from. */
module Notifications {
  import opened Wrappers
  import Text

  type Url = string

  datatype Trigger =
    | DrainOn | DrainOff | GraceEntered | Alert | Healthy | SessionWarning
    | CpuWarning | CpuCritical | InputDelayWarning | InputDelayCritical | MemoryWarning | MemoryCritical
    | EventSpike
    | Unknown(name: string)

  datatype Kind = Webhook | Ntfy | Email | OtherKind(name: string)

  datatype ServerExclusion = ServerExclusion(server: string, triggers: seq<Trigger>)

  datatype Target = Target(kind: Kind, url: Url, triggers: seq<Trigger>, repeatMinutes: int, from: string,
                           to: seq<string>,
                           enabled: Option<bool>, severity: string, exclusions: seq<ServerExclusion>)

  const DEFAULT_TRIGGERS: seq<Trigger> := [DrainOn, DrainOff, Alert, Healthy]

  function Subscribed(triggers: seq<Trigger>): seq<Trigger> {
    if triggers == [] then DEFAULT_TRIGGERS else triggers
  }

  predicate HasTrigger(t: Target, trigger: Trigger) {
    trigger in Subscribed(t.triggers)
  }

  // The same host, or the same short name when either is a bare name.
  predicate SameServer(a: string, b: string) {
    || Text.Lower(a) == Text.Lower(b)
    || (('.' !in a || '.' !in b) && Text.Lower(Text.BeforeDot(a)) == Text.Lower(Text.BeforeDot(b)))
  }

  predicate Excludes(e: ServerExclusion, name: string, trigger: Trigger) {
    SameServer(Text.HostName(e.server), name) && trigger in e.triggers
  }

  // Whether one of the exclusions covers this host and trigger.
  predicate Covers(exclusions: seq<ServerExclusion>, name: string, trigger: Trigger) {
    exists e :: e in exclusions && Excludes(e, name, trigger)
  }

  predicate ExcludesServer(t: Target, server: string, trigger: Trigger) {
    Covers(t.exclusions, Text.HostName(server), trigger)
  }

  predicate GloballyExcluded(exclusions: seq<string>, host: string) {
    Text.CanonicalHost(host) != "" &&
    exists i :: 0 <= i < |exclusions| && Text.CanonicalHost(exclusions[i]) == Text.CanonicalHost(host)
  }

  // Triggers that repeat at most once per interval.
  predicate IsRepeat(t: Trigger) {
    t.Alert? || t.SessionWarning? || t.EventSpike? || IsPerf(t)
  }

  predicate IsPerf(t: Trigger) {
    t.CpuWarning? || t.CpuCritical? || t.InputDelayWarning? || t.InputDelayCritical? ||
    t.MemoryWarning? || t.MemoryCritical?
  }

  // The warning that a critical trigger stands for as well.
  function Subordinate(t: Trigger): (r: Option<Trigger>)
    ensures r.Some? ==> IsPerf(t) && IsPerf(r.value) && r.value != t
  {
    match t
    case CpuCritical => Some(CpuWarning)
    case MemoryCritical => Some(MemoryWarning)
    case InputDelayCritical => Some(InputDelayWarning)
    case _ => None
  }

  const MINUTE := 60

  // A repeating trigger is due if it was never sent, or long enough ago; without an interval
  // it is sent once.  Times are in seconds.
  predicate Due(last: Option<int>, repeatMinutes: int, now: int) {
    last.None? || (repeatMinutes > 0 && now - last.value >= repeatMinutes * MINUTE)
  }
}
