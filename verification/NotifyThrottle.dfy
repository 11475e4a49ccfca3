/**
 The notification throttle: per target and trigger, a repeat interval; a critical trigger
 also holds back the matching warning.  Times are in seconds.
 */
module NotifyThrottle {
  import opened Wrappers
  import opened Notifications

  // --------------------------------------------------------------------- stamps

  datatype Stamps = Stamps(alert: map<Url, int>, session: map<Url, int>, perf: map<Url, map<Trigger, int>>)

  function LastSent(st: Stamps, url: Url, trigger: Trigger): Option<int> {
    match trigger
    case Alert => if url in st.alert then Some(st.alert[url]) else None
    case SessionWarning => if url in st.session then Some(st.session[url]) else None
    case _ => if url in st.perf && trigger in st.perf[url] then Some(st.perf[url][trigger]) else None
  }

  function SetLastSent(st: Stamps, url: Url, trigger: Trigger, at: int): Stamps {
    match trigger
    case Alert => st.(alert := st.alert[url := at])
    case SessionWarning => st.(session := st.session[url := at])
    case _ => st.(perf := st.perf[url := (if url in st.perf then st.perf[url] else map[])[trigger := at]])
  }

  lemma LastAfterSet(st: Stamps, url: Url, trigger: Trigger, at: int, u: Url, t: Trigger)
    ensures LastSent(SetLastSent(st, url, trigger, at), u, t) ==
      if u == url && t == trigger then Some(at) else LastSent(st, u, t)
  {
  }

  // ------------------------------------------------------------------ the rule

  predicate Wanted(t: Target, host: string, trigger: Trigger) {
    t.enabled != Some(false) && t.url != "" && HasTrigger(t, trigger) && !ExcludesServer(t, host, trigger)
  }

  predicate Sendable(t: Target) {
    !t.kind.OtherKind?
  }

  // What the throttle did: let a target through (and perhaps send), forgot every alert, or
  // forgot targets that are configured no more.
  datatype Entry =
    | Passed(at: int, url: Url, trigger: Trigger, repeatMinutes: int, sent: bool)
    | AlertsCleared
    | Pruned(kept: set<Url>)

  datatype State = State(stamps: Stamps, log: seq<Entry>)

  function Stamped(st: Stamps, url: Url, trigger: Trigger, now: int): Stamps {
    var st1 := SetLastSent(st, url, trigger, now);
    match Subordinate(trigger)
    case Some(warning) => SetLastSent(st1, url, warning, now)
    case None => st1
  }

  predicate Passes(st: Stamps, t: Target, host: string, trigger: Trigger, now: int) {
    Wanted(t, host, trigger) && (IsRepeat(trigger) ==> Due(LastSent(st, t.url, trigger), t.repeatMinutes, now))
  }

  function Visit(s: State, t: Target, host: string, trigger: Trigger, now: int): State {
    if !Passes(s.stamps, t, host, trigger, now) then s
    else State(if IsRepeat(trigger) then Stamped(s.stamps, t.url, trigger, now) else s.stamps,
               s.log + [Passed(now, t.url, trigger, t.repeatMinutes, Sendable(t))])
  }

  function VisitAll(s: State, targets: seq<Target>, host: string, trigger: Trigger, times: seq<int>): State
    requires |times| == |targets|
    decreases |targets|
  {
    if targets == [] then s
    else VisitAll(Visit(s, targets[0], host, trigger, times[0]), targets[1..], host, trigger, times[1..])
  }

  // The targets a round of visits sends to, in order.
  function Sends(s: State, targets: seq<Target>, host: string, trigger: Trigger, times: seq<int>): seq<Target>
    requires |times| == |targets|
    decreases |targets|
  {
    if targets == [] then [] else
      var later := Sends(Visit(s, targets[0], host, trigger, times[0]), targets[1..], host, trigger, times[1..]);
      if Passes(s.stamps, targets[0], host, trigger, times[0]) && Sendable(targets[0])
          then [targets[0]] + later else later
  }

  function ClearAlerts(s: State): State {
    State(s.stamps.(alert := map[]), s.log + [AlertsCleared])
  }

  function Notified(s: State, targets: seq<Target>, exclusions: seq<string>, host: string, trigger: Trigger,
                    times: seq<int>): State
    requires |times| == |targets|
  {
    if GloballyExcluded(exclusions, host) || targets == [] then s
    else VisitAll(if trigger.Healthy? || trigger.DrainOff? then ClearAlerts(s) else s, targets, host, trigger, times)
  }

  // The targets a notification is sent to, in order.
  function Recipients(s: State, targets: seq<Target>, exclusions: seq<string>, host: string, trigger: Trigger,
                      times: seq<int>): seq<Target>
    requires |times| == |targets|
  {
    if GloballyExcluded(exclusions, host) || targets == [] then []
    else Sends(if trigger.Healthy? || trigger.DrainOff? then ClearAlerts(s) else s, targets, host, trigger, times)
  }

  function PruneState(s: State, kept: set<Url>): State {
    State(Stamps(map u | u in s.stamps.alert && u in kept :: s.stamps.alert[u],
                 map u | u in s.stamps.session && u in kept :: s.stamps.session[u],
                 map u | u in s.stamps.perf && u in kept :: s.stamps.perf[u]),
          s.log + [Pruned(kept)])
  }

  // ------------------------------------------------------- what the log says

  predicate StampsFor(e: Entry, url: Url, trigger: Trigger) {
    e.Passed? && e.url == url && IsRepeat(e.trigger) &&
    (e.trigger == trigger || Subordinate(e.trigger) == Some(trigger))
  }

  predicate Clears(e: Entry, url: Url, trigger: Trigger) {
    (e.AlertsCleared? && trigger.Alert?) || (e.Pruned? && url !in e.kept)
  }

  // A stamp at position j that nothing has cleared since.
  predicate Live(log: seq<Entry>, j: nat, url: Url, trigger: Trigger) {
    j < |log| && StampsFor(log[j], url, trigger) && forall k :: j < k < |log| ==> !Clears(log[k], url, trigger)
  }

  function LastLive(log: seq<Entry>, url: Url, trigger: Trigger): Option<int> {
    if log == [] then None
    else
      var e := log[|log| - 1];
      if StampsFor(e, url, trigger) then Some(e.at)
      else if Clears(e, url, trigger) then None
      else LastLive(log[..|log| - 1], url, trigger)
  }

  predicate InOrder(log: seq<Entry>, clock: int) {
    && (forall i :: 0 <= i < |log| && log[i].Passed? ==> log[i].at <= clock)
    && (forall i, j :: 0 <= i < j < |log| && log[i].Passed? && log[j].Passed? ==> log[i].at <= log[j].at)
  }

  lemma LastLiveSnoc(log: seq<Entry>, e: Entry, url: Url, trigger: Trigger)
    ensures LastLive(log + [e], url, trigger) ==
      if StampsFor(e, url, trigger) then Some(e.at)
      else if Clears(e, url, trigger) then None else LastLive(log, url, trigger)
  {
    assert (log + [e])[..|log|] == log;
  }

  lemma LiveSnoc(log: seq<Entry>, e: Entry, j: nat, url: Url, trigger: Trigger)
    ensures Live(log + [e], j, url, trigger) <==>
      (j == |log| && StampsFor(e, url, trigger)) || (Live(log, j, url, trigger) && !Clears(e, url, trigger))
  {
    if j < |log| {
      assert forall k :: j < k < |log| ==> (log + [e])[k] == log[k];
      assert (log + [e])[|log|] == e;
    }
  }

  // The last live stamp is live, and no live stamp is later.
  lemma {:induction false} LastLiveIsLatest(log: seq<Entry>, clock: int, url: Url, trigger: Trigger)
    requires InOrder(log, clock)
    ensures LastLive(log, url, trigger).None? ==> forall j: nat :: !Live(log, j, url, trigger)
    ensures LastLive(log, url, trigger).Some? ==>
      (exists j: nat :: Live(log, j, url, trigger) && log[j].at == LastLive(log, url, trigger).value) &&
      (forall j: nat :: Live(log, j, url, trigger) ==> log[j].at <= LastLive(log, url, trigger).value)
  {
    if log != [] {
      var n := |log| - 1;
      var e, rest := log[n], log[..n];
      assert log == rest + [e];
      LastLiveIsLatest(rest, clock, url, trigger);
      forall j: nat
        ensures Live(log, j, url, trigger) <==>
                (j == n && StampsFor(e, url, trigger)) || (Live(rest, j, url, trigger) && !Clears(e, url, trigger))
      {
        LiveSnoc(rest, e, j, url, trigger);
      }
    }
  }

  // --------------------------------------------------------------- the invariant

  ghost predicate Remembers(s: State) {
    forall url, trigger :: LastSent(s.stamps, url, trigger) == LastLive(s.log, url, trigger)
  }

  // At least the target's interval after every live stamp; never, if it repeats only once.
  predicate SpacedFrom(repeatMinutes: int, now: int, stamp: int) {
    repeatMinutes > 0 && now - stamp >= repeatMinutes * MINUTE
  }

  ghost predicate Spaced(log: seq<Entry>, i: nat)
    requires i < |log|
  {
    log[i].Passed? && IsRepeat(log[i].trigger) ==>
      forall j: nat :: Live(log[..i], j, log[i].url, log[i].trigger) ==>
        SpacedFrom(log[i].repeatMinutes, log[i].at, log[j].at)
  }

  ghost predicate Inv(s: State, clock: int) {
    Remembers(s) && InOrder(s.log, clock) && forall i: nat :: i < |s.log| ==> Spaced(s.log, i)
  }

  lemma StampedRemembers(s: State, e: Entry)
    requires Remembers(s) && e.Passed? && IsRepeat(e.trigger)
    ensures Remembers(State(Stamped(s.stamps, e.url, e.trigger, e.at), s.log + [e]))
  {
    var st1 := SetLastSent(s.stamps, e.url, e.trigger, e.at);
    forall url, trigger
      ensures LastSent(Stamped(s.stamps, e.url, e.trigger, e.at), url, trigger) == LastLive(s.log + [e], url, trigger)
    {
      LastLiveSnoc(s.log, e, url, trigger);
      LastAfterSet(s.stamps, e.url, e.trigger, e.at, url, trigger);
      if Subordinate(e.trigger).Some? {
        LastAfterSet(st1, e.url, Subordinate(e.trigger).value, e.at, url, trigger);
      }
    }
  }

  lemma QuietRemembers(s: State, e: Entry)
    requires Remembers(s) && e.Passed? && !IsRepeat(e.trigger)
    ensures Remembers(s.(log := s.log + [e]))
  {
    forall url, trigger ensures LastSent(s.stamps, url, trigger) == LastLive(s.log + [e], url, trigger) {
      LastLiveSnoc(s.log, e, url, trigger);
    }
  }

  lemma SpacedEarlier(log: seq<Entry>, e: Entry)
    requires forall i: nat :: i < |log| ==> Spaced(log, i)
    requires Spaced(log + [e], |log|)
    ensures forall i: nat :: i < |log| + 1 ==> Spaced(log + [e], i)
  {
    forall i: nat | i < |log| ensures Spaced(log + [e], i) {
      assert (log + [e])[..i] == log[..i];
      assert Spaced(log, i);
    }
  }

  // A target passes exactly when every live stamp for it is far enough back.
  lemma DueExactly(s: State, clock: int, url: Url, trigger: Trigger, repeatMinutes: int, now: int)
    requires Remembers(s) && InOrder(s.log, clock)
    ensures Due(LastSent(s.stamps, url, trigger), repeatMinutes, now) <==>
      forall j: nat :: Live(s.log, j, url, trigger) ==> SpacedFrom(repeatMinutes, now, s.log[j].at)
  {
    LastLiveIsLatest(s.log, clock, url, trigger);
    assert LastSent(s.stamps, url, trigger) == LastLive(s.log, url, trigger);
  }

  lemma VisitKeeps(s: State, clock: int, t: Target, host: string, trigger: Trigger, now: int)
    requires Inv(s, clock) && clock <= now
    ensures Inv(Visit(s, t, host, trigger, now), now)
  {
    if Passes(s.stamps, t, host, trigger, now) {
      var e := Passed(now, t.url, trigger, t.repeatMinutes, Sendable(t));
      if IsRepeat(trigger) {
        StampedRemembers(s, e);
        DueExactly(s, clock, t.url, trigger, t.repeatMinutes, now);
      } else {
        QuietRemembers(s, e);
      }
      assert (s.log + [e])[..|s.log|] == s.log;
      SpacedEarlier(s.log, e);
    }
  }

  lemma ClearKeeps(s: State, clock: int)
    requires Inv(s, clock)
    ensures Inv(ClearAlerts(s), clock)
  {
    forall url, trigger
      ensures LastSent(ClearAlerts(s).stamps, url, trigger) == LastLive(s.log + [AlertsCleared], url, trigger)
    {
      LastLiveSnoc(s.log, AlertsCleared, url, trigger);
      assert LastSent(s.stamps, url, trigger) == LastLive(s.log, url, trigger);
    }
    SpacedEarlier(s.log, AlertsCleared);
  }

  lemma PruneKeeps(s: State, clock: int, kept: set<Url>)
    requires Inv(s, clock)
    ensures Inv(PruneState(s, kept), clock)
  {
    forall url, trigger
      ensures LastSent(PruneState(s, kept).stamps, url, trigger) == LastLive(s.log + [Pruned(kept)], url, trigger)
    {
      LastLiveSnoc(s.log, Pruned(kept), url, trigger);
      assert LastSent(s.stamps, url, trigger) == LastLive(s.log, url, trigger);
    }
    SpacedEarlier(s.log, Pruned(kept));
  }

  // ----------------------------------------------------------------------- runs

  datatype Event =
    | Notify(targets: seq<Target>, exclusions: seq<string>, host: string, trigger: Trigger, times: seq<int>)
    | Prune(kept: set<Url>)

  // A clock reading for each target, none earlier than the last.
  predicate Rising(clock: int, times: seq<int>) {
    forall i, j :: 0 <= i <= j < |times| ==> clock <= times[i] <= times[j]
  }

  function After(clock: int, times: seq<int>): int {
    if times == [] then clock else times[|times| - 1]
  }

  predicate Legal(clock: int, evs: seq<Event>)
    decreases |evs|
  {
    if evs == [] then true else
    match evs[0]
    case Notify(targets, _, _, trigger, times) =>
      !trigger.EventSpike? && |times| == |targets| && Rising(clock, times) && Legal(After(clock, times), evs[1..])
    case Prune(_) => Legal(clock, evs[1..])
  }

  function Run(s: State, clock: int, evs: seq<Event>): State
    requires Legal(clock, evs)
    decreases |evs|
  {
    if evs == [] then s else
    match evs[0]
    case Notify(targets, exclusions, host, trigger, times) =>
      Run(Notified(s, targets, exclusions, host, trigger, times), After(clock, times), evs[1..])
    case Prune(kept) => Run(PruneState(s, kept), clock, evs[1..])
  }

  function End(clock: int, evs: seq<Event>): int
    requires Legal(clock, evs)
    decreases |evs|
  {
    if evs == [] then clock else
    match evs[0]
    case Notify(_, _, _, _, times) => End(After(clock, times), evs[1..])
    case Prune(_) => End(clock, evs[1..])
  }

  lemma {:induction false} VisitAllKeeps(s: State, clock: int, targets: seq<Target>, host: string, trigger: Trigger,
                                         times: seq<int>)
    requires Inv(s, clock) && |times| == |targets| && Rising(clock, times)
    ensures Inv(VisitAll(s, targets, host, trigger, times), After(clock, times))
    decreases |targets|
  {
    if targets != [] {
      VisitKeeps(s, clock, targets[0], host, trigger, times[0]);
      VisitAllKeeps(Visit(s, targets[0], host, trigger, times[0]), times[0], targets[1..], host, trigger, times[1..]);
    }
  }

  lemma LaterKeeps(s: State, clock: int, later: int)
    requires Inv(s, clock) && clock <= later
    ensures Inv(s, later)
  {
  }

  lemma {:induction false} RunKeeps(s: State, clock: int, evs: seq<Event>)
    requires Inv(s, clock) && Legal(clock, evs)
    ensures Inv(Run(s, clock, evs), End(clock, evs))
    decreases |evs|
  {
    if evs != [] {
      match evs[0]
      case Notify(targets, exclusions, host, trigger, times) =>
        if GloballyExcluded(exclusions, host) || targets == [] {
          LaterKeeps(s, clock, After(clock, times));
        } else {
          ClearKeeps(s, clock);
          VisitAllKeeps(s, clock, targets, host, trigger, times);
          VisitAllKeeps(ClearAlerts(s), clock, targets, host, trigger, times);
        }
        RunKeeps(Notified(s, targets, exclusions, host, trigger, times), After(clock, times), evs[1..]);
      case Prune(kept) =>
        PruneKeeps(s, clock, kept);
        RunKeeps(PruneState(s, kept), clock, evs[1..]);
    }
  }

  const FRESH := State(Stamps(map[], map[], map[]), [])

  lemma FreshInv(clock: int)
    ensures Inv(FRESH, clock)
  {
  }

  // No target is let through within its interval of an earlier stamp for the same URL and
  // trigger, and one that repeats only once is let through only if there is no such stamp;
  // stamps cleared in between do not count.
  lemma RepeatsAreSpaced(clock: int, evs: seq<Event>, j: nat, i: nat)
    requires Legal(clock, evs)
    requires j < i < |Run(FRESH, clock, evs).log|
    requires var log := Run(FRESH, clock, evs).log;
      && log[i].Passed? && IsRepeat(log[i].trigger) && StampsFor(log[j], log[i].url, log[i].trigger)
      && forall k :: j < k < i ==> !Clears(log[k], log[i].url, log[i].trigger)
    ensures var log := Run(FRESH, clock, evs).log;
      log[i].repeatMinutes > 0 && log[i].at - log[j].at >= log[i].repeatMinutes * 60
  {
    FreshInv(clock);
    RunKeeps(FRESH, clock, evs);
    var log := Run(FRESH, clock, evs).log;
    assert Spaced(log, i);
    assert Live(log[..i], j, log[i].url, log[i].trigger);
  }

  // A critical trigger let through silences the matching warning on that URL for the
  // warning's own interval, unless the URL was dropped from the configuration.
  lemma CriticalSilencesWarning(clock: int, evs: seq<Event>, j: nat, i: nat)
    requires Legal(clock, evs)
    requires j < i < |Run(FRESH, clock, evs).log|
    requires var log := Run(FRESH, clock, evs).log;
      && log[j].Passed? && log[i].Passed? && log[i].url == log[j].url
      && ((log[j].trigger, log[i].trigger) == (CpuCritical, CpuWarning) ||
          (log[j].trigger, log[i].trigger) == (MemoryCritical, MemoryWarning) ||
          (log[j].trigger, log[i].trigger) == (InputDelayCritical, InputDelayWarning))
      && forall k :: j < k < i && log[k].Pruned? ==> log[i].url in log[k].kept
    ensures var log := Run(FRESH, clock, evs).log;
      log[i].repeatMinutes > 0 && log[i].at - log[j].at >= log[i].repeatMinutes * 60
  {
    RepeatsAreSpaced(clock, evs, j, i);
  }

  // And it holds nothing else back: a target that wants a repeating trigger is let through
  // if and only if every live stamp is at least its interval back.
  lemma ThrottleIsExact(clock: int, evs: seq<Event>, t: Target, host: string, trigger: Trigger, now: int)
    requires Legal(clock, evs) && IsRepeat(trigger)
    ensures var s := Run(FRESH, clock, evs);
      Passes(s.stamps, t, host, trigger, now) <==>
        Wanted(t, host, trigger) &&
        forall j: nat :: Live(s.log, j, t.url, trigger) ==> SpacedFrom(t.repeatMinutes, now, s.log[j].at)
  {
    FreshInv(clock);
    RunKeeps(FRESH, clock, evs);
    DueExactly(Run(FRESH, clock, evs), End(clock, evs), t.url, trigger, t.repeatMinutes, now);
  }

  // ------------------------------------------------------------------- sends

  // The URLs sent to, as the log tells it.
  function SentUrls(log: seq<Entry>): seq<Url> {
    if log == [] then []
    else
      var rest, e := SentUrls(log[..|log| - 1]), log[|log| - 1];
      if e.Passed? && e.sent then rest + [e.url] else rest
  }

  function Urls(ts: seq<Target>): (r: seq<Url>)
    ensures |r| == |ts| && forall i :: 0 <= i < |ts| ==> r[i] == ts[i].url
  {
    seq(|ts|, i requires 0 <= i < |ts| => ts[i].url)
  }

  lemma SentUrlsSnoc(log: seq<Entry>, e: Entry)
    ensures SentUrls(log + [e]) == if e.Passed? && e.sent then SentUrls(log) + [e.url] else SentUrls(log)
  {
    assert (log + [e])[..|log|] == log;
  }

  lemma VisitIsLogged(s: State, t: Target, host: string, trigger: Trigger, now: int, later: seq<Target>)
    ensures SentUrls(Visit(s, t, host, trigger, now).log) + Urls(later) ==
      SentUrls(s.log) +
      Urls(if Passes(s.stamps, t, host, trigger, now) && Sendable(t) then [t] + later else later)
  {
    SentUrlsSnoc(s.log, Passed(now, t.url, trigger, t.repeatMinutes, Sendable(t)));
    assert Urls([t] + later) == [t.url] + Urls(later);
    assert (SentUrls(s.log) + [t.url]) + Urls(later) == SentUrls(s.log) + ([t.url] + Urls(later));
  }

  // What the loop sends is what the log records, in order.
  lemma {:induction false} SendsAreLogged(s: State, targets: seq<Target>, host: string, trigger: Trigger,
                                          times: seq<int>)
    requires |times| == |targets|
    ensures SentUrls(VisitAll(s, targets, host, trigger, times).log) ==
      SentUrls(s.log) + Urls(Sends(s, targets, host, trigger, times))
    decreases |targets|
  {
    if targets == [] {
      assert Urls([]) == [] && SentUrls(s.log) + [] == SentUrls(s.log);
    } else {
      var t := targets[0];
      var s1 := Visit(s, t, host, trigger, times[0]);
      var later := Sends(s1, targets[1..], host, trigger, times[1..]);
      SendsAreLogged(s1, targets[1..], host, trigger, times[1..]);
      VisitIsLogged(s, t, host, trigger, times[0], later);
    }
  }

  // ------------------------------------------------------------------- the loop

  class NotifyState {
    var lastAlert: map<Url, int>
    var lastSessionWarn: map<Url, int>
    var lastPerf: map<Url, map<Trigger, int>>
    ghost var log: seq<Entry>

    ghost function Abs(): State
      reads this
    {
      State(Stamps(lastAlert, lastSessionWarn, lastPerf), log)
    }

    constructor ()
      ensures Abs() == FRESH
    {
      lastAlert, lastSessionWarn, lastPerf, log := map[], map[], map[], [];
    }

    method GetLast(url: Url, trigger: Trigger) returns (last: Option<int>)
      ensures last == LastSent(Abs().stamps, url, trigger)
    {
      match trigger {
        case Alert => last := if url in lastAlert then Some(lastAlert[url]) else None;
        case SessionWarning => last := if url in lastSessionWarn then Some(lastSessionWarn[url]) else None;
        case _ =>
          if url in lastPerf && trigger in lastPerf[url] {
            last := Some(lastPerf[url][trigger]);
          } else {
            last := None;
          }
      }
    }

    method SetLast(url: Url, trigger: Trigger, at: int)
      modifies this`lastAlert, this`lastSessionWarn, this`lastPerf
      ensures Abs() == old(Abs()).(stamps := SetLastSent(old(Abs()).stamps, url, trigger, at))
    {
      match trigger {
        case Alert => lastAlert := lastAlert[url := at];
        case SessionWarning => lastSessionWarn := lastSessionWarn[url := at];
        case _ =>
          var sent := if url in lastPerf then lastPerf[url] else map[];
          lastPerf := lastPerf[url := sent[trigger := at]];
      }
    }

    // The repeat check, and the stamps of a target it lets through.
    method Admit(url: Url, trigger: Trigger, repeatMinutes: int, now: int) returns (due: bool)
      modifies this`lastAlert, this`lastSessionWarn, this`lastPerf
      ensures due <==> Due(LastSent(old(Abs()).stamps, url, trigger), repeatMinutes, now)
      ensures Abs().stamps == if due then Stamped(old(Abs()).stamps, url, trigger, now) else old(Abs()).stamps
    {
      var last := GetLast(url, trigger);
      if repeatMinutes > 0 {
        if last.Some? && now - last.value < repeatMinutes * MINUTE {
          return false;
        }
      } else if last.Some? {
        return false;
      }
      SetLast(url, trigger, now);
      var warning := Subordinate(trigger);
      if warning.Some? {
        SetLast(url, warning.value, now);
      }
      return true;
    }

    method VisitTarget(t: Target, host: string, trigger: Trigger, now: int) returns (send: bool)
      modifies this
      ensures Abs() == Visit(old(Abs()), t, host, trigger, now)
      ensures send <==> Passes(old(Abs()).stamps, t, host, trigger, now) && Sendable(t)
    {
      if t.enabled == Some(false) || t.url == "" || !HasTrigger(t, trigger) || ExcludesServer(t, host, trigger) {
        return false;
      }
      if IsRepeat(trigger) {
        var due := Admit(t.url, trigger, t.repeatMinutes, now);
        if !due {
          return false;
        }
      }
      log := log + [Passed(now, t.url, trigger, t.repeatMinutes, Sendable(t))];
      match t.kind {
        case Webhook => send := true;
        case Ntfy => send := true;
        case Email => send := true;
        case OtherKind(_) => send := false;
      }
    }

    method VisitEach(targets: seq<Target>, host: string, trigger: Trigger, times: seq<int>) returns (sent: seq<Target>)
      requires |times| == |targets|
      modifies this
      ensures Abs() == VisitAll(old(Abs()), targets, host, trigger, times)
      ensures sent == Sends(old(Abs()), targets, host, trigger, times)
    {
      ghost var start := Abs();
      sent := [];
      var i := 0;
      while i < |targets|
        invariant 0 <= i <= |targets|
        invariant RestOf(Abs(), sent, targets[i..], host, trigger, times[i..]) ==
                  RestOf(start, [], targets, host, trigger, times)
      {
        VisitNext(Abs(), sent, targets, host, trigger, times, i);
        var send := VisitTarget(targets[i], host, trigger, times[i]);
        if send {
          sent := sent + [targets[i]];
        }
        i := i + 1;
      }
      assert sent + [] == sent;
      assert [] + Sends(start, targets, host, trigger, times) == Sends(start, targets, host, trigger, times);
    }

    method Send(targets: seq<Target>, exclusions: seq<string>, host: string, trigger: Trigger, times: seq<int>)
      returns (sent: seq<Target>)
      requires |times| == |targets| && !trigger.EventSpike?
      modifies this
      ensures Abs() == Notified(old(Abs()), targets, exclusions, host, trigger, times)
      ensures sent == Recipients(old(Abs()), targets, exclusions, host, trigger, times)
    {
      sent := [];
      if GloballyExcluded(exclusions, host) || |targets| == 0 {
        return;
      }
      if trigger == Healthy || trigger == DrainOff {
        lastAlert := map[];
        log := log + [AlertsCleared];
      }
      sent := VisitEach(targets, host, trigger, times);
    }
  }

  // Where the loop ends, and what it will have sent, from a point in it.
  ghost function RestOf(s: State, sent: seq<Target>, targets: seq<Target>, host: string, trigger: Trigger,
                        times: seq<int>)
    : (State, seq<Target>)
    requires |times| == |targets|
  {
    (VisitAll(s, targets, host, trigger, times), sent + Sends(s, targets, host, trigger, times))
  }

  lemma VisitNext(s: State, sent: seq<Target>, targets: seq<Target>, host: string, trigger: Trigger, times: seq<int>,
                  i: nat)
    requires i < |targets| == |times|
    ensures RestOf(s, sent, targets[i..], host, trigger, times[i..]) ==
      RestOf(Visit(s, targets[i], host, trigger, times[i]),
             if Passes(s.stamps, targets[i], host, trigger, times[i]) && Sendable(targets[i])
             then sent + [targets[i]] else sent,
             targets[i + 1..], host, trigger, times[i + 1..])
  {
    assert targets[i..][1..] == targets[i + 1..] && times[i..][1..] == times[i + 1..];
    var later := Sends(Visit(s, targets[i], host, trigger, times[i]), targets[i + 1..], host, trigger, times[i + 1..]);
    assert sent + ([targets[i]] + later) == (sent + [targets[i]]) + later;
  }
}
