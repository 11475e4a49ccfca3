/** Who is sent a notification, in terms of the configured target and of the stamps that are live. */
module NotifyRouting {
  import opened Wrappers
  import opened Notifications
  import opened NotifyThrottle
  import Text

  // ------------------------------------------------------------ naming a server

  // Two names for one server: equal but for case, or a bare name and a name that begins with it.
  ghost predicate SameHost(a: string, b: string) {
    || Text.Lower(a) == Text.Lower(b)
    || BareNameOf(a, b) || BareNameOf(b, a)
  }

  // `short` has no dot, and `name` is `short`, or `short` followed by a dot and a domain.
  ghost predicate BareNameOf(short: string, name: string) {
    '.' !in short && exists rest :: Text.Lower(name) == Text.Lower(short) + rest && (rest == [] || rest[0] == '.')
  }

  lemma BareNameExactly(short: string, name: string)
    requires '.' !in short
    ensures BareNameOf(short, name) <==> Text.Lower(Text.BeforeDot(short)) == Text.Lower(Text.BeforeDot(name))
  {
    var s, n := Text.Lower(short), Text.Lower(name);
    Text.BeforeDotLower(short);
    Text.BeforeDotLower(name);
    Text.DotInLower(short);
    Text.BeforeDotOf(s, []);
    assert s + [] == s;
    if BareNameOf(short, name) {
      var rest :| n == s + rest && (rest == [] || rest[0] == '.');
      Text.BeforeDotOf(s, rest);
    }
    Text.BeforeDotSplits(n);
  }

  // The comparison of two server names is exactly that.
  lemma SameServerExactly(a: string, b: string)
    ensures SameServer(a, b) <==> SameHost(a, b)
  {
    if '.' !in a {
      BareNameExactly(a, b);
    }
    if '.' !in b {
      BareNameExactly(b, a);
    }
  }

  // ----------------------------------------------------------- who wants it at all

  predicate Repeats(trigger: Trigger) {
    trigger in {Alert, SessionWarning, EventSpike, CpuWarning, CpuCritical, MemoryWarning, MemoryCritical,
                InputDelayWarning, InputDelayCritical}
  }

  // The target listens to the trigger, and no exclusion of its own names this host and trigger.
  ghost predicate Listens(t: Target, host: string, trigger: Trigger) {
    && t.enabled != Some(false) && t.url != "" && t.kind in {Webhook, Ntfy, Email}
    && (if t.triggers == [] then trigger in {DrainOn, DrainOff, Alert, Healthy} else trigger in t.triggers)
    && !exists e :: e in t.exclusions && trigger in e.triggers && SameHost(Text.HostName(e.server), Text.HostName(host))
  }

  lemma ListensExactly(t: Target, host: string, trigger: Trigger)
    ensures Listens(t, host, trigger) <==> Wanted(t, host, trigger) && Sendable(t)
  {
    forall e | e in t.exclusions
      ensures Excludes(e, Text.HostName(host), trigger) <==>
              trigger in e.triggers && SameHost(Text.HostName(e.server), Text.HostName(host))
    {
      SameServerExactly(Text.HostName(e.server), Text.HostName(host));
    }
    assert trigger in DEFAULT_TRIGGERS <==> trigger in {DrainOn, DrainOff, Alert, Healthy};
  }

  // Live in a log: a stamp of the URL, by the trigger or by the critical one that stands for it,
  // that has not been cleared since.
  predicate LiveStamp(log: seq<Entry>, j: nat, url: Url, trigger: Trigger) {
    && j < |log| && log[j].Passed? && log[j].url == url
    && ((log[j].trigger == trigger && Repeats(trigger)) ||
        (log[j].trigger, trigger) in {(CpuCritical, CpuWarning), (MemoryCritical, MemoryWarning),
                                      (InputDelayCritical, InputDelayWarning)})
    && forall k :: j < k < |log| ==>
         !(log[k].AlertsCleared? && trigger == Alert) && !(log[k].Pruned? && url !in log[k].kept)
  }

  lemma LiveExactly(log: seq<Entry>, j: nat, url: Url, trigger: Trigger)
    ensures Live(log, j, url, trigger) <==> LiveStamp(log, j, url, trigger)
  {
  }

  // Minutes are sixty seconds, and a target without an interval is sent to once.
  ghost predicate FarEnough(log: seq<Entry>, t: Target, trigger: Trigger, now: int) {
    forall j: nat :: LiveStamp(log, j, t.url, trigger) ==>
      t.repeatMinutes > 0 && now - log[j].at >= 60 * t.repeatMinutes
  }

  ghost predicate SentTo(log: seq<Entry>, t: Target, host: string, trigger: Trigger, now: int) {
    Listens(t, host, trigger) && (Repeats(trigger) ==> FarEnough(log, t, trigger, now))
  }

  lemma PassesExactly(s: State, clock: int, t: Target, host: string, trigger: Trigger, now: int)
    requires Inv(s, clock)
    ensures Passes(s.stamps, t, host, trigger, now) && Sendable(t) <==> SentTo(s.log, t, host, trigger, now)
  {
    ListensExactly(t, host, trigger);
    DueExactly(s, clock, t.url, trigger, t.repeatMinutes, now);
    forall j: nat ensures Live(s.log, j, t.url, trigger) <==> LiveStamp(s.log, j, t.url, trigger) {
      LiveExactly(s.log, j, t.url, trigger);
    }
  }

  // ------------------------------------------------------------------- the round

  // Where the round stands when it comes to target i.
  function Before(s: State, targets: seq<Target>, host: string, trigger: Trigger, times: seq<int>, i: nat): State
    requires |times| == |targets| && i <= |targets|
  {
    VisitAll(s, targets[..i], host, trigger, times[..i])
  }

  lemma BeforeFirst(s: State, targets: seq<Target>, host: string, trigger: Trigger, times: seq<int>, i: nat)
    requires |times| == |targets| && 0 < i <= |targets|
    ensures Before(s, targets, host, trigger, times, i) ==
      Before(Visit(s, targets[0], host, trigger, times[0]), targets[1..], host, trigger, times[1..], i - 1)
  {
    assert targets[..i][0] == targets[0] && targets[..i][1..] == targets[1..][..i - 1];
    assert times[..i][0] == times[0] && times[..i][1..] == times[1..][..i - 1];
  }

  // The targets whose flag is set, in order.
  function Chosen(targets: seq<Target>, flags: seq<bool>): seq<Target>
    requires |flags| == |targets|
    decreases |targets|
  {
    if targets == [] then []
    else (if flags[0] then [targets[0]] else []) + Chosen(targets[1..], flags[1..])
  }

  lemma {:induction false} ChosenElements(targets: seq<Target>, flags: seq<bool>, t: Target)
    requires |flags| == |targets|
    ensures t in Chosen(targets, flags) <==> exists i :: 0 <= i < |targets| && flags[i] && targets[i] == t
    decreases |targets|
  {
    if targets != [] {
      ChosenElements(targets[1..], flags[1..], t);
      if i :| 0 <= i < |targets[1..]| && flags[1..][i] && targets[1..][i] == t {
        assert flags[i + 1] && targets[i + 1] == t;
      }
      if i :| 0 <= i < |targets| && flags[i] && targets[i] == t {
        assert i > 0 ==> flags[1..][i - 1] && targets[1..][i - 1] == t;
      }
    }
  }

  // Set for the targets that listen and are due at their turn.
  ghost predicate FlagsExactly(s: State, targets: seq<Target>, host: string, trigger: Trigger, times: seq<int>,
                               flags: seq<bool>)
    requires |times| == |targets| == |flags|
  {
    forall i: nat :: i < |targets| ==>
      (flags[i] <==> SentTo(Before(s, targets, host, trigger, times, i).log, targets[i], host, trigger, times[i]))
  }

  lemma FlagsCons(s: State, targets: seq<Target>, host: string, trigger: Trigger, times: seq<int>, first: bool,
                  flags: seq<bool>)
    requires |times| == |targets| == |flags| + 1
    requires first <==> SentTo(s.log, targets[0], host, trigger, times[0])
    requires FlagsExactly(Visit(s, targets[0], host, trigger, times[0]), targets[1..], host, trigger, times[1..], flags)
    ensures FlagsExactly(s, targets, host, trigger, times, [first] + flags)
  {
    forall i: nat | i < |targets|
      ensures ([first] + flags)[i] <==>
              SentTo(Before(s, targets, host, trigger, times, i).log, targets[i], host, trigger, times[i])
    {
      if i == 0 {
        assert Before(s, targets, host, trigger, times, 0) == s;
      } else {
        BeforeFirst(s, targets, host, trigger, times, i);
        assert targets[i] == targets[1..][i - 1] && times[i] == times[1..][i - 1];
        assert ([first] + flags)[i] == flags[i - 1];
      }
    }
  }

  lemma SendsCons(s: State, targets: seq<Target>, host: string, trigger: Trigger, times: seq<int>, flags: seq<bool>)
    requires |times| == |targets| == |flags| + 1
    requires Sends(Visit(s, targets[0], host, trigger, times[0]), targets[1..], host, trigger, times[1..]) ==
      Chosen(targets[1..], flags)
    ensures Sends(s, targets, host, trigger, times) ==
      Chosen(targets, [Passes(s.stamps, targets[0], host, trigger, times[0]) && Sendable(targets[0])] + flags)
  {
    var first := Passes(s.stamps, targets[0], host, trigger, times[0]) && Sendable(targets[0]);
    assert ([first] + flags)[0] == first && ([first] + flags)[1..] == flags;
  }

  lemma {:induction false} SendsExactly(s: State, clock: int, targets: seq<Target>, host: string, trigger: Trigger,
                                        times: seq<int>) returns (flags: seq<bool>)
    requires Inv(s, clock) && |times| == |targets| && Rising(clock, times)
    ensures |flags| == |targets| && FlagsExactly(s, targets, host, trigger, times, flags)
    ensures Sends(s, targets, host, trigger, times) == Chosen(targets, flags)
    decreases |targets|
  {
    if targets == [] {
      flags := [];
    } else {
      var t, now := targets[0], times[0];
      PassesExactly(s, clock, t, host, trigger, now);
      VisitKeeps(s, clock, t, host, trigger, now);
      var later := SendsExactly(Visit(s, t, host, trigger, now), now, targets[1..], host, trigger, times[1..]);
      var first := Passes(s.stamps, t, host, trigger, now) && Sendable(t);
      FlagsCons(s, targets, host, trigger, times, first, later);
      SendsCons(s, targets, host, trigger, times, later);
      flags := [first] + later;
    }
  }

  /**
   After any sequential run a notification is sent, in the configured order, to exactly the
   targets that listen to it and whose live stamps, at the moment they are visited, are all an
   interval back; and to none when the host is globally excluded.
   */
  lemma RecipientsExactly(clock: int, evs: seq<Event>, targets: seq<Target>, exclusions: seq<string>, host: string,
                          trigger: Trigger, times: seq<int>) returns (flags: seq<bool>)
    requires Legal(clock, evs) && |times| == |targets| && Rising(End(clock, evs), times)
    ensures |flags| == |targets|
    ensures var s := Run(FRESH, clock, evs);
      FlagsExactly(if trigger in {Healthy, DrainOff} then ClearAlerts(s) else s, targets, host, trigger, times, flags)
    ensures Recipients(Run(FRESH, clock, evs), targets, exclusions, host, trigger, times) ==
      if GloballyExcluded(exclusions, host) then [] else Chosen(targets, flags)
  {
    var s := Run(FRESH, clock, evs);
    FreshInv(clock);
    RunKeeps(FRESH, clock, evs);
    ClearKeeps(s, End(clock, evs));
    var start := if trigger in {Healthy, DrainOff} then ClearAlerts(s) else s;
    flags := SendsExactly(start, End(clock, evs), targets, host, trigger, times);
  }

  // A notification about an excluded host leaves the throttle as it was.
  lemma ExcludedChangesNothing(s: State, targets: seq<Target>, exclusions: seq<string>, host: string, trigger: Trigger,
                               times: seq<int>)
    requires |times| == |targets| && GloballyExcluded(exclusions, host)
    ensures Notified(s, targets, exclusions, host, trigger, times) == s
    ensures Recipients(s, targets, exclusions, host, trigger, times) == []
  {
  }

  predicate Plain(host: string) {
    host != "" && Text.NoBlankEnds(host) && host[|host| - 1] != '.'
  }

  // Global exclusions name hosts in full: one covers a host exactly if it is the same name but for
  // letter case, and a short name covers no host in a domain.
  lemma GlobalExclusionExactly(exclusions: seq<string>, host: string)
    requires Plain(host) && forall e :: e in exclusions ==> Plain(e)
    ensures GloballyExcluded(exclusions, host) <==> exists e :: e in exclusions && Text.Lower(e) == Text.Lower(host)
  {
    Text.CanonicalSpellings(host);
    forall e | e in exclusions ensures Text.CanonicalHost(e) == Text.Lower(e) {
      Text.CanonicalSpellings(e);
    }
    assert |Text.Lower(host)| == |host|;
    if e :| e in exclusions && Text.Lower(e) == Text.Lower(host) {
      var i :| 0 <= i < |exclusions| && exclusions[i] == e;
      assert Text.CanonicalHost(exclusions[i]) == Text.CanonicalHost(host);
    }
  }

  // ------------------------------------------------- targets with URLs of their own

  lemma StampElsewhere(log: seq<Entry>, e: Entry, t: Target, trigger: Trigger, now: int)
    requires e.Passed? && e.url != t.url
    ensures FarEnough(log + [e], t, trigger, now) <==> FarEnough(log, t, trigger, now)
  {
    forall j: nat ensures LiveStamp(log + [e], j, t.url, trigger) <==> LiveStamp(log, j, t.url, trigger) {
      if j < |log| {
        assert forall k :: j < k < |log| ==> (log + [e])[k] == log[k];
        assert (log + [e])[|log|] == e;
      }
    }
    forall j: nat | LiveStamp(log, j, t.url, trigger) ensures (log + [e])[j] == log[j] {
    }
  }

  // Visits to other URLs leave it open whether this target is sent to.
  lemma {:induction false} VisitsElsewhere(s: State, targets: seq<Target>, host: string, trigger: Trigger,
                                           times: seq<int>, t: Target, now: int)
    requires |times| == |targets| && forall other :: other in targets ==> other.url != t.url
    ensures FarEnough(VisitAll(s, targets, host, trigger, times).log, t, trigger, now) <==>
            FarEnough(s.log, t, trigger, now)
    decreases |targets|
  {
    if targets != [] {
      var first := targets[0];
      assert first in targets;
      if Passes(s.stamps, first, host, trigger, times[0]) {
        var e := Passed(times[0], first.url, trigger, first.repeatMinutes, Sendable(first));
        StampElsewhere(s.log, e, t, trigger, now);
      }
      VisitsElsewhere(Visit(s, first, host, trigger, times[0]), targets[1..], host, trigger, times[1..], t, now);
    }
  }

  /**
   When every target has a URL of its own, a target is sent to if and only if the host is not
   globally excluded, the target listens, and every stamp that was live before the notification
   (alerts are forgotten first when the host is healthy or drains no more) is an interval back.
   */
  lemma TargetIsSentToExactly(clock: int, evs: seq<Event>, targets: seq<Target>, exclusions: seq<string>, host: string,
                              trigger: Trigger, times: seq<int>, i: nat)
    requires Legal(clock, evs) && |times| == |targets| && Rising(End(clock, evs), times) && i < |targets|
    requires forall k, l :: 0 <= k < l < |targets| ==> targets[k].url != targets[l].url
    ensures var s := Run(FRESH, clock, evs);
      var log := if trigger in {Healthy, DrainOff} then s.log + [AlertsCleared] else s.log;
      targets[i] in Recipients(s, targets, exclusions, host, trigger, times) <==>
        !GloballyExcluded(exclusions, host) && SentTo(log, targets[i], host, trigger, times[i])
  {
    var s := Run(FRESH, clock, evs);
    var start := if trigger in {Healthy, DrainOff} then ClearAlerts(s) else s;
    var flags := RecipientsExactly(clock, evs, targets, exclusions, host, trigger, times);
    forall other | other in targets[..i] ensures other.url != targets[i].url {
      var k :| 0 <= k < i && targets[..i][k] == other;
    }
    VisitsElsewhere(start, targets[..i], host, trigger, times[..i], targets[i], times[i]);
    assert flags[i] <==>
           SentTo(Before(start, targets, host, trigger, times, i).log, targets[i], host, trigger, times[i]);
    ChosenElements(targets, flags, targets[i]);
    forall k | 0 <= k < |targets| && targets[k] == targets[i] ensures k == i {
    }
  }
}
