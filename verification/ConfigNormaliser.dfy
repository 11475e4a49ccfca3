/**
 Validation of the notification and event-spike settings: what one pass changes, and when a
 second pass would change anything more.
 */
module ConfigNormaliser {
  import opened Wrappers
  import opened Notifications
  import Text

  const MAX_REPEAT_MINUTES := 10080

  // ------------------------------------------------------------------ hosts

  // The name ends in at most one dot, and no blank stands before that dot.
  predicate Tidy(host: string) {
    var t := Text.TrimSpace(host);
    |t| >= 2 && t[|t| - 1] == '.' ==> t[|t| - 2] != '.' && !Text.IsSpace(t[|t| - 2])
  }

  // Normalising a host name a second time changes it exactly when it is not tidy.
  lemma HostNameTwice(host: string)
    ensures Text.HostName(Text.HostName(host)) == Text.HostName(host) <==> Tidy(host)
    ensures Tidy(host) || |Text.HostName(Text.HostName(host))| < |Text.HostName(host)|
  {
    var t := Text.TrimSpace(host);
    var u := Text.HostName(host);
    Text.TrimSpaceTrims(host);
    Text.TrimSpaceTrims(u);
    Text.TrimSpaceShortens(u);
    if t != [] && t[|t| - 1] == '.' && |t| >= 2 {
      assert u == t[..|t| - 1];
      assert u[0] == t[0] && u[|u| - 1] == t[|t| - 2];
    }
  }

  lemma CanonicalTwice(host: string)
    ensures Text.CanonicalHost(Text.CanonicalHost(host)) == Text.CanonicalHost(host) <==> Tidy(host)
  {
    var u := Text.HostName(host);
    HostNameTwice(host);
    Text.TrimLower(u);
    Text.TrimLower(Text.TrimSpace(u));
    assert Text.HostName(Text.Lower(u)) == Text.Lower(Text.HostName(u));
    Text.LowerTwice(Text.HostName(u));
    assert Text.CanonicalHost(Text.CanonicalHost(host)) == Text.Lower(Text.HostName(u));
    assert |Text.Lower(Text.HostName(u))| == |Text.HostName(u)| && |Text.Lower(u)| == |u|;
  }

  // ------------------------------------------------------- global exclusions

  // The canonical hosts in order, without blanks and repetitions.
  function NormHosts(hosts: seq<string>, seen: set<string>): seq<string> {
    if hosts == [] then [] else
      var host := Text.CanonicalHost(hosts[0]);
      if host == "" || host in seen then NormHosts(hosts[1..], seen)
      else [host] + NormHosts(hosts[1..], seen + {host})
  }

  // The canonical forms of the hosts that have one.
  predicate Names(hosts: seq<string>, x: string) {
    x != "" && exists i :: 0 <= i < |hosts| && Text.CanonicalHost(hosts[i]) == x
  }

  lemma NamesCons(h: string, rest: seq<string>, x: string)
    ensures Names([h] + rest, x) <==> (x != "" && Text.CanonicalHost(h) == x) || Names(rest, x)
  {
    var all := [h] + rest;
    assert forall i :: 0 <= i < |rest| ==> rest[i] == all[i + 1];
    assert all[0] == h;
    if Names(rest, x) {
      var i :| 0 <= i < |rest| && Text.CanonicalHost(rest[i]) == x;
      assert Text.CanonicalHost(all[i + 1]) == x;
    }
  }

  lemma {:induction false} NormHostsElements(hosts: seq<string>, seen: set<string>, x: string)
    ensures x in NormHosts(hosts, seen) <==> Names(hosts, x) && x !in seen
  {
    if hosts != [] {
      var host := Text.CanonicalHost(hosts[0]);
      assert hosts == [hosts[0]] + hosts[1..];
      NamesCons(hosts[0], hosts[1..], x);
      NormHostsElements(hosts[1..], seen, x);
      NormHostsElements(hosts[1..], seen + {host}, x);
    }
  }

  predicate DistinctOutside(hosts: seq<string>, seen: set<string>) {
    && (forall i, j :: 0 <= i < j < |hosts| ==> hosts[i] != hosts[j])
    && (forall h :: h in hosts ==> h != "" && h !in seen)
  }

  lemma DistinctTail(hosts: seq<string>, seen: set<string>)
    requires DistinctOutside(hosts, seen) && hosts != []
    ensures DistinctOutside(hosts[1..], seen + {hosts[0]}) && DistinctOutside(hosts[1..], seen) &&
        hosts[0] !in hosts[1..]
  {
    forall h | h in hosts[1..] ensures h != hosts[0] && h in hosts {
      var i :| 0 <= i < |hosts[1..]| && hosts[1..][i] == h;
      assert hosts[i + 1] == h;
    }
  }

  // Already canonical and distinct hosts stay as they are.
  lemma {:induction false} CanonicalHostsStay(hosts: seq<string>, seen: set<string>)
    requires DistinctOutside(hosts, seen)
    requires forall h :: h in hosts ==> Text.CanonicalHost(h) == h
    ensures NormHosts(hosts, seen) == hosts
  {
    if hosts != [] {
      assert hosts == [hosts[0]] + hosts[1..];
      DistinctTail(hosts, seen);
      CanonicalHostsStay(hosts[1..], seen + {hosts[0]});
    }
  }

  lemma {:induction false} NormHostsDistinct(hosts: seq<string>, seen: set<string>)
    ensures DistinctOutside(NormHosts(hosts, seen), seen)
  {
    if hosts != [] {
      var host := Text.CanonicalHost(hosts[0]);
      NormHostsDistinct(hosts[1..], seen);
      NormHostsDistinct(hosts[1..], seen + {host});
    }
  }

  // Every host that names something is tidy.
  predicate AllTidy(hosts: seq<string>) {
    forall i :: 0 <= i < |hosts| && Text.CanonicalHost(hosts[i]) != "" ==> Tidy(hosts[i])
  }

  // Normalising the exclusions again changes nothing exactly when every host is tidy.
  lemma HostsFixpoint(hosts: seq<string>)
    ensures NormHosts(NormHosts(hosts, {}), {}) == NormHosts(hosts, {}) <==> AllTidy(hosts)
  {
    var once := NormHosts(hosts, {});
    NormHostsDistinct(hosts, {});
    if AllTidy(hosts) {
      forall h | h in once ensures Text.CanonicalHost(h) == h {
        NormHostsElements(hosts, {}, h);
        var k :| 0 <= k < |hosts| && Text.CanonicalHost(hosts[k]) == h;
        CanonicalTwice(hosts[k]);
      }
      CanonicalHostsStay(once, {});
    }
    if NormHosts(once, {}) == once {
      forall k | 0 <= k < |hosts| && Text.CanonicalHost(hosts[k]) != "" ensures Tidy(hosts[k]) {
        var x := Text.CanonicalHost(hosts[k]);
        assert Names(hosts, x);
        NormHostsElements(hosts, {}, x);
        CanonicalEverywhere(once, {});
        CanonicalTwice(hosts[k]);
      }
    }
  }

  lemma {:induction false} NormHostsShorter(hosts: seq<string>, seen: set<string>)
    ensures |NormHosts(hosts, seen)| <= |hosts|
  {
    if hosts != [] {
      NormHostsShorter(hosts[1..], seen);
      NormHostsShorter(hosts[1..], seen + {Text.CanonicalHost(hosts[0])});
    }
  }

  // A list that normalising leaves alone holds canonical hosts only.
  lemma {:induction false} CanonicalEverywhere(hosts: seq<string>, seen: set<string>)
    requires NormHosts(hosts, seen) == hosts
    ensures forall x :: x in hosts ==> Text.CanonicalHost(x) == x
  {
    if hosts != [] {
      var host := Text.CanonicalHost(hosts[0]);
      NormHostsShorter(hosts[1..], seen);
      var rest := NormHosts(hosts[1..], seen + {host});
      assert ([host] + rest)[1..] == rest;
      CanonicalEverywhere(hosts[1..], seen + {host});
    }
  }

  // Normalising does not change who is excluded, when the hosts are tidy.
  lemma ExclusionKept(hosts: seq<string>, host: string)
    requires AllTidy(hosts)
    ensures GloballyExcluded(NormHosts(hosts, {}), host) <==> GloballyExcluded(hosts, host)
  {
    var once := NormHosts(hosts, {});
    var x := Text.CanonicalHost(host);
    HostsFixpoint(hosts);
    CanonicalEverywhere(once, {});
    NormHostsElements(hosts, {}, x);
    if x in once {
      var i :| 0 <= i < |once| && once[i] == x;
      assert Text.CanonicalHost(once[i]) == x;
    }
  }

  // ------------------------------------------------------------------ targets

  predicate HasPrefix(s: string, prefix: string) {
    |prefix| <= |s| && s[..|prefix|] == prefix
  }

  predicate SmtpUrl(url: string) {
    HasPrefix(Text.Lower(url), "smtp://") || HasPrefix(Text.Lower(url), "smtps://")
  }

  predicate KnownUrl(url: string) {
    url == "" || HasPrefix(Text.Lower(url), "http://") || HasPrefix(Text.Lower(url), "https://") || SmtpUrl(url)
  }

  function OnlyKnown(triggers: seq<Trigger>): seq<Trigger> {
    if triggers == [] then []
    else if triggers[0].Unknown? then OnlyKnown(triggers[1..])
    else [triggers[0]] + OnlyKnown(triggers[1..])
  }

  function NormTriggers(triggers: seq<Trigger>): seq<Trigger> {
    if triggers == [] then DEFAULT_TRIGGERS else OnlyKnown(triggers)
  }

  // The triggers of an exclusion that are known and that the target subscribes to.
  function OnlyWanted(triggers: seq<Trigger>, subscribed: seq<Trigger>): seq<Trigger> {
    if triggers == [] then []
    else if triggers[0].Unknown? || triggers[0] !in subscribed then OnlyWanted(triggers[1..], subscribed)
    else [triggers[0]] + OnlyWanted(triggers[1..], subscribed)
  }

  function NormExclusions(exclusions: seq<ServerExclusion>, subscribed: seq<Trigger>): seq<ServerExclusion> {
    if exclusions == [] then [] else
      var e := ServerExclusion(Text.HostName(exclusions[0].server), OnlyWanted(exclusions[0].triggers, subscribed));
      var rest := NormExclusions(exclusions[1..], subscribed);
      if e.server == "" || e.triggers == [] then rest else [e] + rest
  }

  function ClampRepeat(minutes: int): int {
    if minutes < 0 then 0 else if minutes > MAX_REPEAT_MINUTES then MAX_REPEAT_MINUTES else minutes
  }

  function NormSeverity(severity: string): string {
    var s := Text.Lower(severity);
    if s == "" || s == "warning" || s == "alert" then s else ""
  }

  function NormTarget(t: Target): Target {
    var triggers := NormTriggers(t.triggers);
    t.(triggers := triggers, exclusions := NormExclusions(t.exclusions, Subscribed(triggers)),
       repeatMinutes := ClampRepeat(t.repeatMinutes), severity := NormSeverity(t.severity))
  }

  function CheckEmail(t: Target): Target {
    if t.kind.Email? && (!SmtpUrl(t.url) || t.from == "" || t.to == []) then t.(url := "") else t
  }

  predicate Kept(t: Target) {
    !t.kind.OtherKind? && KnownUrl(t.url)
  }

  function NormOne(t: Target): Target {
    CheckEmail(NormTarget(t))
  }

  function NormTargets(ts: seq<Target>): seq<Target> {
    if ts == [] then []
    else if Kept(ts[0]) then [NormOne(ts[0])] + NormTargets(ts[1..])
    else NormTargets(ts[1..])
  }

  // ---- triggers

  lemma {:induction false} OnlyKnownElements(triggers: seq<Trigger>)
    ensures forall tr :: tr in OnlyKnown(triggers) <==> tr in triggers && !tr.Unknown?
  {
    if triggers != [] {
      OnlyKnownElements(triggers[1..]);
      assert triggers == [triggers[0]] + triggers[1..];
    }
  }

  lemma {:induction false} OnlyKnownStays(triggers: seq<Trigger>)
    requires forall tr :: tr in triggers ==> !tr.Unknown?
    ensures OnlyKnown(triggers) == triggers
  {
    if triggers != [] {
      OnlyKnownStays(triggers[1..]);
    }
  }

  // A trigger list that is empty, or names a trigger that exists.
  predicate NamesSome(triggers: seq<Trigger>) {
    triggers == [] || exists i :: 0 <= i < |triggers| && !triggers[i].Unknown?
  }

  lemma TriggersTwice(triggers: seq<Trigger>)
    ensures NormTriggers(NormTriggers(triggers)) == NormTriggers(triggers) <==> NamesSome(triggers)
    ensures Subscribed(NormTriggers(NormTriggers(triggers))) == Subscribed(NormTriggers(triggers))
  {
    var once := NormTriggers(triggers);
    OnlyKnownElements(triggers);
    OnlyKnownStays(once);
    assert forall i :: 0 <= i < |triggers| && !triggers[i].Unknown? ==> triggers[i] in OnlyKnown(triggers);
    if once != [] && triggers != [] {
      assert once[0] in once;
      var i :| 0 <= i < |triggers| && triggers[i] == once[0];
    }
  }

  // ---- exclusions

  lemma {:induction false} OnlyWantedElements(triggers: seq<Trigger>, subscribed: seq<Trigger>)
    ensures forall tr :: tr in OnlyWanted(triggers, subscribed) <==> tr in triggers && !tr.Unknown? && tr in subscribed
  {
    if triggers != [] {
      OnlyWantedElements(triggers[1..], subscribed);
      assert triggers == [triggers[0]] + triggers[1..];
    }
  }

  lemma {:induction false} OnlyWantedStays(triggers: seq<Trigger>, subscribed: seq<Trigger>)
    requires forall tr :: tr in triggers ==> !tr.Unknown? && tr in subscribed
    ensures OnlyWanted(triggers, subscribed) == triggers
  {
    if triggers != [] {
      OnlyWantedStays(triggers[1..], subscribed);
    }
  }

  lemma OnlyWantedTwice(triggers: seq<Trigger>, subscribed: seq<Trigger>)
    ensures OnlyWanted(OnlyWanted(triggers, subscribed), subscribed) == OnlyWanted(triggers, subscribed)
  {
    OnlyWantedElements(triggers, subscribed);
    OnlyWantedStays(OnlyWanted(triggers, subscribed), subscribed);
  }

  predicate ExclusionCounts(e: ServerExclusion, subscribed: seq<Trigger>) {
    Text.HostName(e.server) != "" && OnlyWanted(e.triggers, subscribed) != []
  }

  predicate ExclusionsTidy(exclusions: seq<ServerExclusion>, subscribed: seq<Trigger>) {
    forall i :: 0 <= i < |exclusions| && ExclusionCounts(exclusions[i], subscribed) ==> Tidy(exclusions[i].server)
  }

  lemma TidyCons(e: ServerExclusion, rest: seq<ServerExclusion>, subscribed: seq<Trigger>)
    ensures ExclusionsTidy([e] + rest, subscribed) <==>
      (ExclusionCounts(e, subscribed) ==> Tidy(e.server)) && ExclusionsTidy(rest, subscribed)
  {
    var all := [e] + rest;
    assert all[0] == e && forall i :: 0 <= i < |rest| ==> rest[i] == all[i + 1];
  }

  lemma {:induction false} NormExclusionsShorter(exclusions: seq<ServerExclusion>, subscribed: seq<Trigger>)
    ensures |NormExclusions(exclusions, subscribed)| <= |exclusions|
  {
    if exclusions != [] {
      NormExclusionsShorter(exclusions[1..], subscribed);
    }
  }

  lemma {:induction false} ExclusionsTwice(exclusions: seq<ServerExclusion>, subscribed: seq<Trigger>)
    ensures var once := NormExclusions(exclusions, subscribed);
            NormExclusions(once, subscribed) == once <==>
      ExclusionsTidy(exclusions, subscribed)
  {
    if exclusions != [] {
      var first, rest := exclusions[0], exclusions[1..];
      ExclusionsTwice(rest, subscribed);
      assert exclusions == [first] + rest;
      TidyCons(first, rest, subscribed);
      if ExclusionCounts(first, subscribed) {
        var e := ServerExclusion(Text.HostName(first.server), OnlyWanted(first.triggers, subscribed));
        var once := NormExclusions(rest, subscribed);
        OnlyWantedTwice(first.triggers, subscribed);
        HostNameTwice(first.server);
        NormExclusionsShorter(once, subscribed);
        assert ([e] + once)[0] == e && ([e] + once)[1..] == once;
        var twice := NormExclusions(once, subscribed);
        if Tidy(first.server) {
          assert NormExclusions([e] + once, subscribed) == [e] + twice;
          assert ([e] + twice)[1..] == twice;
        } else {
          assert Text.HostName(e.server) != e.server;
        }
      }
    }
  }

  // ---- whole targets

  // What a target has to be for one pass to be enough.
  predicate Settled(t: Target) {
    NamesSome(t.triggers) && ExclusionsTidy(t.exclusions, Subscribed(NormTriggers(t.triggers)))
  }

  lemma NormOneFields(t: Target)
    ensures NormOne(t).triggers == NormTriggers(t.triggers)
    ensures NormOne(t).exclusions == NormExclusions(t.exclusions, Subscribed(NormTriggers(t.triggers)))
    ensures NormOne(t).repeatMinutes == ClampRepeat(t.repeatMinutes) && NormOne(t).severity == NormSeverity(t.severity)
    ensures NormOne(t) == CheckEmail(t).(triggers := NormOne(t).triggers, exclusions := NormOne(t).exclusions,
                                         repeatMinutes := NormOne(t).repeatMinutes, severity := NormOne(t).severity)
  {
  }

  lemma SeverityTwice(severity: string)
    ensures NormSeverity(NormSeverity(severity)) == NormSeverity(severity)
  {
    Text.LowerTwice(severity);
  }

  lemma EmailTwice(t: Target)
    ensures CheckEmail(CheckEmail(t)) == CheckEmail(t)
    ensures Kept(t) ==> Kept(CheckEmail(t))
  {
  }

  lemma TargetTwice(t: Target)
    ensures NormOne(NormOne(t)) == NormOne(t) <==> Settled(t)
    ensures forall tr :: HasTrigger(NormOne(NormOne(t)), tr) <==> HasTrigger(NormOne(t), tr)
    ensures Kept(t) ==> Kept(NormOne(t))
  {
    var once := NormOne(t);
    NormOneFields(t);
    NormOneFields(once);
    TriggersTwice(t.triggers);
    ExclusionsTwice(t.exclusions, Subscribed(NormTriggers(t.triggers)));
    SeverityTwice(t.severity);
    EmailTwice(t);
    assert CheckEmail(once).url == CheckEmail(CheckEmail(t)).url;
  }

  // ---- what validation must not change

  lemma CoversCons(e: ServerExclusion, rest: seq<ServerExclusion>, name: string, trigger: Trigger)
    ensures Covers([e] + rest, name, trigger) <==> Excludes(e, name, trigger) || Covers(rest, name, trigger)
  {
    assert forall x :: x in [e] + rest <==> x == e || x in rest;
  }

  // The exclusions that name no server.
  function Blank(exclusions: seq<ServerExclusion>): seq<ServerExclusion> {
    if exclusions == [] then []
    else if Text.HostName(exclusions[0].server) == "" then [exclusions[0]] + Blank(exclusions[1..])
    else Blank(exclusions[1..])
  }

  // Normalising loses only what an exclusion without a server covered.
  lemma {:induction false} CoverageKept(exclusions: seq<ServerExclusion>, subscribed: seq<Trigger>, name: string,
                                        trigger: Trigger)
    requires ExclusionsTidy(exclusions, subscribed) && trigger in subscribed && !trigger.Unknown?
    ensures Covers(exclusions, name, trigger) <==>
      Covers(NormExclusions(exclusions, subscribed), name, trigger) || Covers(Blank(exclusions), name, trigger)
  {
    if exclusions != [] {
      var first, rest := exclusions[0], exclusions[1..];
      assert exclusions == [first] + rest;
      TidyCons(first, rest, subscribed);
      CoverageKept(rest, subscribed, name, trigger);
      CoversCons(first, rest, name, trigger);
      OnlyWantedElements(first.triggers, subscribed);
      if ExclusionCounts(first, subscribed) {
        var e := ServerExclusion(Text.HostName(first.server), OnlyWanted(first.triggers, subscribed));
        HostNameTwice(first.server);
        CoversCons(e, NormExclusions(rest, subscribed), name, trigger);
      } else if Text.HostName(first.server) == "" {
        CoversCons(first, Blank(rest), name, trigger);
      }
    }
  }

  // An exclusion without a server covers only hosts without a short name.
  lemma {:induction false} BlankCoversNoHost(exclusions: seq<ServerExclusion>, name: string, trigger: Trigger)
    requires Text.BeforeDot(name) != ""
    ensures !Covers(Blank(exclusions), name, trigger)
  {
    if exclusions != [] {
      BlankCoversNoHost(exclusions[1..], name, trigger);
      if Text.HostName(exclusions[0].server) == "" {
        BlankIsNoServer(name);
        CoversCons(exclusions[0], Blank(exclusions[1..]), name, trigger);
      }
    }
  }

  lemma BlankIsNoServer(name: string)
    requires Text.BeforeDot(name) != ""
    ensures !SameServer("", name)
  {
    assert |Text.Lower(name)| == |name| && |Text.Lower(Text.BeforeDot(name))| == |Text.BeforeDot(name)|;
    assert Text.BeforeDot("") == "";
    assert |Text.Lower("")| == 0;
  }

  // For a settled target validation changes no routing decision about a trigger that exists:
  // it subscribes to what it did and excludes the servers it did, but for what an exclusion
  // without a server covered, which no host with a short name is.
  lemma RoutingKept(t: Target, server: string, trigger: Trigger)
    requires Settled(t) && !trigger.Unknown?
    ensures HasTrigger(NormOne(t), trigger) <==> HasTrigger(t, trigger)
    ensures HasTrigger(t, trigger) ==>
      (ExcludesServer(t, server, trigger) <==>
       ExcludesServer(NormOne(t), server, trigger) || Covers(Blank(t.exclusions), Text.HostName(server), trigger))
    ensures HasTrigger(t, trigger) && Text.BeforeDot(Text.HostName(server)) != "" ==>
      (ExcludesServer(t, server, trigger) <==> ExcludesServer(NormOne(t), server, trigger))
  {
    var once := NormTriggers(t.triggers);
    NormOneFields(t);
    OnlyKnownElements(t.triggers);
    if t.triggers != [] {
      var i :| 0 <= i < |t.triggers| && !t.triggers[i].Unknown?;
      assert t.triggers[i] in once;
    }
    if HasTrigger(t, trigger) {
      CoverageKept(t.exclusions, Subscribed(once), Text.HostName(server), trigger);
      if Text.BeforeDot(Text.HostName(server)) != "" {
        BlankCoversNoHost(t.exclusions, Text.HostName(server), trigger);
      }
    }
  }

  predicate AllSettled(ts: seq<Target>) {
    forall i :: 0 <= i < |ts| && Kept(ts[i]) ==> Settled(ts[i])
  }

  lemma SettledCons(t: Target, rest: seq<Target>)
    ensures AllSettled([t] + rest) <==> (Kept(t) ==> Settled(t)) && AllSettled(rest)
  {
    var all := [t] + rest;
    assert all[0] == t && forall i :: 0 <= i < |rest| ==> rest[i] == all[i + 1];
  }

  lemma NormTargetsCons(t: Target, rest: seq<Target>)
    ensures NormTargets([t] + rest) == if Kept(t) then [NormOne(t)] + NormTargets(rest) else NormTargets(rest)
  {
    assert ([t] + rest)[1..] == rest;
  }

  // Validating the targets again changes nothing exactly when every kept target names a known
  // trigger, or none, and its counting exclusions name tidy hosts.
  lemma {:induction false} TargetsFixpoint(ts: seq<Target>)
    ensures NormTargets(NormTargets(ts)) == NormTargets(ts) <==> AllSettled(ts)
  {
    if ts != [] {
      var t, rest := ts[0], ts[1..];
      TargetsFixpoint(rest);
      assert ts == [t] + rest;
      SettledCons(t, rest);
      if Kept(t) {
        TargetTwice(t);
        var once := NormTargets(rest);
        NormTargetsCons(NormOne(t), once);
        assert ([NormOne(t)] + once)[1..] == once && ([NormOne(t)] + once)[0] == NormOne(t);
        var twice := NormTargets(once);
        assert ([NormOne(NormOne(t))] + twice)[1..] == twice;
      }
    }
  }

  // In every case a second pass keeps every target and what it subscribes to.
  lemma {:induction false} SubscriptionsSettle(ts: seq<Target>)
    ensures |NormTargets(NormTargets(ts))| == |NormTargets(ts)|
    ensures forall i, tr :: 0 <= i < |NormTargets(ts)| ==>
      (HasTrigger(NormTargets(NormTargets(ts))[i], tr) <==> HasTrigger(NormTargets(ts)[i], tr))
  {
    if ts != [] {
      var t, rest := ts[0], ts[1..];
      SubscriptionsSettle(rest);
      if Kept(t) {
        TargetTwice(t);
        var once := NormTargets(rest);
        NormTargetsCons(NormOne(t), once);
        var twice := NormTargets(once);
        forall i, tr | 0 <= i < |[NormOne(t)] + once|
          ensures HasTrigger(([NormOne(NormOne(t))] + twice)[i], tr) <==> HasTrigger(([NormOne(t)] + once)[i], tr)
        {
          if i > 0 {
            assert ([NormOne(NormOne(t))] + twice)[i] == twice[i - 1] && ([NormOne(t)] + once)[i] == once[i - 1];
          }
        }
      }
    }
  }

  // -------------------------------------------------------------- event spikes

  datatype EvtSpike = EvtSpike(enabled: bool, minCount: int, threshold: real, cooldownMinutes: int,
                               cooldowns: map<string, int>, slotMaturity: int, persistSeconds: int, halfLife: int,
                               priorStrength: real, meanPrior: real,
                               disabled: seq<string>, added: seq<string>, securityChannel: bool)

  const CHANNEL_LIMIT := 256

  // Zero stands for "not set".
  function ClampInt(v: int, default: int, min: int, max: int): int {
    if v == 0 then default else if v < min then min else if v > max then max else v
  }

  function ClampReal(v: real, default: real, min: real, max: real): real {
    if v == 0.0 then default else if v < min then min else if v > max then max else v
  }

  // A value that is set becomes the nearest one in range, one that is not the default.
  lemma ClampsToNearest(v: int, x: real, default: int, defaultReal: real, min: int, max: int, w: int, y: real)
    requires min <= w <= max && min as real <= y <= max as real
    ensures v == 0 ==> ClampInt(v, default, min, max) == default
    ensures x == 0.0 ==> ClampReal(x, defaultReal, min as real, max as real) == defaultReal
    ensures v != 0 ==> var r := ClampInt(v, default, min, max);
      min <= r <= max && (if r <= v then v - r else r - v) <= (if w <= v then v - w else w - v)
    ensures x != 0.0 ==> var r := ClampReal(x, defaultReal, min as real, max as real);
      min as real <= r <= max as real && (if r <= x then x - r else r - x) <= (if y <= x then x - y else y - x)
  {
  }

  function ClampCooldown(minutes: int): int {
    ClampInt(minutes, 60, 1, 1440)
  }

  // The keys of the overrides in byte order.
  ghost predicate KeysInOrder(m: map<string, int>, keys: seq<string>) {
    && (forall i, j :: 0 <= i < j < |keys| ==> Text.Less(keys[i], keys[j]))
    && (forall k :: k in keys <==> k in m)
  }

  // Takes the overrides in the order given: a blank name is skipped, a name already taken
  // keeps its value, and nothing more is taken once there are 256.
  function Collect(m: map<string, int>, keys: seq<string>, done: map<string, int>): map<string, int>
    requires forall k :: k in keys ==> k in m
  {
    if keys == [] then done else
      var channel := Text.TrimSpace(keys[0]);
      if channel == "" || channel in done then Collect(m, keys[1..], done)
      else if |done| >= CHANNEL_LIMIT then done
      else Collect(m, keys[1..], done[channel := ClampCooldown(m[keys[0]])])
  }

  predicate Canonical(m: map<string, int>) {
    |m| <= CHANNEL_LIMIT && forall k :: k in m ==> k != "" && Text.TrimSpace(k) == k && 1 <= m[k] <= 1440
  }

  lemma {:induction false} CollectCanonical(m: map<string, int>, keys: seq<string>, done: map<string, int>)
    requires (forall k :: k in keys ==> k in m) && Canonical(done)
    ensures Canonical(Collect(m, keys, done))
    ensures forall k :: k in done ==> k in Collect(m, keys, done) && Collect(m, keys, done)[k] == done[k]
  {
    if keys != [] {
      var channel := Text.TrimSpace(keys[0]);
      assert keys[0] in keys;
      if channel == "" || channel in done {
        CollectCanonical(m, keys[1..], done);
      } else if |done| < CHANNEL_LIMIT {
        Text.TrimSpaceTwice(keys[0]);
        CollectCanonical(m, keys[1..], done[channel := ClampCooldown(m[keys[0]])]);
      }
    }
  }

  // Canonical overrides are collected as they are, in whatever order.
  lemma {:induction false} CollectStays(m: map<string, int>, keys: seq<string>, done: map<string, int>)
    requires Canonical(m) && (forall k :: k in keys ==> k in m)
    requires forall k :: k in done ==> k in m && done[k] == m[k]
    ensures forall k :: k in Collect(m, keys, done) <==> k in done || k in keys
    ensures forall k :: k in Collect(m, keys, done) ==> Collect(m, keys, done)[k] == m[k]
  {
    if keys != [] {
      var k0 := keys[0];
      assert k0 in keys && keys == [k0] + keys[1..];
      if k0 in done {
        CollectStays(m, keys[1..], done);
      } else {
        assert done.Keys <= m.Keys - {k0};
        SubsetSize(done.Keys, m.Keys - {k0});
        CollectStays(m, keys[1..], done[k0 := m[k0]]);
      }
    }
  }

  lemma {:induction false} SubsetSize(a: set<string>, b: set<string>)
    requires a <= b
    ensures |a| <= |b|
  {
    if a != {} {
      var x :| x in a;
      SubsetSize(a - {x}, b - {x});
    }
  }

  // Of several keys that trim to one channel, the first in byte order decides.
  lemma {:induction false} FirstKeyWins(m: map<string, int>, keys: seq<string>, done: map<string, int>, i: nat)
    requires (forall k :: k in keys ==> k in m) && i < |keys|
    requires Text.TrimSpace(keys[i]) != "" && Text.TrimSpace(keys[i]) !in done
    requires forall j :: 0 <= j < i ==> Text.TrimSpace(keys[j]) != Text.TrimSpace(keys[i])
    requires Text.TrimSpace(keys[i]) in Collect(m, keys, done)
    ensures Collect(m, keys, done)[Text.TrimSpace(keys[i])] == ClampCooldown(m[keys[i]])
  {
    var channel := Text.TrimSpace(keys[0]);
    assert keys[0] in keys;
    if i == 0 {
      if |done| < CHANNEL_LIMIT {
        CollectKeeps(m, keys[1..], done[channel := ClampCooldown(m[keys[0]])], channel);
      }
    } else if channel == "" || channel in done {
      FirstKeyWins(m, keys[1..], done, i - 1);
    } else if |done| < CHANNEL_LIMIT {
      FirstKeyWins(m, keys[1..], done[channel := ClampCooldown(m[keys[0]])], i - 1);
    }
  }

  lemma {:induction false} CollectKeeps(m: map<string, int>, keys: seq<string>, done: map<string, int>, k: string)
    requires (forall x :: x in keys ==> x in m) && k in done
    ensures k in Collect(m, keys, done) && Collect(m, keys, done)[k] == done[k]
  {
    if keys != [] {
      var channel := Text.TrimSpace(keys[0]);
      assert keys[0] in keys;
      if channel == "" || channel in done {
        CollectKeeps(m, keys[1..], done, k);
      } else if |done| < CHANNEL_LIMIT {
        CollectKeeps(m, keys[1..], done[channel := ClampCooldown(m[keys[0]])], k);
      }
    }
  }

  // The settings after a pass, with the overrides already collected.
  function Clamped(c: EvtSpike, cooldowns: map<string, int>): EvtSpike {
    c.(minCount := ClampInt(c.minCount, 10, 1, 10000),
       threshold := ClampReal(c.threshold, 0.0001, 0.000000001, 0.1),
       cooldownMinutes := ClampInt(c.cooldownMinutes, 60, 1, 1440),
       slotMaturity := ClampInt(c.slotMaturity, 630, 1, 10000),
       persistSeconds := ClampInt(c.persistSeconds, 900, 60, 86400),
       halfLife := ClampInt(c.halfLife, 630, 60, 10000),
       priorStrength := ClampReal(c.priorStrength, 60.0, 1.0, 10000.0),
       meanPrior := ClampReal(c.meanPrior, 0.1, 0.0, 1000.0),
       cooldowns := cooldowns)
  }

  // What collecting the overrides in byte order gives.
  ghost predicate IsCollected(m: map<string, int>, r: map<string, int>) {
    exists keys :: KeysInOrder(m, keys) && r == Collect(m, keys, map[])
  }

  ghost predicate IsClamped(c: EvtSpike, r: EvtSpike) {
    r == Clamped(c, r.cooldowns) && IsCollected(c.cooldowns, r.cooldowns)
  }

  lemma OrderedTail(m: map<string, int>, keys: seq<string>)
    requires KeysInOrder(m, keys) && keys != []
    ensures KeysInOrder(m - {keys[0]}, keys[1..])
    ensures forall k :: k in m && k != keys[0] ==> Text.Less(keys[0], k)
  {
    var rest := keys[1..];
    assert keys == [keys[0]] + rest;
    forall k | k in rest ensures Text.Less(keys[0], k) && k != keys[0] {
      var i :| 0 <= i < |rest| && rest[i] == k;
      assert keys[i + 1] == k;
      Text.LessAsymmetric(keys[0], k);
    }
    forall i, j | 0 <= i < j < |rest| ensures Text.Less(rest[i], rest[j]) {
      assert keys[i + 1] == rest[i] && keys[j + 1] == rest[j];
    }
  }

  lemma EmptyOrder(m: map<string, int>, keys: seq<string>)
    requires KeysInOrder(m, keys)
    ensures keys == [] <==> m == map[]
  {
    if keys != [] {
      assert keys[0] in m;
    } else {
      assert m.Keys == {};
    }
  }

  lemma {:induction false} OrderUnique(m: map<string, int>, keys: seq<string>, others: seq<string>)
    requires KeysInOrder(m, keys) && KeysInOrder(m, others)
    ensures keys == others
    decreases |keys|
  {
    EmptyOrder(m, keys);
    EmptyOrder(m, others);
    if keys != [] {
      assert keys[0] in keys && keys[0] in others && others[0] in others && others[0] in m;
      OrderedTail(m, keys);
      OrderedTail(m, others);
      if keys[0] != others[0] {
        Text.LessAsymmetric(keys[0], others[0]);
      }
      OrderUnique(m - {keys[0]}, keys[1..], others[1..]);
      assert keys == [keys[0]] + keys[1..] && others == [others[0]] + others[1..];
    }
  }

  // The iteration order of the map leaves no trace: clamping has one result.
  lemma ClampingIsDetermined(c: EvtSpike, r: EvtSpike, other: EvtSpike)
    requires IsClamped(c, r) && IsClamped(c, other)
    ensures r == other
  {
    var keys :| KeysInOrder(c.cooldowns, keys) && r.cooldowns == Collect(c.cooldowns, keys, map[]);
    var others :| KeysInOrder(c.cooldowns, others) && other.cooldowns == Collect(c.cooldowns, others, map[]);
    OrderUnique(c.cooldowns, keys, others);
  }

  lemma CollectedAgain(m: map<string, int>, keys: seq<string>)
    requires Canonical(m) && KeysInOrder(m, keys)
    ensures Collect(m, keys, map[]) == m
  {
    CollectStays(m, keys, map[]);
  }

  lemma CollectedCanonical(m: map<string, int>, r: map<string, int>)
    requires IsCollected(m, r)
    ensures Canonical(r)
  {
    var keys :| KeysInOrder(m, keys) && r == Collect(m, keys, map[]);
    CollectCanonical(m, keys, map[]);
  }

  // Normalising the overrides a second time never changes them.
  lemma CooldownsSettle(m: map<string, int>, once: map<string, int>, twice: map<string, int>)
    requires IsCollected(m, once) && IsCollected(once, twice)
    ensures twice == once
  {
    CollectedCanonical(m, once);
    var again :| KeysInOrder(once, again) && twice == Collect(once, again, map[]);
    CollectedAgain(once, again);
  }

  // Clamping twice changes something exactly when the mean prior was negative: it is first
  // raised to zero, and zero then stands for the default.
  lemma ClampFixpoint(c: EvtSpike, once: EvtSpike, twice: EvtSpike)
    requires IsClamped(c, once) && IsClamped(once, twice)
    ensures twice == once <==> c.meanPrior >= 0.0
  {
    CooldownsSettle(c.cooldowns, once.cooldowns, twice.cooldowns);
  }

  // ------------------------------------------------------------------- patches

  datatype Patch = Patch(enabled: Option<bool>, minCount: Option<int>, threshold: Option<real>,
                         cooldownMinutes: Option<int>,
                         cooldowns: Option<map<string, int>>, slotMaturity: Option<int>, persistSeconds: Option<int>,
                         halfLife: Option<int>, priorStrength: Option<real>, meanPrior: Option<real>,
                         disabled: Option<seq<string>>, added: Option<seq<string>>, securityChannel: Option<bool>)

  predicate InRange(v: Option<int>, min: int, max: int) {
    v.Some? ==> min <= v.value <= max
  }

  predicate InRealRange(v: Option<real>, min: real, max: real) {
    v.Some? ==> min <= v.value <= max
  }

  predicate CooldownsAccepted(m: map<string, int>) {
    && |m| <= CHANNEL_LIMIT
    && (forall k :: k in m ==> Text.TrimSpace(k) != "" && 1 <= m[k] <= 1440)
    && (forall k, l :: k in m && l in m && Text.TrimSpace(k) == Text.TrimSpace(l) ==> k == l)
  }

  predicate Accepted(p: Patch) {
    && InRange(p.minCount, 1, 10000) && InRealRange(p.threshold, 0.000000001, 0.1)
    && InRange(p.cooldownMinutes, 1, 1440)
    && InRange(p.slotMaturity, 1, 10000) && InRange(p.persistSeconds, 60, 86400) && InRange(p.halfLife, 60, 10000)
    && InRealRange(p.priorStrength, 1.0, 10000.0) && InRealRange(p.meanPrior, 0.0, 1000.0)
    && (p.disabled.Some? ==> |p.disabled.value| <= CHANNEL_LIMIT)
    && (p.added.Some? ==> |p.added.value| <= CHANNEL_LIMIT)
    && (p.cooldowns.Some? ==> CooldownsAccepted(p.cooldowns.value))
  }

  // The check of the overrides, one at a time in whatever order the map yields them.
  method CheckCooldowns(m: map<string, int>) returns (ok: bool)
    ensures ok <==> CooldownsAccepted(m)
  {
    if |m| > CHANNEL_LIMIT {
      return false;
    }
    var seen: set<string> := {};
    var todo := m.Keys;
    while todo != {}
      invariant todo <= m.Keys
      invariant forall k :: k in m && k !in todo ==>
                  Text.TrimSpace(k) in seen && Text.TrimSpace(k) != "" && 1 <= m[k] <= 1440
      invariant forall c :: c in seen ==> exists k :: k in m && k !in todo && Text.TrimSpace(k) == c
      invariant forall k, l :: k in m && l in m && k !in todo && l !in todo ==>
                  Text.TrimSpace(k) == Text.TrimSpace(l) ==> k == l
      decreases |todo|
    {
      var k :| k in todo;
      var channel := Text.TrimSpace(k);
      if channel == "" || channel in seen || m[k] < 1 || m[k] > 1440 {
        return false;
      }
      ghost var was, before := todo, seen;
      seen := seen + {channel};
      todo := todo - {k};
      forall c | c in seen ensures exists l :: l in m && l !in todo && Text.TrimSpace(l) == c {
        if c in before {
          var l :| l in m && l !in was && Text.TrimSpace(l) == c;
          assert l !in todo;
        } else {
          assert k !in todo;
        }
      }
    }
    return true;
  }

  function Patched(c: EvtSpike, p: Patch): EvtSpike {
    EvtSpike(p.enabled.GetOr(c.enabled), p.minCount.GetOr(c.minCount), p.threshold.GetOr(c.threshold),
             p.cooldownMinutes.GetOr(c.cooldownMinutes), p.cooldowns.GetOr(c.cooldowns),
             p.slotMaturity.GetOr(c.slotMaturity),
             p.persistSeconds.GetOr(c.persistSeconds), p.halfLife.GetOr(c.halfLife),
             p.priorStrength.GetOr(c.priorStrength),
             p.meanPrior.GetOr(c.meanPrior), p.disabled.GetOr(c.disabled), p.added.GetOr(c.added),
             p.securityChannel.GetOr(c.securityChannel))
  }

  // Accepted overrides all fit, each under its own name.
  lemma {:induction false} CollectAccepted(m: map<string, int>, keys: seq<string>, done: map<string, int>)
    requires CooldownsAccepted(m) && (forall k :: k in keys ==> k in m)
    requires forall i, j :: 0 <= i < j < |keys| ==> keys[i] != keys[j]
    requires forall k :: k in keys ==> Text.TrimSpace(k) !in done
    requires |done| + |keys| <= CHANNEL_LIMIT
    ensures |Collect(m, keys, done)| == |done| + |keys|
    ensures forall k :: k in keys ==>
              Text.TrimSpace(k) in Collect(m, keys, done) && Collect(m, keys, done)[Text.TrimSpace(k)] == m[k]
  {
    if keys != [] {
      var k0 := keys[0];
      var channel := Text.TrimSpace(k0);
      assert k0 in keys && keys == [k0] + keys[1..];
      var next := done[channel := ClampCooldown(m[k0])];
      forall k | k in keys[1..] ensures Text.TrimSpace(k) !in next {
        assert k != k0;
      }
      CollectAccepted(m, keys[1..], next);
      CollectKeeps(m, keys[1..], next, channel);
    }
  }

  lemma {:induction false} DistinctSize(keys: seq<string>)
    requires forall i, j :: 0 <= i < j < |keys| ==> keys[i] != keys[j]
    ensures |(set k | k in keys)| == |keys|
  {
    if keys != [] {
      var rest := keys[1..];
      DistinctSize(rest);
      assert keys == [keys[0]] + rest;
      assert (set k | k in keys) == (set k | k in rest) + {keys[0]};
    }
  }

  // An accepted patch is stored as it was sent, channel names trimmed; only a mean prior of
  // zero turns into the default.
  lemma AcceptedPatchIsStored(c: EvtSpike, p: Patch, r: EvtSpike)
    requires Accepted(p) && IsClamped(Patched(c, p), r)
    ensures p.minCount.Some? ==> r.minCount == p.minCount.value
    ensures p.threshold.Some? ==> r.threshold == p.threshold.value
    ensures p.cooldownMinutes.Some? ==> r.cooldownMinutes == p.cooldownMinutes.value
    ensures p.slotMaturity.Some? ==> r.slotMaturity == p.slotMaturity.value
    ensures p.persistSeconds.Some? ==> r.persistSeconds == p.persistSeconds.value
    ensures p.halfLife.Some? ==> r.halfLife == p.halfLife.value
    ensures p.priorStrength.Some? ==> r.priorStrength == p.priorStrength.value
    ensures p.meanPrior.Some? ==> r.meanPrior == if p.meanPrior.value == 0.0 then 0.1 else p.meanPrior.value
    ensures p.disabled.Some? ==> r.disabled == p.disabled.value
    ensures p.added.Some? ==> r.added == p.added.value
    ensures p.cooldowns.Some? ==> |r.cooldowns| == |p.cooldowns.value|
    ensures p.cooldowns.Some? ==>
      forall k :: k in p.cooldowns.value ==>
        Text.TrimSpace(k) in r.cooldowns && r.cooldowns[Text.TrimSpace(k)] == p.cooldowns.value[k]
  {
    if p.cooldowns.Some? {
      StoredCooldowns(p.cooldowns.value, Patched(c, p), r);
    }
  }

  lemma StoredCooldowns(m: map<string, int>, c: EvtSpike, r: EvtSpike)
    requires CooldownsAccepted(m) && c.cooldowns == m && IsClamped(c, r)
    ensures |r.cooldowns| == |m|
    ensures forall k :: k in m ==> Text.TrimSpace(k) in r.cooldowns && r.cooldowns[Text.TrimSpace(k)] == m[k]
  {
    var keys :| KeysInOrder(m, keys) && r.cooldowns == Collect(m, keys, map[]);
    forall i, j | 0 <= i < j < |keys| ensures keys[i] != keys[j] {
      Text.LessAsymmetric(keys[i], keys[j]);
    }
    DistinctSize(keys);
    assert (set k | k in keys) == m.Keys;
    CollectAccepted(m, keys, map[]);
  }

  // ----------------------------------------------------------- the whole pass

  datatype Settings = Settings(notifications: seq<Target>, exclusions: seq<string>, evtSpike: EvtSpike)

  ghost predicate Validated(c: Settings, r: Settings) {
    && r.notifications == NormTargets(c.notifications)
    && r.exclusions == NormHosts(c.exclusions, {})
    && IsClamped(c.evtSpike, r.evtSpike)
  }

  // One pass is a fixpoint exactly when these three parts are.
  lemma ValidateFixpoint(c: Settings, once: Settings, twice: Settings)
    requires Validated(c, once) && Validated(once, twice)
    ensures twice == once <==> AllSettled(c.notifications) && AllTidy(c.exclusions) && c.evtSpike.meanPrior >= 0.0
  {
    TargetsFixpoint(c.notifications);
    HostsFixpoint(c.exclusions);
    ClampFixpoint(c.evtSpike, once.evtSpike, twice.evtSpike);
  }

  // A negative mean prior: the first pass makes it zero, the second takes zero for "not set".
  lemma SecondPassChangesThePrior(c: EvtSpike, once: EvtSpike, twice: EvtSpike)
    requires c.meanPrior == -1.0 && IsClamped(c, once) && IsClamped(once, twice)
    ensures once.meanPrior == 0.0 && twice.meanPrior == 0.1
  {
    ClampFixpoint(c, once, twice);
  }

  // A host with two dots loses one in each pass.
  lemma SecondPassChangesAHost()
    ensures NormHosts(["a.."], {}) == ["a."] && NormHosts(["a."], {}) == ["a"]
  {
    HostStripped("a..", "a.");
    HostStripped("a.", "a");
    assert ["a.."][1..] == [] && ["a."][1..] == [];
  }

  lemma HostStripped(host: string, shorter: string)
    requires shorter != "" && host == shorter + "." && Text.NoBlankEnds(host) && Text.Lower(shorter) == shorter
    ensures Text.CanonicalHost(host) == shorter
  {
    Text.TrimSpaceTrims(host);
    assert host[..|host| - 1] == shorter;
  }

  // A target that lists only a trigger that does not exist: the first pass empties the list, the
  // second fills it with the default.
  lemma SecondPassChangesTriggers(name: string)
    ensures NormTriggers([Unknown(name)]) == [] && NormTriggers([]) == DEFAULT_TRIGGERS
  {
    assert [Unknown(name)][1..] == [];
    assert OnlyKnown([Unknown(name)]) == OnlyKnown([]);
  }

  lemma NothingCollected()
    ensures IsCollected(map[], map[])
  {
    assert KeysInOrder(map[], []);
    assert Collect(map[], [], map[]) == map[];
  }

  // So there are settings that a second pass changes.
  lemma SecondValidationDiffers(c: EvtSpike) returns (start: Settings, once: Settings, twice: Settings)
    ensures Validated(start, once) && Validated(once, twice) && twice != once
  {
    NothingCollected();
    SecondPassChangesAHost();
    var c0 := c.(cooldowns := map[]);
    var c1 := Clamped(c0, map[]);
    start := Settings([], ["a.."], c0);
    once := Settings([], ["a."], c1);
    twice := Settings([], ["a"], Clamped(c1, map[]));
  }

  function KeptOnly(ts: seq<Target>): seq<Target> {
    if ts == [] then [] else if Kept(ts[0]) then [ts[0]] + KeptOnly(ts[1..]) else KeptOnly(ts[1..])
  }

  lemma {:induction false} NormTargetsEach(ts: seq<Target>)
    ensures |NormTargets(ts)| == |KeptOnly(ts)|
    ensures forall i :: 0 <= i < |KeptOnly(ts)| ==> NormTargets(ts)[i] == NormOne(KeptOnly(ts)[i])
  {
    if ts != [] {
      var rest := ts[1..];
      NormTargetsEach(rest);
      if Kept(ts[0]) {
        forall i | 0 < i < |KeptOnly(ts)| ensures NormTargets(ts)[i] == NormOne(KeptOnly(ts)[i]) {
          assert KeptOnly(ts)[i] == KeptOnly(rest)[i - 1] && NormTargets(ts)[i] == NormTargets(rest)[i - 1];
        }
      }
    }
  }

  class Config {
    var notifications: seq<Target>
    var exclusions: seq<string>
    var evtSpike: EvtSpike

    ghost function Abs(): Settings
      reads this
    {
      Settings(notifications, exclusions, evtSpike)
    }

    constructor (c: Settings)
      ensures Abs() == c
    {
      notifications, exclusions, evtSpike := c.notifications, c.exclusions, c.evtSpike;
    }

    method Validate()
      modifies this
      ensures Validated(old(Abs()), Abs())
    {
      ClampEvtSpike();
      StripTargets();
      NormaliseEach();
      exclusions := NormaliseHosts(exclusions);
      CheckEmails();
      NormTargetsEach(old(notifications));
      assert notifications == NormTargets(old(notifications));
    }

    method NormaliseEach()
      modifies this`notifications
      ensures |notifications| == |old(notifications)|
      ensures forall k :: 0 <= k < |notifications| ==> notifications[k] == NormTarget(old(notifications)[k])
    {
      var i := 0;
      while i < |notifications|
        invariant 0 <= i <= |notifications| == |old(notifications)|
        invariant forall k :: 0 <= k < i ==> notifications[k] == NormTarget(old(notifications)[k])
        invariant forall k :: i <= k < |notifications| ==> notifications[k] == old(notifications)[k]
      {
        var t := NormaliseTarget(notifications[i]);
        notifications := notifications[i := t];
        i := i + 1;
      }
    }

    // Email targets need an SMTP URL, a sender and a recipient.
    method CheckEmails()
      modifies this`notifications
      ensures |notifications| == |old(notifications)|
      ensures forall k :: 0 <= k < |notifications| ==> notifications[k] == CheckEmail(old(notifications)[k])
    {
      var i := 0;
      while i < |notifications|
        invariant 0 <= i <= |notifications| == |old(notifications)|
        invariant forall k :: 0 <= k < i ==> notifications[k] == CheckEmail(old(notifications)[k])
        invariant forall k :: i <= k < |notifications| ==> notifications[k] == old(notifications)[k]
      {
        var t := notifications[i];
        if t.kind == Email {
          if !SmtpUrl(t.url) {
            t := t.(url := "");
          }
          if t.from == "" {
            t := t.(url := "");
          }
          if |t.to| == 0 {
            t := t.(url := "");
          }
        }
        notifications := notifications[i := t];
        i := i + 1;
      }
    }

    // Removes targets of unknown kind, then those with an unknown URL scheme.
    method StripTargets()
      modifies this`notifications
      ensures notifications == KeptOnly(old(notifications))
    {
      var kept: seq<Target> := [];
      var i := 0;
      while i < |notifications|
        invariant 0 <= i <= |notifications|
        invariant kept + KeptOnly(notifications[i..]) == KeptOnly(notifications)
      {
        var t := notifications[i];
        assert notifications[i..][0] == t && notifications[i..][1..] == notifications[i + 1..];
        if !t.kind.OtherKind? && KnownUrl(t.url) {
          assert kept + ([t] + KeptOnly(notifications[i + 1..])) == (kept + [t]) + KeptOnly(notifications[i + 1..]);
          kept := kept + [t];
        }
        i := i + 1;
      }
      assert kept + [] == kept;
      notifications := kept;
    }

    method ClampEvtSpike()
      modifies this`evtSpike
      ensures IsClamped(old(evtSpike), evtSpike)
    {
      var cooldowns := NormaliseCooldowns(evtSpike.cooldowns);
      evtSpike := Clamped(evtSpike, cooldowns);
    }

    method ApplyEvtSpikePatch(patch: Patch)
      modifies this`evtSpike
      ensures IsClamped(Patched(old(evtSpike), patch), evtSpike)
    {
      evtSpike := Patched(evtSpike, patch);
      ClampEvtSpike();
    }

    // Adds the host, or removes the first entry that stands for it.
    method ToggleExclusion(host: string) returns (excluded: Option<bool>)
      modifies this`exclusions
      ensures Text.CanonicalHost(host) == "" ==> excluded == None && exclusions == old(exclusions)
      ensures Text.CanonicalHost(host) != "" ==>
        exclusions == Toggled(old(exclusions), Text.CanonicalHost(host)) &&
        excluded == Some(!GloballyExcluded(old(exclusions), host))
    {
      var canonical := Text.CanonicalHost(host);
      if canonical == "" {
        return None;
      }
      var i := 0;
      while i < |exclusions|
        invariant 0 <= i <= |exclusions|
        invariant exclusions == old(exclusions)
        invariant forall h :: h in exclusions[..i] ==> Text.CanonicalHost(h) != canonical
      {
        if Text.CanonicalHost(exclusions[i]) == canonical {
          ToggledAfter(exclusions[..i], exclusions[i..], canonical);
          assert exclusions == exclusions[..i] + exclusions[i..] && exclusions[i..][1..] == exclusions[i + 1..];
          exclusions := exclusions[..i] + exclusions[i + 1..];
          return Some(false);
        }
        assert exclusions[..i + 1] == exclusions[..i] + [exclusions[i]];
        i := i + 1;
      }
      assert exclusions[..i] == exclusions && exclusions + [] == exclusions;
      ToggledAfter(exclusions, [], canonical);
      exclusions := exclusions + [canonical];
      return Some(true);
    }
  }

  function Toggled(hosts: seq<string>, host: string): seq<string> {
    if hosts == [] then [host]
    else if Text.CanonicalHost(hosts[0]) == host then hosts[1..]
    else [hosts[0]] + Toggled(hosts[1..], host)
  }

  lemma ToggledCons(h: string, rest: seq<string>, host: string)
    ensures Toggled([h] + rest, host) == if Text.CanonicalHost(h) == host then rest else [h] + Toggled(rest, host)
  {
    assert ([h] + rest)[1..] == rest;
  }

  lemma Regroup(a: seq<string>, b: seq<string>, c: seq<string>)
    ensures a + (b + c) == (a + b) + c
  {
  }

  // The toggle passes over entries that stand for other hosts.
  lemma {:induction false} ToggledAfter(front: seq<string>, back: seq<string>, host: string)
    requires forall h :: h in front ==> Text.CanonicalHost(h) != host
    ensures Toggled(front + back, host) == front + Toggled(back, host)
    decreases |front|
  {
    if front == [] {
      assert front + back == back;
    } else {
      var h, rest := front[0], front[1..];
      assert front == [h] + rest;
      ToggledAfter(rest, back, host);
      Regroup([h], rest, back);
      ToggledCons(h, rest + back, host);
      Regroup([h], rest, Toggled(back, host));
    }
  }

  // How many entries stand for a host.
  function Standing(hosts: seq<string>, host: string): nat {
    if hosts == [] then 0
    else (if Text.CanonicalHost(hosts[0]) == host then 1 else 0) + Standing(hosts[1..], host)
  }

  lemma {:induction false} StandingNames(hosts: seq<string>, x: string)
    requires x != ""
    ensures Names(hosts, x) <==> Standing(hosts, x) > 0
  {
    if hosts != [] {
      assert hosts == [hosts[0]] + hosts[1..];
      NamesCons(hosts[0], hosts[1..], x);
      StandingNames(hosts[1..], x);
    }
  }

  lemma {:induction false} ToggledStanding(hosts: seq<string>, host: string, x: string)
    ensures Standing(Toggled(hosts, host), x) ==
      if Standing(hosts, host) == 0 then Standing(hosts, x) + (if Text.CanonicalHost(host) == x then 1 else 0)
      else Standing(hosts, x) - (if host == x then 1 else 0)
  {
    if hosts != [] {
      ToggledStanding(hosts[1..], host, x);
      var rest := Toggled(hosts[1..], host);
      assert ([hosts[0]] + rest)[1..] == rest;
    } else {
      assert [host][1..] == [];
    }
  }

  // A toggle of a tidy host turns its exclusion on or off exactly when at most one entry stands
  // for it, whatever the list holds; and it never changes another host's.
  lemma ToggleFlips(hosts: seq<string>, host: string, x: string)
    requires Text.CanonicalHost(host) != "" && Tidy(host)
    ensures (GloballyExcluded(Toggled(hosts, Text.CanonicalHost(host)), host) <==> !GloballyExcluded(hosts, host)) <==>
      Standing(hosts, Text.CanonicalHost(host)) <= 1
    ensures Text.CanonicalHost(x) != Text.CanonicalHost(host) ==>
      (GloballyExcluded(Toggled(hosts, Text.CanonicalHost(host)), x) <==> GloballyExcluded(hosts, x))
  {
    var canonical, other := Text.CanonicalHost(host), Text.CanonicalHost(x);
    var after := Toggled(hosts, canonical);
    CanonicalTwice(host);
    ToggledStanding(hosts, canonical, canonical);
    StandingNames(hosts, canonical);
    StandingNames(after, canonical);
    if other != "" {
      ToggledStanding(hosts, canonical, other);
      StandingNames(hosts, other);
      StandingNames(after, other);
    }
  }

  // In a validated list of tidy hosts no two entries stand for the same one.
  lemma {:induction false} OneStands(hosts: seq<string>, host: string)
    requires DistinctOutside(hosts, {}) && forall h :: h in hosts ==> Text.CanonicalHost(h) == h
    ensures Standing(hosts, host) <= 1
  {
    if hosts != [] {
      assert hosts == [hosts[0]] + hosts[1..];
      DistinctTail(hosts, {});
      OneStands(hosts[1..], host);
      if host != "" {
        StandingNames(hosts[1..], host);
      } else {
        NoneStandsForBlank(hosts[1..]);
      }
    }
  }

  lemma {:induction false} NoneStandsForBlank(hosts: seq<string>)
    requires DistinctOutside(hosts, {}) && forall h :: h in hosts ==> Text.CanonicalHost(h) == h
    ensures Standing(hosts, "") == 0
  {
    if hosts != [] {
      assert hosts == [hosts[0]] + hosts[1..];
      DistinctTail(hosts, {});
      NoneStandsForBlank(hosts[1..]);
    }
  }

  lemma ValidatedListFlips(hosts: seq<string>, host: string)
    requires AllTidy(hosts) && Text.CanonicalHost(host) != "" && Tidy(host)
    ensures var valid := NormHosts(hosts, {});
      GloballyExcluded(Toggled(valid, Text.CanonicalHost(host)), host) <==> !GloballyExcluded(valid, host)
  {
    var valid := NormHosts(hosts, {});
    HostsFixpoint(hosts);
    CanonicalEverywhere(valid, {});
    NormHostsDistinct(hosts, {});
    OneStands(valid, Text.CanonicalHost(host));
    ToggleFlips(valid, host, host);
  }

  method NormaliseTarget(t: Target) returns (r: Target)
    ensures r == NormTarget(t)
  {
    r := t;
    if |t.triggers| == 0 {
      r := r.(triggers := DEFAULT_TRIGGERS);
    } else {
      var known := DeleteUnknown(t.triggers);
      r := r.(triggers := known);
    }
    var subscribed := Subscribed(r.triggers);
    var kept: seq<ServerExclusion> := [];
    var i := 0;
    while i < |t.exclusions|
      invariant 0 <= i <= |t.exclusions|
      invariant kept + NormExclusions(t.exclusions[i..], subscribed) == NormExclusions(t.exclusions, subscribed)
    {
      assert t.exclusions[i..][1..] == t.exclusions[i + 1..];
      var server := Text.HostName(t.exclusions[i].server);
      var wanted := DeleteUnwanted(t.exclusions[i].triggers, subscribed);
      var rest := NormExclusions(t.exclusions[i + 1..], subscribed);
      i := i + 1;
      if server == "" || |wanted| == 0 {
        continue;
      }
      assert kept + ([ServerExclusion(server, wanted)] + rest) == (kept + [ServerExclusion(server, wanted)]) + rest;
      kept := kept + [ServerExclusion(server, wanted)];
    }
    assert kept + [] == kept;
    r := r.(exclusions := kept);
    if r.repeatMinutes < 0 {
      r := r.(repeatMinutes := 0);
    }
    if r.repeatMinutes > MAX_REPEAT_MINUTES {
      r := r.(repeatMinutes := MAX_REPEAT_MINUTES);
    }
    r := r.(severity := NormSeverity(r.severity));
  }

  method DeleteUnknown(triggers: seq<Trigger>) returns (r: seq<Trigger>)
    ensures r == OnlyKnown(triggers)
  {
    r := [];
    var i := 0;
    while i < |triggers|
      invariant 0 <= i <= |triggers|
      invariant r + OnlyKnown(triggers[i..]) == OnlyKnown(triggers)
    {
      assert triggers[i..][1..] == triggers[i + 1..];
      if !triggers[i].Unknown? {
        assert r + ([triggers[i]] + OnlyKnown(triggers[i + 1..])) == (r + [triggers[i]]) + OnlyKnown(triggers[i + 1..]);
        r := r + [triggers[i]];
      }
      i := i + 1;
    }
    assert r + [] == r;
  }

  method DeleteUnwanted(triggers: seq<Trigger>, subscribed: seq<Trigger>) returns (r: seq<Trigger>)
    ensures r == OnlyWanted(triggers, subscribed)
  {
    r := [];
    var i := 0;
    while i < |triggers|
      invariant 0 <= i <= |triggers|
      invariant r + OnlyWanted(triggers[i..], subscribed) == OnlyWanted(triggers, subscribed)
    {
      WantedNext(r, triggers, subscribed, i);
      if !triggers[i].Unknown? && triggers[i] in subscribed {
        r := r + [triggers[i]];
      }
      i := i + 1;
    }
    assert r + [] == r;
  }

  lemma WantedNext(r: seq<Trigger>, triggers: seq<Trigger>, subscribed: seq<Trigger>, i: nat)
    requires i < |triggers|
    ensures r + OnlyWanted(triggers[i..], subscribed) ==
      (if !triggers[i].Unknown? && triggers[i] in subscribed then r + [triggers[i]] else r) +
      OnlyWanted(triggers[i + 1..], subscribed)
  {
    var rest := OnlyWanted(triggers[i + 1..], subscribed);
    assert triggers[i..][1..] == triggers[i + 1..];
    assert r + ([triggers[i]] + rest) == (r + [triggers[i]]) + rest;
  }

  method NormaliseHosts(hosts: seq<string>) returns (r: seq<string>)
    ensures r == NormHosts(hosts, {})
  {
    r := [];
    var seen: set<string> := {};
    var i := 0;
    while i < |hosts|
      invariant 0 <= i <= |hosts|
      invariant r + NormHosts(hosts[i..], seen) == NormHosts(hosts, {})
    {
      assert hosts[i..][1..] == hosts[i + 1..];
      var host := Text.CanonicalHost(hosts[i]);
      i := i + 1;
      if host == "" || host in seen {
        continue;
      }
      seen := seen + {host};
      assert r + ([host] + NormHosts(hosts[i..], seen)) == (r + [host]) + NormHosts(hosts[i..], seen);
      r := r + [host];
    }
    assert r + [] == r;
  }

  method SortedKeys(m: map<string, int>) returns (keys: seq<string>)
    ensures KeysInOrder(m, keys)
  {
    keys := [];
    var todo := m.Keys;
    while todo != {}
      invariant todo <= m.Keys
      invariant forall i, j :: 0 <= i < j < |keys| ==> Text.Less(keys[i], keys[j])
      invariant forall k :: k in keys <==> k in m && k !in todo
      decreases |todo|
    {
      var k :| k in todo;
      todo := todo - {k};
      var at := 0;
      while at < |keys| && Text.Less(keys[at], k)
        invariant 0 <= at <= |keys|
        invariant forall i :: 0 <= i < at ==> Text.Less(keys[i], k)
      {
        at := at + 1;
      }
      InsertSorted(keys, k, at);
      keys := keys[..at] + [k] + keys[at..];
    }
  }

  lemma InsertSorted(keys: seq<string>, k: string, at: nat)
    requires at <= |keys| && k !in keys
    requires forall i, j :: 0 <= i < j < |keys| ==> Text.Less(keys[i], keys[j])
    requires forall i :: 0 <= i < at ==> Text.Less(keys[i], k)
    requires at < |keys| ==> !Text.Less(keys[at], k)
    ensures var r := keys[..at] + [k] + keys[at..];
      (forall i, j :: 0 <= i < j < |r| ==> Text.Less(r[i], r[j])) && (forall x :: x in r <==> x == k || x in keys)
  {
    var r := keys[..at] + [k] + keys[at..];
    assert r[at] == k;
    assert forall i :: at < i < |r| ==> r[i] == keys[i - 1];
    forall j | at < j < |r| ensures Text.Less(k, r[j]) {
      Text.LessTotal(keys[at], k);
      if j - 1 > at {
        Text.LessTransitive(k, keys[at], keys[j - 1]);
      }
    }
    assert keys == keys[..at] + keys[at..];
  }

  method NormaliseCooldowns(m: map<string, int>) returns (r: map<string, int>)
    ensures IsCollected(m, r)
  {
    var order := SortedKeys(m);
    r := map[];
    var i := 0;
    while i < |order|
      invariant 0 <= i <= |order|
      invariant Collect(m, order[i..], r) == Collect(m, order, map[])
    {
      assert order[i..][1..] == order[i + 1..];
      assert order[i] in order;
      var channel := Text.TrimSpace(order[i]);
      if channel != "" && channel !in r {
        if |r| >= CHANNEL_LIMIT {
          return;
        }
        r := r[channel := ClampCooldown(m[order[i]])];
      }
      i := i + 1;
    }
  }
}
