/** What one validation makes of each setting, field by field. */
module ConfigSettings {
  import opened Wrappers
  import opened Notifications
  import opened ConfigNormaliser
  import Text

  // ------------------------------------------------------------------ targets

  // The URL begins, in any letter case, with one of the schemes.
  ghost predicate Begins(url: string, schemes: set<string>) {
    exists scheme, rest :: scheme in schemes && Text.Lower(url) == scheme + rest
  }

  lemma BeginsExactly(url: string, scheme: string)
    ensures HasPrefix(Text.Lower(url), scheme) <==> exists rest :: Text.Lower(url) == scheme + rest
  {
    var lower := Text.Lower(url);
    if HasPrefix(lower, scheme) {
      assert lower == scheme + lower[|scheme|..];
    }
  }

  lemma SmtpExactly(url: string)
    ensures SmtpUrl(url) <==> Begins(url, {"smtp://", "smtps://"})
  {
    BeginsExactly(url, "smtp://");
    BeginsExactly(url, "smtps://");
  }

  // A target survives exactly if its kind is known and its URL is empty or has a known scheme.
  lemma SurvivesExactly(t: Target)
    ensures Kept(t) <==>
      && t.kind in {Webhook, Ntfy, Email}
      && (t.url == "" || Begins(t.url, {"http://", "https://", "smtp://", "smtps://"}))
  {
    SmtpExactly(t.url);
    BeginsExactly(t.url, "http://");
    BeginsExactly(t.url, "https://");
  }

  // The targets after validation are those, in order, each validated.
  lemma {:induction false} SurvivorsExactly(ts: seq<Target>, t: Target)
    ensures t in KeptOnly(ts) <==>
      && t in ts && t.kind in {Webhook, Ntfy, Email}
      && (t.url == "" || Begins(t.url, {"http://", "https://", "smtp://", "smtps://"}))
  {
    if ts != [] {
      SurvivorsExactly(ts[1..], t);
      SurvivesExactly(ts[0]);
      SurvivesExactly(t);
      assert ts == [ts[0]] + ts[1..];
    }
  }

  // What validation makes of a target: the interval is at most a week of minutes, the severity
  // one of the known ones, an email target that cannot send loses its URL, and the triggers are
  // the known ones of those listed, or the default.
  lemma TargetFieldByField(t: Target, trigger: Trigger)
    ensures var r := NormOne(t);
      && r.kind == t.kind && r.from == t.from && r.to == t.to && r.enabled == t.enabled
      && (r.url == t.url || r.url == "")
      && (r.url != t.url ==>
            t.kind == Email && (!Begins(t.url, {"smtp://", "smtps://"}) || t.from == "" || t.to == []))
      && (t.kind == Email && (!Begins(t.url, {"smtp://", "smtps://"}) || t.from == "" || t.to == []) ==> r.url == "")
      && (if t.repeatMinutes < 0 then r.repeatMinutes == 0
          else if t.repeatMinutes > 7 * 24 * 60 then r.repeatMinutes == 7 * 24 * 60
          else r.repeatMinutes == t.repeatMinutes)
      && (var lower := Text.Lower(t.severity);
          if lower == "warning" || lower == "alert" then r.severity == lower else r.severity == "")
      && (trigger in r.triggers <==>
          if t.triggers == [] then trigger in {DrainOn, DrainOff, Alert, Healthy}
          else trigger in t.triggers && !trigger.Unknown?)
  {
    NormOneFields(t);
    OnlyKnownElements(t.triggers);
    SmtpExactly(t.url);
  }

  // --------------------------------------------------------------- event spikes

  // Zero stands for the default; any other value is moved into its range.
  predicate Put(before: int, after: int, default: int, min: int, max: int) {
    after == if before == 0 then default else if before < min then min else if before > max then max else before
  }

  predicate PutReal(before: real, after: real, default: real, min: real, max: real) {
    after == if before == 0.0 then default else if before < min then min else if before > max then max else before
  }

  lemma SpikeFieldByField(c: EvtSpike, r: EvtSpike)
    requires IsClamped(c, r)
    ensures Put(c.minCount, r.minCount, 10, 1, 10000)
    ensures PutReal(c.threshold, r.threshold, 0.0001, 0.000000001, 0.1)
    ensures Put(c.cooldownMinutes, r.cooldownMinutes, 60, 1, 1440)
    ensures Put(c.slotMaturity, r.slotMaturity, 630, 1, 10000)
    ensures Put(c.persistSeconds, r.persistSeconds, 900, 60, 86400)
    ensures Put(c.halfLife, r.halfLife, 630, 60, 10000)
    ensures PutReal(c.priorStrength, r.priorStrength, 60.0, 1.0, 10000.0)
    ensures PutReal(c.meanPrior, r.meanPrior, 0.1, 0.0, 1000.0)
    ensures r.enabled == c.enabled && r.disabled == c.disabled && r.added == c.added
    ensures r.securityChannel == c.securityChannel
  {
  }

  // What a patch makes of each setting: the given value, or what was there, clamped.
  lemma PatchFieldByField(c: EvtSpike, p: Patch, r: EvtSpike)
    requires IsClamped(Patched(c, p), r)
    ensures Put(if p.minCount.Some? then p.minCount.value else c.minCount, r.minCount, 10, 1, 10000)
    ensures PutReal(if p.threshold.Some? then p.threshold.value else c.threshold, r.threshold, 0.0001, 0.000000001, 0.1)
    ensures Put(if p.cooldownMinutes.Some? then p.cooldownMinutes.value else c.cooldownMinutes, r.cooldownMinutes,
                60, 1, 1440)
    ensures Put(if p.slotMaturity.Some? then p.slotMaturity.value else c.slotMaturity, r.slotMaturity, 630, 1, 10000)
    ensures Put(if p.persistSeconds.Some? then p.persistSeconds.value else c.persistSeconds, r.persistSeconds,
                900, 60, 86400)
    ensures Put(if p.halfLife.Some? then p.halfLife.value else c.halfLife, r.halfLife, 630, 60, 10000)
    ensures PutReal(if p.priorStrength.Some? then p.priorStrength.value else c.priorStrength, r.priorStrength,
                    60.0, 1.0, 10000.0)
    ensures PutReal(if p.meanPrior.Some? then p.meanPrior.value else c.meanPrior, r.meanPrior, 0.1, 0.0, 1000.0)
    ensures r.enabled == if p.enabled.Some? then p.enabled.value else c.enabled
    ensures r.disabled == if p.disabled.Some? then p.disabled.value else c.disabled
    ensures r.added == if p.added.Some? then p.added.value else c.added
    ensures r.securityChannel == if p.securityChannel.Some? then p.securityChannel.value else c.securityChannel
    ensures IsCollected(if p.cooldowns.Some? then p.cooldowns.value else c.cooldowns, r.cooldowns)
  {
  }

  predicate Fits(v: Option<int>, min: int, max: int) {
    v.Some? ==> v.value != 0 && Put(v.value, v.value, 0, min, max)
  }

  predicate FitsReal(v: Option<real>, min: real, max: real) {
    v.Some? ==> v.value != 0.0 && PutReal(v.value, v.value, 0.0, min, max)
  }

  // A patch is accepted exactly if clamping would change none of its numbers and none stands for a
  // default, but for a mean prior of zero, which is let through; no list is longer than 256; and
  // the overrides are under distinct names that are not blank, each from a minute to a day.
  lemma AcceptedExactly(p: Patch)
    ensures Accepted(p) <==>
      && Fits(p.minCount, 1, 10000) && FitsReal(p.threshold, 0.000000001, 0.1) && Fits(p.cooldownMinutes, 1, 1440)
      && Fits(p.slotMaturity, 1, 10000) && Fits(p.persistSeconds, 60, 86400) && Fits(p.halfLife, 60, 10000)
      && FitsReal(p.priorStrength, 1.0, 10000.0)
      && (p.meanPrior == Some(0.0) || FitsReal(p.meanPrior, 0.0, 1000.0))
      && (p.disabled.Some? ==> |p.disabled.value| <= 256) && (p.added.Some? ==> |p.added.value| <= 256)
      && (p.cooldowns.Some? ==>
            && |p.cooldowns.value| <= 256
            && (forall k :: k in p.cooldowns.value ==> Text.TrimSpace(k) != "" && 1 <= p.cooldowns.value[k] <= 1440)
            && (forall k, l :: k in p.cooldowns.value && l in p.cooldowns.value && k != l ==>
                  Text.TrimSpace(k) != Text.TrimSpace(l)))
  {
  }

  // Where an override comes from.
  lemma {:induction false} CollectedFrom(m: map<string, int>, keys: seq<string>, done: map<string, int>,
                                         channel: string)
    requires forall k :: k in keys ==> k in m
    requires channel in Collect(m, keys, done) && channel !in done
    ensures exists k ::
              k in keys && Text.TrimSpace(k) == channel && Put(m[k], Collect(m, keys, done)[channel], 60, 1, 1440)
  {
    if keys != [] {
      var first, rest := keys[0], keys[1..];
      var name := Text.TrimSpace(first);
      assert keys == [first] + rest && first in keys;
      if name == "" || name in done {
        CollectedFrom(m, rest, done, channel);
      } else if |done| < CHANNEL_LIMIT {
        var next := done[name := ClampCooldown(m[first])];
        if name == channel {
          CollectKeeps(m, rest, next, name);
          assert Put(m[first], Collect(m, keys, done)[channel], 60, 1, 1440);
        } else {
          CollectedFrom(m, rest, next, channel);
        }
      }
    }
  }

  // The overrides after validation: at most 256, each under a trimmed name that is not blank, with
  // the minutes of a key that trims to it, an hour if they were zero.
  lemma OverridesExactly(m: map<string, int>, r: map<string, int>, channel: string)
    requires IsCollected(m, r)
    ensures |r| <= 256
    ensures channel in r ==>
      channel != "" && exists k :: k in m && Text.TrimSpace(k) == channel && Put(m[k], r[channel], 60, 1, 1440)
  {
    CollectedCanonical(m, r);
    if channel in r {
      var keys :| KeysInOrder(m, keys) && r == Collect(m, keys, map[]);
      CollectedFrom(m, keys, map[], channel);
    }
  }

  // None is lost while there is room: fewer than 256 overrides come out only if every key that is
  // not blank is among them.
  lemma {:induction false} NoneLost(m: map<string, int>, keys: seq<string>, done: map<string, int>, key: string)
    requires (forall k :: k in keys ==> k in m) && key in keys && Text.TrimSpace(key) != ""
    requires |Collect(m, keys, done)| < 256
    ensures Text.TrimSpace(key) in Collect(m, keys, done)
  {
    var first, rest := keys[0], keys[1..];
    var name := Text.TrimSpace(first);
    assert keys == [first] + rest && first in keys;
    if name == "" || name in done {
      if Text.TrimSpace(key) in done {
        CollectKeeps(m, rest, done, Text.TrimSpace(key));
      } else {
        NoneLost(m, rest, done, key);
      }
    } else if |done| < CHANNEL_LIMIT {
      var next := done[name := ClampCooldown(m[first])];
      if Text.TrimSpace(key) == name {
        CollectKeeps(m, rest, next, name);
      } else {
        NoneLost(m, rest, next, key);
      }
    }
  }
}
