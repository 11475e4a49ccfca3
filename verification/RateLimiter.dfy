/**
 The per-IP token-bucket limiter.  Times are seconds and tokens are real numbers; the
 limiter under test prunes stale buckets on every call, the reference keeps one bucket per
 IP for ever.
 */
module RateLimiter {
  import opened Wrappers

  datatype Bucket = Bucket(tokens: real, lastSeen: real)

  datatype Config = Config(rate: real, cap: real)

  datatype Answer = Allowed | Denied(retryAfter: int)

  datatype Request = Request(ip: string, at: real)

  const PRUNE_AFTER := 300.0

  function Min(x: real, y: real): real { if x <= y then x else y }

  function Ceil(x: real): (n: int)
    ensures (n - 1) as real < x <= n as real
  {
    if x.Floor as real == x then x.Floor else x.Floor + 1
  }

  // ------------------------------------------------------------ one token bucket

  // Tokens refilled in an interval.
  function Gain(cfg: Config, from: real, upto: real): real {
    (upto - from) * cfg.rate
  }

  // Tokens at time `now`, capped; an IP without a bucket has a full one.
  function Level(cfg: Config, b: Option<Bucket>, now: real): real {
    match b
    case None => cfg.cap
    case Some(b) => Min(cfg.cap, b.tokens + Gain(cfg, b.lastSeen, now))
  }

  // Whole seconds until one token is available.
  function RetrySeconds(cfg: Config, level: real): int
    requires cfg.rate > 0.0
  {
    Ceil((1.0 - level) / cfg.rate)
  }

  function AnswerAt(cfg: Config, level: real): Answer
    requires cfg.rate > 0.0
  {
    if level < 1.0 then Denied(RetrySeconds(cfg, level)) else Allowed
  }

  function Taken(cfg: Config, b: Option<Bucket>, now: real): Bucket {
    var level := Level(cfg, b, now);
    Bucket(if level < 1.0 then level else level - 1.0, now)
  }

  // ----------------------------------------------------------- the pruning limiter

  // Every bucket not seen for more than five minutes is dropped.
  function Pruned(m: map<string, Bucket>, now: real): map<string, Bucket> {
    map ip | ip in m && now - m[ip].lastSeen <= PRUNE_AFTER :: m[ip]
  }

  function Lookup(m: map<string, Bucket>, ip: string): Option<Bucket> {
    if ip in m then Some(m[ip]) else None
  }

  function AfterAllow(cfg: Config, m: map<string, Bucket>, r: Request): map<string, Bucket> {
    Pruned(m[r.ip := Taken(cfg, Lookup(m, r.ip), r.at)], r.at)
  }

  // State after the first k requests of a run, and the answer to request k.
  function PruningState(cfg: Config, reqs: seq<Request>, k: nat): map<string, Bucket>
    requires k <= |reqs|
  {
    if k == 0 then map[] else AfterAllow(cfg, PruningState(cfg, reqs, k - 1), reqs[k - 1])
  }

  function PruningAnswer(cfg: Config, reqs: seq<Request>, k: nat): Answer
    requires cfg.rate > 0.0 && k < |reqs|
  {
    AnswerAt(cfg, Level(cfg, Lookup(PruningState(cfg, reqs, k), reqs[k].ip), reqs[k].at))
  }

  class IpRateLimiter {
    const cfg: Config
    var buckets: map<string, Bucket>

    constructor (rate: real, cap: real)
      ensures cfg == Config(rate, cap) && buckets == map[]
    {
      cfg, buckets := Config(rate, cap), map[];
    }

    method Allow(ip: string, now: real) returns (answer: Answer)
      requires cfg.rate > 0.0
      modifies this
      ensures buckets == AfterAllow(cfg, old(buckets), Request(ip, now))
      ensures answer == AnswerAt(cfg, Level(cfg, Lookup(old(buckets), ip), now))
    {
      var b := if ip in buckets then buckets[ip] else Bucket(cfg.cap, now);

      // Refill tokens based on elapsed time.
      var elapsed := now - b.lastSeen;
      var tokens := b.tokens + elapsed * cfg.rate;
      if tokens > cfg.cap {
        tokens := cfg.cap;
      }
      assert elapsed == 0.0 ==> elapsed * cfg.rate == 0.0;
      assert elapsed * cfg.rate == Gain(cfg, b.lastSeen, now);
      assert tokens == Level(cfg, Lookup(buckets, ip), now);
      buckets := buckets[ip := Bucket(tokens, now)];
      Prune(now);

      if tokens < 1.0 {
        return Denied(RetrySeconds(cfg, tokens));
      }
      // The current entry has just been seen, so pruning has kept it.
      buckets := buckets[ip := Bucket(tokens - 1.0, now)];
      return Allowed;
    }

    // Drops the IPs that have not made a request in five minutes.
    method Prune(now: real)
      modifies this
      ensures buckets == Pruned(old(buckets), now)
    {
      ghost var full := buckets;
      var unseen := buckets.Keys;
      while unseen != {}
        invariant unseen <= full.Keys
        invariant buckets == map a | a in full && (a in unseen || now - full[a].lastSeen <= PRUNE_AFTER) :: full[a]
      {
        var addr :| addr in unseen;
        if now - buckets[addr].lastSeen > PRUNE_AFTER {
          buckets := buckets - {addr};
        }
        unseen := unseen - {addr};
      }
    }
  }

  // -------------------------------------------------------- the reference: no pruning

  // The bucket of `ip` after the first k requests when nothing is ever pruned.
  function BucketAfter(cfg: Config, reqs: seq<Request>, k: nat, ip: string): Option<Bucket>
    requires k <= |reqs|
  {
    if k == 0 then None else
      var before := BucketAfter(cfg, reqs, k - 1, ip);
      if reqs[k - 1].ip == ip then Some(Taken(cfg, before, reqs[k - 1].at)) else before
  }

  function ReferenceAnswer(cfg: Config, reqs: seq<Request>, k: nat): Answer
    requires cfg.rate > 0.0 && k < |reqs|
  {
    AnswerAt(cfg, Level(cfg, BucketAfter(cfg, reqs, k, reqs[k].ip), reqs[k].at))
  }

  predicate Ordered(reqs: seq<Request>) {
    forall i, j | 0 <= i < j < |reqs| :: reqs[i].at <= reqs[j].at
  }

  predicate BucketOk(cfg: Config, b: Option<Bucket>, now: real) {
    b.Some? ==> 0.0 <= b.value.tokens <= cfg.cap && b.value.lastSeen <= now
  }

  lemma TakenOk(cfg: Config, b: Option<Bucket>, t: real, now: real)
    requires cfg.rate > 0.0 && cfg.cap >= 1.0 && t <= now && BucketOk(cfg, b, t)
    ensures BucketOk(cfg, Some(Taken(cfg, b, now)), now)
  {
    if b.Some? {
      GainNonNegative(cfg, b.value.lastSeen, now);
    }
  }

  lemma {:induction false} ReferenceBucketOk(cfg: Config, reqs: seq<Request>, k: nat, ip: string)
    requires cfg.rate > 0.0 && cfg.cap >= 1.0 && Ordered(reqs) && 0 < k <= |reqs|
    ensures BucketOk(cfg, BucketAfter(cfg, reqs, k, ip), reqs[k - 1].at)
  {
    var now := reqs[k - 1].at;
    if k > 1 {
      ReferenceBucketOk(cfg, reqs, k - 1, ip);
      TakenOk(cfg, BucketAfter(cfg, reqs, k - 1, ip), reqs[k - 2].at, now);
    } else {
      TakenOk(cfg, None, now, now);
    }
  }

  lemma GainNonNegative(cfg: Config, from: real, upto: real)
    requires cfg.rate > 0.0 && from <= upto
    ensures Gain(cfg, from, upto) >= 0.0
  {
  }

  lemma SplitWait(cfg: Config, t0: real, t1: real, t2: real)
    ensures Gain(cfg, t0, t2) == Gain(cfg, t0, t1) + Gain(cfg, t1, t2)
  {
  }

  // -------------------------------------------------------- pruning is unobservable

  // A pruned bucket is one that would be full again.
  ghost predicate Agrees(m: map<string, Bucket>, ip: string, b: Option<Bucket>, now: real) {
    Lookup(m, ip) == b || (ip !in m && b.Some? && now - b.value.lastSeen > PRUNE_AFTER)
  }

  lemma AgreeingLevels(cfg: Config, m: map<string, Bucket>, ip: string, b: Option<Bucket>, then_: real, now: real)
    requires cfg.rate > 0.0 && cfg.rate * PRUNE_AFTER >= cfg.cap
    requires then_ <= now && BucketOk(cfg, b, then_) && Agrees(m, ip, b, then_)
    ensures Level(cfg, Lookup(m, ip), now) == Level(cfg, b, now)
  {
    if Lookup(m, ip) != b {
      var refilled := b.value.lastSeen + PRUNE_AFTER;
      SplitWait(cfg, b.value.lastSeen, refilled, now);
      GainNonNegative(cfg, refilled, now);
      assert Gain(cfg, b.value.lastSeen, refilled) == cfg.rate * PRUNE_AFTER;
      assert Gain(cfg, b.value.lastSeen, now) >= cfg.cap;
      assert Level(cfg, b, now) == cfg.cap;
    }
  }

  lemma {:induction false} StatesAgree(cfg: Config, reqs: seq<Request>, k: nat, ip: string)
    requires cfg.rate > 0.0 && cfg.cap >= 1.0 && cfg.rate * PRUNE_AFTER >= cfg.cap && Ordered(reqs)
    requires 0 < k <= |reqs|
    ensures Agrees(PruningState(cfg, reqs, k), ip, BucketAfter(cfg, reqs, k, ip), reqs[k - 1].at)
  {
    var r := reqs[k - 1];
    var m, b := PruningState(cfg, reqs, k - 1), BucketAfter(cfg, reqs, k - 1, ip);
    if k > 1 {
      StatesAgree(cfg, reqs, k - 1, ip);
      ReferenceBucketOk(cfg, reqs, k - 1, ip);
      AgreeingLevels(cfg, m, ip, b, reqs[k - 2].at, r.at);
    }
  }

  /**
   Whenever five minutes refill the bucket, the pruning limiter gives exactly the answers
   of a limiter that never forgets an IP.
   */
  lemma PruningUnobservable(cfg: Config, reqs: seq<Request>, k: nat)
    requires cfg.rate > 0.0 && cfg.cap >= 1.0 && cfg.rate * PRUNE_AFTER >= cfg.cap && Ordered(reqs)
    requires k < |reqs|
    ensures PruningAnswer(cfg, reqs, k) == ReferenceAnswer(cfg, reqs, k)
  {
    if k > 0 {
      StatesAgree(cfg, reqs, k, reqs[k].ip);
      ReferenceBucketOk(cfg, reqs, k, reqs[k].ip);
      AgreeingLevels(cfg, PruningState(cfg, reqs, k), reqs[k].ip, BucketAfter(cfg, reqs, k, reqs[k].ip),
                     reqs[k - 1].at, reqs[k].at);
    }
  }

  // ------------------------------------------------------ the limit over any window

  function Count(flags: seq<bool>): nat {
    if flags == [] then 0 else Count(flags[..|flags| - 1]) + if flags[|flags| - 1] then 1 else 0
  }

  function Sum(xs: seq<real>): real {
    if xs == [] then 0.0 else Sum(xs[..|xs| - 1]) + xs[|xs| - 1]
  }

  // If each allowed request costs a token and the level only rises by the gaps' refills, what
  // was allowed plus what is left came from the first level and the refills.
  lemma {:induction false} TokensBalance(allowed: seq<bool>, before: seq<real>, after: seq<real>, gaps: seq<real>)
    requires |allowed| == |before| == |after| == |gaps| + 1
    requires forall k | 0 <= k < |allowed| :: after[k] + (if allowed[k] then 1.0 else 0.0) <= before[k]
    requires forall k | 0 <= k < |gaps| :: before[k + 1] <= after[k] + gaps[k]
    ensures Count(allowed) as real + after[|after| - 1] <= before[0] + Sum(gaps)
  {
    var n := |allowed|;
    if n > 1 {
      TokensBalance(allowed[..n - 1], before[..n - 1], after[..n - 1], gaps[..n - 2]);
    } else {
      assert allowed[..0] == [];
    }
  }

  function Gaps(cfg: Config, times: seq<real>): seq<real>
    requires |times| > 0
  {
    seq(|times| - 1, k requires 0 <= k < |times| - 1 => Gain(cfg, times[k], times[k + 1]))
  }

  lemma {:induction false} GapsTelescope(cfg: Config, times: seq<real>)
    requires |times| > 0
    ensures Sum(Gaps(cfg, times)) == Gain(cfg, times[0], times[|times| - 1])
  {
    var n := |times|;
    if n > 1 {
      GapsTelescope(cfg, times[..n - 1]);
      assert Gaps(cfg, times)[..n - 2] == Gaps(cfg, times[..n - 1]) by {
        forall k | 0 <= k < n - 2
          ensures Gaps(cfg, times)[k] == Gaps(cfg, times[..n - 1])[k]
        {
        }
      }
      SplitWait(cfg, times[0], times[n - 2], times[n - 1]);
    } else {
      SplitWait(cfg, times[0], times[0], times[0]);
    }
  }

  lemma LevelGrows(cfg: Config, b: Option<Bucket>, t0: real, t1: real)
    requires cfg.rate > 0.0 && cfg.cap >= 1.0 && t0 <= t1 && BucketOk(cfg, b, t0)
    ensures 0.0 <= Level(cfg, b, t0) <= Level(cfg, b, t1) <= Level(cfg, b, t0) + Gain(cfg, t0, t1)
    ensures Level(cfg, b, t1) <= cfg.cap
  {
    GainNonNegative(cfg, t0, t1);
    if b.Some? {
      GainNonNegative(cfg, b.value.lastSeen, t0);
      SplitWait(cfg, b.value.lastSeen, t0, t1);
    }
  }

  // The levels one IP sees around requests i..j of a run.
  ghost function LevelBefore(cfg: Config, reqs: seq<Request>, ip: string, k: nat): real
    requires k < |reqs|
  {
    Level(cfg, BucketAfter(cfg, reqs, k, ip), reqs[k].at)
  }

  ghost function LevelAfter(cfg: Config, reqs: seq<Request>, ip: string, k: nat): real
    requires k < |reqs|
  {
    Level(cfg, BucketAfter(cfg, reqs, k + 1, ip), reqs[k].at)
  }

  lemma RequestCost(cfg: Config, reqs: seq<Request>, ip: string, k: nat)
    requires cfg.rate > 0.0 && cfg.cap >= 1.0 && Ordered(reqs) && k < |reqs|
    ensures LevelBefore(cfg, reqs, ip, k) <= cfg.cap
    ensures LevelAfter(cfg, reqs, ip, k) >= 0.0
    ensures LevelAfter(cfg, reqs, ip, k)
              + (if reqs[k].ip == ip && ReferenceAnswer(cfg, reqs, k).Allowed? then 1.0 else 0.0)
            <= LevelBefore(cfg, reqs, ip, k)
  {
    var b, now := BucketAfter(cfg, reqs, k, ip), reqs[k].at;
    ReferenceBucketOk(cfg, reqs, k + 1, ip);
    LevelGrows(cfg, BucketAfter(cfg, reqs, k + 1, ip), now, now);
    if reqs[k].ip == ip {
      SplitWait(cfg, now, now, now);
    }
  }

  lemma LevelBetween(cfg: Config, reqs: seq<Request>, ip: string, k: nat)
    requires cfg.rate > 0.0 && cfg.cap >= 1.0 && Ordered(reqs) && k + 1 < |reqs|
    ensures LevelBefore(cfg, reqs, ip, k + 1)
              <= LevelAfter(cfg, reqs, ip, k) + Gain(cfg, reqs[k].at, reqs[k + 1].at)
  {
    ReferenceBucketOk(cfg, reqs, k + 1, ip);
    LevelGrows(cfg, BucketAfter(cfg, reqs, k + 1, ip), reqs[k].at, reqs[k + 1].at);
  }

  // Which of the requests i..j are requests of `ip` that were allowed.
  function AllowedFlags(cfg: Config, reqs: seq<Request>, ip: string, i: nat, j: nat): seq<bool>
    requires cfg.rate > 0.0 && i <= j <= |reqs|
  {
    seq(j - i, k requires 0 <= k < j - i => reqs[i + k].ip == ip && ReferenceAnswer(cfg, reqs, i + k).Allowed?)
  }

  function Times(reqs: seq<Request>): seq<real> {
    seq(|reqs|, k requires 0 <= k < |reqs| => reqs[k].at)
  }

  ghost function LevelsBefore(cfg: Config, reqs: seq<Request>, ip: string, i: nat, j: nat): seq<real>
    requires i <= j <= |reqs|
  {
    seq(j - i, k requires 0 <= k < j - i => LevelBefore(cfg, reqs, ip, i + k))
  }

  ghost function LevelsAfter(cfg: Config, reqs: seq<Request>, ip: string, i: nat, j: nat): seq<real>
    requires i <= j <= |reqs|
  {
    seq(j - i, k requires 0 <= k < j - i => LevelAfter(cfg, reqs, ip, i + k))
  }

  lemma CostsWithin(cfg: Config, reqs: seq<Request>, ip: string, i: nat, j: nat)
    requires cfg.rate > 0.0 && cfg.cap >= 1.0 && Ordered(reqs) && i < j <= |reqs|
    ensures forall k | 0 <= k < j - i ::
              LevelsAfter(cfg, reqs, ip, i, j)[k] + (if AllowedFlags(cfg, reqs, ip, i, j)[k] then 1.0 else 0.0)
                <= LevelsBefore(cfg, reqs, ip, i, j)[k]
  {
    forall k | 0 <= k < j - i
      ensures LevelsAfter(cfg, reqs, ip, i, j)[k] + (if AllowedFlags(cfg, reqs, ip, i, j)[k] then 1.0 else 0.0)
                <= LevelsBefore(cfg, reqs, ip, i, j)[k]
    {
      RequestCost(cfg, reqs, ip, i + k);
    }
  }

  lemma GainsWithin(cfg: Config, reqs: seq<Request>, ip: string, i: nat, j: nat)
    requires cfg.rate > 0.0 && cfg.cap >= 1.0 && Ordered(reqs) && i < j <= |reqs|
    ensures forall k | 0 <= k < j - i - 1 ::
              LevelsBefore(cfg, reqs, ip, i, j)[k + 1]
                <= LevelsAfter(cfg, reqs, ip, i, j)[k] + Gaps(cfg, Times(reqs[i..j]))[k]
  {
    forall k | 0 <= k < j - i - 1
      ensures LevelsBefore(cfg, reqs, ip, i, j)[k + 1]
                <= LevelsAfter(cfg, reqs, ip, i, j)[k] + Gaps(cfg, Times(reqs[i..j]))[k]
    {
      LevelBetween(cfg, reqs, ip, i + k);
      assert Gaps(cfg, Times(reqs[i..j]))[k] == Gain(cfg, reqs[i + k].at, reqs[i + k + 1].at);
    }
  }

  lemma LevelEnds(cfg: Config, reqs: seq<Request>, ip: string, i: nat, j: nat)
    requires cfg.rate > 0.0 && cfg.cap >= 1.0 && Ordered(reqs) && i < j <= |reqs|
    ensures LevelsBefore(cfg, reqs, ip, i, j)[0] <= cfg.cap
    ensures LevelsAfter(cfg, reqs, ip, i, j)[j - i - 1] >= 0.0
  {
    RequestCost(cfg, reqs, ip, i);
    RequestCost(cfg, reqs, ip, j - 1);
    assert LevelsBefore(cfg, reqs, ip, i, j)[0] == LevelBefore(cfg, reqs, ip, i);
    assert LevelsAfter(cfg, reqs, ip, i, j)[j - i - 1] == LevelAfter(cfg, reqs, ip, j - 1);
  }

  lemma Levels(cfg: Config, reqs: seq<Request>, ip: string, i: nat, j: nat)
      returns (before: seq<real>, after: seq<real>)
    requires cfg.rate > 0.0 && cfg.cap >= 1.0 && Ordered(reqs) && i < j <= |reqs|
    ensures |before| == |after| == j - i
    ensures before[0] <= cfg.cap && after[j - i - 1] >= 0.0
    ensures var allowed, gaps := AllowedFlags(cfg, reqs, ip, i, j), Gaps(cfg, Times(reqs[i..j]));
            && (forall k | 0 <= k < j - i :: after[k] + (if allowed[k] then 1.0 else 0.0) <= before[k])
            && (forall k | 0 <= k < j - i - 1 :: before[k + 1] <= after[k] + gaps[k])
  {
    before, after := LevelsBefore(cfg, reqs, ip, i, j), LevelsAfter(cfg, reqs, ip, i, j);
    CostsWithin(cfg, reqs, ip, i, j);
    GainsWithin(cfg, reqs, ip, i, j);
    LevelEnds(cfg, reqs, ip, i, j);
  }

  lemma TokensBound(cfg: Config, reqs: seq<Request>, ip: string, i: nat, j: nat)
    requires cfg.rate > 0.0 && cfg.cap >= 1.0 && Ordered(reqs) && i < j <= |reqs|
    ensures Count(AllowedFlags(cfg, reqs, ip, i, j)) as real <= cfg.cap + Gain(cfg, reqs[i].at, reqs[j - 1].at)
  {
    var times := Times(reqs[i..j]);
    var before, after := Levels(cfg, reqs, ip, i, j);
    TokensBalance(AllowedFlags(cfg, reqs, ip, i, j), before, after, Gaps(cfg, times));
    GapsTelescope(cfg, times);
  }

  /** Over any window at most the burst plus the refill is allowed for one IP. */
  lemma WindowBound(cfg: Config, reqs: seq<Request>, ip: string, i: nat, j: nat)
    requires cfg.rate > 0.0 && cfg.cap >= 1.0 && Ordered(reqs) && i < j <= |reqs|
    ensures Count(AllowedFlags(cfg, reqs, ip, i, j)) as real <= cfg.cap + (reqs[j - 1].at - reqs[i].at) * cfg.rate
  {
    TokensBound(cfg, reqs, ip, i, j);
  }

  // ----------------------------------------------------------------- Retry-After

  // Refused polls leave the refill curve where it was.
  lemma PollKeepsLevel(cfg: Config, b: Option<Bucket>, t: real, now: real)
    requires cfg.rate > 0.0 && cfg.cap >= 1.0 && t <= now && BucketOk(cfg, b, t)
    requires Level(cfg, b, t) < 1.0
    ensures Level(cfg, Some(Taken(cfg, b, t)), now) == Level(cfg, b, now)
  {
    if b.Some? {
      SplitWait(cfg, b.value.lastSeen, t, now);
    }
  }

  lemma {:induction false} LevelAfterPolls(cfg: Config, reqs: seq<Request>, i: nat, j: nat, ip: string, now: real)
    requires cfg.rate > 0.0 && cfg.cap >= 1.0 && Ordered(reqs) && i <= j < |reqs| && reqs[j].at <= now
    requires reqs[i].ip == ip && ReferenceAnswer(cfg, reqs, i).Denied?
    requires forall k | i < k <= j && reqs[k].ip == ip :: ReferenceAnswer(cfg, reqs, k).Denied?
    ensures Level(cfg, BucketAfter(cfg, reqs, j + 1, ip), now) == Level(cfg, BucketAfter(cfg, reqs, i, ip), now)
    decreases j
  {
    if j > i {
      LevelAfterPolls(cfg, reqs, i, j - 1, ip, now);
    }
    if reqs[j].ip == ip {
      if j > 0 {
        ReferenceBucketOk(cfg, reqs, j, ip);
        LevelGrows(cfg, BucketAfter(cfg, reqs, j, ip), reqs[j - 1].at, reqs[j].at);
        if BucketAfter(cfg, reqs, j, ip).Some? {
          PollKeepsLevel(cfg, BucketAfter(cfg, reqs, j, ip), reqs[j].at, now);
        }
      }
    }
  }

  /**
   The delay in a denial is exact in whole seconds: after it, if the IP was only refused in
   between, a request is allowed; a whole second or more before it a request is refused.
   */
  lemma RetryAfterExact(cfg: Config, reqs: seq<Request>, i: nat, j: nat)
    requires cfg.rate > 0.0 && cfg.cap >= 1.0 && Ordered(reqs) && i < j < |reqs|
    requires reqs[i].ip == reqs[j].ip && ReferenceAnswer(cfg, reqs, i).Denied?
    requires forall k | i < k < j && reqs[k].ip == reqs[i].ip :: ReferenceAnswer(cfg, reqs, k).Denied?
    ensures var retry := ReferenceAnswer(cfg, reqs, i).retryAfter;
            && retry >= 1
            && (reqs[j].at >= reqs[i].at + retry as real ==> ReferenceAnswer(cfg, reqs, j).Allowed?)
            && (reqs[j].at <= reqs[i].at + (retry - 1) as real ==> ReferenceAnswer(cfg, reqs, j).Denied?)
  {
    var ip, t, now := reqs[i].ip, reqs[i].at, reqs[j].at;
    var b := BucketAfter(cfg, reqs, i, ip);
    assert Level(cfg, BucketAfter(cfg, reqs, j, ip), now) == Level(cfg, b, now) by {
      LevelAfterPolls(cfg, reqs, i, j - 1, ip, now);
    }
    AnswerLater(cfg, b, t, now);
  }

  lemma AnswerLater(cfg: Config, b: Option<Bucket>, t: real, now: real)
    requires cfg.rate > 0.0 && cfg.cap >= 1.0 && t <= now && Level(cfg, b, t) < 1.0
    ensures var retry := AnswerAt(cfg, Level(cfg, b, t)).retryAfter;
            && retry >= 1
            && (now >= t + retry as real ==> AnswerAt(cfg, Level(cfg, b, now)).Allowed?)
            && (now <= t + (retry - 1) as real ==> AnswerAt(cfg, Level(cfg, b, now)).Denied?)
  {
    LaterLevel(cfg, b, t, now);
    AnswerAfterWait(cfg, Level(cfg, b, t), t, now);
  }

  lemma LaterLevel(cfg: Config, b: Option<Bucket>, t: real, now: real)
    requires cfg.rate > 0.0 && cfg.cap >= 1.0 && t <= now && Level(cfg, b, t) < 1.0
    ensures Level(cfg, b, now) == Min(cfg.cap, Level(cfg, b, t) + Gain(cfg, t, now))
  {
    assert b.Some?;
    SplitWait(cfg, b.value.lastSeen, t, now);
  }

  lemma AnswerFromLevel(cfg: Config, level: real)
    requires cfg.rate > 0.0 && cfg.cap >= 1.0
    ensures AnswerAt(cfg, Min(cfg.cap, level)).Allowed? <==> level >= 1.0
  {
  }

  lemma AnswerAfterWait(cfg: Config, level: real, t: real, now: real)
    requires cfg.rate > 0.0 && cfg.cap >= 1.0 && level < 1.0
    ensures var retry := AnswerAt(cfg, level).retryAfter;
            && retry >= 1
            && (now >= t + retry as real ==> AnswerAt(cfg, Min(cfg.cap, level + Gain(cfg, t, now))).Allowed?)
            && (now <= t + (retry - 1) as real ==> AnswerAt(cfg, Min(cfg.cap, level + Gain(cfg, t, now))).Denied?)
  {
    var d, deficit := now - t, 1.0 - level;
    var retry, gain := Ceil(deficit / cfg.rate), Gain(cfg, t, now);
    assert AnswerAt(cfg, level) == Denied(retry);
    assert gain == d * cfg.rate;
    WaitMeetsDeficit(cfg.rate, deficit, d);
    assert d >= retry as real ==> gain >= deficit;
    assert d <= (retry - 1) as real ==> gain < deficit;
    AnswerFromLevel(cfg, level + gain);
  }

  // Waiting d seconds refills the deficit or not, measured against its ceiling in seconds.
  lemma WaitMeetsDeficit(rate: real, deficit: real, d: real)
    requires rate > 0.0 && deficit > 0.0
    ensures Ceil(deficit / rate) >= 1
    ensures d >= Ceil(deficit / rate) as real ==> d * rate >= deficit
    ensures d <= (Ceil(deficit / rate) - 1) as real ==> d * rate < deficit
  {
    var q := deficit / rate;
    assert q * rate == deficit;
    assert q > 0.0;
    assert (d - q) * rate == d * rate - deficit;
    assert d > q ==> (d - q) * rate > 0.0;
    assert d < q ==> (d - q) * rate < 0.0;
  }

  // -------------------------------------------------- when pruning can be observed

  // One IP drawing tokens at one instant: while it finds one, the level drops by one.
  lemma {:induction false} DrainAtOnce(cfg: Config, trace: seq<Option<Bucket>>, t: real, n: nat)
    requires n < |trace|
    requires forall k | 0 <= k < |trace| - 1 :: trace[k + 1] == Some(Taken(cfg, trace[k], t))
    requires forall k | 0 <= k < n :: Level(cfg, trace[k], t) >= 1.0
    requires Level(cfg, trace[0], t) <= cfg.cap
    ensures Level(cfg, trace[n], t) == Level(cfg, trace[0], t) - n as real
    ensures n > 0 ==> trace[n] == Some(Bucket(Level(cfg, trace[0], t) - n as real, t))
  {
    if n > 0 {
      DrainAtOnce(cfg, trace, t, n - 1);
      SplitWait(cfg, t, t, t);
    }
  }

  // A burst that the level covers finds a token every time.
  lemma {:induction false} BurstCovered(cfg: Config, trace: seq<Option<Bucket>>, t: real, n: nat)
    requires n < |trace|
    requires forall k | 0 <= k < |trace| - 1 :: trace[k + 1] == Some(Taken(cfg, trace[k], t))
    requires n as real <= Level(cfg, trace[0], t) <= cfg.cap
    ensures forall k | 0 <= k < n :: Level(cfg, trace[k], t) >= 1.0
  {
    if n > 0 {
      BurstCovered(cfg, trace, t, n - 1);
      DrainAtOnce(cfg, trace, t, n - 1);
    }
  }

  lemma BurstLeaves(cfg: Config, trace: seq<Option<Bucket>>, t: real, n: nat)
    requires 0 < n < |trace|
    requires forall k | 0 <= k < |trace| - 1 :: trace[k + 1] == Some(Taken(cfg, trace[k], t))
    requires n as real <= Level(cfg, trace[0], t) <= cfg.cap
    ensures forall k | 0 <= k < n :: Level(cfg, trace[k], t) >= 1.0
    ensures trace[n] == Some(Bucket(Level(cfg, trace[0], t) - n as real, t))
  {
    BurstCovered(cfg, trace, t, n);
    DrainAtOnce(cfg, trace, t, n);
  }

  function Burst(ip: string, at: real, n: nat): seq<Request> {
    seq(n, i => Request(ip, at))
  }

  lemma GainOf(cfg: Config, from: real, amount: real)
    requires cfg.rate > 0.0
    ensures Gain(cfg, from, from + amount / cfg.rate) == amount
  {
  }

  const A := "a"
  const B := "b"

  // Spend the burst, refill to one token and spend it, come back after more than five minutes
  // with the bucket not quite full, spend a burst again and try once more.
  datatype Probe = Probe(m: nat, frac: real, partial: real, t1: real, t2: real, t3: real)

  function ProbeOf(cfg: Config): Probe
    requires cfg.rate > 0.0 && cfg.cap >= 1.0
  {
    var m := cfg.cap.Floor;
    var frac := cfg.cap - m as real;
    var partial := (cfg.cap + cfg.rate * PRUNE_AFTER) / 2.0;
    var t1 := 0.0 + (1.0 - frac) / cfg.rate;
    var t2 := t1 + partial / cfg.rate;
    Probe(m, frac, partial, t1, t2, t2 + (1.0 - frac) / cfg.rate)
  }

  function ProbeRun(p: Probe): seq<Request> {
    Burst(A, 0.0, p.m) + [Request(A, p.t1), Request(B, p.t2)] + Burst(A, p.t2, p.m) + [Request(A, p.t3)]
  }

  lemma ProbeTimes(cfg: Config)
    requires cfg.rate > 0.0 && cfg.cap >= 1.0 && cfg.rate * PRUNE_AFTER < cfg.cap
    ensures var p := ProbeOf(cfg);
            && 0.0 <= p.frac < 1.0 && p.m >= 1 && p.partial < cfg.cap
            && 0.0 <= p.t1 <= p.t2 <= p.t3 && p.t2 - p.t1 > PRUNE_AFTER
            && Gain(cfg, 0.0, p.t1) == 1.0 - p.frac && Gain(cfg, p.t1, p.t2) == p.partial
            && Gain(cfg, p.t2, p.t3) == 1.0 - p.frac
  {
    var p := ProbeOf(cfg);
    GainOf(cfg, 0.0, 1.0 - p.frac);
    GainOf(cfg, p.t1, p.partial);
    GainOf(cfg, p.t2, 1.0 - p.frac);
    QuotientSigns(cfg.rate, 1.0 - p.frac, p.partial);
  }

  lemma QuotientSigns(rate: real, x: real, y: real)
    requires rate > 0.0 && x >= 0.0 && y > rate * PRUNE_AFTER
    ensures x / rate >= 0.0 && y / rate > PRUNE_AFTER
  {
    var q := y / rate;
    assert q * rate == y;
    assert (q - PRUNE_AFTER) * rate > 0.0;
  }

  // The bucket of A along requests i..j of the run, with and without pruning.
  ghost function ReferenceTrace(cfg: Config, reqs: seq<Request>, i: nat, j: nat): seq<Option<Bucket>>
    requires i <= j <= |reqs|
  {
    seq(j - i + 1, k requires 0 <= k <= j - i => BucketAfter(cfg, reqs, i + k, A))
  }

  ghost function PruningTrace(cfg: Config, reqs: seq<Request>, i: nat, j: nat): seq<Option<Bucket>>
    requires i <= j <= |reqs|
  {
    seq(j - i + 1, k requires 0 <= k <= j - i => Lookup(PruningState(cfg, reqs, i + k), A))
  }

  lemma OwnRequest(cfg: Config, reqs: seq<Request>, q: nat)
    requires q < |reqs| && reqs[q].ip == A
    ensures BucketAfter(cfg, reqs, q + 1, A) == Some(Taken(cfg, BucketAfter(cfg, reqs, q, A), reqs[q].at))
    ensures Lookup(PruningState(cfg, reqs, q + 1), A)
         == Some(Taken(cfg, Lookup(PruningState(cfg, reqs, q), A), reqs[q].at))
  {
  }

  lemma TracesStep(cfg: Config, reqs: seq<Request>, i: nat, j: nat, t: real)
    requires i <= j <= |reqs|
    requires forall k | i <= k < j :: reqs[k] == Request(A, t)
    ensures forall k | 0 <= k < j - i ::
              ReferenceTrace(cfg, reqs, i, j)[k + 1] == Some(Taken(cfg, ReferenceTrace(cfg, reqs, i, j)[k], t))
    ensures forall k | 0 <= k < j - i ::
              PruningTrace(cfg, reqs, i, j)[k + 1] == Some(Taken(cfg, PruningTrace(cfg, reqs, i, j)[k], t))
  {
    forall k | 0 <= k < j - i
      ensures ReferenceTrace(cfg, reqs, i, j)[k + 1] == Some(Taken(cfg, ReferenceTrace(cfg, reqs, i, j)[k], t))
      ensures PruningTrace(cfg, reqs, i, j)[k + 1] == Some(Taken(cfg, PruningTrace(cfg, reqs, i, j)[k], t))
    {
      var q := i + k;
      assert reqs[q] == Request(A, t) && i + (k + 1) == q + 1;
      OwnRequest(cfg, reqs, q);
    }
  }

  lemma ProbeShape(p: Probe)
    requires p.m >= 1 && 0.0 <= p.t1 <= p.t2 <= p.t3
    ensures var reqs, m := ProbeRun(p), p.m;
            && |reqs| == 2 * m + 3 && Ordered(reqs)
            && (forall k | 0 <= k < m :: reqs[k] == Request(A, 0.0))
            && reqs[m] == Request(A, p.t1) && reqs[m + 1] == Request(B, p.t2)
            && (forall k | m + 2 <= k < 2 * m + 2 :: reqs[k] == Request(A, p.t2))
            && reqs[2 * m + 2] == Request(A, p.t3)
  {
  }

  lemma ReferenceTraceSteps(cfg: Config, reqs: seq<Request>, i: nat, j: nat, t: real)
      returns (trace: seq<Option<Bucket>>)
    requires i < j <= |reqs| && forall k | i <= k < j :: reqs[k] == Request(A, t)
    ensures trace == ReferenceTrace(cfg, reqs, i, j) && |trace| == j - i + 1
    ensures trace[0] == BucketAfter(cfg, reqs, i, A) && trace[j - i] == BucketAfter(cfg, reqs, j, A)
    ensures forall k | 0 <= k < |trace| - 1 :: trace[k + 1] == Some(Taken(cfg, trace[k], t))
  {
    trace := ReferenceTrace(cfg, reqs, i, j);
    TracesStep(cfg, reqs, i, j, t);
  }

  // Requests i..j of A at one moment, which the bucket covers.
  lemma ReferenceBurst(cfg: Config, reqs: seq<Request>, i: nat, j: nat, t: real)
    requires i < j <= |reqs| && forall k | i <= k < j :: reqs[k] == Request(A, t)
    requires (j - i) as real <= Level(cfg, BucketAfter(cfg, reqs, i, A), t) <= cfg.cap
    ensures BucketAfter(cfg, reqs, j, A) ==
        Some(Bucket(Level(cfg, BucketAfter(cfg, reqs, i, A), t) - (j - i) as real, t))
  {
    var trace := ReferenceTraceSteps(cfg, reqs, i, j, t);
    BurstLeaves(cfg, trace, t, j - i);
  }

  lemma PruningTraceSteps(cfg: Config, reqs: seq<Request>, i: nat, j: nat, t: real)
      returns (trace: seq<Option<Bucket>>)
    requires i < j <= |reqs| && forall k | i <= k < j :: reqs[k] == Request(A, t)
    ensures trace == PruningTrace(cfg, reqs, i, j) && |trace| == j - i + 1
    ensures trace[0] == Lookup(PruningState(cfg, reqs, i), A) && trace[j - i] == Lookup(PruningState(cfg, reqs, j), A)
    ensures forall k | 0 <= k < |trace| - 1 :: trace[k + 1] == Some(Taken(cfg, trace[k], t))
  {
    trace := PruningTrace(cfg, reqs, i, j);
    TracesStep(cfg, reqs, i, j, t);
  }

  lemma PruningBurst(cfg: Config, reqs: seq<Request>, i: nat, j: nat, t: real)
    requires i < j <= |reqs| && forall k | i <= k < j :: reqs[k] == Request(A, t)
    requires (j - i) as real <= Level(cfg, Lookup(PruningState(cfg, reqs, i), A), t) <= cfg.cap
    ensures Lookup(PruningState(cfg, reqs, j), A)
         == Some(Bucket(Level(cfg, Lookup(PruningState(cfg, reqs, i), A), t) - (j - i) as real, t))
    ensures forall k | 0 <= k < j - i :: Level(cfg, PruningTrace(cfg, reqs, i, j)[k], t) >= 1.0
  {
    var trace := PruningTraceSteps(cfg, reqs, i, j, t);
    BurstLeaves(cfg, trace, t, j - i);
  }

  lemma SameAnswersSameTokens(cfg: Config, reqs: seq<Request>, q: nat)
    requires cfg.rate > 0.0 && q < |reqs| && reqs[q].ip == A
    requires PruningAnswer(cfg, reqs, q) == ReferenceAnswer(cfg, reqs, q)
    requires Level(cfg, Lookup(PruningState(cfg, reqs, q), A), reqs[q].at) >= 1.0
    ensures Level(cfg, BucketAfter(cfg, reqs, q, A), reqs[q].at) >= 1.0
  {
  }

  ghost predicate AgreeOn(cfg: Config, reqs: seq<Request>, i: nat, j: nat)
    requires cfg.rate > 0.0 && j <= |reqs|
  {
    forall k | i <= k < j :: PruningAnswer(cfg, reqs, k) == ReferenceAnswer(cfg, reqs, k)
  }

  lemma AgreedToken(cfg: Config, reqs: seq<Request>, i: nat, j: nat, t: real, k: nat)
    requires cfg.rate > 0.0 && i <= j <= |reqs| && k < j - i
    requires reqs[i + k] == Request(A, t) && AgreeOn(cfg, reqs, i, j)
    requires Level(cfg, PruningTrace(cfg, reqs, i, j)[k], t) >= 1.0
    ensures Level(cfg, ReferenceTrace(cfg, reqs, i, j)[k], t) >= 1.0
  {
    SameAnswersSameTokens(cfg, reqs, i + k);
  }

  // A burst that the pruning limiter covers and the other allows as well, covered or not.
  lemma AgreedBurst(cfg: Config, reqs: seq<Request>, i: nat, j: nat, t: real)
    requires cfg.rate > 0.0 && i < j <= |reqs| && forall k | i <= k < j :: reqs[k] == Request(A, t)
    requires AgreeOn(cfg, reqs, i, j)
    requires forall k | 0 <= k < j - i :: Level(cfg, PruningTrace(cfg, reqs, i, j)[k], t) >= 1.0
    requires Level(cfg, ReferenceTrace(cfg, reqs, i, j)[0], t) <= cfg.cap
    ensures var trace := ReferenceTrace(cfg, reqs, i, j);
            trace[j - i] == Some(Bucket(Level(cfg, trace[0], t) - (j - i) as real, t))
  {
    TracesStep(cfg, reqs, i, j, t);
    forall k | 0 <= k < j - i
      ensures Level(cfg, ReferenceTrace(cfg, reqs, i, j)[k], t) >= 1.0
    {
      AgreedToken(cfg, reqs, i, j, t, k);
    }
    DrainAtOnce(cfg, ReferenceTrace(cfg, reqs, i, j), t, j - i);
  }

  lemma ProbeFirstBurst(cfg: Config)
    requires cfg.rate > 0.0 && cfg.cap >= 1.0 && cfg.rate * PRUNE_AFTER < cfg.cap
    ensures var p := ProbeOf(cfg);
            var reqs := ProbeRun(p);
            && p.m < |reqs|
            && BucketAfter(cfg, reqs, p.m, A) == Some(Bucket(p.frac, 0.0))
            && Lookup(PruningState(cfg, reqs, p.m), A) == Some(Bucket(p.frac, 0.0))
  {
    var p := ProbeOf(cfg);
    var reqs := ProbeRun(p);
    ProbeTimes(cfg);
    ProbeShape(p);
    ReferenceBurst(cfg, reqs, 0, p.m, 0.0);
    PruningBurst(cfg, reqs, 0, p.m, 0.0);
  }

  // Both limiters know the same about A when B's request comes: an empty bucket, last seen at t1.
  lemma ProbeFirstHalf(cfg: Config)
    requires cfg.rate > 0.0 && cfg.cap >= 1.0 && cfg.rate * PRUNE_AFTER < cfg.cap
    ensures var p := ProbeOf(cfg);
            var reqs := ProbeRun(p);
            && p.m + 1 < |reqs|
            && BucketAfter(cfg, reqs, p.m + 1, A) == Some(Bucket(0.0, p.t1))
            && Lookup(PruningState(cfg, reqs, p.m + 1), A) == Some(Bucket(0.0, p.t1))
  {
    var p := ProbeOf(cfg);
    ProbeTimes(cfg);
    ProbeShape(p);
    ProbeFirstBurst(cfg);
    OwnRequest(cfg, ProbeRun(p), p.m);
    assert Level(cfg, Some(Bucket(p.frac, 0.0)), p.t1) == 1.0;
  }

  // B's request prunes A's stale bucket in the limiter and leaves it alone in the reference.
  lemma ProbePrune(cfg: Config)
    requires cfg.rate > 0.0 && cfg.cap >= 1.0 && cfg.rate * PRUNE_AFTER < cfg.cap
    ensures var p := ProbeOf(cfg);
            var reqs := ProbeRun(p);
            && p.m + 2 < |reqs|
            && BucketAfter(cfg, reqs, p.m + 2, A) == Some(Bucket(0.0, p.t1))
            && Lookup(PruningState(cfg, reqs, p.m + 2), A) == None
  {
    var p := ProbeOf(cfg);
    ProbeTimes(cfg);
    ProbeShape(p);
    ProbeFirstHalf(cfg);
  }

  /**
   When five minutes do not refill the bucket the limiter can be told from one that never
   forgets: this run gets different answers somewhere.
   */
  lemma PruningObservable(cfg: Config) returns (reqs: seq<Request>)
    requires cfg.rate > 0.0 && cfg.cap >= 1.0 && cfg.rate * PRUNE_AFTER < cfg.cap
    ensures Ordered(reqs)
    ensures exists k :: 0 <= k < |reqs| && PruningAnswer(cfg, reqs, k) != ReferenceAnswer(cfg, reqs, k)
  {
    var p := ProbeOf(cfg);
    var m := p.m;
    reqs := ProbeRun(p);
    ProbeTimes(cfg);
    ProbeShape(p);
    if AgreeUntilLast(cfg, p) {
      ProbeSecondHalf(cfg);
      assert PruningAnswer(cfg, reqs, 2 * m + 2) != ReferenceAnswer(cfg, reqs, 2 * m + 2);
    }
  }

  predicate AgreeUntilLast(cfg: Config, p: Probe)
    requires cfg.rate > 0.0
  {
    var reqs := ProbeRun(p);
    forall k | 0 <= k < |reqs| - 1 :: PruningAnswer(cfg, reqs, k) == ReferenceAnswer(cfg, reqs, k)
  }

  // The pruning limiter starts the second burst from a full bucket; if the other allows it all
  // too, it comes out with less.
  lemma ProbeSecondBurst(cfg: Config)
    requires cfg.rate > 0.0 && cfg.cap >= 1.0 && cfg.rate * PRUNE_AFTER < cfg.cap
    requires AgreeUntilLast(cfg, ProbeOf(cfg))
    ensures var p := ProbeOf(cfg);
            var reqs, j := ProbeRun(p), 2 * p.m + 2;
            && j < |reqs|
            && Lookup(PruningState(cfg, reqs, j), A) == Some(Bucket(p.frac, p.t2))
            && BucketAfter(cfg, reqs, j, A) == Some(Bucket(p.partial - p.m as real, p.t2))
  {
    var p := ProbeOf(cfg);
    var reqs, i, j := ProbeRun(p), p.m + 2, 2 * p.m + 2;
    ProbeTimes(cfg);
    ProbeShape(p);
    ProbePrune(cfg);
    PruningBurst(cfg, reqs, i, j, p.t2);
    assert Level(cfg, BucketAfter(cfg, reqs, i, A), p.t2) == p.partial;
    AgreedBurst(cfg, reqs, i, j, p.t2);
  }

  lemma ProbeSecondHalf(cfg: Config)
    requires cfg.rate > 0.0 && cfg.cap >= 1.0 && cfg.rate * PRUNE_AFTER < cfg.cap
    requires AgreeUntilLast(cfg, ProbeOf(cfg))
    ensures var p := ProbeOf(cfg);
            var reqs, last := ProbeRun(p), 2 * p.m + 2;
            && last < |reqs|
            && PruningAnswer(cfg, reqs, last).Allowed? && ReferenceAnswer(cfg, reqs, last).Denied?
  {
    ProbeTimes(cfg);
    ProbeShape(ProbeOf(cfg));
    ProbeSecondBurst(cfg);
  }

  /** Pruning is unobservable exactly when five minutes refill the bucket. */
  lemma PruningExactCondition(cfg: Config)
    requires cfg.rate > 0.0 && cfg.cap >= 1.0
    ensures (forall reqs: seq<Request>, k: nat | Ordered(reqs) && k < |reqs| ::
               PruningAnswer(cfg, reqs, k) == ReferenceAnswer(cfg, reqs, k))
        <==> cfg.rate * 300.0 >= cfg.cap
  {
    if cfg.rate * PRUNE_AFTER >= cfg.cap {
      forall reqs: seq<Request>, k: nat | Ordered(reqs) && k < |reqs|
        ensures PruningAnswer(cfg, reqs, k) == ReferenceAnswer(cfg, reqs, k)
      {
        PruningUnobservable(cfg, reqs, k);
      }
    } else {
      var reqs := PruningObservable(cfg);
    }
  }

  /** The denial delay of the limiter itself, pruning included. */
  lemma LimiterRetryAfterExact(cfg: Config, reqs: seq<Request>, i: nat, j: nat)
    requires cfg.rate > 0.0 && cfg.cap >= 1.0 && cfg.rate * PRUNE_AFTER >= cfg.cap
    requires Ordered(reqs) && i < j < |reqs|
    requires reqs[i].ip == reqs[j].ip && PruningAnswer(cfg, reqs, i).Denied?
    requires forall k | i < k < j && reqs[k].ip == reqs[i].ip :: PruningAnswer(cfg, reqs, k).Denied?
    ensures var retry := PruningAnswer(cfg, reqs, i).retryAfter;
            && retry >= 1
            && (reqs[j].at >= reqs[i].at + retry as real ==> PruningAnswer(cfg, reqs, j).Allowed?)
            && (reqs[j].at <= reqs[i].at + (retry - 1) as real ==> PruningAnswer(cfg, reqs, j).Denied?)
  {
    PruningUnobservable(cfg, reqs, i);
    PruningUnobservable(cfg, reqs, j);
    forall k | i < k < j && reqs[k].ip == reqs[i].ip
      ensures ReferenceAnswer(cfg, reqs, k).Denied?
    {
      PruningUnobservable(cfg, reqs, k);
    }
    RetryAfterExact(cfg, reqs, i, j);
  }

  // The two limiters the server constructs.
  const GENERAL := Config(10.0, 60.0)
  const CREDENTIALS := Config(5.0 / 60.0, 3.0)

  /** Over any window the limiter itself, pruning included, allows one IP no more than that. */
  lemma LimiterWindowBound(cfg: Config, reqs: seq<Request>, ip: string, i: nat, j: nat)
    requires cfg.rate > 0.0 && cfg.cap >= 1.0 && cfg.rate * PRUNE_AFTER >= cfg.cap
    requires Ordered(reqs) && i < j <= |reqs|
    ensures var allowed := seq(j - i, k requires 0 <= k < j - i =>
                             reqs[i + k].ip == ip && PruningAnswer(cfg, reqs, i + k).Allowed?);
            Count(allowed) as real <= cfg.cap + (reqs[j - 1].at - reqs[i].at) * cfg.rate
  {
    var allowed := seq(j - i, k requires 0 <= k < j - i =>
                         reqs[i + k].ip == ip && PruningAnswer(cfg, reqs, i + k).Allowed?);
    forall k | 0 <= k < j - i
      ensures allowed[k] == AllowedFlags(cfg, reqs, ip, i, j)[k]
    {
      PruningUnobservable(cfg, reqs, i + k);
    }
    assert allowed == AllowedFlags(cfg, reqs, ip, i, j);
    WindowBound(cfg, reqs, ip, i, j);
  }

  // ------------------------------------------------------------- the burst

  // How many of the first k requests an IP has made.
  function Made(reqs: seq<Request>, k: nat, ip: string): nat
    requires k <= |reqs|
  {
    if k == 0 then 0 else Made(reqs, k - 1, ip) + (if reqs[k - 1].ip == ip then 1 else 0)
  }

  // No more tokens are gone than requests were made.
  lemma {:induction false} TokensLeft(cfg: Config, reqs: seq<Request>, k: nat, ip: string, now: real)
    requires cfg.rate > 0.0 && cfg.cap >= 1.0 && Ordered(reqs) && k <= |reqs|
    requires k > 0 ==> reqs[k - 1].at <= now
    ensures Level(cfg, BucketAfter(cfg, reqs, k, ip), now) >= cfg.cap - Made(reqs, k, ip) as real
  {
    if k > 0 {
      var at := reqs[k - 1].at;
      if reqs[k - 1].ip == ip {
        TokensLeft(cfg, reqs, k - 1, ip, at);
        GainNonNegative(cfg, at, now);
      } else {
        TokensLeft(cfg, reqs, k - 1, ip, now);
      }
    }
  }

  /** An IP's first requests, as many as the capacity, are allowed however fast they come. */
  lemma BurstIsAllowed(cfg: Config, reqs: seq<Request>, k: nat)
    requires cfg.rate > 0.0 && cfg.cap >= 1.0 && cfg.rate * 300.0 >= cfg.cap
    requires Ordered(reqs) && k < |reqs| && (Made(reqs, k, reqs[k].ip) + 1) as real <= cfg.cap
    ensures PruningAnswer(cfg, reqs, k).Allowed?
  {
    TokensLeft(cfg, reqs, k, reqs[k].ip, reqs[k].at);
    PruningUnobservable(cfg, reqs, k);
  }

  /** The limiters as the server constructs them: 60 at once and ten a second; 3 at once and five a minute. */
  lemma ServerLimits(reqs: seq<Request>, ip: string, i: nat, j: nat)
    requires Ordered(reqs) && i < j <= |reqs|
    ensures forall k :: 0 <= k < |reqs| && Made(reqs, k, reqs[k].ip) < 60 ==> PruningAnswer(GENERAL, reqs, k).Allowed?
    ensures forall k :: 0 <= k < |reqs| && Made(reqs, k, reqs[k].ip) < 3 ==>
              PruningAnswer(CREDENTIALS, reqs, k).Allowed?
    ensures var seconds := reqs[j - 1].at - reqs[i].at;
      && (var allowed := seq(j - i, k requires 0 <= k < j - i =>
                           reqs[i + k].ip == ip && PruningAnswer(GENERAL, reqs, i + k).Allowed?);
          Count(allowed) as real <= 60.0 + seconds * 10.0)
      && (var allowed := seq(j - i, k requires 0 <= k < j - i =>
                           reqs[i + k].ip == ip && PruningAnswer(CREDENTIALS, reqs, i + k).Allowed?);
          Count(allowed) as real <= 3.0 + seconds * 5.0 / 60.0)
  {
    forall k: nat | k < |reqs| && Made(reqs, k, reqs[k].ip) < 60 ensures PruningAnswer(GENERAL, reqs, k).Allowed? {
      BurstIsAllowed(GENERAL, reqs, k);
    }
    forall k: nat | k < |reqs| && Made(reqs, k, reqs[k].ip) < 3 ensures PruningAnswer(CREDENTIALS, reqs, k).Allowed? {
      BurstIsAllowed(CREDENTIALS, reqs, k);
    }
    LimiterWindowBound(GENERAL, reqs, ip, i, j);
    LimiterWindowBound(CREDENTIALS, reqs, ip, i, j);
  }

  /** Five minutes refill both limiters the server constructs. */
  lemma ConstructedLimitersRefill(cfg: Config)
    requires cfg == GENERAL || cfg == CREDENTIALS
    ensures cfg.rate > 0.0 && cfg.cap >= 1.0 && cfg.rate * PRUNE_AFTER >= cfg.cap
  {
  }
}
