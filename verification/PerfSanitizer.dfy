/**
 The sanitising of performance snapshots.  Each median is held with its own presence mark in
 place of the bit mask.
 */
module PerfSanitizer {
  import opened Wrappers

  datatype Float = NaN | PosInf | NegInf | Num(value: real)

  const ZERO := Num(0.0)

  datatype Field =
    | CpuPct | CpuP95 | MemAvail | MemTotal | Pages | DiskQueue | TcpRetrans
    | DelayP50 | DelayP95 | DelayMax
    | SessionCpuP95 | SessionMemP95 | CpuObserved | CpuGe5 | CpuGe20
    | Fps | FpsP50 | SkipServer | SkipServerP50 | SkipNet | SkipNetP50 | Encode | EncodeP50
    | Quality | QualityP50 | Rtt | RttP50 | Loss | LossP50
    | SessionsTotal | SessionsActive | SessionsDisconnected | SessionsMax

  const PERCENT := 100.0
  const MEGABYTES := 1125899906842624.0
  const BYTES := 1152921504606846976.0
  const RATE := 1000000.0
  const MILLIS := 60000.0
  const FRAMES := 240.0
  const COUNT := 0x10_0000

  // The largest value a field may hold; none for a field the sanitiser does not know.
  function Max(field: Field): Option<real> {
    match field
    case CpuPct | CpuP95 | SessionCpuP95 | Quality | QualityP50 | Loss | LossP50 => Some(PERCENT)
    case MemAvail | MemTotal => Some(MEGABYTES)
    case Pages | DiskQueue | TcpRetrans | SkipServer | SkipServerP50 | SkipNet | SkipNetP50 => Some(RATE)
    case DelayP50 | DelayP95 | DelayMax | Encode | EncodeP50 | Rtt | RttP50 => Some(MILLIS)
    case SessionMemP95 => Some(BYTES)
    case CpuObserved | CpuGe5 | CpuGe20 => Some(COUNT as real)
    case Fps | FpsP50 => Some(FRAMES)
    case SessionsTotal | SessionsActive | SessionsDisconnected | SessionsMax => None
  }

  predicate Within(max: real, v: Float) {
    v.Num? && 0.0 <= v.value <= max
  }

  function Sanitize(max: real, v: Float): Float {
    if Within(max, v) then v else ZERO
  }

  // A primary value, its median, and whether the median is marked as collected.
  datatype Paired = Paired(primary: Float, median: Float, marked: bool)

  datatype Host = Host(processors: int, cpuPct: Float, cpuP95: Float, memAvail: Float, memTotal: Float,
                       pages: Float, diskQueue: Float, tcpRetrans: Float,
                       delayP50: Float, delayMarked: bool, delayP95: Float, delayMax: Float,
                       sessionCpuP95: Float, sessionMemP95: Float)

  // How many active sessions cross which CPU share.
  datatype Activity = Activity(collected: bool, observed: int, ge5: int, ge20: int)

  datatype RemoteFx = RemoteFx(available: bool, fps: Paired, skipServer: Paired, skipNet: Paired, encode: Paired,
                               quality: Paired, rtt: Paired, loss: Paired)

  datatype Snapshot = Snapshot(host: Host, activity: Activity, rfx: RemoteFx)

  const NOTHING := Paired(ZERO, ZERO, false)

  const IDLE := Activity(false, 0, 0, 0)

  const ABSENT := RemoteFx(false, NOTHING, NOTHING, NOTHING, NOTHING, NOTHING, NOTHING, NOTHING)

  // A median was collected: it is marked, or not zero.
  predicate HasP50(marked: bool, median: Float) {
    marked || median != ZERO
  }

  predicate Above(a: Float, b: Float) {
    a.PosInf? || (a.Num? && b.Num? && a.value > b.value)
  }

  // ------------------------------------------------------- the steps on a pair

  function SanitizePrimary(max: real, q: Paired): Paired {
    q.(primary := Sanitize(max, q.primary))
  }

  function SanitizeP50(max: real, q: Paired): Paired {
    if Within(max, q.median) then q else DropMedian(q)
  }

  function DropMedian(q: Paired): Paired {
    q.(median := ZERO, marked := false)
  }

  // Lower is better: the median cannot exceed the 95th percentile.
  function ClearLower(q: Paired): Paired {
    if HasP50(q.marked, q.median) && Above(q.primary, ZERO) && Above(q.median, q.primary) then DropMedian(q) else q
  }

  // Higher is better: the median cannot fall below the floor.
  function ClearHigher(q: Paired): Paired {
    if HasP50(q.marked, q.median) && Above(q.primary, ZERO) && Above(q.median, ZERO) && Above(q.primary, q.median)
    then DropMedian(q) else q
  }

  // A floor that was read as zero means that no stream was active.
  function ClearIdle(valid: bool, q: Paired): Paired {
    if valid && q.primary == ZERO then DropMedian(q) else q
  }

  function LowerPass(max: real, q: Paired): Paired {
    ClearLower(SanitizeP50(max, SanitizePrimary(max, q)))
  }

  function HigherPass(max: real, q: Paired): Paired {
    ClearIdle(Within(max, q.primary), ClearHigher(SanitizeP50(max, SanitizePrimary(max, q))))
  }

  predicate CountsAgree(a: Activity) {
    a.collected && 0 <= a.ge20 <= a.ge5 <= a.observed <= COUNT
  }

  // What one pass makes of a snapshot, part by part.
  function HostPass(h: Host): Host {
    Host(if 0 <= h.processors <= 4096 then h.processors else 0,
         Sanitize(PERCENT, h.cpuPct), Sanitize(PERCENT, h.cpuP95), Sanitize(MEGABYTES, h.memAvail),
         Sanitize(MEGABYTES, h.memTotal),
         Sanitize(RATE, h.pages), Sanitize(RATE, h.diskQueue), Sanitize(RATE, h.tcpRetrans),
         Sanitize(MILLIS, h.delayP50), h.delayMarked && Within(MILLIS, h.delayP50),
         Sanitize(MILLIS, h.delayP95), Sanitize(MILLIS, h.delayMax),
         Sanitize(PERCENT, h.sessionCpuP95), Sanitize(BYTES, h.sessionMemP95))
  }

  function RemoteFxPass(r: RemoteFx): RemoteFx {
    if !r.available then ABSENT else
      RemoteFx(true, HigherPass(FRAMES, r.fps), LowerPass(RATE, r.skipServer), LowerPass(RATE, r.skipNet),
               LowerPass(MILLIS, r.encode), HigherPass(PERCENT, r.quality), LowerPass(MILLIS, r.rtt),
               LowerPass(PERCENT, r.loss))
  }

  function Pass(p: Snapshot): Snapshot {
    Snapshot(HostPass(p.host), if CountsAgree(p.activity) then p.activity else IDLE, RemoteFxPass(p.rfx))
  }

  // --------------------------------------------------------- clean snapshots

  predicate Bounded(max: real, q: Paired) {
    Within(max, q.primary) && Within(max, q.median)
  }

  predicate CleanLower(max: real, q: Paired) {
    Bounded(max, q) && (q.primary != ZERO ==> q.median.value <= q.primary.value)
  }

  predicate CleanHigher(max: real, q: Paired) {
    && Bounded(max, q)
    && (q.primary == ZERO ==> !HasP50(q.marked, q.median))
    && (q.primary != ZERO && q.median != ZERO ==> q.primary.value <= q.median.value)
  }

  predicate CleanHost(h: Host) {
    && 0 <= h.processors <= 4096
    && Within(PERCENT, h.cpuPct) && Within(PERCENT, h.cpuP95) && Within(MEGABYTES, h.memAvail)
    && Within(MEGABYTES, h.memTotal)
    && Within(RATE, h.pages) && Within(RATE, h.diskQueue) && Within(RATE, h.tcpRetrans)
    && Within(MILLIS, h.delayP50) && Within(MILLIS, h.delayP95) && Within(MILLIS, h.delayMax)
    && Within(PERCENT, h.sessionCpuP95) && Within(BYTES, h.sessionMemP95)
  }

  predicate CleanRemoteFx(r: RemoteFx) {
    if !r.available then r == ABSENT else
      && CleanHigher(FRAMES, r.fps) && CleanHigher(PERCENT, r.quality)
      && CleanLower(RATE, r.skipServer) && CleanLower(RATE, r.skipNet)
      && CleanLower(MILLIS, r.encode) && CleanLower(MILLIS, r.rtt) && CleanLower(PERCENT, r.loss)
  }

  // Every value in its bounds, the activity counts nested, each median on the right side of
  // its percentile, and nothing left of a stream that is absent or idle.
  predicate Clean(p: Snapshot) {
    CleanHost(p.host) && (CountsAgree(p.activity) || p.activity == IDLE) && CleanRemoteFx(p.rfx)
  }

  lemma LowerPassClean(max: real, q: Paired)
    requires max > 0.0
    ensures CleanLower(max, LowerPass(max, q))
    ensures LowerPass(max, q) == q <==> CleanLower(max, q)
  {
  }

  // The pass leaves a median behind when the floor itself was out of bounds.
  predicate Orphan(max: real, q: Paired) {
    !Within(max, q.primary) && Within(max, q.median) && HasP50(q.marked, q.median)
  }

  lemma HigherPassClean(max: real, q: Paired)
    requires max > 0.0
    ensures Bounded(max, HigherPass(max, q))
    ensures CleanHigher(max, HigherPass(max, q)) <==> !Orphan(max, q)
    ensures HigherPass(max, q) == q <==> CleanHigher(max, q)
  {
  }

  // A pass keeps a value or zeroes it, never puts another in its place; and it keeps every
  // median that is in bounds and that its percentile, where there is one, does not contradict.
  lemma WhatAPassKeeps(max: real, q: Paired)
    requires max > 0.0
    ensures var lower, higher := LowerPass(max, q), HigherPass(max, q);
      var kept := Within(max, q.median);
      var read := Within(max, q.primary);
      && lower.primary == higher.primary == (if read then q.primary else ZERO)
      && (if kept && (read && q.primary.value > 0.0 ==> q.median.value <= q.primary.value)
          then lower.median == q.median && lower.marked == q.marked
          else lower.median == ZERO && !lower.marked)
      && (if kept && (read ==> q.primary.value > 0.0 && (q.median.value > 0.0 ==> q.primary.value <= q.median.value))
          then higher.median == q.median && higher.marked == q.marked
          else higher.median == ZERO && !higher.marked)
  {
  }

  predicate HasOrphan(r: RemoteFx) {
    r.available && (Orphan(FRAMES, r.fps) || Orphan(PERCENT, r.quality))
  }

  lemma RemoteFxPassClean(r: RemoteFx)
    ensures RemoteFxPass(r) == r <==> CleanRemoteFx(r)
    ensures CleanRemoteFx(RemoteFxPass(r)) <==> !HasOrphan(r)
    ensures !HasOrphan(RemoteFxPass(r))
  {
    HigherPassClean(FRAMES, r.fps);
    HigherPassClean(PERCENT, r.quality);
    LowerPassClean(RATE, r.skipServer);
    LowerPassClean(RATE, r.skipNet);
    LowerPassClean(MILLIS, r.encode);
    LowerPassClean(MILLIS, r.rtt);
    LowerPassClean(PERCENT, r.loss);
  }

  lemma HostPassClean(h: Host)
    ensures CleanHost(HostPass(h))
    ensures HostPass(h) == h <==> CleanHost(h)
  {
  }

  // The snapshots that a pass leaves alone are exactly the clean ones.
  lemma FixpointsAreClean(p: Snapshot)
    ensures Pass(p) == p <==> Clean(p)
  {
    HostPassClean(p.host);
    RemoteFxPassClean(p.rfx);
  }

  // One pass reaches a clean snapshot unless it leaves a median beside an invalid floor.
  lemma PassCleans(p: Snapshot)
    ensures Clean(Pass(p)) <==> !HasOrphan(p.rfx)
    ensures !HasOrphan(Pass(p).rfx)
  {
    HostPassClean(p.host);
    RemoteFxPassClean(p.rfx);
  }

  // A second pass always settles the snapshot.
  lemma TwoPassesSettle(p: Snapshot)
    ensures Pass(Pass(Pass(p))) == Pass(Pass(p)) && Clean(Pass(Pass(p)))
  {
    PassCleans(p);
    PassCleans(Pass(p));
    FixpointsAreClean(Pass(Pass(p)));
  }

  // One pass is enough exactly when there is no RemoteFX, or no in-bounds median was collected
  // beside an FPS or a quality that is out of bounds.
  lemma OnePassSettles(p: Snapshot)
    ensures Pass(Pass(p)) == Pass(p) <==>
      !(p.rfx.available && (Orphan(FRAMES, p.rfx.fps) || Orphan(PERCENT, p.rfx.quality)))
  {
    PassCleans(p);
    FixpointsAreClean(Pass(p));
  }

  // A frame rate that is no number beside a collected median: the first pass zeroes the rate,
  // and only the second takes the zero for an idle stream and drops the median.
  lemma SecondPassDropsAMedian(p: Snapshot)
    requires p.rfx.available && p.rfx.fps == Paired(NaN, Num(30.0), true)
    ensures Pass(p).rfx.fps == Paired(ZERO, Num(30.0), true)
    ensures Pass(Pass(p)).rfx.fps == NOTHING && Pass(Pass(p)) != Pass(p)
  {
    assert Orphan(FRAMES, p.rfx.fps);
    OnePassSettles(p);
  }

  // The orders a reader of a sanitised snapshot relies on, after one pass already.
  lemma PassOrders(p: Snapshot)
    ensures var a := Pass(p).activity; 0 <= a.ge20 <= a.ge5 <= a.observed <= COUNT
    ensures var r := Pass(p).rfx;
      && (forall q :: q in [r.skipServer, r.skipNet, r.encode, r.rtt, r.loss] && Above(q.primary, ZERO) ==>
            !Above(q.median, q.primary))
      && (forall q :: q in [r.fps, r.quality] && Above(q.primary, ZERO) && Above(q.median, ZERO) ==>
            !Above(q.primary, q.median))
  {
    LowerPassClean(RATE, p.rfx.skipServer);
    LowerPassClean(RATE, p.rfx.skipNet);
    LowerPassClean(MILLIS, p.rfx.encode);
    LowerPassClean(MILLIS, p.rfx.rtt);
    LowerPassClean(PERCENT, p.rfx.loss);
  }

  predicate KeepsOrZeroes(max: real, before: Float, after: Float) {
    after == if before.Num? && 0.0 <= before.value <= max then before else Num(0.0)
  }

  // Field by field, one pass keeps a host value within its bounds and zeroes any other.
  lemma HostFieldByField(p: Snapshot)
    ensures var h, h' := p.host, Pass(p).host;
      && h'.processors == (if 0 <= h.processors <= 4096 then h.processors else 0)
      && KeepsOrZeroes(100.0, h.cpuPct, h'.cpuPct) && KeepsOrZeroes(100.0, h.cpuP95, h'.cpuP95)
      && KeepsOrZeroes(1125899906842624.0, h.memAvail, h'.memAvail)
      && KeepsOrZeroes(1125899906842624.0, h.memTotal, h'.memTotal)
      && KeepsOrZeroes(1000000.0, h.pages, h'.pages) && KeepsOrZeroes(1000000.0, h.diskQueue, h'.diskQueue)
      && KeepsOrZeroes(1000000.0, h.tcpRetrans, h'.tcpRetrans)
      && KeepsOrZeroes(60000.0, h.delayP50, h'.delayP50) && KeepsOrZeroes(60000.0, h.delayP95, h'.delayP95)
      && KeepsOrZeroes(60000.0, h.delayMax, h'.delayMax)
      && (h'.delayMarked <==> h.delayMarked && h.delayP50.Num? && 0.0 <= h.delayP50.value <= 60000.0)
      && KeepsOrZeroes(100.0, h.sessionCpuP95, h'.sessionCpuP95)
      && KeepsOrZeroes(1152921504606846976.0, h.sessionMemP95, h'.sessionMemP95)
  {
  }

  // The same for the first value of each RemoteFX pair, when RemoteFX is there; and the activity
  // counts stay exactly if they were collected, are nested and not absurdly large.
  lemma RemoteFxFieldByField(p: Snapshot)
    ensures Pass(p).rfx.available == p.rfx.available
    ensures var r, r' := p.rfx, Pass(p).rfx;
      r.available ==>
        && KeepsOrZeroes(240.0, r.fps.primary, r'.fps.primary)
        && KeepsOrZeroes(1000000.0, r.skipServer.primary, r'.skipServer.primary)
        && KeepsOrZeroes(1000000.0, r.skipNet.primary, r'.skipNet.primary)
        && KeepsOrZeroes(60000.0, r.encode.primary, r'.encode.primary)
        && KeepsOrZeroes(100.0, r.quality.primary, r'.quality.primary)
        && KeepsOrZeroes(60000.0, r.rtt.primary, r'.rtt.primary)
        && KeepsOrZeroes(100.0, r.loss.primary, r'.loss.primary)
    ensures var a := p.activity;
      Pass(p).activity == if a.collected && 0 <= a.ge20 <= a.ge5 <= a.observed <= 1048576 then a
                          else Activity(false, 0, 0, 0)
  {
    var r := p.rfx;
    WhatAPassKeeps(240.0, r.fps);
    WhatAPassKeeps(1000000.0, r.skipServer);
    WhatAPassKeeps(1000000.0, r.skipNet);
    WhatAPassKeeps(60000.0, r.encode);
    WhatAPassKeeps(100.0, r.quality);
    WhatAPassKeeps(60000.0, r.rtt);
    WhatAPassKeeps(100.0, r.loss);
  }

  // ------------------------------------------------------------ the sanitiser

  // The steps in the order the snapshot's copy is overwritten.
  method SanitizeSnapshot(snapshot: Snapshot) returns (p: Snapshot)
    ensures p == Pass(snapshot)
  {
    var host := SanitizeHost(snapshot.host);
    var a := snapshot.activity;
    if !a.collected || a.observed < 0 || a.observed > COUNT || a.ge5 < 0 || a.ge5 > a.observed ||
       a.ge20 < 0 || a.ge20 > a.ge5 {
      a := IDLE;
    }
    var rfx := ABSENT;
    if snapshot.rfx.available {
      rfx := SanitizeRemoteFx(snapshot.rfx);
    }
    p := Snapshot(host, a, rfx);
  }

  method SanitizeHost(host: Host) returns (h: Host)
    ensures h == HostPass(host)
  {
    h := host;
    if h.processors < 0 || h.processors > 4096 {
      h := h.(processors := 0);
    }
    h := h.(cpuPct := Sanitize(PERCENT, h.cpuPct));
    h := h.(cpuP95 := Sanitize(PERCENT, h.cpuP95));
    h := h.(memAvail := Sanitize(MEGABYTES, h.memAvail));
    h := h.(memTotal := Sanitize(MEGABYTES, h.memTotal));
    h := h.(pages := Sanitize(RATE, h.pages));
    h := h.(diskQueue := Sanitize(RATE, h.diskQueue));
    h := h.(tcpRetrans := Sanitize(RATE, h.tcpRetrans));
    if !Within(MILLIS, h.delayP50) {
      h := h.(delayP50 := ZERO, delayMarked := false);
    }
    h := h.(delayP95 := Sanitize(MILLIS, h.delayP95));
    h := h.(delayMax := Sanitize(MILLIS, h.delayMax));
    h := h.(sessionCpuP95 := Sanitize(PERCENT, h.sessionCpuP95));
    h := h.(sessionMemP95 := Sanitize(BYTES, h.sessionMemP95));
  }

  method SanitizeRemoteFx(rfx: RemoteFx) returns (r: RemoteFx)
    requires rfx.available
    ensures r == RemoteFxPass(rfx)
  {
    r := rfx;
    var fpsValid := Within(FRAMES, r.fps.primary);
    r := r.(fps := SanitizePrimary(FRAMES, r.fps));
    r := r.(fps := SanitizeP50(FRAMES, r.fps));
    r := r.(skipServer := SanitizePrimary(RATE, r.skipServer));
    r := r.(skipServer := SanitizeP50(RATE, r.skipServer));
    r := r.(skipNet := SanitizePrimary(RATE, r.skipNet));
    r := r.(skipNet := SanitizeP50(RATE, r.skipNet));
    r := r.(encode := SanitizePrimary(MILLIS, r.encode));
    r := r.(encode := SanitizeP50(MILLIS, r.encode));
    var qualityValid := Within(PERCENT, r.quality.primary);
    r := r.(quality := SanitizePrimary(PERCENT, r.quality));
    r := r.(quality := SanitizeP50(PERCENT, r.quality));
    r := r.(rtt := SanitizePrimary(MILLIS, r.rtt));
    r := r.(rtt := SanitizeP50(MILLIS, r.rtt));
    r := r.(loss := SanitizePrimary(PERCENT, r.loss));
    r := r.(loss := SanitizeP50(PERCENT, r.loss));
    r := r.(fps := ClearHigher(r.fps));
    r := r.(skipServer := ClearLower(r.skipServer));
    r := r.(skipNet := ClearLower(r.skipNet));
    r := r.(encode := ClearLower(r.encode));
    r := r.(quality := ClearHigher(r.quality));
    r := r.(rtt := ClearLower(r.rtt));
    r := r.(loss := ClearLower(r.loss));
    r := r.(fps := ClearIdle(fpsValid, r.fps));
    r := r.(quality := ClearIdle(qualityValid, r.quality));
  }
}
