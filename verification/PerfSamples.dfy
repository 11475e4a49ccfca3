/** The telemetry samples taken from a check result. */
module PerfSamples {
  import opened Wrappers
  import opened PerfSanitizer


  datatype Sample = Sample(field: Field, value: Float)

  datatype Sessions = Sessions(total: int, active: int, disconnected: int, max: int)

  // What the sample filter lets through: session counts, and known fields within bounds.
  predicate Admitted(field: Field, value: Float) {
    match Max(field)
    case Some(max) => Within(max, value)
    case None => true
  }

  // A sample offered to the list, with the filter in front of it or without.
  function Put(out: seq<Sample>, filtered: bool, wanted: bool, field: Field, value: Float): seq<Sample> {
    if wanted && (filtered ==> Admitted(field, value)) then out + [Sample(field, value)] else out
  }

  function PutLoad(out: seq<Sample>, filtered: bool, h: Host): seq<Sample> {
    var out := Put(out, filtered, true, CpuPct, h.cpuPct);
    var out := Put(out, filtered, true, CpuP95, h.cpuP95);
    var out := Put(out, filtered, true, MemAvail, h.memAvail);
    var out := Put(out, filtered, true, MemTotal, h.memTotal);
    var out := Put(out, filtered, true, Pages, h.pages);
    var out := Put(out, filtered, true, DiskQueue, h.diskQueue);
    Put(out, filtered, true, TcpRetrans, h.tcpRetrans)
  }

  function PutDelays(out: seq<Sample>, filtered: bool, h: Host): seq<Sample> {
    var out := Put(out, filtered, HasP50(h.delayMarked, h.delayP50), DelayP50, h.delayP50);
    var out := Put(out, filtered, true, DelayP95, h.delayP95);
    Put(out, filtered, true, DelayMax, h.delayMax)
  }

  function PutHost(out: seq<Sample>, filtered: bool, h: Host): seq<Sample> {
    var out := PutDelays(PutLoad(out, filtered, h), filtered, h);
    var out := Put(out, filtered, h.sessionCpuP95 != ZERO, SessionCpuP95, h.sessionCpuP95);
    Put(out, filtered, h.sessionMemP95 != ZERO, SessionMemP95, h.sessionMemP95)
  }

  function PutActivity(out: seq<Sample>, filtered: bool, a: Activity): seq<Sample> {
    var out := Put(out, filtered, a.collected, CpuObserved, Num(a.observed as real));
    var out := Put(out, filtered, a.collected, CpuGe5, Num(a.ge5 as real));
    Put(out, filtered, a.collected, CpuGe20, Num(a.ge20 as real))
  }

  function PutLower(out: seq<Sample>, filtered: bool, field: Field, median: Field, q: Paired): seq<Sample> {
    var collected := HasP50(q.marked, q.median);
    Put(Put(out, filtered, collected, field, q.primary), filtered, collected, median, q.median)
  }

  // An idle stream gives a gap, not a zero.
  function PutHigher(out: seq<Sample>, filtered: bool, field: Field, median: Field, q: Paired): seq<Sample> {
    Put(Put(out, filtered, Above(q.primary, ZERO), field, q.primary),
        filtered, HasP50(q.marked, q.median) && Above(q.median, ZERO), median, q.median)
  }

  function PutFrames(out: seq<Sample>, filtered: bool, r: RemoteFx): seq<Sample> {
    var out := PutHigher(out, filtered, Fps, FpsP50, r.fps);
    var out := PutLower(out, filtered, SkipServer, SkipServerP50, r.skipServer);
    PutLower(out, filtered, SkipNet, SkipNetP50, r.skipNet)
  }

  function PutQuality(out: seq<Sample>, filtered: bool, r: RemoteFx): seq<Sample> {
    var out := PutLower(out, filtered, Encode, EncodeP50, r.encode);
    PutHigher(out, filtered, Quality, QualityP50, r.quality)
  }

  function PutNetwork(out: seq<Sample>, filtered: bool, r: RemoteFx): seq<Sample> {
    var out := PutLower(out, filtered, Rtt, RttP50, r.rtt);
    PutLower(out, filtered, Loss, LossP50, r.loss)
  }

  function PutRemoteFx(out: seq<Sample>, filtered: bool, r: RemoteFx): seq<Sample> {
    if !r.available then out
    else PutNetwork(PutQuality(PutFrames(out, filtered, r), filtered, r), filtered, r)
  }

  function PutSessions(out: seq<Sample>, filtered: bool, s: Sessions): seq<Sample> {
    var out := Put(out, filtered, true, SessionsTotal, Num(s.total as real));
    var out := Put(out, filtered, true, SessionsActive, Num(s.active as real));
    var out := Put(out, filtered, true, SessionsDisconnected, Num(s.disconnected as real));
    Put(out, filtered, s.max > 0, SessionsMax, Num(s.max as real))
  }

  // The samples of a result, in order.
  function Samples(filtered: bool, p: Option<Snapshot>, s: Option<Sessions>): seq<Sample> {
    var out := match p
               case Some(q) =>
                 PutRemoteFx(PutActivity(PutHost([], filtered, q.host), filtered, q.activity), filtered, q.rfx)
               case None => [];
    match s
    case Some(t) => PutSessions(out, filtered, t)
    case None => out
  }

  lemma PairAdmitted(out: seq<Sample>, field: Field, median: Field, max: real, q: Paired)
    requires Max(field) == Max(median) == Some(max) && Bounded(max, q)
    ensures PutLower(out, true, field, median, q) == PutLower(out, false, field, median, q)
    ensures PutHigher(out, true, field, median, q) == PutHigher(out, false, field, median, q)
  {
  }

  lemma FramesAdmitted(out: seq<Sample>, r: RemoteFx)
    requires Bounded(FRAMES, r.fps) && Bounded(RATE, r.skipServer) && Bounded(RATE, r.skipNet)
    ensures PutFrames(out, true, r) == PutFrames(out, false, r)
  {
    var out1 := PutHigher(out, false, Fps, FpsP50, r.fps);
    PairAdmitted(out, Fps, FpsP50, FRAMES, r.fps);
    PairAdmitted(out1, SkipServer, SkipServerP50, RATE, r.skipServer);
    PairAdmitted(PutLower(out1, false, SkipServer, SkipServerP50, r.skipServer), SkipNet, SkipNetP50, RATE, r.skipNet);
  }

  lemma QualityAdmitted(out: seq<Sample>, r: RemoteFx)
    requires Bounded(MILLIS, r.encode) && Bounded(PERCENT, r.quality)
    ensures PutQuality(out, true, r) == PutQuality(out, false, r)
  {
    PairAdmitted(out, Encode, EncodeP50, MILLIS, r.encode);
    PairAdmitted(PutLower(out, false, Encode, EncodeP50, r.encode), Quality, QualityP50, PERCENT, r.quality);
  }

  lemma NetworkAdmitted(out: seq<Sample>, r: RemoteFx)
    requires Bounded(MILLIS, r.rtt) && Bounded(PERCENT, r.loss)
    ensures PutNetwork(out, true, r) == PutNetwork(out, false, r)
  {
    PairAdmitted(out, Rtt, RttP50, MILLIS, r.rtt);
    PairAdmitted(PutLower(out, false, Rtt, RttP50, r.rtt), Loss, LossP50, PERCENT, r.loss);
  }

  lemma RemoteFxAdmitted(out: seq<Sample>, r: RemoteFx)
    requires Bounded(FRAMES, r.fps) && Bounded(RATE, r.skipServer) && Bounded(RATE, r.skipNet)
    requires Bounded(MILLIS, r.encode)
    requires Bounded(PERCENT, r.quality) && Bounded(MILLIS, r.rtt) && Bounded(PERCENT, r.loss)
    ensures PutRemoteFx(out, true, r) == PutRemoteFx(out, false, r)
  {
    FramesAdmitted(out, r);
    QualityAdmitted(PutFrames(out, false, r), r);
    NetworkAdmitted(PutQuality(PutFrames(out, false, r), false, r), r);
  }

  lemma PassBounds(r: RemoteFx)
    requires r.available
    ensures var q := RemoteFxPass(r);
      && Bounded(FRAMES, q.fps) && Bounded(RATE, q.skipServer) && Bounded(RATE, q.skipNet) && Bounded(MILLIS, q.encode)
      && Bounded(PERCENT, q.quality) && Bounded(MILLIS, q.rtt) && Bounded(PERCENT, q.loss)
  {
    HigherPassClean(FRAMES, r.fps);
    HigherPassClean(PERCENT, r.quality);
    LowerPassClean(RATE, r.skipServer);
    LowerPassClean(RATE, r.skipNet);
    LowerPassClean(MILLIS, r.encode);
    LowerPassClean(MILLIS, r.rtt);
    LowerPassClean(PERCENT, r.loss);
  }

  lemma HostAdmitted(out: seq<Sample>, h: Host)
    requires CleanHost(h)
    ensures PutHost(out, true, h) == PutHost(out, false, h)
  {
  }

  lemma ActivityAdmitted(out: seq<Sample>, a: Activity)
    requires CountsAgree(a) || a == IDLE
    ensures PutActivity(out, true, a) == PutActivity(out, false, a)
  {
  }

  // On a sanitised snapshot the sample filter has nothing left to reject.
  lemma FilterRejectsNothing(p: Snapshot, s: Option<Sessions>)
    ensures Samples(true, Some(Pass(p)), s) == Samples(false, Some(Pass(p)), s)
  {
    var q := Pass(p);
    HostPassClean(p.host);
    HostAdmitted([], q.host);
    var out1 := PutHost([], false, q.host);
    ActivityAdmitted(out1, q.activity);
    var out2 := PutActivity(out1, false, q.activity);
    if p.rfx.available {
      PassBounds(p.rfx);
      RemoteFxAdmitted(out2, q.rfx);
    }
    SessionsAdmitted(PutRemoteFx(out2, false, q.rfx), s);
  }

  lemma SessionsAdmitted(out: seq<Sample>, s: Option<Sessions>)
    ensures s.Some? ==> PutSessions(out, true, s.value) == PutSessions(out, false, s.value)
  {
  }

  // ----------------------------------------------------- what is in the list

  predicate HostOffers(h: Host, field: Field, v: Float) {
    match field
    case CpuPct => v == h.cpuPct && Within(100.0, v)
    case CpuP95 => v == h.cpuP95 && Within(100.0, v)
    case MemAvail => v == h.memAvail && Within(1125899906842624.0, v)
    case MemTotal => v == h.memTotal && Within(1125899906842624.0, v)
    case Pages => v == h.pages && Within(1000000.0, v)
    case DiskQueue => v == h.diskQueue && Within(1000000.0, v)
    case TcpRetrans => v == h.tcpRetrans && Within(1000000.0, v)
    case DelayP50 => v == h.delayP50 && Within(60000.0, v) && (h.delayMarked || v != Num(0.0))
    case DelayP95 => v == h.delayP95 && Within(60000.0, v)
    case DelayMax => v == h.delayMax && Within(60000.0, v)
    case SessionCpuP95 => v == h.sessionCpuP95 && Within(100.0, v) && v != Num(0.0)
    case SessionMemP95 => v == h.sessionMemP95 && Within(1152921504606846976.0, v) && v != Num(0.0)
    case _ => false
  }

  predicate ActivityOffers(a: Activity, field: Field, v: Float) {
    match field
    case CpuObserved => a.collected && v == Num(a.observed as real) && 0 <= a.observed <= 1048576
    case CpuGe5 => a.collected && v == Num(a.ge5 as real) && 0 <= a.ge5 <= 1048576
    case CpuGe20 => a.collected && v == Num(a.ge20 as real) && 0 <= a.ge20 <= 1048576
    case _ => false
  }

  // Where lower is better both values of a pair are reported when there is a median.
  predicate LowerOffers(q: Paired, max: real, median: bool, v: Float) {
    v == (if median then q.median else q.primary) && Within(max, v) && (q.marked || q.median != Num(0.0))
  }

  // Where higher is better each value is reported when it is above zero.
  predicate HigherOffers(q: Paired, max: real, median: bool, v: Float) {
    v == (if median then q.median else q.primary) && Within(max, v) && v.value > 0.0
  }

  predicate FramesOffers(r: RemoteFx, field: Field, v: Float) {
    match field
    case Fps => HigherOffers(r.fps, 240.0, false, v)
    case FpsP50 => HigherOffers(r.fps, 240.0, true, v)
    case SkipServer => LowerOffers(r.skipServer, 1000000.0, false, v)
    case SkipServerP50 => LowerOffers(r.skipServer, 1000000.0, true, v)
    case SkipNet => LowerOffers(r.skipNet, 1000000.0, false, v)
    case SkipNetP50 => LowerOffers(r.skipNet, 1000000.0, true, v)
    case _ => false
  }

  predicate QualityOffers(r: RemoteFx, field: Field, v: Float) {
    match field
    case Encode => LowerOffers(r.encode, 60000.0, false, v)
    case EncodeP50 => LowerOffers(r.encode, 60000.0, true, v)
    case Quality => HigherOffers(r.quality, 100.0, false, v)
    case QualityP50 => HigherOffers(r.quality, 100.0, true, v)
    case _ => false
  }

  predicate NetworkOffers(r: RemoteFx, field: Field, v: Float) {
    match field
    case Rtt => LowerOffers(r.rtt, 60000.0, false, v)
    case RttP50 => LowerOffers(r.rtt, 60000.0, true, v)
    case Loss => LowerOffers(r.loss, 100.0, false, v)
    case LossP50 => LowerOffers(r.loss, 100.0, true, v)
    case _ => false
  }

  predicate SessionsOffers(s: Sessions, field: Field, v: Float) {
    match field
    case SessionsTotal => v == Num(s.total as real)
    case SessionsActive => v == Num(s.active as real)
    case SessionsDisconnected => v == Num(s.disconnected as real)
    case SessionsMax => v == Num(s.max as real) && s.max > 0
    case _ => false
  }

  // What a result has to say about a field.
  predicate Offers(p: Option<Snapshot>, s: Option<Sessions>, field: Field, v: Float) {
    || (p.Some? &&
        (|| HostOffers(p.value.host, field, v)
         || ActivityOffers(p.value.activity, field, v)
         || (p.value.rfx.available &&
             (FramesOffers(p.value.rfx, field, v) || QualityOffers(p.value.rfx, field, v) ||
              NetworkOffers(p.value.rfx, field, v)))))
    || (s.Some? && SessionsOffers(s.value, field, v))
  }

  lemma PutHas(out: seq<Sample>, wanted: bool, field: Field, value: Float, f: Field, v: Float)
    ensures Sample(f, v) in Put(out, true, wanted, field, value) <==>
      Sample(f, v) in out || (wanted && Admitted(field, value) && f == field && v == value)
  {
  }

  lemma HostLoadHas(out: seq<Sample>, h: Host, f: Field, v: Float)
    ensures Sample(f, v) in PutLoad(out, true, h) <==>
      Sample(f, v) in out || (LoadField(f) && HostOffers(h, f, v))
  {
    var out1 := Put(out, true, true, CpuPct, h.cpuPct);
    var out2 := Put(out1, true, true, CpuP95, h.cpuP95);
    var out3 := Put(out2, true, true, MemAvail, h.memAvail);
    var out4 := Put(out3, true, true, MemTotal, h.memTotal);
    var out5 := Put(out4, true, true, Pages, h.pages);
    var out6 := Put(out5, true, true, DiskQueue, h.diskQueue);
    PutHas(out, true, CpuPct, h.cpuPct, f, v);
    PutHas(out1, true, CpuP95, h.cpuP95, f, v);
    PutHas(out2, true, MemAvail, h.memAvail, f, v);
    PutHas(out3, true, MemTotal, h.memTotal, f, v);
    PutHas(out4, true, Pages, h.pages, f, v);
    PutHas(out5, true, DiskQueue, h.diskQueue, f, v);
    PutHas(out6, true, TcpRetrans, h.tcpRetrans, f, v);
  }

  predicate LoadField(f: Field) {
    f.CpuPct? || f.CpuP95? || f.MemAvail? || f.MemTotal? || f.Pages? || f.DiskQueue? || f.TcpRetrans?
  }

  predicate DelayField(f: Field) {
    f.DelayP50? || f.DelayP95? || f.DelayMax?
  }

  lemma DelaysHas(out: seq<Sample>, h: Host, f: Field, v: Float)
    ensures Sample(f, v) in PutDelays(out, true, h) <==>
      Sample(f, v) in out || (DelayField(f) && HostOffers(h, f, v))
  {
    var out1 := Put(out, true, HasP50(h.delayMarked, h.delayP50), DelayP50, h.delayP50);
    PutHas(out, HasP50(h.delayMarked, h.delayP50), DelayP50, h.delayP50, f, v);
    PairHas(out1, true, DelayP95, h.delayP95, true, DelayMax, h.delayMax, f, v);
  }

  lemma HostHas(out: seq<Sample>, h: Host, f: Field, v: Float)
    ensures Sample(f, v) in PutHost(out, true, h) <==> Sample(f, v) in out || HostOffers(h, f, v)
  {
    HostLoadHas(out, h, f, v);
    DelaysHas(PutLoad(out, true, h), h, f, v);
    PairHas(PutDelays(PutLoad(out, true, h), true, h), h.sessionCpuP95 != ZERO, SessionCpuP95, h.sessionCpuP95,
            h.sessionMemP95 != ZERO, SessionMemP95, h.sessionMemP95, f, v);
  }

  lemma ActivityHas(out: seq<Sample>, a: Activity, f: Field, v: Float)
    ensures Sample(f, v) in PutActivity(out, true, a) <==> Sample(f, v) in out || ActivityOffers(a, f, v)
  {
    var out1 := Put(out, true, a.collected, CpuObserved, Num(a.observed as real));
    var out2 := Put(out1, true, a.collected, CpuGe5, Num(a.ge5 as real));
    PutHas(out, a.collected, CpuObserved, Num(a.observed as real), f, v);
    PutHas(out1, a.collected, CpuGe5, Num(a.ge5 as real), f, v);
    PutHas(out2, a.collected, CpuGe20, Num(a.ge20 as real), f, v);
  }

  lemma PairHas(out: seq<Sample>, first: bool, field: Field, value: Float, second: bool, median: Field, other: Float,
                f: Field, v: Float)
    ensures Sample(f, v) in Put(Put(out, true, first, field, value), true, second, median, other) <==>
      || Sample(f, v) in out
      || (first && Admitted(field, value) && f == field && v == value)
      || (second && Admitted(median, other) && f == median && v == other)
  {
    PutHas(out, first, field, value, f, v);
    PutHas(Put(out, true, first, field, value), second, median, other, f, v);
  }

  lemma FpsHas(out: seq<Sample>, r: RemoteFx, f: Field, v: Float)
    ensures Sample(f, v) in PutHigher(out, true, Fps, FpsP50, r.fps) <==>
      Sample(f, v) in out ||
      ((f == Fps || f == FpsP50) && HigherOffers(r.fps, 240.0, f == FpsP50, v))
  {
    PairHas(out, Above(r.fps.primary, ZERO), Fps, r.fps.primary,
            HasP50(r.fps.marked, r.fps.median) && Above(r.fps.median, ZERO), FpsP50, r.fps.median, f, v);
  }

  lemma SkipServerHas(out: seq<Sample>, r: RemoteFx, f: Field, v: Float)
    ensures Sample(f, v) in PutLower(out, true, SkipServer, SkipServerP50, r.skipServer) <==>
      Sample(f, v) in out ||
      ((f == SkipServer || f == SkipServerP50) && LowerOffers(r.skipServer, 1000000.0, f == SkipServerP50, v))
  {
    var collected := HasP50(r.skipServer.marked, r.skipServer.median);
    PairHas(out, collected, SkipServer, r.skipServer.primary, collected, SkipServerP50, r.skipServer.median, f, v);
  }

  lemma SkipNetHas(out: seq<Sample>, r: RemoteFx, f: Field, v: Float)
    ensures Sample(f, v) in PutLower(out, true, SkipNet, SkipNetP50, r.skipNet) <==>
      Sample(f, v) in out ||
      ((f == SkipNet || f == SkipNetP50) && LowerOffers(r.skipNet, 1000000.0, f == SkipNetP50, v))
  {
    var collected := HasP50(r.skipNet.marked, r.skipNet.median);
    PairHas(out, collected, SkipNet, r.skipNet.primary, collected, SkipNetP50, r.skipNet.median, f, v);
  }

  lemma EncodeHas(out: seq<Sample>, r: RemoteFx, f: Field, v: Float)
    ensures Sample(f, v) in PutLower(out, true, Encode, EncodeP50, r.encode) <==>
      Sample(f, v) in out ||
      ((f == Encode || f == EncodeP50) && LowerOffers(r.encode, 60000.0, f == EncodeP50, v))
  {
    var collected := HasP50(r.encode.marked, r.encode.median);
    PairHas(out, collected, Encode, r.encode.primary, collected, EncodeP50, r.encode.median, f, v);
  }

  lemma FrameQualityHas(out: seq<Sample>, r: RemoteFx, f: Field, v: Float)
    ensures Sample(f, v) in PutHigher(out, true, Quality, QualityP50, r.quality) <==>
      Sample(f, v) in out ||
      ((f == Quality || f == QualityP50) && HigherOffers(r.quality, 100.0, f == QualityP50, v))
  {
    PairHas(out, Above(r.quality.primary, ZERO), Quality, r.quality.primary,
            HasP50(r.quality.marked, r.quality.median) && Above(r.quality.median, ZERO), QualityP50,
            r.quality.median, f, v);
  }

  lemma RttHas(out: seq<Sample>, r: RemoteFx, f: Field, v: Float)
    ensures Sample(f, v) in PutLower(out, true, Rtt, RttP50, r.rtt) <==>
      Sample(f, v) in out ||
      ((f == Rtt || f == RttP50) && LowerOffers(r.rtt, 60000.0, f == RttP50, v))
  {
    var collected := HasP50(r.rtt.marked, r.rtt.median);
    PairHas(out, collected, Rtt, r.rtt.primary, collected, RttP50, r.rtt.median, f, v);
  }

  lemma LossHas(out: seq<Sample>, r: RemoteFx, f: Field, v: Float)
    ensures Sample(f, v) in PutLower(out, true, Loss, LossP50, r.loss) <==>
      Sample(f, v) in out ||
      ((f == Loss || f == LossP50) && LowerOffers(r.loss, 100.0, f == LossP50, v))
  {
    var collected := HasP50(r.loss.marked, r.loss.median);
    PairHas(out, collected, Loss, r.loss.primary, collected, LossP50, r.loss.median, f, v);
  }

  lemma FramesHas(out: seq<Sample>, r: RemoteFx, f: Field, v: Float)
    ensures Sample(f, v) in PutFrames(out, true, r) <==> Sample(f, v) in out || FramesOffers(r, f, v)
  {
    var out1 := PutHigher(out, true, Fps, FpsP50, r.fps);
    FpsHas(out, r, f, v);
    SkipServerHas(out1, r, f, v);
    SkipNetHas(PutLower(out1, true, SkipServer, SkipServerP50, r.skipServer), r, f, v);
  }

  lemma QualityHas(out: seq<Sample>, r: RemoteFx, f: Field, v: Float)
    ensures Sample(f, v) in PutQuality(out, true, r) <==> Sample(f, v) in out || QualityOffers(r, f, v)
  {
    EncodeHas(out, r, f, v);
    FrameQualityHas(PutLower(out, true, Encode, EncodeP50, r.encode), r, f, v);
  }

  lemma NetworkHas(out: seq<Sample>, r: RemoteFx, f: Field, v: Float)
    ensures Sample(f, v) in PutNetwork(out, true, r) <==> Sample(f, v) in out || NetworkOffers(r, f, v)
  {
    RttHas(out, r, f, v);
    LossHas(PutLower(out, true, Rtt, RttP50, r.rtt), r, f, v);
  }

  lemma SessionsHas(out: seq<Sample>, s: Sessions, f: Field, v: Float)
    ensures Sample(f, v) in PutSessions(out, true, s) <==> Sample(f, v) in out || SessionsOffers(s, f, v)
  {
    var out1 := Put(out, true, true, SessionsTotal, Num(s.total as real));
    var out2 := Put(out1, true, true, SessionsActive, Num(s.active as real));
    var out3 := Put(out2, true, true, SessionsDisconnected, Num(s.disconnected as real));
    PutHas(out, true, SessionsTotal, Num(s.total as real), f, v);
    PutHas(out1, true, SessionsActive, Num(s.active as real), f, v);
    PutHas(out2, true, SessionsDisconnected, Num(s.disconnected as real), f, v);
    PutHas(out3, s.max > 0, SessionsMax, Num(s.max as real), f, v);
  }

  lemma RemoteFxHas(out: seq<Sample>, r: RemoteFx, f: Field, v: Float)
    ensures Sample(f, v) in PutRemoteFx(out, true, r) <==>
      Sample(f, v) in out ||
      (r.available && (FramesOffers(r, f, v) || QualityOffers(r, f, v) || NetworkOffers(r, f, v)))
  {
    FramesHas(out, r, f, v);
    QualityHas(PutFrames(out, true, r), r, f, v);
    NetworkHas(PutQuality(PutFrames(out, true, r), true, r), r, f, v);
  }

  // The samples of a result are exactly what it has to say about each field.
  lemma SamplesExactly(p: Option<Snapshot>, s: Option<Sessions>, f: Field, v: Float)
    ensures Sample(f, v) in Samples(true, p, s) <==> Offers(p, s, f, v)
  {
    var out: seq<Sample> := [];
    if p.Some? {
      HostHas([], p.value.host, f, v);
      ActivityHas(PutHost([], true, p.value.host), p.value.activity, f, v);
      out := PutActivity(PutHost([], true, p.value.host), true, p.value.activity);
      RemoteFxHas(out, p.value.rfx, f, v);
      out := PutRemoteFx(out, true, p.value.rfx);
    }
    if s.Some? {
      SessionsHas(out, s.value, f, v);
    }
  }

  // ------------------------------------------------------------ each field once

  // The place of a field in the list.
  function Place(field: Field): nat {
    match field
    case CpuPct => 0 case CpuP95 => 1 case MemAvail => 2 case MemTotal => 3 case Pages => 4
    case DiskQueue => 5 case TcpRetrans => 6 case DelayP50 => 7 case DelayP95 => 8 case DelayMax => 9
    case SessionCpuP95 => 10 case SessionMemP95 => 11 case CpuObserved => 12 case CpuGe5 => 13 case CpuGe20 => 14
    case Fps => 15 case FpsP50 => 16 case SkipServer => 17 case SkipServerP50 => 18
    case SkipNet => 19 case SkipNetP50 => 20 case Encode => 21 case EncodeP50 => 22
    case Quality => 23 case QualityP50 => 24 case Rtt => 25 case RttP50 => 26 case Loss => 27 case LossP50 => 28
    case SessionsTotal => 29 case SessionsActive => 30 case SessionsDisconnected => 31 case SessionsMax => 32
  }

  // In the order of the fields, all of them before the given place.
  predicate InOrder(out: seq<Sample>, upto: int) {
    && (forall i, j :: 0 <= i < j < |out| ==> Place(out[i].field) < Place(out[j].field))
    && (forall i :: 0 <= i < |out| ==> Place(out[i].field) < upto)
  }

  // What every sample offered at its place keeps.
  ghost predicate KeptByPuts(P: (seq<Sample>, int) -> bool) {
    forall out, wanted, field, value ::
      P(out, Place(field)) ==> P(Put(out, true, wanted, field, value), Place(field) + 1)
  }

  lemma PutsKeepOrder()
    ensures KeptByPuts((out, upto) => InOrder(out, upto))
  {
  }

  lemma LoadKeeps(P: (seq<Sample>, int) -> bool, h: Host)
    requires KeptByPuts(P) && P([], 0)
    ensures P(PutLoad([], true, h), 7)
  {
  }

  lemma HostKeeps(P: (seq<Sample>, int) -> bool, h: Host)
    requires KeptByPuts(P) && P([], 0)
    ensures P(PutHost([], true, h), 12)
  {
    LoadKeeps(P, h);
  }

  lemma ActivityKeeps(P: (seq<Sample>, int) -> bool, out: seq<Sample>, a: Activity)
    requires KeptByPuts(P) && P(out, 12)
    ensures P(PutActivity(out, true, a), 15)
  {
  }

  lemma PairKeeps(P: (seq<Sample>, int) -> bool, out: seq<Sample>, field: Field, median: Field, q: Paired)
    requires KeptByPuts(P) && P(out, Place(field)) && Place(median) == Place(field) + 1
    ensures P(PutLower(out, true, field, median, q), Place(median) + 1)
    ensures P(PutHigher(out, true, field, median, q), Place(median) + 1)
  {
  }

  lemma FramesKeep(P: (seq<Sample>, int) -> bool, out: seq<Sample>, r: RemoteFx)
    requires KeptByPuts(P) && P(out, 15)
    ensures P(PutFrames(out, true, r), 21)
  {
    var out1 := PutHigher(out, true, Fps, FpsP50, r.fps);
    PairKeeps(P, out, Fps, FpsP50, r.fps);
    PairKeeps(P, out1, SkipServer, SkipServerP50, r.skipServer);
    PairKeeps(P, PutLower(out1, true, SkipServer, SkipServerP50, r.skipServer), SkipNet, SkipNetP50, r.skipNet);
  }

  lemma QualityKeeps(P: (seq<Sample>, int) -> bool, out: seq<Sample>, r: RemoteFx)
    requires KeptByPuts(P) && P(out, 21)
    ensures P(PutQuality(out, true, r), 25)
  {
    PairKeeps(P, out, Encode, EncodeP50, r.encode);
    PairKeeps(P, PutLower(out, true, Encode, EncodeP50, r.encode), Quality, QualityP50, r.quality);
  }

  lemma NetworkKeeps(P: (seq<Sample>, int) -> bool, out: seq<Sample>, r: RemoteFx)
    requires KeptByPuts(P) && P(out, 25)
    ensures P(PutNetwork(out, true, r), 29)
  {
    PairKeeps(P, out, Rtt, RttP50, r.rtt);
    PairKeeps(P, PutLower(out, true, Rtt, RttP50, r.rtt), Loss, LossP50, r.loss);
  }

  lemma RemoteFxKeeps(P: (seq<Sample>, int) -> bool, out: seq<Sample>, r: RemoteFx)
    requires KeptByPuts(P) && P(out, 15) && r.available
    ensures P(PutRemoteFx(out, true, r), 29)
  {
    FramesKeep(P, out, r);
    QualityKeeps(P, PutFrames(out, true, r), r);
    NetworkKeeps(P, PutQuality(PutFrames(out, true, r), true, r), r);
  }

  lemma SessionsKeep(P: (seq<Sample>, int) -> bool, out: seq<Sample>, s: Sessions)
    requires KeptByPuts(P) && P(out, 29)
    ensures P(PutSessions(out, true, s), 33)
  {
  }

  lemma SnapshotKeeps(P: (seq<Sample>, int) -> bool, p: Snapshot)
    requires KeptByPuts(P) && P([], 0)
    ensures P(Samples(true, Some(p), None), 29) || P(Samples(true, Some(p), None), 15)
  {
    HostKeeps(P, p.host);
    ActivityKeeps(P, PutHost([], true, p.host), p.activity);
    if p.rfx.available {
      RemoteFxKeeps(P, PutActivity(PutHost([], true, p.host), true, p.activity), p.rfx);
    }
  }

  // No field occurs twice: the list follows the order of the fields.
  lemma SamplesInOrder(p: Option<Snapshot>, s: Option<Sessions>)
    ensures forall i, j :: 0 <= i < j < |Samples(true, p, s)| ==>
              Place(Samples(true, p, s)[i].field) < Place(Samples(true, p, s)[j].field)
  {
    var P := (out, upto) => InOrder(out, upto);
    PutsKeepOrder();
    if p.Some? {
      SnapshotKeeps(P, p.value);
    }
    if s.Some? {
      SessionsKeep(P, Samples(true, p, None), s.value);
    }
    assert P(Samples(true, p, s), 33) || P(Samples(true, p, s), 29);
  }

  class SampleSink {
    var out: seq<Sample>

    constructor ()
      ensures out == []
    {
      out := [];
    }

    method Add(field: Field, value: Float)
      modifies this
      ensures out == Put(old(out), true, true, field, value)
    {
      match field {
        case SessionsTotal | SessionsActive | SessionsDisconnected | SessionsMax =>
          out := out + [Sample(field, value)];
        case _ =>
          var max := Max(field);
          if max.Some? && Within(max.value, value) {
            out := out + [Sample(field, value)];
          }
      }
    }

    method AddHost(h: Host)
      modifies this
      ensures out == PutHost(old(out), true, h)
    {
      Add(CpuPct, h.cpuPct);
      Add(CpuP95, h.cpuP95);
      Add(MemAvail, h.memAvail);
      Add(MemTotal, h.memTotal);
      Add(Pages, h.pages);
      Add(DiskQueue, h.diskQueue);
      Add(TcpRetrans, h.tcpRetrans);
      if HasP50(h.delayMarked, h.delayP50) {
        Add(DelayP50, h.delayP50);
      }
      Add(DelayP95, h.delayP95);
      Add(DelayMax, h.delayMax);
      if h.sessionCpuP95 != ZERO {
        Add(SessionCpuP95, h.sessionCpuP95);
      }
      if h.sessionMemP95 != ZERO {
        Add(SessionMemP95, h.sessionMemP95);
      }
    }

    method AddActivity(a: Activity)
      modifies this
      ensures out == PutActivity(old(out), true, a)
    {
      if a.collected {
        Add(CpuObserved, Num(a.observed as real));
        Add(CpuGe5, Num(a.ge5 as real));
        Add(CpuGe20, Num(a.ge20 as real));
      }
    }

    method AddLower(field: Field, median: Field, q: Paired)
      modifies this
      ensures out == PutLower(old(out), true, field, median, q)
    {
      if HasP50(q.marked, q.median) {
        Add(field, q.primary);
        Add(median, q.median);
      }
    }

    method AddHigher(field: Field, median: Field, q: Paired)
      modifies this
      ensures out == PutHigher(old(out), true, field, median, q)
    {
      if Above(q.primary, ZERO) {
        Add(field, q.primary);
      }
      if HasP50(q.marked, q.median) && Above(q.median, ZERO) {
        Add(median, q.median);
      }
    }

    method AddRemoteFx(r: RemoteFx)
      modifies this
      ensures out == PutRemoteFx(old(out), true, r)
    {
      if !r.available {
        return;
      }
      AddHigher(Fps, FpsP50, r.fps);
      AddLower(SkipServer, SkipServerP50, r.skipServer);
      AddLower(SkipNet, SkipNetP50, r.skipNet);
      AddLower(Encode, EncodeP50, r.encode);
      AddHigher(Quality, QualityP50, r.quality);
      AddLower(Rtt, RttP50, r.rtt);
      AddLower(Loss, LossP50, r.loss);
    }

    method AddSessions(s: Sessions)
      modifies this
      ensures out == PutSessions(old(out), true, s)
    {
      Add(SessionsTotal, Num(s.total as real));
      Add(SessionsActive, Num(s.active as real));
      Add(SessionsDisconnected, Num(s.disconnected as real));
      if s.max > 0 {
        Add(SessionsMax, Num(s.max as real));
      }
    }
  }

  method CheckResultSamples(performance: Option<Snapshot>, sessions: Option<Sessions>) returns (out: seq<Sample>)
    ensures out == Samples(true, performance, sessions)
    ensures forall field, v :: Sample(field, v) in out <==> Offers(performance, sessions, field, v)
    ensures forall i, j :: 0 <= i < j < |out| ==> Place(out[i].field) < Place(out[j].field)
  {
    SamplesInOrder(performance, sessions);
    forall field, v
      ensures Sample(field, v) in Samples(true, performance, sessions) <==> Offers(performance, sessions, field, v)
    {
      SamplesExactly(performance, sessions, field, v);
    }
    var sink := new SampleSink();
    if performance.Some? {
      sink.AddHost(performance.value.host);
      sink.AddActivity(performance.value.activity);
      sink.AddRemoteFx(performance.value.rfx);
    }
    if sessions.Some? {
      sink.AddSessions(sessions.value);
    }
    out := sink.out;
  }
}
