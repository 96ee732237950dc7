/**
 Removal specs (internal/engine/engine.go): validation before a remux, and
 verification of its output.
 */
module Removal {
  import opened Wrappers
  import opened Text
  import opened Streams

  /** ffprobe stream indexes to remove. */
  datatype Spec = Spec(audio: seq<int>, subs: seq<int>)

  ghost predicate DistinctIndexes(streams: seq<Stream>) {
    forall i, j | 0 <= i < j < |streams| :: streams[i].index != streams[j].index
  }

  /** The streams whose index is not listed, in order. */
  function Kept(streams: seq<Stream>, removed: seq<int>): seq<Stream> {
    if streams == [] then []
    else
      var last := streams[|streams| - 1];
      Kept(streams[..|streams| - 1], removed) + if last.index in removed then [] else [last]
  }

  function RemovedOf(spec: Spec, kind: Kind): seq<int> {
    if kind == Audio then spec.audio else if kind == Subtitle then spec.subs else []
  }

  // ---- sort and compact ----

  ghost predicate Increasing(s: seq<int>) {
    forall i, j | 0 <= i < j < |s| :: s[i] < s[j]
  }

  function Insert(s: seq<int>, x: int): seq<int> {
    if s == [] then [x]
    else if x < s[0] then [x] + s
    else if x == s[0] then s
    else [s[0]] + Insert(s[1..], x)
  }

  /** slices.Compact(slices.Sorted(...)). */
  function SortedCompact(s: seq<int>): seq<int> {
    if s == [] then [] else Insert(SortedCompact(s[1..]), s[0])
  }

  lemma ConsIncreasing(x: int, s: seq<int>)
    requires Increasing(s) && (s != [] ==> x < s[0])
    ensures Increasing([x] + s)
  {
    forall i, j | 0 <= i < j < |[x] + s| ensures ([x] + s)[i] < ([x] + s)[j] {
      if i > 0 {
        assert s[i - 1] < s[j - 1];
      } else if j > 1 {
        assert s[0] < s[j - 1];
      }
    }
  }

  lemma {:induction false} InsertMembers(s: seq<int>, x: int, y: int)
    ensures y in Insert(s, x) <==> y == x || y in s
  {
    if s != [] {
      assert s == [s[0]] + s[1..];
      InsertMembers(s[1..], x, y);
    }
  }

  lemma {:induction false} InsertIncreases(s: seq<int>, x: int)
    requires Increasing(s)
    ensures Increasing(Insert(s, x)) && Insert(s, x) != []
    ensures Insert(s, x)[0] == x || (s != [] && Insert(s, x)[0] == s[0])
  {
    if s == [] {
    } else if x < s[0] {
      ConsIncreasing(x, s);
    } else if x > s[0] {
      assert forall i, j | 0 <= i < j < |s[1..]| :: s[1..][i] == s[i + 1] && s[1..][j] == s[j + 1];
      InsertIncreases(s[1..], x);
      ConsIncreasing(s[0], Insert(s[1..], x));
    }
  }

  /** Sorting and compacting gives the one strictly increasing list of the same indexes. */
  lemma {:induction false} CompactIsSet(s: seq<int>)
    ensures Increasing(SortedCompact(s)) && forall y :: y in SortedCompact(s) <==> y in s
  {
    if s != [] {
      CompactIsSet(s[1..]);
      InsertIncreases(SortedCompact(s[1..]), s[0]);
      assert s == [s[0]] + s[1..];
      forall y ensures y in SortedCompact(s) <==> y in s {
        InsertMembers(SortedCompact(s[1..]), s[0], y);
      }
    }
  }

  function Compacted(spec: Spec): Spec {
    Spec(SortedCompact(spec.audio), SortedCompact(spec.subs))
  }

  // ---- validate ----

  /** The map `byIdx`: a repeated index keeps its last stream. */
  function ByIndex(streams: seq<Stream>): map<int, Stream> {
    if streams == [] then map[]
    else ByIndex(streams[..|streams| - 1])[streams[|streams| - 1].index := streams[|streams| - 1]]
  }

  predicate AllOfKind(streams: seq<Stream>, indexes: seq<int>, kind: Kind) {
    forall i | i in indexes :: i in ByIndex(streams) && ByIndex(streams)[i].kind == kind
  }

  predicate ValidSpec(streams: seq<Stream>, spec: Spec, allowLastAudio: bool) {
    && AllOfKind(streams, spec.audio, Audio)
    && AllOfKind(streams, spec.subs, Subtitle)
    && (|spec.audio| < |OfType(streams, Audio)| || OfType(streams, Audio) == [] || allowLastAudio)
    && OfType(streams, Video) != []
  }

  datatype ValidateError = NotAudio(index: int) | NotSubtitle(index: int) | LastAudio | NoVideo

  method IndexStreams(streams: seq<Stream>) returns (byIdx: map<int, Stream>)
    ensures byIdx == ByIndex(streams)
  {
    byIdx := map[];
    for i := 0 to |streams|
      invariant byIdx == ByIndex(streams[..i])
    {
      assert streams[..i + 1][..i] == streams[..i];
      byIdx := byIdx[streams[i].index := streams[i]];
    }
    assert streams[..|streams|] == streams;
  }

  /** Some stream of this kind has the index. */
  predicate IsStream(streams: seq<Stream>, index: int, kind: Kind) {
    exists s :: s in streams && s.index == index && s.kind == kind
  }

  lemma StreamsByIndex(streams: seq<Stream>)
    ensures forall i, kind | i in ByIndex(streams) && ByIndex(streams)[i].kind == kind :: IsStream(streams, i, kind)
    ensures DistinctIndexes(streams) ==> forall i, kind | IsStream(streams, i, kind) ::
              i in ByIndex(streams) && ByIndex(streams)[i].kind == kind
  {
    forall i, kind | i in ByIndex(streams) && ByIndex(streams)[i].kind == kind ensures IsStream(streams, i, kind) {
      ByIndexFinds(streams, i);
      assert ByIndex(streams)[i] in streams;
    }
    if DistinctIndexes(streams) {
      forall i, kind | IsStream(streams, i, kind) ensures i in ByIndex(streams) && ByIndex(streams)[i].kind == kind {
        var s :| s in streams && s.index == i && s.kind == kind;
        var k :| 0 <= k < |streams| && streams[k] == s;
        IndexFound(streams, k);
      }
    }
  }

  method Validate(res: ProbeResult, spec: Spec, allowLastAudio: bool) returns (err: Option<ValidateError>)
    ensures err.None? <==> ValidSpec(res.streams, spec, allowLastAudio)
    ensures err.None? ==>
              && (forall i | i in spec.audio :: IsStream(res.streams, i, Audio))
              && (forall i | i in spec.subs :: IsStream(res.streams, i, Subtitle))
              && (OfType(res.streams, Audio) != [] && !allowLastAudio ==> |spec.audio| < |OfType(res.streams, Audio)|)
              && OfType(res.streams, Video) != []
    ensures DistinctIndexes(res.streams) && err.Some? ==>
              match err.value
              case NotAudio(i) => i in spec.audio && !IsStream(res.streams, i, Audio)
              case NotSubtitle(i) => i in spec.subs && !IsStream(res.streams, i, Subtitle)
              case LastAudio => !allowLastAudio && 0 < |OfType(res.streams, Audio)| <= |spec.audio|
              case NoVideo => OfType(res.streams, Video) == []
  {
    StreamsByIndex(res.streams);
    var byIdx := IndexStreams(res.streams);
    for k := 0 to |spec.audio|
      invariant forall j | 0 <= j < k :: spec.audio[j] in byIdx && byIdx[spec.audio[j]].kind == Audio
    {
      if spec.audio[k] !in byIdx || byIdx[spec.audio[k]].kind != Audio {
        return Some(NotAudio(spec.audio[k]));
      }
    }
    for k := 0 to |spec.subs|
      invariant forall j | 0 <= j < k :: spec.subs[j] in byIdx && byIdx[spec.subs[j]].kind == Subtitle
    {
      if spec.subs[k] !in byIdx || byIdx[spec.subs[k]].kind != Subtitle {
        return Some(NotSubtitle(spec.subs[k]));
      }
    }
    var audio := res.StreamsOfType(Audio);
    if |spec.audio| >= |audio| && |audio| > 0 && !allowLastAudio {
      return Some(LastAudio);
    }
    var video := res.StreamsOfType(Video);
    if |video| == 0 {
      return Some(NoVideo);
    }
    return None;
  }

  // ---- verify ----

  predicate CountsMatch(before: seq<Stream>, after: seq<Stream>, spec: Spec) {
    && |OfType(after, Video)| == |OfType(before, Video)|
    && |OfType(after, Audio)| == |OfType(before, Audio)| - |spec.audio|
    && |OfType(after, Subtitle)| == |OfType(before, Subtitle)| - |spec.subs|
  }

  // ---- duration and size, over real numbers without rounding ----

  function Max(a: int, b: int): int {
    if a < b then b else a
  }

  /** One percent of the duration, but at least two seconds and at most sixty. */
  function Tolerance(duration: real): real {
    if duration * 0.01 < 2.0 then 2.0 else if duration * 0.01 > 60.0 then 60.0 else duration * 0.01
  }

  predicate DurationsAgree(before: real, after: real) {
    before > 0.0 && after > 0.0 ==> -Tolerance(before) <= before - after <= Tolerance(before)
  }

  /** int64(x): towards zero. */
  function Truncated(x: real): int {
    if x >= 0.0 then x.Floor else -(-x).Floor
  }

  /** x / 10 of an int64. */
  function Tenth(x: int): int {
    if x >= 0 then x / 10 else -(-x / 10)
  }

  function SizeFloor(size: int, removed: int): int {
    Max(Truncated((size - removed) as real * 0.7), Tenth(size))
  }

  predicate RateKnown(s: Stream, duration: real) {
    s.bitRate > 0 && duration > 0.0
  }

  function Bytes(s: Stream, duration: real): int {
    Truncated(s.bitRate as real / 8.0 * duration)
  }

  /** What the removed streams of known bit rate take up. */
  function Estimate(streams: seq<Stream>, duration: real, removed: seq<int>): int {
    if streams == [] then 0
    else
      var last := streams[|streams| - 1];
      Estimate(streams[..|streams| - 1], duration, removed)
      + if last.index in removed && RateKnown(last, duration) then Bytes(last, duration) else 0
  }

  predicate RatesKnown(streams: seq<Stream>, duration: real, removed: seq<int>) {
    forall s | s in streams && s.index in removed :: RateKnown(s, duration)
  }

  function RemovedBytes(before: Report, removed: seq<int>): int {
    if RatesKnown(before.streams, before.duration, removed) then Estimate(before.streams, before.duration, removed)
    else before.size
  }

  predicate Plausible(before: Report, after: Report, spec: Spec) {
    && DurationsAgree(before.duration, after.duration)
    && after.size >= SizeFloor(before.size, RemovedBytes(before, spec.audio + spec.subs))
  }

  method EstimateRemoved(res: ProbeResult, removed: seq<int>) returns (sum: int)
    ensures sum == Estimate(res.streams, res.duration, removed)
  {
    sum := 0;
    for i := 0 to |res.streams|
      invariant sum == Estimate(res.streams[..i], res.duration, removed)
    {
      assert res.streams[..i + 1][..i] == res.streams[..i];
      var s := res.streams[i];
      if s.index in removed && s.bitRate > 0 && res.duration > 0.0 {
        sum := sum + Truncated(s.bitRate as real / 8.0 * res.duration);
      }
    }
    assert res.streams[..|res.streams|] == res.streams;
  }

  method RemovedBitratesKnown(res: ProbeResult, removed: seq<int>) returns (known: bool)
    ensures known <==> RatesKnown(res.streams, res.duration, removed)
  {
    for i := 0 to |res.streams|
      invariant forall k | 0 <= k < i && res.streams[k].index in removed :: RateKnown(res.streams[k], res.duration)
    {
      var s := res.streams[i];
      if s.index in removed && (s.bitRate <= 0 || res.duration <= 0.0) {
        return false;
      }
    }
    return true;
  }

  /** The checks that follow the counts. */
  method CheckDuration(before: ProbeResult, after: ProbeResult) returns (ok: bool)
    ensures ok <==> DurationsAgree(before.duration, after.duration)
  {
    if before.duration > 0.0 && after.duration > 0.0 {
      var diff := before.duration - after.duration;
      if diff < 0.0 {
        diff := -diff;
      }
      var tolerance := before.duration * 0.01;
      if tolerance < 2.0 {
        tolerance := 2.0;
      }
      if tolerance > 60.0 {
        tolerance := 60.0;
      }
      return diff <= tolerance;
    }
    return true;
  }

  method CheckSize(before: ProbeResult, after: ProbeResult, spec: Spec) returns (ok: bool)
    ensures ok <==> after.size >= SizeFloor(before.size, RemovedBytes(before.View(), spec.audio + spec.subs))
  {
    var removed := EstimateRemoved(before, spec.audio + spec.subs);
    var known := RemovedBitratesKnown(before, spec.audio + spec.subs);
    if !known {
      removed := before.size;
    }
    var floor := Truncated((before.size - removed) as real * 0.7);
    if floor < Tenth(before.size) {
      floor := Tenth(before.size);
    }
    return after.size >= floor;
  }

  datatype VerifyError = VideoCount | AudioCount | SubtitleCount | Drifted | TooSmall

  predicate Passes(before: Report, after: Report, spec: Spec) {
    CountsMatch(before.streams, after.streams, spec) && Plausible(before, after, spec)
  }

  method Verify(before: ProbeResult, after: ProbeResult, spec: Spec) returns (err: Option<VerifyError>)
    ensures err.None? <==> Passes(before.View(), after.View(), spec)
    ensures err == Some(VideoCount) <==> |OfType(after.streams, Video)| != |OfType(before.streams, Video)|
    ensures err.None? || err in {Some(Drifted), Some(TooSmall)} ==>
              && |OfType(after.streams, Audio)| + |spec.audio| == |OfType(before.streams, Audio)|
              && |OfType(after.streams, Subtitle)| + |spec.subs| == |OfType(before.streams, Subtitle)|
  {
    var inAudio := before.StreamsOfType(Audio);
    var inSubs := before.StreamsOfType(Subtitle);
    var inVideo := before.StreamsOfType(Video);
    var wantAudio := |inAudio| - |spec.audio|;
    var wantSubs := |inSubs| - |spec.subs|;
    var outVideo := after.StreamsOfType(Video);
    if |outVideo| != |inVideo| {
      return Some(VideoCount);
    }
    var outAudio := after.StreamsOfType(Audio);
    if |outAudio| != wantAudio {
      return Some(AudioCount);
    }
    var outSubs := after.StreamsOfType(Subtitle);
    if |outSubs| != wantSubs {
      return Some(SubtitleCount);
    }
    var agree := CheckDuration(before, after);
    if !agree {
      return Some(Drifted);
    }
    var large := CheckSize(before, after, spec);
    return if large then None else Some(TooSmall);
  }

  /** The bit rates, where known, of the streams to be removed. */
  function Rates(streams: seq<Stream>, removed: seq<int>): nat {
    if streams == [] then 0
    else
      var last := streams[|streams| - 1];
      Rates(streams[..|streams| - 1], removed) + if last.index in removed && last.bitRate > 0 then last.bitRate else 0
  }

  function Share(rate: int, duration: real): real {
    rate as real / 8.0 * duration
  }

  lemma SharesAdd(a: int, b: int, duration: real)
    ensures Share(a + b, duration) == Share(a, duration) + Share(b, duration)
  {
    assert (a + b) as real / 8.0 == a as real / 8.0 + b as real / 8.0;
  }

  lemma BytesAreClose(s: Stream, duration: real)
    requires RateKnown(s, duration)
    ensures Share(s.bitRate, duration) - 1.0 <= Bytes(s, duration) as real <= Share(s.bitRate, duration)
  {
    assert s.bitRate as real / 8.0 * duration >= 0.0;
  }

  /** The estimate is the bytes those rates make in this time, but for less than one byte a stream. */
  lemma {:induction false} EstimateIsClose(streams: seq<Stream>, duration: real, removed: seq<int>)
    requires duration > 0.0
    ensures Share(Rates(streams, removed), duration) - |streams| as real
         <= Estimate(streams, duration, removed) as real <= Share(Rates(streams, removed), duration)
  {
    if streams != [] {
      var init, last := streams[..|streams| - 1], streams[|streams| - 1];
      EstimateIsClose(init, duration, removed);
      if last.index in removed && last.bitRate > 0 {
        SharesAdd(Rates(init, removed), last.bitRate, duration);
        BytesAreClose(last, duration);
      }
    }
  }

  lemma {:induction false} NothingEstimated(streams: seq<Stream>, duration: real)
    ensures Estimate(streams, duration, []) == 0
  {
    if streams != [] {
      NothingEstimated(streams[..|streams| - 1], duration);
    }
  }

  lemma DriftIsBounded(before: real, after: real)
    requires DurationsAgree(before, after) && before > 0.0 && after > 0.0
    ensures before - after <= 60.0 && after - before <= 60.0
    ensures before - after <= 2.0 || before - after <= before * 0.01
    ensures after - before <= 2.0 || after - before <= before * 0.01
  {
  }

  /**
   What verify promises of an output it accepts. The duration, if both files have
   one, is off by at most one percent, or two seconds if that is more, and never
   by more than a minute. The size is at least a tenth of the input's, and seven
   tenths of what the estimate of the removed streams leaves, to the byte.
   */
  lemma AcceptedIsPlausible(before: Report, after: Report, spec: Spec)
    requires Passes(before, after, spec)
    ensures before.duration > 0.0 && after.duration > 0.0 ==>
              && before.duration - after.duration <= 60.0 && after.duration - before.duration <= 60.0
              && (before.duration - after.duration <= 2.0 || before.duration - after.duration <= before.duration * 0.01)
              && (after.duration - before.duration <= 2.0 || after.duration - before.duration <= before.duration * 0.01)
    ensures before.size >= 0 ==> 10 * after.size > before.size - 10
    ensures RatesKnown(before.streams, before.duration, spec.audio + spec.subs) ==>
              after.size as real
              > (before.size - Estimate(before.streams, before.duration, spec.audio + spec.subs)) as real * 0.7 - 1.0
  {
  }

  /** And of its streams: there are as many of each media type as a removal of exactly the spec leaves. */
  lemma AcceptedKeepsTheRest(before: Report, after: Report, spec: Spec, allowLastAudio: bool, kind: Kind)
    requires DistinctIndexes(before.streams) && Increasing(spec.audio) && Increasing(spec.subs)
    requires ValidSpec(before.streams, spec, allowLastAudio) && Passes(before, after, spec) && kind.Media()
    ensures |OfType(after.streams, kind)| == |OfType(Kept(before.streams, spec.audio + spec.subs), kind)|
  {
    KeptStreamsCount(before.streams, spec, allowLastAudio);
  }

  lemma {:induction false} EstimateNotNegative(streams: seq<Stream>, duration: real, removed: seq<int>)
    ensures Estimate(streams, duration, removed) >= 0
  {
    if streams != [] {
      EstimateNotNegative(streams[..|streams| - 1], duration, removed);
      var last := streams[|streams| - 1];
      if RateKnown(last, duration) {
        assert last.bitRate as real / 8.0 * duration >= 0.0;
      }
    }
  }

  /**
   The size check never refuses an output that keeps all but what the removed
   streams are estimated to take, unless that leaves less than a tenth of the file.
   */
  lemma RemainderIsLargeEnough(before: Report, removed: seq<int>, size: int)
    requires before.size >= 0 && size >= before.size - RemovedBytes(before, removed) && size >= before.size / 10
    ensures size >= SizeFloor(before.size, RemovedBytes(before, removed))
  {
    EstimateNotNegative(before.streams, before.duration, removed);
    var left := before.size - RemovedBytes(before, removed);
    if left >= 0 {
      assert left as real * 0.7 <= left as real;
    }
  }

  // ---- a validated spec removes exactly what it counts ----

  lemma {:induction false} ByIndexFinds(streams: seq<Stream>, i: int)
    requires i in ByIndex(streams)
    ensures exists k :: 0 <= k < |streams| && streams[k] == ByIndex(streams)[i] && streams[k].index == i
  {
    var last := |streams| - 1;
    if streams[last].index == i {
      assert streams[last] == ByIndex(streams)[i];
    } else {
      ByIndexFinds(streams[..last], i);
      var k :| 0 <= k < last && streams[..last][k] == ByIndex(streams[..last])[i] && streams[..last][k].index == i;
      assert streams[k] == ByIndex(streams)[i] && streams[k].index == i;
    }
  }

  lemma {:induction false} IndexFound(streams: seq<Stream>, k: nat)
    requires DistinctIndexes(streams) && k < |streams|
    ensures streams[k].index in ByIndex(streams) && ByIndex(streams)[streams[k].index] == streams[k]
  {
    if k < |streams| - 1 {
      IndexFound(streams[..|streams| - 1], k);
    }
  }

  lemma {:induction false} KeptOfType(streams: seq<Stream>, removed: seq<int>, kind: Kind)
    ensures OfType(Kept(streams, removed), kind) == Kept(OfType(streams, kind), removed)
  {
    if streams != [] {
      var init, last := streams[..|streams| - 1], streams[|streams| - 1];
      KeptOfType(init, removed, kind);
      var tail := if last.index in removed then [] else [last];
      OfTypeAppend(Kept(init, removed), tail, kind);
      KeptAppend(OfType(init, kind), if last.kind == kind then [last] else [], removed);
    }
  }

  lemma OfTypeAppend(a: seq<Stream>, b: seq<Stream>, kind: Kind)
    requires |b| <= 1
    ensures OfType(a + b, kind) == OfType(a, kind) + OfType(b, kind)
  {
    if b == [] {
      assert a + b == a;
    } else {
      assert (a + b)[..|a|] == a && b[..0] == [];
    }
  }

  lemma KeptAppend(a: seq<Stream>, b: seq<Stream>, removed: seq<int>)
    requires |b| <= 1
    ensures Kept(a + b, removed) == Kept(a, removed) + Kept(b, removed)
  {
    if b == [] {
      assert a + b == a;
    } else {
      assert (a + b)[..|a|] == a && b[..0] == [];
    }
  }

  /** Only the listed indexes that occur among the streams matter. */
  lemma {:induction false} KeptAgrees(streams: seq<Stream>, r1: seq<int>, r2: seq<int>)
    requires forall k | 0 <= k < |streams| :: streams[k].index in r1 <==> streams[k].index in r2
    ensures Kept(streams, r1) == Kept(streams, r2)
  {
    if streams != [] {
      KeptAgrees(streams[..|streams| - 1], r1, r2);
    }
  }

  lemma {:induction false} OfTypeFrom(streams: seq<Stream>, kind: Kind, k: nat) returns (i: nat)
    requires k < |OfType(streams, kind)|
    ensures i < |streams| && streams[i] == OfType(streams, kind)[k] && streams[i].kind == kind
  {
    if k < |OfType(streams[..|streams| - 1], kind)| {
      i := OfTypeFrom(streams[..|streams| - 1], kind, k);
    } else {
      i := |streams| - 1;
    }
  }

  lemma {:induction false} OfTypeDistinct(streams: seq<Stream>, kind: Kind)
    requires DistinctIndexes(streams)
    ensures DistinctIndexes(OfType(streams, kind))
  {
    if streams != [] {
      var n := |streams| - 1;
      OfTypeDistinct(streams[..n], kind);
      forall j | 0 <= j < |OfType(streams[..n], kind)|
        ensures OfType(streams[..n], kind)[j].index != streams[n].index
      {
        var i := OfTypeFrom(streams[..n], kind, j);
      }
    }
  }

  /** Of each type, a validated spec's kept streams are those its own list leaves. */
  lemma KeptByKind(streams: seq<Stream>, spec: Spec, kind: Kind)
    requires DistinctIndexes(streams)
    requires AllOfKind(streams, spec.audio, Audio) && AllOfKind(streams, spec.subs, Subtitle)
    ensures OfType(Kept(streams, spec.audio + spec.subs), kind)
         == Kept(OfType(streams, kind), RemovedOf(spec, kind))
  {
    KeptOfType(streams, spec.audio + spec.subs, kind);
    var list := OfType(streams, kind);
    forall k | 0 <= k < |list|
      ensures list[k].index in spec.audio + spec.subs <==> list[k].index in RemovedOf(spec, kind)
    {
      var i := OfTypeFrom(streams, kind, k);
      IndexFound(streams, i);
    }
    KeptAgrees(list, spec.audio + spec.subs, RemovedOf(spec, kind));
  }

  function IndexSet(streams: seq<Stream>): set<int> {
    set k | 0 <= k < |streams| :: streams[k].index
  }

  function Elements(s: seq<int>): set<int> {
    set x | x in s
  }

  lemma IndexSetSnoc(streams: seq<Stream>)
    requires DistinctIndexes(streams) && streams != []
    ensures var init, last := streams[..|streams| - 1], streams[|streams| - 1];
            IndexSet(streams) == IndexSet(init) + {last.index} && last.index !in IndexSet(init)
  {
    var init, last := streams[..|streams| - 1], streams[|streams| - 1];
    assert forall k | 0 <= k < |init| :: init[k] == streams[k];
    assert last.index in IndexSet(streams);
  }

  lemma OneMore(a: set<int>, x: int, removed: set<int>)
    requires x !in a
    ensures |(a + {x}) * removed| == |a * removed| + if x in removed then 1 else 0
  {
    assert (a + {x}) * removed == a * removed + if x in removed then {x} else {};
  }

  lemma {:induction false} KeptCount(streams: seq<Stream>, removed: seq<int>)
    requires DistinctIndexes(streams)
    ensures |Kept(streams, removed)| + |IndexSet(streams) * Elements(removed)| == |streams|
  {
    if streams != [] {
      var init, last := streams[..|streams| - 1], streams[|streams| - 1];
      KeptCount(init, removed);
      IndexSetSnoc(streams);
      OneMore(IndexSet(init), last.index, Elements(removed));
    }
  }

  lemma {:induction false} ElementCount(s: seq<int>)
    requires forall i, j | 0 <= i < j < |s| :: s[i] != s[j]
    ensures |Elements(s)| == |s|
  {
    if s != [] {
      ElementCount(s[1..]);
      assert Elements(s) == {s[0]} + Elements(s[1..]);
    }
  }

  lemma ListedAreStreams(streams: seq<Stream>, removed: seq<int>, kind: Kind)
    requires DistinctIndexes(streams) && AllOfKind(streams, removed, kind)
    ensures Elements(removed) <= IndexSet(OfType(streams, kind))
  {
    forall i | i in removed ensures i in IndexSet(OfType(streams, kind)) {
      ByIndexFinds(streams, i);
      var k: nat :| k < |streams| && streams[k] == ByIndex(streams)[i] && streams[k].index == i;
      RankInType(streams, k);
    }
  }

  lemma RemovesItsCount(streams: seq<Stream>, spec: Spec, kind: Kind)
    requires DistinctIndexes(streams) && Increasing(spec.audio) && Increasing(spec.subs)
    requires AllOfKind(streams, spec.audio, Audio) && AllOfKind(streams, spec.subs, Subtitle)
    ensures |OfType(Kept(streams, spec.audio + spec.subs), kind)|
         == |OfType(streams, kind)| - |RemovedOf(spec, kind)|
  {
    var removed, list := RemovedOf(spec, kind), OfType(streams, kind);
    KeptByKind(streams, spec, kind);
    OfTypeDistinct(streams, kind);
    KeptCount(list, removed);
    ElementCount(removed);
    ListedAreStreams(streams, removed, kind);
    assert IndexSet(list) * Elements(removed) == Elements(removed);
  }

  /** The kept streams of a compacted spec that passed validate meet the three counts. */
  lemma KeptStreamsCount(streams: seq<Stream>, spec: Spec, allowLastAudio: bool)
    requires DistinctIndexes(streams) && Increasing(spec.audio) && Increasing(spec.subs)
    requires ValidSpec(streams, spec, allowLastAudio)
    ensures CountsMatch(streams, Kept(streams, spec.audio + spec.subs), spec)
    ensures OfType(streams, Audio) != [] && !allowLastAudio ==>
              OfType(Kept(streams, spec.audio + spec.subs), Audio) != []
  {
    RemovesItsCount(streams, spec, Video);
    RemovesItsCount(streams, spec, Audio);
    RemovesItsCount(streams, spec, Subtitle);
  }

  /**
   An output of exactly the kept streams passes verify, for every compacted spec
   that passed validate, if it is about as long and no smaller than the input
   without what the removed streams are estimated to take.
   */
  lemma KeptStreamsVerify(before: Report, after: Report, spec: Spec, allowLastAudio: bool)
    requires DistinctIndexes(before.streams) && Increasing(spec.audio) && Increasing(spec.subs)
    requires ValidSpec(before.streams, spec, allowLastAudio)
    requires after.streams == Kept(before.streams, spec.audio + spec.subs)
    requires DurationsAgree(before.duration, after.duration) && 0 <= before.size / 10 <= after.size
    requires after.size >= before.size - RemovedBytes(before, spec.audio + spec.subs)
    ensures Passes(before, after, spec)
    ensures OfType(before.streams, Audio) != [] && !allowLastAudio ==> OfType(after.streams, Audio) != []
  {
    KeptStreamsCount(before.streams, spec, allowLastAudio);
    RemainderIsLargeEnough(before, spec.audio + spec.subs, after.size);
  }
}
