/**
 Track reordering: the checks shared by ReorderTracks (internal/engine/engine.go)
 and handleReorderTracks (internal/api/server.go), and the --track-order value.
 */
module Reorder {
  import opened Wrappers
  import opened Text
  import opened Streams
  import opened Removal
  import Sets

  const MAX_TRACK_ORDER := 1000

  /** The streams mkvmerge can see. */
  function Visible(streams: seq<Stream>): seq<Stream> {
    if streams == [] then []
    else
      var last := streams[|streams| - 1];
      Visible(streams[..|streams| - 1]) + if last.mkvId >= 0 then [last] else []
  }

  predicate Unique(s: seq<int>) {
    forall i, j | 0 <= i < j < |s| :: s[i] != s[j]
  }

  predicate Known(streams: seq<Stream>, index: int) {
    index in ByIndex(streams) && ByIndex(streams)[index].mkvId >= 0
  }

  predicate Accepted(streams: seq<Stream>, order: seq<int>) {
    |order| == |Visible(streams)| && Unique(order) && forall i | i in order :: Known(streams, i)
  }

  datatype OrderError = NoMkvmerge | Empty | TooLong | NotMatroska | WrongCount | Duplicate | NotFound | NoTrackId

  /** The checks the API and the engine each make on a probe result. */
  method CheckOrder(res: ProbeResult, order: seq<int>) returns (err: Option<OrderError>)
    ensures err.None? <==> Accepted(res.streams, order)
    ensures err == Some(WrongCount) <==> |order| != |Visible(res.streams)|
    ensures err.None? || err.value in {WrongCount, Duplicate, NotFound, NoTrackId}
  {
    var byIdx := IndexStreams(res.streams);
    var expected := 0;
    for i := 0 to |res.streams|
      invariant expected == |Visible(res.streams[..i])|
    {
      assert res.streams[..i + 1][..i] == res.streams[..i];
      if res.streams[i].mkvId >= 0 {
        expected := expected + 1;
      }
    }
    assert res.streams[..|res.streams|] == res.streams;
    if |order| != expected {
      return Some(WrongCount);
    }
    var seen := {};
    for k := 0 to |order|
      invariant forall x :: x in seen <==> x in order[..k]
      invariant Unique(order[..k])
      invariant forall j | 0 <= j < k :: Known(res.streams, order[j])
    {
      if order[k] in seen {
        var j :| 0 <= j < k && order[j] == order[k];
        return Some(Duplicate);
      }
      seen := seen + {order[k]};
      assert order[..k + 1] == order[..k] + [order[k]];
      assert order[k] in order;
      if order[k] !in byIdx {
        return Some(NotFound);
      }
      if byIdx[order[k]].mkvId < 0 {
        return Some(NoTrackId);
      }
    }
    assert order[..|order|] == order;
    return None;
  }

  /** handleReorderTracks, once the file's stored probe is loaded. */
  method AcceptRequest(res: ProbeResult, matroska: bool, order: seq<int>) returns (err: Option<OrderError>)
    ensures err.None? <==> 1 <= |order| <= 1000 && matroska && Accepted(res.streams, order)
  {
    if |order| == 0 {
      return Some(Empty);
    }
    if |order| > MAX_TRACK_ORDER {
      return Some(TooLong);
    }
    if !matroska {
      return Some(NotMatroska);
    }
    err := CheckOrder(res, order);
  }

  function IdOf(streams: seq<Stream>, index: int): int {
    if index in ByIndex(streams) then ByIndex(streams)[index].mkvId else -1
  }

  function OrderIds(streams: seq<Stream>, order: seq<int>): seq<int> {
    seq(|order|, k requires 0 <= k < |order| => IdOf(streams, order[k]))
  }

  function OrderParts(ids: seq<int>): seq<string> {
    seq(|ids|, k requires 0 <= k < |ids| => "0:" + Itoa(ids[k]))
  }

  function OrderValue(streams: seq<Stream>, order: seq<int>): string {
    Join(OrderParts(OrderIds(streams, order)), ',')
  }

  method BuildOrder(byIdx: map<int, Stream>, streams: seq<Stream>, order: seq<int>) returns (value: string)
    requires byIdx == ByIndex(streams) && forall i | i in order :: Known(streams, i)
    ensures value == OrderValue(streams, order)
  {
    var parts := [];
    for k := 0 to |order|
      invariant |parts| == k
      invariant forall j | 0 <= j < k :: parts[j] == "0:" + Itoa(IdOf(streams, order[j]))
    {
      assert order[k] in order;
      parts := parts + ["0:" + Itoa(byIdx[order[k]].mkvId)];
    }
    assert parts == OrderParts(OrderIds(streams, order));
    return Join(parts, ',');
  }

  /** ReorderTracks up to the point where the temporary file is made: the --track-order value. */
  method TrackOrder(res: ProbeResult, mkvmerge: bool, matroska: bool, order: seq<int>)
    returns (out: Result<string, OrderError>)
    ensures out.Success? <==> mkvmerge && order != [] && matroska && Accepted(res.streams, order)
    ensures out.Success? ==> out.value == OrderValue(res.streams, order) && NamesInOrder(out.value, res.streams, order)
    ensures out == Failure(NoMkvmerge) <==> !mkvmerge
    ensures out == Failure(Empty) <==> mkvmerge && order == []
    ensures out == Failure(NotMatroska) <==> mkvmerge && order != [] && !matroska
  {
    if !mkvmerge {
      return Failure(NoMkvmerge);
    }
    if |order| == 0 {
      return Failure(Empty);
    }
    if !matroska {
      return Failure(NotMatroska);
    }
    var err := CheckOrder(res, order);
    if err.Some? {
      return Failure(err.value);
    }
    var byIdx := IndexStreams(res.streams);
    var value := BuildOrder(byIdx, res.streams, order);
    ValueNamesInOrder(res.streams, order);
    return Success(value);
  }

  // ---- an accepted order is a permutation of the visible streams ----

  lemma {:induction false} VisibleFrom(streams: seq<Stream>, k: nat) returns (i: nat)
    requires k < |Visible(streams)|
    ensures i < |streams| && streams[i] == Visible(streams)[k] && streams[i].mkvId >= 0
  {
    var n := |streams| - 1;
    if k < |Visible(streams[..n])| {
      i := VisibleFrom(streams[..n], k);
    } else {
      i := n;
    }
  }

  lemma {:induction false} VisibleHas(streams: seq<Stream>, i: nat)
    requires i < |streams| && streams[i].mkvId >= 0
    ensures streams[i] in Visible(streams)
  {
    if i < |streams| - 1 {
      VisibleHas(streams[..|streams| - 1], i);
    }
  }

  lemma {:induction false} VisibleUnique(streams: seq<Stream>)
    requires DistinctIndexes(streams)
    ensures Unique(Indexes(Visible(streams)))
  {
    if streams != [] {
      var n := |streams| - 1;
      VisibleUnique(streams[..n]);
      var before := Visible(streams[..n]);
      forall k | 0 <= k < |before| ensures before[k].index != streams[n].index {
        var i := VisibleFrom(streams[..n], k);
      }
      forall i, j | 0 <= i < j < |Visible(streams)|
        ensures Visible(streams)[i].index != Visible(streams)[j].index
      {
        if j < |before| {
          assert Indexes(before)[i] != Indexes(before)[j];
        }
      }
    }
  }

  lemma KnownIsVisible(streams: seq<Stream>, index: int)
    requires DistinctIndexes(streams)
    ensures Known(streams, index) <==> index in Indexes(Visible(streams))
  {
    var list := Visible(streams);
    if Known(streams, index) {
      ByIndexFinds(streams, index);
      var i: nat :| i < |streams| && streams[i] == ByIndex(streams)[index] && streams[i].index == index;
      VisibleHas(streams, i);
      var k :| 0 <= k < |list| && list[k] == streams[i];
      assert Indexes(list)[k] == index;
    }
    if index in Indexes(list) {
      var k :| 0 <= k < |list| && Indexes(list)[k] == index;
      var i := VisibleFrom(streams, k);
      IndexFound(streams, i);
    }
  }

  lemma {:induction false} UniqueCounts(s: seq<int>, x: int)
    requires Unique(s)
    ensures multiset(s)[x] == if x in s then 1 else 0
  {
    if s != [] {
      assert s == [s[0]] + s[1..];
      UniqueCounts(s[1..], x);
    }
  }

  lemma SameSetSameBag(a: seq<int>, b: seq<int>)
    requires Unique(a) && Unique(b) && Elements(a) == Elements(b)
    ensures multiset(a) == multiset(b)
  {
    forall x ensures multiset(a)[x] == multiset(b)[x] {
      UniqueCounts(a, x);
      UniqueCounts(b, x);
      assert x in a <==> x in Elements(a);
      assert x in b <==> x in Elements(b);
    }
  }

  lemma SameBagSameSet(a: seq<int>, b: seq<int>)
    requires Unique(b) && multiset(a) == multiset(b)
    ensures Unique(a) && |a| == |b| && forall x :: x in a <==> x in b
  {
    assert |a| == |multiset(a)| == |multiset(b)| == |b|;
    forall x ensures x in a <==> x in b {
      assert x in a <==> x in multiset(a);
      assert x in b <==> x in multiset(b);
    }
    forall i, j | 0 <= i < j < |a| ensures a[i] != a[j] {
      if a[i] == a[j] {
        UniqueCounts(b, a[i]);
        TwiceCounted(a, i, j);
      }
    }
  }

  lemma TwiceCounted(s: seq<int>, i: nat, j: nat)
    requires i < j < |s| && s[i] == s[j]
    ensures multiset(s)[s[i]] >= 2
  {
    assert s == s[..j] + s[j..];
    assert s[i] in s[..j] && s[j] in s[j..];
    assert multiset(s) == multiset(s[..j]) + multiset(s[j..]);
  }

  /** The checks accept exactly the permutations of the visible streams' indexes. */
  lemma AcceptedIsPermutation(streams: seq<Stream>, order: seq<int>)
    requires DistinctIndexes(streams)
    ensures Accepted(streams, order) <==> multiset(order) == multiset(Indexes(Visible(streams)))
  {
    var all := Indexes(Visible(streams));
    VisibleUnique(streams);
    if Accepted(streams, order) {
      ElementCount(order);
      ElementCount(all);
      forall x | x in Elements(order) ensures x in Elements(all) {
        KnownIsVisible(streams, x);
      }
      Sets.FullSubset(Elements(order), Elements(all));
      SameSetSameBag(order, all);
    }
    if multiset(order) == multiset(all) {
      SameBagSameSet(order, all);
      forall x | x in order ensures Known(streams, x) {
        KnownIsVisible(streams, x);
      }
    }
  }

  /** An order the API accepts is accepted by the engine on the same probe. */
  method ApiThenEngine(res: ProbeResult, matroska: bool, order: seq<int>) returns (asked: bool, done: bool)
    ensures asked ==> done
  {
    var err := AcceptRequest(res, matroska, order);
    var out := TrackOrder(res, true, matroska, order);
    asked, done := err.None?, out.Success?;
  }

  // ---- and the emitted list is a permutation of the visible track ids ----

  lemma TakeOut(s: seq<int>, k: nat)
    requires k < |s|
    ensures multiset(s) == multiset(s[..k] + s[k + 1..]) + multiset{s[k]}
  {
    assert s == s[..k] + [s[k]] + s[k + 1..];
  }

  lemma OrderIdsTakeOut(streams: seq<Stream>, s: seq<int>, k: nat)
    requires k < |s|
    ensures multiset(OrderIds(streams, s))
         == multiset(OrderIds(streams, s[..k] + s[k + 1..])) + multiset{IdOf(streams, s[k])}
  {
    TakeOut(OrderIds(streams, s), k);
    assert OrderIds(streams, s[..k] + s[k + 1..]) == OrderIds(streams, s)[..k] + OrderIds(streams, s)[k + 1..];
  }

  lemma CancelOne(a: multiset<int>, b: multiset<int>, x: int)
    requires a + multiset{x} == b + multiset{x}
    ensures a == b
  {
    forall y ensures a[y] == b[y] {
      assert (a + multiset{x})[y] == (b + multiset{x})[y];
    }
  }

  lemma {:induction false} SameIds(streams: seq<Stream>, a: seq<int>, b: seq<int>)
    requires multiset(a) == multiset(b)
    ensures multiset(OrderIds(streams, a)) == multiset(OrderIds(streams, b))
  {
    if a == [] {
      assert |b| == |multiset(b)| == 0;
    } else {
      assert a[0] in multiset(b);
      var k :| 0 <= k < |b| && b[k] == a[0];
      TakeOut(a, 0);
      TakeOut(b, k);
      CancelOne(multiset(a[..0] + a[1..]), multiset(b[..k] + b[k + 1..]), a[0]);
      SameIds(streams, a[..0] + a[1..], b[..k] + b[k + 1..]);
      OrderIdsTakeOut(streams, a, 0);
      OrderIdsTakeOut(streams, b, k);
    }
  }

  lemma VisibleIds(streams: seq<Stream>)
    requires DistinctIndexes(streams)
    ensures OrderIds(streams, Indexes(Visible(streams))) == Ids(Visible(streams))
  {
    var list := Visible(streams);
    forall k | 0 <= k < |list| ensures IdOf(streams, list[k].index) == list[k].mkvId {
      var i := VisibleFrom(streams, k);
      IndexFound(streams, i);
    }
  }

  lemma OrderIsPermutationOfIds(streams: seq<Stream>, order: seq<int>)
    requires DistinctIndexes(streams) && Accepted(streams, order)
    ensures multiset(OrderIds(streams, order)) == multiset(Ids(Visible(streams)))
  {
    AcceptedIsPermutation(streams, order);
    SameIds(streams, order, Indexes(Visible(streams)));
    VisibleIds(streams);
  }

  // ---- on a probed file: every mkvmerge track of a media type, once ----

  function MediaTracks(tracks: seq<Track>): seq<Track> {
    if tracks == [] then []
    else
      var last := tracks[|tracks| - 1];
      MediaTracks(tracks[..|tracks| - 1]) + if FfKind(last.kind).Some? then [last] else []
  }

  lemma {:induction false} TracksByKind(tracks: seq<Track>)
    ensures multiset(TrackIds(MediaTracks(tracks)))
         == multiset(TrackIds(TracksOf(tracks, Video))) + multiset(TrackIds(TracksOf(tracks, Audio)))
            + multiset(TrackIds(TracksOf(tracks, Subtitle)))
  {
    if tracks != [] {
      var n := |tracks| - 1;
      TracksByKind(tracks[..n]);
      TrackIdsSnoc(MediaTracks(tracks[..n]), tracks[n]);
      TrackIdsSnoc(TracksOf(tracks[..n], Video), tracks[n]);
      TrackIdsSnoc(TracksOf(tracks[..n], Audio), tracks[n]);
      TrackIdsSnoc(TracksOf(tracks[..n], Subtitle), tracks[n]);
    }
  }

  lemma TrackIdsSnoc(tracks: seq<Track>, t: Track)
    ensures TrackIds(tracks + [t]) == TrackIds(tracks) + [t.id]
    ensures TrackIds(tracks + []) == TrackIds(tracks)
  {
    assert tracks + [] == tracks;
  }

  lemma IdsSnoc(streams: seq<Stream>, s: Stream)
    ensures Ids(streams + [s]) == Ids(streams) + [s.mkvId]
    ensures Ids(streams + []) == Ids(streams)
  {
    assert streams + [] == streams;
  }

  lemma {:induction false} VisibleByKind(streams: seq<Stream>)
    requires forall s | s in streams :: s.mkvId >= 0 <==> s.kind.Media()
    ensures multiset(Ids(Visible(streams)))
         == multiset(Ids(OfType(streams, Video))) + multiset(Ids(OfType(streams, Audio)))
            + multiset(Ids(OfType(streams, Subtitle)))
  {
    if streams != [] {
      var n := |streams| - 1;
      VisibleByKind(streams[..n]);
      IdsSnoc(Visible(streams[..n]), streams[n]);
      IdsSnoc(OfType(streams[..n], Video), streams[n]);
      IdsSnoc(OfType(streams[..n], Audio), streams[n]);
      IdsSnoc(OfType(streams[..n], Subtitle), streams[n]);
    }
  }

  lemma MediaAreVisible(raw: seq<Stream>, tracks: seq<Track>)
    requires Alignable(raw, tracks) && forall t | t in tracks :: t.id >= 0
    requires forall s | s in raw :: s.mkvId == -1
    ensures forall s | s in WithIds(raw, tracks) :: s.mkvId >= 0 <==> s.kind.Media()
  {
    var streams := WithIds(raw, tracks);
    forall i: nat | i < |streams| ensures streams[i].mkvId >= 0 <==> streams[i].kind.Media() {
      assert raw[i] in raw;
      if raw[i].kind.Media() {
        AlignedHasTrack(raw, tracks, i);
      } else {
        OtherStreamsKeepTheirId(raw, tracks, i);
      }
    }
  }

  /** An accepted order on an aligned file names every video, audio and subtitle track exactly once. */
  lemma OrderNamesEveryTrack(raw: seq<Stream>, tracks: seq<Track>, order: seq<int>)
    requires DistinctIndexes(raw) && Alignable(raw, tracks) && forall t | t in tracks :: t.id >= 0
    requires forall s | s in raw :: s.mkvId == -1
    requires Accepted(WithIds(raw, tracks), order)
    ensures multiset(OrderIds(WithIds(raw, tracks), order)) == multiset(TrackIds(MediaTracks(tracks)))
  {
    var streams := WithIds(raw, tracks);
    forall i, j | 0 <= i < j < |streams| ensures streams[i].index != streams[j].index {
      assert raw[i].index != raw[j].index;
    }
    OrderIsPermutationOfIds(streams, order);
    MediaAreVisible(raw, tracks);
    VisibleByKind(streams);
    TracksByKind(tracks);
    AlignmentIsExact(raw, tracks, Video);
    AlignmentIsExact(raw, tracks, Audio);
    AlignmentIsExact(raw, tracks, Subtitle);
  }

  // ---- mkvmerge reads the list back ----

  /** `file:track` pairs; None when some entry is not of that shape. */
  function ReadPair(s: string): Option<(nat, nat)> {
    var halves := Split(s, ':');
    if |halves| == 2 && Atoi(halves[0]).Some? && Atoi(halves[1]).Some?
    then Some((Atoi(halves[0]).value, Atoi(halves[1]).value)) else None
  }

  lemma PartReads(id: nat)
    ensures ReadPair("0:" + Itoa(id)) == Some((0, id)) && ',' !in "0:" + Itoa(id)
  {
    assert AllDigits(Itoa(id));
    AtoiItoa(id);
    AtoiItoa(0);
    assert "0:" + Itoa(id) == "0" + [':'] + Itoa(id);
    SplitFirst("0", Itoa(id), ':');
    SplitFirst(Itoa(id), "", ':');
  }

  /** Split at its commas, the value is exactly the pairs (0, id) of the ordered ids. */
  lemma OrderReadsBack(ids: seq<int>)
    requires ids != [] && forall k | 0 <= k < |ids| :: ids[k] >= 0
    ensures var parts := Split(Join(OrderParts(ids), ','), ',');
            |parts| == |ids| && forall k | 0 <= k < |ids| :: ReadPair(parts[k]) == Some((0, ids[k]))
  {
    forall k | 0 <= k < |ids|
      ensures ',' !in OrderParts(ids)[k] && ReadPair(OrderParts(ids)[k]) == Some((0, ids[k]))
    {
      PartReads(ids[k]);
    }
    SplitJoin(OrderParts(ids), ',');
  }

  /** Read as pairs, the value names at each position the track of the stream that the order has there. */
  ghost predicate NamesInOrder(value: string, streams: seq<Stream>, order: seq<int>) {
    var parts := Split(value, ',');
    && |parts| == |order|
    && forall k | 0 <= k < |order| :: NamesTrack(parts[k], streams, order[k])
  }

  /** The pair is file 0 and the track id of the stream with this index. */
  ghost predicate NamesTrack(part: string, streams: seq<Stream>, index: int) {
    exists s :: s in streams && s.index == index && s.mkvId >= 0 && ReadPair(part) == Some((0, s.mkvId))
  }

  lemma ValueNamesInOrder(streams: seq<Stream>, order: seq<int>)
    requires order != [] && Accepted(streams, order)
    ensures NamesInOrder(OrderValue(streams, order), streams, order)
  {
    var ids := OrderIds(streams, order);
    forall k | 0 <= k < |order| ensures ids[k] >= 0 {
      assert order[k] in order;
    }
    OrderReadsBack(ids);
    var parts := Split(OrderValue(streams, order), ',');
    forall k | 0 <= k < |order| ensures NamesTrack(parts[k], streams, order[k]) {
      assert order[k] in order;
      ByIndexFinds(streams, order[k]);
      var s := ByIndex(streams)[order[k]];
      assert s in streams && s.index == order[k];
    }
  }
}
