/** The batch planner (internal/api/server.go): language lists to stream indexes. */
module Batch {
  import opened Text
  import opened Streams
  import opened Removal

  datatype BatchRequest = BatchRequest(
    removeAudio: seq<string>,
    keepAudio: seq<string>,
    removeSubs: seq<string>,
    removeAllSubs: bool)

  predicate LangListed(lang: string, list: seq<string>) {
    exists i | 0 <= i < |list| :: EqualFold(list[i], if lang == "" then "und" else lang)
  }

  method MatchLang(lang: string, list: seq<string>) returns (found: bool)
    ensures found <==> LangListed(lang, list)
  {
    var wanted := if lang == "" then "und" else lang;
    for k := 0 to |list|
      invariant forall j | 0 <= j < k :: !EqualFold(list[j], wanted)
    {
      if EqualFold(list[k], wanted) {
        return true;
      }
    }
    return false;
  }

  /** Whether the request asks for this audio stream to go; a keep-list wins. */
  predicate AudioUnwanted(req: BatchRequest, s: Stream) {
    if |req.keepAudio| > 0 then !LangListed(s.lang, req.keepAudio)
    else |req.removeAudio| > 0 && LangListed(s.lang, req.removeAudio)
  }

  predicate SubUnwanted(req: BatchRequest, s: Stream) {
    req.removeAllSubs || LangListed(s.lang, req.removeSubs)
  }

  predicate Unwanted(req: BatchRequest, s: Stream) {
    if s.kind == Audio then AudioUnwanted(req, s) else s.kind == Subtitle && SubUnwanted(req, s)
  }

  /** The indexes of the unwanted streams, in order. */
  function Picked(req: BatchRequest, streams: seq<Stream>): seq<int> {
    if streams == [] then []
    else
      var last := streams[|streams| - 1];
      Picked(req, streams[..|streams| - 1]) + if Unwanted(req, last) then [last.index] else []
  }

  /** Removing every audio track is never planned: the audio list is dropped instead. */
  function Plan(req: BatchRequest, streams: seq<Stream>): Spec {
    var audio := Picked(req, OfType(streams, Audio));
    Spec(if |audio| == |OfType(streams, Audio)| then [] else audio, Picked(req, OfType(streams, Subtitle)))
  }

  lemma PickedSnoc(req: BatchRequest, streams: seq<Stream>, n: nat)
    requires n < |streams|
    ensures Picked(req, streams[..n + 1])
         == Picked(req, streams[..n]) + if Unwanted(req, streams[n]) then [streams[n].index] else []
  {
    assert streams[..n + 1][..n] == streams[..n];
  }

  /** The indexes of the audio streams to go, were all of them allowed to. */
  method AudioToGo(req: BatchRequest, audio: seq<Stream>) returns (indexes: seq<int>)
    requires forall s | s in audio :: s.kind == Audio
    ensures indexes == Picked(req, audio)
  {
    indexes := [];
    for k := 0 to |audio|
      invariant indexes == Picked(req, audio[..k])
    {
      assert audio[k] in audio;
      PickedSnoc(req, audio, k);
      var remove := false;
      if |req.keepAudio| > 0 {
        var kept := MatchLang(audio[k].lang, req.keepAudio);
        remove := !kept;
      } else if |req.removeAudio| > 0 {
        remove := MatchLang(audio[k].lang, req.removeAudio);
      }
      if remove {
        indexes := indexes + [audio[k].index];
      }
    }
    assert audio[..|audio|] == audio;
  }

  method SubsToGo(req: BatchRequest, subs: seq<Stream>) returns (indexes: seq<int>)
    requires forall s | s in subs :: s.kind == Subtitle
    ensures indexes == Picked(req, subs)
  {
    indexes := [];
    for k := 0 to |subs|
      invariant indexes == Picked(req, subs[..k])
    {
      assert subs[k] in subs;
      PickedSnoc(req, subs, k);
      var listed := MatchLang(subs[k].lang, req.removeSubs);
      if req.removeAllSubs || listed {
        indexes := indexes + [subs[k].index];
      }
    }
    assert subs[..|subs|] == subs;
  }

  method ResolveBatch(res: ProbeResult, req: BatchRequest) returns (plan: Spec, skipped: bool)
    ensures plan == Plan(req, res.streams)
    ensures skipped <==> OfType(res.streams, Audio) != []
                         && forall s | s in OfType(res.streams, Audio) :: AudioUnwanted(req, s)
  {
    var audio := res.StreamsOfType(Audio);
    AllOfType(res.streams, Audio);
    var removeAudio := AudioToGo(req, audio);
    PickedAll(req, audio);
    skipped := |removeAudio| >= |audio| && |removeAudio| > 0;
    if skipped {
      removeAudio := [];
    }
    var subs := res.StreamsOfType(Subtitle);
    AllOfType(res.streams, Subtitle);
    var removeSubs := SubsToGo(req, subs);
    plan := Spec(removeAudio, removeSubs);
  }

  lemma AllOfType(streams: seq<Stream>, kind: Kind)
    ensures forall s | s in OfType(streams, kind) :: s.kind == kind
  {
    forall s | s in OfType(streams, kind) ensures s.kind == kind {
      var k :| 0 <= k < |OfType(streams, kind)| && OfType(streams, kind)[k] == s;
      OfTypeKind(streams, kind, k);
    }
  }

  // ---- what the plan guarantees ----

  lemma OfTypeKind(streams: seq<Stream>, kind: Kind, k: nat)
    requires k < |OfType(streams, kind)|
    ensures OfType(streams, kind)[k].kind == kind
  {
    var i := OfTypeFrom(streams, kind, k);
  }

  lemma {:induction false} PickedAll(req: BatchRequest, streams: seq<Stream>)
    ensures |Picked(req, streams)| <= |streams|
    ensures |Picked(req, streams)| == |streams| <==> forall s | s in streams :: Unwanted(req, s)
  {
    if streams != [] {
      var init, last := streams[..|streams| - 1], streams[|streams| - 1];
      PickedAll(req, init);
      assert forall s :: s in streams <==> s == last || s in init;
    }
  }

  lemma {:induction false} PickedAre(req: BatchRequest, streams: seq<Stream>, x: int)
    ensures x in Picked(req, streams) <==>
            exists k :: 0 <= k < |streams| && streams[k].index == x && Unwanted(req, streams[k])
  {
    if streams != [] {
      var n := |streams| - 1;
      PickedAre(req, streams[..n], x);
      if k :| 0 <= k < |streams| && streams[k].index == x && Unwanted(req, streams[k]) {
        if k < n {
          assert streams[..n][k] == streams[k];
        }
      }
    }
  }

  lemma {:induction false} PickedDistinct(req: BatchRequest, streams: seq<Stream>)
    requires DistinctIndexes(streams)
    ensures forall i, j | 0 <= i < j < |Picked(req, streams)| :: Picked(req, streams)[i] != Picked(req, streams)[j]
  {
    if streams != [] {
      var n := |streams| - 1;
      PickedDistinct(req, streams[..n]);
      PickedAre(req, streams[..n], streams[n].index);
    }
  }

  lemma PickedOfKind(req: BatchRequest, streams: seq<Stream>, kind: Kind)
    requires DistinctIndexes(streams)
    ensures AllOfKind(streams, Picked(req, OfType(streams, kind)), kind)
  {
    var list := OfType(streams, kind);
    forall x | x in Picked(req, list) ensures x in ByIndex(streams) && ByIndex(streams)[x].kind == kind {
      PickedAre(req, list, x);
      var k: nat :| k < |list| && list[k].index == x && Unwanted(req, list[k]);
      var i := OfTypeFrom(streams, kind, k);
      IndexFound(streams, i);
    }
  }

  lemma CompactSize(s: seq<int>)
    requires forall i, j | 0 <= i < j < |s| :: s[i] != s[j]
    ensures |SortedCompact(s)| == |s|
  {
    CompactIsSet(s);
    ElementCount(s);
    ElementCount(SortedCompact(s));
    assert Elements(s) == Elements(SortedCompact(s));
  }

  lemma PlanIsOfKind(req: BatchRequest, streams: seq<Stream>)
    requires DistinctIndexes(streams)
    ensures var plan := Compacted(Plan(req, streams));
            AllOfKind(streams, plan.audio, Audio) && AllOfKind(streams, plan.subs, Subtitle)
  {
    PickedOfKind(req, streams, Audio);
    PickedOfKind(req, streams, Subtitle);
    CompactIsSet(Plan(req, streams).audio);
    CompactIsSet(Plan(req, streams).subs);
  }

  /**
   On a file with a video stream every plan, sorted and compacted as the engine
   does, passes validate without the last-audio override, leaves an audio
   stream if there was one, and an output of exactly the kept streams passes
   verify's counts.
   */
  lemma BatchPlanIsSafe(req: BatchRequest, streams: seq<Stream>)
    requires DistinctIndexes(streams) && OfType(streams, Video) != []
    ensures var plan := Compacted(Plan(req, streams));
            var kept := Kept(streams, plan.audio + plan.subs);
            && ValidSpec(streams, plan, false)
            && (OfType(streams, Audio) != [] ==> OfType(kept, Audio) != [])
            && CountsMatch(streams, kept, plan)
  {
    var raw, plan := Plan(req, streams), Compacted(Plan(req, streams));
    var audio := OfType(streams, Audio);
    PlanIsOfKind(req, streams);
    OfTypeDistinct(streams, Audio);
    PickedDistinct(req, audio);
    PickedAll(req, audio);
    CompactSize(raw.audio);
    CompactIsSet(raw.audio);
    CompactIsSet(raw.subs);
    assert ValidSpec(streams, plan, false);
    KeptStreamsCount(streams, plan, false);
  }

  lemma PickedOfStream(req: BatchRequest, streams: seq<Stream>, k: nat)
    requires DistinctIndexes(streams) && k < |streams|
    ensures streams[k].index in Picked(req, OfType(streams, streams[k].kind)) <==> Unwanted(req, streams[k])
  {
    var s := streams[k];
    var list := OfType(streams, s.kind);
    PickedAre(req, list, s.index);
    RankInType(streams, k);
    OfTypeDistinct(streams, s.kind);
  }

  lemma NotPickedElsewhere(req: BatchRequest, streams: seq<Stream>, k: nat, kind: Kind)
    requires DistinctIndexes(streams) && k < |streams| && streams[k].kind != kind
    ensures streams[k].index !in Picked(req, OfType(streams, kind))
  {
    PickedOfKind(req, streams, kind);
    IndexFound(streams, k);
  }

  /** Some entry of the list is the language, in any case; a missing one is listed as "und". */
  predicate Lists(list: seq<string>, lang: string) {
    exists i | 0 <= i < |list| :: ToLower(list[i]) == ToLower(if lang == "" then "und" else lang)
  }

  /** With a keep-list, what it does not list; otherwise what the remove-list lists. */
  predicate ToGo(keep: seq<string>, remove: seq<string>, lang: string) {
    if keep != [] then !Lists(keep, lang) else Lists(remove, lang)
  }

  lemma UnwantedIsToGo(req: BatchRequest, s: Stream)
    requires s.kind == Audio
    ensures Unwanted(req, s) <==> ToGo(req.keepAudio, req.removeAudio, s.lang)
  {
  }

  lemma SparedExactly(req: BatchRequest, streams: seq<Stream>)
    ensures (forall s | s in OfType(streams, Audio) :: Unwanted(req, s))
        <==> (forall s | s in OfType(streams, Audio) :: ToGo(req.keepAudio, req.removeAudio, s.lang))
  {
    forall s | s in OfType(streams, Audio) ensures Unwanted(req, s) <==> ToGo(req.keepAudio, req.removeAudio, s.lang) {
      var j :| 0 <= j < |OfType(streams, Audio)| && OfType(streams, Audio)[j] == s;
      OfTypeKind(streams, Audio, j);
      UnwantedIsToGo(req, s);
    }
  }

  lemma AudioInAudio(req: BatchRequest, streams: seq<Stream>, k: nat)
    requires DistinctIndexes(streams) && k < |streams| && streams[k].kind == Audio
    ensures streams[k].index !in Compacted(Plan(req, streams)).subs
  {
    NotPickedElsewhere(req, streams, k, Subtitle);
    CompactIsSet(Plan(req, streams).subs);
  }

  /** Of the audio streams the plan removes exactly those, except that it removes none rather than all. */
  lemma PlannedAudio(req: BatchRequest, streams: seq<Stream>, k: nat)
    requires DistinctIndexes(streams) && k < |streams| && streams[k].kind == Audio
    ensures streams[k].index in Compacted(Plan(req, streams)).audio
            <==> && ToGo(req.keepAudio, req.removeAudio, streams[k].lang)
                 && !forall s | s in OfType(streams, Audio) :: ToGo(req.keepAudio, req.removeAudio, s.lang)
  {
    PlanRemovesTheUnwanted(req, streams, k);
    AudioInAudio(req, streams, k);
    SparedExactly(req, streams);
    UnwantedIsToGo(req, streams[k]);
  }

  /** Of the subtitle streams it removes those the remove-list lists, or all if the request says so. */
  lemma PlannedSubtitles(req: BatchRequest, streams: seq<Stream>, k: nat)
    requires DistinctIndexes(streams) && k < |streams| && streams[k].kind == Subtitle
    ensures streams[k].index in Compacted(Plan(req, streams)).subs
            <==> req.removeAllSubs || Lists(req.removeSubs, streams[k].lang)
  {
    PlanRemovesTheUnwanted(req, streams, k);
    NotPickedElsewhere(req, streams, k, Audio);
    CompactIsSet(Plan(req, streams).audio);
  }

  /** The plan removes exactly the unwanted streams, except that it spares audio altogether rather than remove it all. */
  lemma PlanRemovesTheUnwanted(req: BatchRequest, streams: seq<Stream>, k: nat)
    requires DistinctIndexes(streams) && k < |streams|
    ensures var plan := Compacted(Plan(req, streams));
            var spared := forall s | s in OfType(streams, Audio) :: Unwanted(req, s);
            streams[k].index in plan.audio + plan.subs
            <==> Unwanted(req, streams[k]) && !(streams[k].kind == Audio && spared)
  {
    CompactIsSet(Plan(req, streams).audio);
    CompactIsSet(Plan(req, streams).subs);
    PickedAll(req, OfType(streams, Audio));
    PickedOfStream(req, streams, k);
    if streams[k].kind != Audio {
      NotPickedElsewhere(req, streams, k, Audio);
    }
    if streams[k].kind != Subtitle {
      NotPickedElsewhere(req, streams, k, Subtitle);
    }
  }
}
