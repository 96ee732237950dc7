/**
 Probe results (internal/probe/probe.go): ffprobe's streams, and the alignment
 of mkvmerge's tracks to them by position within each type.
 */
module Streams {
  import opened Wrappers
  import opened Text

  /** ffprobe's codec_type; attached pictures count as attachments. */
  datatype Kind = Video | Audio | Subtitle | Other(name: string) {
    predicate Media() {
      !Other?
    }
  }

  /** mkvId is -1 while no mkvmerge track is known for the stream; bitRate is in bits a second, 0 when unknown. */
  datatype Stream = Stream(index: int, mkvId: int, kind: Kind, codec: string, lang: string, bitRate: int)

  /** What ffprobe reports of a file. */
  datatype Report = Report(streams: seq<Stream>, duration: real, size: int)

  /** A track of `mkvmerge -J`: its kind and codec id are mkvmerge's own words. */
  datatype Track = Track(id: int, kind: string, lang: string, codecId: string)

  function OfType(streams: seq<Stream>, kind: Kind): seq<Stream> {
    if streams == [] then []
    else
      var last := streams[|streams| - 1];
      OfType(streams[..|streams| - 1], kind) + if last.kind == kind then [last] else []
  }

  lemma OfTypeSnoc(streams: seq<Stream>, n: nat, kind: Kind)
    requires n < |streams|
    ensures OfType(streams[..n + 1], kind)
         == OfType(streams[..n], kind) + if streams[n].kind == kind then [streams[n]] else []
  {
    assert streams[..n + 1][..n] == streams[..n];
  }

  // ---- compatibility checks ----

  predicate LangsCompatible(a: string, b: string) {
    a == "" || b == "" || a == b
  }

  const MKV_CODEC_NAMES: map<string, string> := map[
    "V_MPEG4/ISO/AVC" := "h264", "V_MPEGH/ISO/HEVC" := "hevc", "V_AV1" := "av1", "V_VP9" := "vp9",
    "V_VP8" := "vp8", "V_MPEG2" := "mpeg2video", "A_AAC" := "aac", "A_AC3" := "ac3", "A_EAC3" := "eac3",
    "A_DTS" := "dts", "A_TRUEHD" := "truehd", "A_FLAC" := "flac", "A_OPUS" := "opus",
    "A_VORBIS" := "vorbis", "A_MPEG/L3" := "mp3", "S_TEXT/UTF8" := "subrip", "S_TEXT/ASS" := "ass",
    "S_TEXT/SSA" := "ass", "S_TEXT/WEBVTT" := "webvtt", "S_HDMV/PGS" := "hdmv_pgs_subtitle",
    "S_VOBSUB" := "dvd_subtitle"]

  predicate CodecsCompatible(codecId: string, ffCodec: string) {
    || codecId == "" || ffCodec == ""
    || codecId !in MKV_CODEC_NAMES || EqualFold(MKV_CODEC_NAMES[codecId], ffCodec)
  }

  predicate Compatible(s: Stream, t: Track) {
    LangsCompatible(s.lang, t.lang) && CodecsCompatible(t.codecId, s.codec)
  }

  // ---- alignment ----

  /** ffprobe's word for an mkvmerge track type; other types are not aligned. */
  function FfKind(kind: string): Option<Kind> {
    if kind == "video" then Some(Video)
    else if kind == "audio" then Some(Audio)
    else if kind == "subtitles" then Some(Subtitle)
    else None
  }

  /** mkvmerge's word for the kinds it has tracks of. */
  function MkvWord(kind: Kind): string
    requires kind.Media()
  {
    match kind
    case Video => "video"
    case Audio => "audio"
    case Subtitle => "subtitles"
  }

  /** The two vocabularies translate into each other. */
  lemma WordsAgree(word: string, kind: Kind)
    ensures FfKind(word) == Some(kind) <==> kind.Media() && word == MkvWord(kind)
  {
  }

  function TracksOf(tracks: seq<Track>, kind: Kind): seq<Track> {
    if tracks == [] then []
    else
      var last := tracks[|tracks| - 1];
      TracksOf(tracks[..|tracks| - 1], kind) + if FfKind(last.kind) == Some(kind) then [last] else []
  }

  /** The position of stream i among the streams of its type. */
  function Rank(streams: seq<Stream>, i: nat): nat
    requires i < |streams|
  {
    |OfType(streams[..i], streams[i].kind)|
  }

  function Partner(streams: seq<Stream>, tracks: seq<Track>, i: nat): Option<Track>
    requires i < |streams|
  {
    var list := TracksOf(tracks, streams[i].kind);
    var pos := Rank(streams, i);
    if pos < |list| then Some(list[pos]) else None
  }

  function WithId(streams: seq<Stream>, tracks: seq<Track>, i: nat): Stream
    requires i < |streams|
  {
    var p := Partner(streams, tracks, i);
    if p.Some? then streams[i].(mkvId := p.value.id) else streams[i]
  }

  function WithIds(streams: seq<Stream>, tracks: seq<Track>): seq<Stream> {
    seq(|streams|, i requires 0 <= i < |streams| => WithId(streams, tracks, i))
  }

  predicate CompatibleAt(streams: seq<Stream>, tracks: seq<Track>, i: nat)
    requires i < |streams|
  {
    var p := Partner(streams, tracks, i);
    p.Some? ==> Compatible(streams[i], p.value)
  }

  predicate CountsAgree(streams: seq<Stream>, tracks: seq<Track>) {
    && |TracksOf(tracks, Video)| == |OfType(streams, Video)|
    && |TracksOf(tracks, Audio)| == |OfType(streams, Audio)|
    && |TracksOf(tracks, Subtitle)| == |OfType(streams, Subtitle)|
  }

  ghost predicate Alignable(streams: seq<Stream>, tracks: seq<Track>) {
    (forall i: nat | i < |streams| :: CompatibleAt(streams, tracks, i)) && CountsAgree(streams, tracks)
  }

  function NoId(s: Stream): Stream {
    s.(mkvId := -1)
  }

  ghost predicate SameButIds(a: seq<Stream>, b: seq<Stream>) {
    |a| == |b| && forall i | 0 <= i < |a| :: NoId(a[i]) == NoId(b[i])
  }

  // ---- what the loops of alignMkvIDs maintain ----

  ghost predicate Grouped(lists: map<Kind, seq<Track>>, tracks: seq<Track>) {
    forall kind :: (if kind in lists then lists[kind] else []) == TracksOf(tracks, kind)
  }

  ghost predicate Counted(seen: map<Kind, nat>, streams: seq<Stream>, n: nat)
    requires n <= |streams|
  {
    forall kind :: (if kind in seen then seen[kind] else 0) == |OfType(streams[..n], kind)|
  }

  lemma CountStep(seen: map<Kind, nat>, streams: seq<Stream>, n: nat)
    requires n < |streams| && Counted(seen, streams, n)
    ensures var pos := if streams[n].kind in seen then seen[streams[n].kind] else 0;
            Counted(seen[streams[n].kind := pos + 1], streams, n + 1)
  {
    forall kind ensures |OfType(streams[..n + 1], kind)|
                     == |OfType(streams[..n], kind)| + if streams[n].kind == kind then 1 else 0
    {
      OfTypeSnoc(streams, n, kind);
    }
  }

  lemma PartnerFound(streams: seq<Stream>, tracks: seq<Track>, lists: map<Kind, seq<Track>>, seen: map<Kind, nat>, i: nat)
    requires i < |streams| && Grouped(lists, tracks) && Counted(seen, streams, i)
    ensures var list := if streams[i].kind in lists then lists[streams[i].kind] else [];
            var pos := if streams[i].kind in seen then seen[streams[i].kind] else 0;
            && (CompatibleAt(streams, tracks, i) <==> (pos < |list| ==> Compatible(streams[i], list[pos])))
            && WithId(streams, tracks, i) == (if pos < |list| then streams[i].(mkvId := list[pos].id) else streams[i])
  {
  }

  /** The streams after the pass has handled the first i of them. */
  ghost function Progress(streams: seq<Stream>, tracks: seq<Track>, i: nat): seq<Stream>
    requires i <= |streams|
  {
    WithIds(streams, tracks)[..i] + streams[i..]
  }

  lemma ProgressStep(streams: seq<Stream>, tracks: seq<Track>, i: nat)
    requires i < |streams|
    ensures Progress(streams, tracks, i)[i] == streams[i]
    ensures Progress(streams, tracks, i + 1) == Progress(streams, tracks, i)[i := WithId(streams, tracks, i)]
    ensures WithId(streams, tracks, i) == streams[i] ==> Progress(streams, tracks, i + 1) == Progress(streams, tracks, i)
  {
    var done := WithIds(streams, tracks);
    assert done[..i + 1] == done[..i] + [done[i]];
    assert streams[i..] == [streams[i]] + streams[i + 1..];
  }

  lemma ProgressKeeps(streams: seq<Stream>, tracks: seq<Track>, i: nat)
    requires i <= |streams|
    ensures SameButIds(streams, Progress(streams, tracks, i))
  {
    forall k | 0 <= k < |streams| ensures NoId(streams[k]) == NoId(Progress(streams, tracks, i)[k]) {
      if k < i {
        assert Progress(streams, tracks, i)[k] == WithId(streams, tracks, k);
      }
    }
  }

  /** What the pass has established after its first i streams. */
  ghost predicate Passed(before: seq<Stream>, tracks: seq<Track>, seen: map<Kind, nat>, i: nat, now: seq<Stream>) {
    && i <= |before| && now == Progress(before, tracks, i) && Counted(seen, before, i)
    && forall k: nat | k < i :: CompatibleAt(before, tracks, k)
  }

  /** One turn of the pass, with the track found at the stream's position, if any. */
  lemma PassStep(before: seq<Stream>, tracks: seq<Track>, lists: map<Kind, seq<Track>>, seen: map<Kind, nat>, i: nat,
                 now: seq<Stream>)
    requires Grouped(lists, tracks) && i < |before| && Passed(before, tracks, seen, i, now)
    ensures |now| == |before| && now[i] == before[i]
    ensures var list := if now[i].kind in lists then lists[now[i].kind] else [];
            var pos := if now[i].kind in seen then seen[now[i].kind] else 0;
            var next := if pos < |list| then now[i := now[i].(mkvId := list[pos].id)] else now;
            && next == Progress(before, tracks, i + 1) && SameButIds(before, next)
            && (CompatibleAt(before, tracks, i) <==> (pos < |list| ==> Compatible(now[i], list[pos])))
            && (CompatibleAt(before, tracks, i) ==> Passed(before, tracks, seen[now[i].kind := pos + 1], i + 1, next))
  {
    ProgressStep(before, tracks, i);
    PartnerFound(before, tracks, lists, seen, i);
    CountStep(seen, before, i);
    ProgressKeeps(before, tracks, i + 1);
  }

  datatype AlignError = LanguageMismatch | CodecMismatch | CountMismatch

  class ProbeResult {
    var streams: seq<Stream>
    const duration: real
    const size: int

    ghost function View(): Report
      reads this
    {
      Report(streams, duration, size)
    }

    constructor (report: Report)
      ensures View() == report
    {
      streams, duration, size := report.streams, report.duration, report.size;
    }

    method StreamsOfType(kind: Kind) returns (out: seq<Stream>)
      ensures out == OfType(streams, kind)
    {
      out := [];
      for i := 0 to |streams|
        invariant out == OfType(streams[..i], kind)
      {
        OfTypeSnoc(streams, i, kind);
        if streams[i].kind == kind {
          out := out + [streams[i]];
        }
      }
      assert streams[..|streams|] == streams;
    }

    /** The first half of alignMkvIDs: one pass that assigns ids and checks languages and codecs. */
    method AssignIds(tracks: seq<Track>, lists: map<Kind, seq<Track>>) returns (err: Option<AlignError>)
      requires Grouped(lists, tracks)
      modifies this
      ensures SameButIds(old(streams), streams)
      ensures err.None? <==> forall i: nat | i < |old(streams)| :: CompatibleAt(old(streams), tracks, i)
      ensures err.None? ==> streams == WithIds(old(streams), tracks)
    {
      ghost var before := streams;
      var seen: map<Kind, nat> := map[];
      var i := 0;
      while i < |streams|
        invariant |streams| == |before| && Passed(before, tracks, seen, i, streams)
        decreases |before| - i
      {
        err, streams, seen := AssignOne(streams, i, lists, seen, before, tracks);
        if err.Some? {
          return err;
        }
        i := i + 1;
      }
      ProgressKeeps(before, tracks, i);
      assert Progress(before, tracks, i) == WithIds(before, tracks);
      return None;
    }

    method CompareKind(tracks: seq<Track>, lists: map<Kind, seq<Track>>, kind: Kind) returns (same: bool)
      requires Grouped(lists, tracks)
      ensures same <==> |TracksOf(tracks, kind)| == |OfType(streams, kind)|
    {
      var list := if kind in lists then lists[kind] else [];
      var found := StreamsOfType(kind);
      return |list| == |found|;
    }

    /** The second half: the number of tracks of each media type must agree. */
    method CompareCounts(tracks: seq<Track>, lists: map<Kind, seq<Track>>) returns (err: Option<AlignError>)
      requires Grouped(lists, tracks)
      ensures err.None? <==> CountsAgree(streams, tracks)
    {
      for k := 0 to 3
        invariant k > 0 ==> |TracksOf(tracks, Video)| == |OfType(streams, Video)|
        invariant k > 1 ==> |TracksOf(tracks, Audio)| == |OfType(streams, Audio)|
        invariant k > 2 ==> |TracksOf(tracks, Subtitle)| == |OfType(streams, Subtitle)|
      {
        var same := CompareKind(tracks, lists, if k == 0 then Video else if k == 1 then Audio else Subtitle);
        if !same {
          return Some(CountMismatch);
        }
      }
      return None;
    }

    method AlignMkvIds(tracks: seq<Track>) returns (err: Option<AlignError>)
      modifies this
      ensures SameButIds(old(streams), streams)
      ensures err.None? <==> Alignable(old(streams), tracks)
      ensures err.None? ==> streams == WithIds(old(streams), tracks)
    {
      var lists := GroupTracks(tracks);
      err := AssignIds(tracks, lists);
      if err.None? {
        SameCounts(old(streams), streams, tracks);
        err := CompareCounts(tracks, lists);
      }
    }

    /**
     The end of Probe: attach mkvmerge's ids to a parsed result, and on any
     failure set every id back to -1. `ident` is what `mkvmerge -J` reported.
     */
    method AttachOrReset(matroska: bool, hasMkvmerge: bool, ident: Option<seq<Track>>)
      requires forall s | s in streams :: s.mkvId == -1  // as ParseFFprobe leaves them
      modifies this
      ensures streams ==
              if matroska && hasMkvmerge && ident.Some? && Alignable(old(streams), ident.value)
              then WithIds(old(streams), ident.value) else old(streams)
    {
      if matroska && hasMkvmerge {
        var failed := ident.None?;
        if ident.Some? {
          var err := AlignMkvIds(ident.value);
          failed := err.Some?;
        }
        if failed {
          ghost var before := old(streams);
          for i := 0 to |streams|
            invariant SameButIds(before, streams)
            invariant forall k | 0 <= k < i :: streams[k] == before[k]
          {
            assert before[i] in before;
            streams := streams[i := streams[i].(mkvId := -1)];
          }
        }
      }
    }
  }

  /** The body of the pass: the stream takes the id of the track at its position within its type. */
  method AssignOne(now: seq<Stream>, i: nat, lists: map<Kind, seq<Track>>, seen: map<Kind, nat>,
                   ghost before: seq<Stream>, ghost tracks: seq<Track>)
    returns (err: Option<AlignError>, next: seq<Stream>, counted: map<Kind, nat>)
    requires Grouped(lists, tracks) && i < |before| && Passed(before, tracks, seen, i, now)
    ensures next == Progress(before, tracks, i + 1) && SameButIds(before, next)
    ensures err.None? <==> CompatibleAt(before, tracks, i)
    ensures err.None? ==> Passed(before, tracks, counted, i + 1, next)
  {
    PassStep(before, tracks, lists, seen, i, now);
    next, counted := now, seen;
    var s := now[i];
    var list := if s.kind in lists then lists[s.kind] else [];
    var pos := if s.kind in seen then seen[s.kind] else 0;
    if pos < |list| {
      next := now[i := s.(mkvId := list[pos].id)];
      if !LangsCompatible(s.lang, list[pos].lang) {
        return Some(LanguageMismatch), next, counted;
      }
      if !CodecsCompatible(list[pos].codecId, s.codec) {
        return Some(CodecMismatch), next, counted;
      }
    }
    counted := seen[s.kind := pos + 1];
    return None, next, counted;
  }

  method GroupTracks(tracks: seq<Track>) returns (lists: map<Kind, seq<Track>>)
    ensures Grouped(lists, tracks)
  {
    lists := map[];
    for i := 0 to |tracks|
      invariant Grouped(lists, tracks[..i])
    {
      assert tracks[..i + 1][..i] == tracks[..i];
      var ft := FfKind(tracks[i].kind);
      if ft.Some? {
        var sofar := if ft.value in lists then lists[ft.value] else [];
        lists := lists[ft.value := sofar + [tracks[i]]];
      }
    }
    assert tracks[..|tracks|] == tracks;
  }

  lemma {:induction false} SameKindsSameCount(a: seq<Stream>, b: seq<Stream>, kind: Kind)
    requires |a| == |b| && forall i | 0 <= i < |a| :: a[i].kind == b[i].kind
    ensures |OfType(a, kind)| == |OfType(b, kind)|
  {
    if a != [] {
      SameKindsSameCount(a[..|a| - 1], b[..|b| - 1], kind);
    }
  }

  lemma SameCounts(a: seq<Stream>, b: seq<Stream>, tracks: seq<Track>)
    requires SameButIds(a, b)
    ensures CountsAgree(a, tracks) <==> CountsAgree(b, tracks)
  {
    assert forall i | 0 <= i < |a| :: NoId(a[i]).kind == NoId(b[i]).kind;
    SameKindsSameCount(a, b, Video);
    SameKindsSameCount(a, b, Audio);
    SameKindsSameCount(a, b, Subtitle);
  }

  // ---- what a successful alignment means ----

  function Ids(streams: seq<Stream>): seq<int> {
    seq(|streams|, i requires 0 <= i < |streams| => streams[i].mkvId)
  }

  function Indexes(streams: seq<Stream>): seq<int> {
    seq(|streams|, i requires 0 <= i < |streams| => streams[i].index)
  }

  function TrackIds(tracks: seq<Track>): seq<int> {
    seq(|tracks|, i requires 0 <= i < |tracks| => tracks[i].id)
  }

  predicate Fits(s: Stream, t: Track) {
    s.mkvId == t.id && Compatible(s, t)
  }

  ghost predicate AlignedTo(got: seq<Stream>, list: seq<Track>) {
    forall k | 0 <= k < |got| && k < |list| :: Fits(got[k], list[k])
  }

  /** Stream i of the aligned list fits the track at its rank. */
  ghost predicate FitsAt(streams: seq<Stream>, aligned: seq<Stream>, list: seq<Track>, i: nat)
    requires i < |streams| == |aligned|
  {
    aligned[i].kind == streams[i].kind && (Rank(streams, i) < |list| ==> Fits(aligned[i], list[Rank(streams, i)]))
  }

  lemma AlignedAt(streams: seq<Stream>, tracks: seq<Track>, i: nat)
    requires i < |streams| && CompatibleAt(streams, tracks, i)
    ensures FitsAt(streams, WithIds(streams, tracks), TracksOf(tracks, streams[i].kind), i)
  {
  }

  lemma {:induction false} AlignedPrefix(streams: seq<Stream>, aligned: seq<Stream>, list: seq<Track>, kind: Kind, n: nat)
    requires n <= |streams| == |aligned|
    requires forall i: nat | i < |streams| :: aligned[i].kind == streams[i].kind
    requires forall i: nat | i < |streams| && streams[i].kind == kind :: FitsAt(streams, aligned, list, i)
    ensures |OfType(aligned[..n], kind)| == |OfType(streams[..n], kind)|
    ensures AlignedTo(OfType(aligned[..n], kind), list)
  {
    if n > 0 {
      AlignedPrefix(streams, aligned, list, kind, n - 1);
      OfTypeSnoc(streams, n - 1, kind);
      OfTypeSnoc(aligned, n - 1, kind);
      if streams[n - 1].kind == kind {
        assert FitsAt(streams, aligned, list, n - 1);
      }
    }
  }

  lemma {:induction false} TracksAre(tracks: seq<Track>, kind: Kind, k: nat)
    requires k < |TracksOf(tracks, kind)|
    ensures TracksOf(tracks, kind)[k] in tracks && FfKind(TracksOf(tracks, kind)[k].kind) == Some(kind)
    ensures kind.Media() && TracksOf(tracks, kind)[k].kind == MkvWord(kind)
  {
    if k < |TracksOf(tracks[..|tracks| - 1], kind)| {
      TracksAre(tracks[..|tracks| - 1], kind, k);
    }
  }

  lemma AllFit(streams: seq<Stream>, tracks: seq<Track>, kind: Kind)
    requires forall i: nat | i < |streams| :: CompatibleAt(streams, tracks, i)
    ensures var aligned := WithIds(streams, tracks);
            forall i: nat | i < |streams| && streams[i].kind == kind :: FitsAt(streams, aligned, TracksOf(tracks, kind), i)
  {
    forall i: nat | i < |streams| && streams[i].kind == kind
      ensures FitsAt(streams, WithIds(streams, tracks), TracksOf(tracks, kind), i)
    {
      AlignedAt(streams, tracks, i);
    }
  }

  lemma AlignedList(streams: seq<Stream>, aligned: seq<Stream>, list: seq<Track>, kind: Kind)
    requires |streams| == |aligned| && |list| == |OfType(streams, kind)|
    requires forall i: nat | i < |streams| :: aligned[i].kind == streams[i].kind
    requires forall i: nat | i < |streams| && streams[i].kind == kind :: FitsAt(streams, aligned, list, i)
    ensures Ids(OfType(aligned, kind)) == TrackIds(list)
    ensures forall k | 0 <= k < |list| :: Compatible(OfType(aligned, kind)[k], list[k])
  {
    AlignedPrefix(streams, aligned, list, kind, |streams|);
    assert streams[..|streams|] == streams && aligned[..|streams|] == aligned;
  }

  /**
   When the alignment succeeds, the k-th stream of each media type carries the
   id of the k-th mkvmerge track of that type, with compatible language and codec.
   */
  lemma AlignmentIsExact(streams: seq<Stream>, tracks: seq<Track>, kind: Kind)
    requires Alignable(streams, tracks) && kind.Media()
    ensures Ids(OfType(WithIds(streams, tracks), kind)) == TrackIds(TracksOf(tracks, kind))
    ensures forall k | 0 <= k < |TracksOf(tracks, kind)| ::
              Compatible(OfType(WithIds(streams, tracks), kind)[k], TracksOf(tracks, kind)[k])
  {
    AllFit(streams, tracks, kind);
    AlignedList(streams, WithIds(streams, tracks), TracksOf(tracks, kind), kind);
  }

  /** Neither side contradicts the other: a language or codec that both know is the same. */
  predicate Agrees(s: Stream, t: Track) {
    && (s.lang != "" && t.lang != "" ==> s.lang == t.lang)
    && (s.codec != "" && t.codecId in MKV_CODEC_NAMES ==> ToLower(s.codec) == ToLower(MKV_CODEC_NAMES[t.codecId]))
  }

  lemma CompatibleIsAgreeing(s: Stream, t: Track)
    ensures Compatible(s, t) <==> Agrees(s, t)
  {
    assert "" !in MKV_CODEC_NAMES;
  }

  /**
   Exactly when an alignment succeeds: each stream agrees with the track at its
   rank, if there is one, and of each media type there are as many of both.
   */
  lemma AlignsExactly(streams: seq<Stream>, tracks: seq<Track>)
    ensures Alignable(streams, tracks) <==>
              && (forall i: nat | i < |streams| && Rank(streams, i) < |TracksOf(tracks, streams[i].kind)| ::
                    Agrees(streams[i], TracksOf(tracks, streams[i].kind)[Rank(streams, i)]))
              && forall kind: Kind | kind.Media() :: |TracksOf(tracks, kind)| == |OfType(streams, kind)|
  {
    forall i: nat | i < |streams| && Rank(streams, i) < |TracksOf(tracks, streams[i].kind)|
      ensures Compatible(streams[i], TracksOf(tracks, streams[i].kind)[Rank(streams, i)])
          <==> Agrees(streams[i], TracksOf(tracks, streams[i].kind)[Rank(streams, i)])
    {
      CompatibleIsAgreeing(streams[i], TracksOf(tracks, streams[i].kind)[Rank(streams, i)]);
    }
    if Alignable(streams, tracks) {
      forall i: nat | i < |streams| && Rank(streams, i) < |TracksOf(tracks, streams[i].kind)|
        ensures Agrees(streams[i], TracksOf(tracks, streams[i].kind)[Rank(streams, i)])
      {
        assert CompatibleAt(streams, tracks, i);
      }
    }
    assert CountsAgree(streams, tracks) <==>
      forall kind: Kind | kind.Media() :: |TracksOf(tracks, kind)| == |OfType(streams, kind)| by {
      assert Video.Media() && Audio.Media() && Subtitle.Media();
    }
  }

  /** Attachments, data and other streams keep the id they had, aligned or not. */
  lemma OtherStreamsKeepTheirId(streams: seq<Stream>, tracks: seq<Track>, i: nat)
    requires i < |streams| && !streams[i].kind.Media()
    ensures WithIds(streams, tracks)[i] == streams[i]
  {
    if Partner(streams, tracks, i).Some? {
      TracksAre(tracks, streams[i].kind, Rank(streams, i));
    }
  }

  /** An aligned media stream always has a track: its id is one of mkvmerge's. */
  lemma AlignedHasTrack(streams: seq<Stream>, tracks: seq<Track>, i: nat)
    requires Alignable(streams, tracks) && i < |streams| && streams[i].kind.Media()
    ensures Partner(streams, tracks, i).Some?
    ensures WithIds(streams, tracks)[i].mkvId == Partner(streams, tracks, i).value.id
    ensures Partner(streams, tracks, i).value in tracks
  {
    RankInType(streams, i);
    TracksAre(tracks, streams[i].kind, Rank(streams, i));
  }

  lemma {:induction false} OfTypePrefix(streams: seq<Stream>, n: nat, kind: Kind)
    requires n <= |streams|
    ensures OfType(streams[..n], kind) <= OfType(streams, kind)
    decreases |streams| - n
  {
    if n < |streams| {
      OfTypeSnoc(streams, n, kind);
      OfTypePrefix(streams, n + 1, kind);
    } else {
      assert streams[..n] == streams;
    }
  }

  /** Stream i is the element at its rank in the list of its type. */
  lemma RankInType(streams: seq<Stream>, i: nat)
    requires i < |streams|
    ensures Rank(streams, i) < |OfType(streams, streams[i].kind)|
    ensures OfType(streams, streams[i].kind)[Rank(streams, i)] == streams[i]
  {
    OfTypeSnoc(streams, i, streams[i].kind);
    OfTypePrefix(streams, i + 1, streams[i].kind);
  }
}
