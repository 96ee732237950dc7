/**
 The two remux backends as compilers (internal/engine/engine.go): a removal spec
 becomes a keep-list for mkvmerge or negative per-type positions for ffmpeg.
 The argument lists are real strings; what they mean is in `BackendMeaning`.
 */
module Backends {
  import opened Wrappers
  import opened Text
  import opened Streams
  import opened Removal

  /** probe.SafePathArg: never read as an option. */
  function SafePathArg(path: string): string {
    if "/" <= path then path else "./" + path
  }

  // ---- building the arguments ----

  function KeepIds(list: seq<Stream>, removed: seq<int>): seq<string> {
    if list == [] then []
    else
      var last := list[|list| - 1];
      KeepIds(list[..|list| - 1], removed) + if last.index in removed then [] else [Itoa(last.mkvId)]
  }

  function Selector(ids: seq<string>, none: string, only: string): seq<string> {
    if ids == [] then [none] else [only, Join(ids, ',')]
  }

  function MkvOptions(streams: seq<Stream>, spec: Spec): seq<string> {
    (if spec.audio == [] then []
     else Selector(KeepIds(OfType(streams, Audio), spec.audio), "--no-audio", "--audio-tracks"))
    + (if spec.subs == [] then []
       else Selector(KeepIds(OfType(streams, Subtitle), spec.subs), "--no-subtitles", "--subtitle-tracks"))
  }

  function MkvLine(streams: seq<Stream>, path: string, spec: Spec): seq<string> {
    MkvOptions(streams, spec) + [SafePathArg(path)]
  }

  method KeepList(res: ProbeResult, kind: Kind, removed: seq<int>) returns (ids: seq<string>)
    ensures ids == KeepIds(OfType(res.streams, kind), removed)
  {
    var list := res.StreamsOfType(kind);
    ids := [];
    for k := 0 to |list|
      invariant ids == KeepIds(list[..k], removed)
    {
      assert list[..k + 1][..k] == list[..k];
      if list[k].index !in removed {
        ids := ids + [Itoa(list[k].mkvId)];
      }
    }
    assert list[..|list|] == list;
  }

  method MkvmergeArgs(res: ProbeResult, path: string, spec: Spec) returns (args: seq<string>)
    ensures args == MkvLine(res.streams, path, spec)
  {
    args := [];
    if |spec.audio| > 0 {
      var ids := KeepList(res, Audio, spec.audio);
      args := args + if |ids| == 0 then ["--no-audio"] else ["--audio-tracks", Join(ids, ',')];
    }
    if |spec.subs| > 0 {
      var ids := KeepList(res, Subtitle, spec.subs);
      args := args + if |ids| == 0 then ["--no-subtitles"] else ["--subtitle-tracks", Join(ids, ',')];
    }
    args := args + [SafePathArg(path)];
  }

  /** The position of the stream with this index in the list, or -1. */
  function PositionIn(list: seq<Stream>, index: int): (p: int)
    ensures -1 <= p < |list|
  {
    if list == [] then -1
    else
      var p := PositionIn(list[..|list| - 1], index);
      if p >= 0 then p else if list[|list| - 1].index == index then |list| - 1 else -1
  }

  method Position(res: ProbeResult, kind: Kind, index: int) returns (p: int)
    ensures p == PositionIn(OfType(res.streams, kind), index)
  {
    var list := res.StreamsOfType(kind);
    for k := 0 to |list|
      invariant PositionIn(list[..k], index) == -1
    {
      assert list[..k + 1][..k] == list[..k];
      if list[k].index == index {
        FoundStays(list, k + 1, index);
        return k;
      }
    }
    assert list[..|list|] == list;
    return -1;
  }

  lemma {:induction false} FoundStays(list: seq<Stream>, n: nat, index: int)
    requires n <= |list| && PositionIn(list[..n], index) >= 0
    ensures PositionIn(list, index) == PositionIn(list[..n], index)
  {
    if n < |list| {
      assert list[..|list| - 1][..n] == list[..n];
      FoundStays(list[..|list| - 1], n, index);
    } else {
      assert list[..n] == list;
    }
  }

  function Negatives(list: seq<Stream>, prefix: string, removed: seq<int>): seq<string> {
    if removed == [] then []
    else
      var last := |removed| - 1;
      Negatives(list, prefix, removed[..last]) + [prefix + Itoa(PositionIn(list, removed[last]))]
  }

  const NEG_AUDIO := "-0:a:"
  const NEG_SUB := "-0:s:"

  predicate LexLeq(a: string, b: string) {
    a == "" || (b != "" && (a[0] < b[0] || (a[0] == b[0] && LexLeq(a[1..], b[1..]))))
  }

  function InsertSorted(s: seq<string>, x: string): seq<string> {
    if s == [] then [x]
    else if LexLeq(x, s[0]) then [x] + s
    else [s[0]] + InsertSorted(s[1..], x)
  }

  /** sort.Strings. */
  function SortStrings(s: seq<string>): seq<string> {
    if s == [] then [] else InsertSorted(SortStrings(s[1..]), s[0])
  }

  function MapArgs(maps: seq<string>): seq<string> {
    if maps == [] then [] else MapArgs(maps[..|maps| - 1]) + ["-map", maps[|maps| - 1]]
  }

  function FfNegatives(streams: seq<Stream>, spec: Spec): seq<string> {
    Negatives(OfType(streams, Audio), NEG_AUDIO, spec.audio)
    + Negatives(OfType(streams, Subtitle), NEG_SUB, spec.subs)
  }

  function FfHead(path: string): seq<string> {
    ["-y", "-v", "error", "-i", SafePathArg(path), "-map", "0"]
  }

  function FfTail(path: string): seq<string> {
    var ext := ToLower(Ext(path));
    if ext == ".m4v" || ext == ".mp4" then ["-c", "copy", "-f", "mp4"] else ["-c", "copy"]
  }

  function FfLine(streams: seq<Stream>, path: string, spec: Spec): seq<string> {
    FfHead(path) + MapArgs(SortStrings(FfNegatives(streams, spec))) + FfTail(path)
  }

  method NegativeMaps(res: ProbeResult, kind: Kind, prefix: string, removed: seq<int>) returns (negs: seq<string>)
    ensures negs == Negatives(OfType(res.streams, kind), prefix, removed)
  {
    negs := [];
    for k := 0 to |removed|
      invariant negs == Negatives(OfType(res.streams, kind), prefix, removed[..k])
    {
      assert removed[..k + 1][..k] == removed[..k];
      var p := Position(res, kind, removed[k]);
      negs := negs + [prefix + Itoa(p)];
    }
    assert removed[..|removed|] == removed;
  }

  method FfmpegArgs(res: ProbeResult, path: string, spec: Spec) returns (args: seq<string>)
    ensures args == FfLine(res.streams, path, spec)
  {
    var audio := NegativeMaps(res, Audio, NEG_AUDIO, spec.audio);
    var subs := NegativeMaps(res, Subtitle, NEG_SUB, spec.subs);
    var sorted := SortStrings(audio + subs);
    args := FfHead(path);
    for k := 0 to |sorted|
      invariant args == FfHead(path) + MapArgs(sorted[..k])
    {
      assert sorted[..k + 1][..k] == sorted[..k];
      args := args + ["-map", sorted[k]];
    }
    assert sorted[..|sorted|] == sorted;
    args := args + FfTail(path);
  }

  // ---- choosing the tool ----

  datatype Tool = Mkvmerge | Ffmpeg

  predicate MkvIdsKnown(streams: seq<Stream>) {
    forall s | s in streams :: s.kind == Audio || s.kind == Subtitle ==> s.mkvId >= 0
  }

  class Engine {
    const mkvmerge: bool
    const ffmpeg: bool

    constructor (mkvmerge: bool, ffmpeg: bool)
      ensures this.mkvmerge == mkvmerge && this.ffmpeg == ffmpeg
    {
      this.mkvmerge := mkvmerge;
      this.ffmpeg := ffmpeg;
    }

    method MkvIdsAllKnown(res: ProbeResult) returns (known: bool)
      ensures known == MkvIdsKnown(res.streams)
    {
      for i := 0 to |res.streams|
        invariant forall k | 0 <= k < i :: res.streams[k].kind in {Audio, Subtitle} ==> res.streams[k].mkvId >= 0
      {
        if (res.streams[i].kind == Audio || res.streams[i].kind == Subtitle) && res.streams[i].mkvId < 0 {
          return false;
        }
      }
      return true;
    }

    /** None: no remux tool is available. */
    method BuildArgs(res: ProbeResult, path: string, matroska: bool, spec: Spec)
      returns (out: Option<(Tool, seq<string>)>)
      ensures out == if matroska && mkvmerge && MkvIdsKnown(res.streams) then Some((Mkvmerge, MkvLine(res.streams, path, spec)))
                     else if ffmpeg then Some((Ffmpeg, FfLine(res.streams, path, spec)))
                     else None
    {
      var known := MkvIdsAllKnown(res);
      if matroska && mkvmerge && known {
        var args := MkvmergeArgs(res, path, spec);
        return Some((Mkvmerge, args));
      }
      if !ffmpeg {
        return None;
      }
      var args := FfmpegArgs(res, path, spec);
      return Some((Ffmpeg, args));
    }
  }

  /** outputArgs and reorderOutput: mkvmerge names its output first, ffmpeg last. */
  function WithOutput(tool: Tool, args: seq<string>, tmp: string): seq<string> {
    match tool
    case Mkvmerge => ["-q", "-o", tmp] + args
    case Ffmpeg => args + [tmp]
  }

  /** tempPath: what os.CreateTemp makes of the media file's directory and name; `rnd` is its random part. */
  function TempPath(path: string, rnd: string): string {
    var dir := Dir(path);
    var name := TempName(ShortName(path), rnd, Ext(path));
    if HasSuffix(dir, "/") then dir + name else dir + "/" + name
  }

  function ShortName(path: string): string {
    Truncate(TrimSuffix(Base(path), Ext(path)), 200)
  }

  function TempName(before: string, rnd: string, after: string): string {
    "." + before + ".muxprune.tmp." + rnd + after
  }

  /** A guarded path names the file it named. */
  lemma GuardedIsSame(path: string)
    ensures CleanPath(SafePathArg(path)) == CleanPath(path)
  {
    if !("/" <= path) {
      DottedIsSame(path);
    }
  }

  /** The mark by which a scan passes over temporary files. */
  const TEMP_MARK := ".muxprune.tmp."

  /**
   The temporary file lies in the media file's own directory, so that the rename
   stays on one filesystem; its name begins with a dot and carries the mark.
   */
  lemma TempIsBeside(path: string, rnd: string) returns (before: string, after: string)
    requires '/' !in rnd
    ensures UpToSlash(TempPath(path, rnd)) == if HasSuffix(Dir(path), "/") then Dir(path) else Dir(path) + "/"
    ensures Base(TempPath(path, rnd)) == "." + before + TEMP_MARK + rnd + after && |before| <= 200
    ensures before <= Base(path) && after == Ext(path)
  {
    before, after := ShortName(path), Ext(path);
    ShortNameBegins(path);
    ExtHasNoSlash(path);
    var name := TempName(before, rnd, after);
    InDirectory(Dir(path), name);
  }

  lemma ShortNameBegins(path: string)
    ensures ShortName(path) <= Base(path) && |ShortName(path)| <= 200 && '/' !in ShortName(path)
  {
    BaseOfPath(path);
  }

  lemma InDirectory(dir: string, name: string)
    requires '/' !in name
    ensures var path := if HasSuffix(dir, "/") then dir + name else dir + "/" + name;
            && UpToSlash(path) == (if HasSuffix(dir, "/") then dir else dir + "/")
            && Base(path) == name
  {
    if HasSuffix(dir, "/") {
      var d := dir[..|dir| - 1];
      assert dir == d + "/";
      assert dir + name == d + "/" + name;
      UpToLast(d, name);
      BaseAfter(d, name);
    } else {
      UpToLast(dir, name);
      BaseAfter(dir, name);
    }
  }

  lemma {:induction false} ExtHasNoSlash(path: string)
    ensures '/' !in Ext(path)
  {
    if path != "" && path[|path| - 1] != '/' && path[|path| - 1] != '.' {
      ExtHasNoSlash(path[..|path| - 1]);
    }
  }

  lemma {:induction false} BaseAfter(d: string, b: string)
    requires '/' !in b
    ensures Base(d + "/" + b) == b
  {
    var path := d + "/" + b;
    if b != "" {
      assert path[..|path| - 1] == d + "/" + b[..|b| - 1];
      BaseAfter(d, b[..|b| - 1]);
    }
  }
}
