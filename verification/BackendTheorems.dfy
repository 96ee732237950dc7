/** Both backends keep exactly the streams a removal spec leaves. */
module BackendTheorems {
  import opened Wrappers
  import opened Text
  import opened Streams
  import opened Removal
  import opened Backends
  import opened BackendMeaning

  // ---- mkvmerge reads back the keep-lists ----

  function Numerals(ids: seq<int>): seq<string> {
    seq(|ids|, k requires 0 <= k < |ids| => Itoa(ids[k]))
  }

  ghost predicate NonNegative(ids: seq<int>) {
    forall k | 0 <= k < |ids| :: ids[k] >= 0
  }

  lemma {:induction false} KeepIdsAre(list: seq<Stream>, removed: seq<int>)
    ensures KeepIds(list, removed) == Numerals(Ids(Kept(list, removed)))
  {
    if list != [] {
      KeepIdsAre(list[..|list| - 1], removed);
    }
  }

  lemma {:induction false} NumeralsParse(ids: seq<int>)
    requires NonNegative(ids)
    ensures ParseIds(Numerals(ids)) == Some(ids)
  {
    if ids != [] {
      NumeralsParse(ids[1..]);
      AtoiItoa(ids[0]);
      assert Numerals(ids)[1..] == Numerals(ids[1..]);
      assert [ids[0]] + ids[1..] == ids;
    }
  }

  lemma ListParses(ids: seq<int>)
    requires NonNegative(ids) && ids != []
    ensures ParseIds(Split(Join(Numerals(ids), ','), ',')) == Some(ids)
  {
    forall k | 0 <= k < |ids| ensures ',' !in Numerals(ids)[k] {
      assert AllDigits(NatToString(ids[k]));
    }
    SplitJoin(Numerals(ids), ',');
    NumeralsParse(ids);
  }

  /** What the options for one track type select. */
  function Chosen(list: seq<Stream>, removed: seq<int>): Selection {
    if removed == [] then Every
    else if Kept(list, removed) == [] then Nothing
    else Only(Ids(Kept(list, removed)))
  }

  function Options(list: seq<Stream>, removed: seq<int>, none: string, only: string): seq<string> {
    if removed == [] then [] else Selector(KeepIds(list, removed), none, only)
  }

  lemma AudioWordsRead(rest: seq<string>, value: string)
    requires ReadMkv(rest).Some?
    ensures ReadMkv(["--no-audio"] + rest) == Some(ReadMkv(rest).value.(audio := Nothing))
    ensures ParseIds(Split(value, ',')).Some? ==>
              ReadMkv(["--audio-tracks", value] + rest)
              == Some(ReadMkv(rest).value.(audio := Only(ParseIds(Split(value, ',')).value)))
  {
    var none, only := "--no-audio", "--audio-tracks";
    assert MkvWordOf(none) == NoAudio && MkvWordOf(only) == AudioTracks;
    assert ([none] + rest)[1..] == rest;
    assert ([only, value] + rest)[2..] == rest;
  }

  lemma AudioOptionsRead(list: seq<Stream>, removed: seq<int>, rest: seq<string>)
    requires NonNegative(Ids(Kept(list, removed)))
    requires ReadMkv(rest).Some? && ReadMkv(rest).value.audio == Every
    ensures ReadMkv(Options(list, removed, "--no-audio", "--audio-tracks") + rest)
         == Some(ReadMkv(rest).value.(audio := Chosen(list, removed)))
  {
    var none, only := "--no-audio", "--audio-tracks";
    var opts := Options(list, removed, none, only);
    var ids := Ids(Kept(list, removed));
    KeepIdsAre(list, removed);
    if removed == [] {
      assert opts + rest == rest;
    } else {
      var value := Join(Numerals(ids), ',');
      AudioWordsRead(rest, value);
      if Kept(list, removed) == [] {
        assert opts == [none];
      } else {
        ListParses(ids);
        assert opts == [only, value];
      }
    }
  }

  lemma SubWordsRead(rest: seq<string>, value: string)
    requires ReadMkv(rest).Some?
    ensures ReadMkv(["--no-subtitles"] + rest) == Some(ReadMkv(rest).value.(subs := Nothing))
    ensures ParseIds(Split(value, ',')).Some? ==>
              ReadMkv(["--subtitle-tracks", value] + rest)
              == Some(ReadMkv(rest).value.(subs := Only(ParseIds(Split(value, ',')).value)))
  {
    var none, only := "--no-subtitles", "--subtitle-tracks";
    assert MkvWordOf(none) == NoSubs && MkvWordOf(only) == SubTracks;
    assert ([none] + rest)[1..] == rest;
    assert ([only, value] + rest)[2..] == rest;
  }

  lemma SubOptionsRead(list: seq<Stream>, removed: seq<int>, rest: seq<string>)
    requires NonNegative(Ids(Kept(list, removed)))
    requires ReadMkv(rest).Some? && ReadMkv(rest).value.subs == Every
    ensures ReadMkv(Options(list, removed, "--no-subtitles", "--subtitle-tracks") + rest)
         == Some(ReadMkv(rest).value.(subs := Chosen(list, removed)))
  {
    var none, only := "--no-subtitles", "--subtitle-tracks";
    var opts := Options(list, removed, none, only);
    var ids := Ids(Kept(list, removed));
    KeepIdsAre(list, removed);
    if removed == [] {
      assert opts + rest == rest;
    } else {
      var value := Join(Numerals(ids), ',');
      SubWordsRead(rest, value);
      if Kept(list, removed) == [] {
        assert opts == [none];
      } else {
        ListParses(ids);
        assert opts == [only, value];
      }
    }
  }

  function MkvMeaning(streams: seq<Stream>, path: string, spec: Spec, tmp: string): MkvCommand {
    MkvCommand(Chosen(OfType(streams, Audio), spec.audio), Chosen(OfType(streams, Subtitle), spec.subs),
               tmp, [SafePathArg(path)])
  }

  lemma {:induction false} KeptAre(list: seq<Stream>, removed: seq<int>, k: nat)
    requires k < |Kept(list, removed)|
    ensures Kept(list, removed)[k] in list && Kept(list, removed)[k].index !in removed
  {
    if k < |Kept(list[..|list| - 1], removed)| {
      KeptAre(list[..|list| - 1], removed, k);
    }
  }

  lemma KeptIdsKnown(streams: seq<Stream>, kind: Kind, removed: seq<int>)
    requires kind == Audio || kind == Subtitle
    requires MkvIdsKnown(streams)
    ensures NonNegative(Ids(Kept(OfType(streams, kind), removed)))
  {
    var list := OfType(streams, kind);
    forall k | 0 <= k < |Kept(list, removed)| ensures Kept(list, removed)[k].mkvId >= 0 {
      KeptAre(list, removed, k);
      var j :| 0 <= j < |list| && list[j] == Kept(list, removed)[k];
      var i := OfTypeFrom(streams, kind, j);
    }
  }

  lemma FileRead(path: string)
    ensures ReadMkv([SafePathArg(path)]) == Some(MkvCommand(Every, Every, "", [SafePathArg(path)]))
  {
    var args := [SafePathArg(path)];
    SafeIsFile(path);
    var none: seq<string> := [];
    assert args[1..] == none;
    assert args + none == args;
  }

  /** A guarded path is a file name to either tool, whatever the path is. */
  lemma SafeIsFile(path: string)
    ensures MkvWordOf(SafePathArg(path)) == File && FfWordOf(SafePathArg(path)) == OutFile
  {
    var first := SafePathArg(path)[0];
    assert first == '/' || first == '.' by {
      if "/" <= path {
        assert path[0] == "/"[0];
      }
    }
  }

  /** mkvmerge reads its command line as: these selections, this output, this one input. */
  lemma MkvReads(streams: seq<Stream>, path: string, spec: Spec, tmp: string)
    requires MkvIdsKnown(streams)
    ensures ReadMkv(WithOutput(Mkvmerge, MkvLine(streams, path, spec), tmp)) == Some(MkvMeaning(streams, path, spec, tmp))
  {
    var audio := Options(OfType(streams, Audio), spec.audio, "--no-audio", "--audio-tracks");
    var subs := Options(OfType(streams, Subtitle), spec.subs, "--no-subtitles", "--subtitle-tracks");
    var file := [SafePathArg(path)];
    FileRead(path);
    KeptIdsKnown(streams, Audio, spec.audio);
    KeptIdsKnown(streams, Subtitle, spec.subs);
    SubOptionsRead(OfType(streams, Subtitle), spec.subs, file);
    AudioOptionsRead(OfType(streams, Audio), spec.audio, subs + file);
    assert MkvLine(streams, path, spec) == audio + (subs + file);
    OutputRead(MkvLine(streams, path, spec), tmp);
  }

  lemma OutputWordRead(rest: seq<string>, tmp: string)
    requires ReadMkv(rest).Some?
    ensures ReadMkv(["-o", tmp] + rest) == Some(ReadMkv(rest).value.(output := tmp))
  {
    var word := "-o";
    assert MkvWordOf(word) == Output;
    assert ([word, tmp] + rest)[2..] == rest;
  }

  lemma QuietWordRead(rest: seq<string>)
    ensures ReadMkv(["-q"] + rest) == ReadMkv(rest)
  {
    var word := "-q";
    assert MkvWordOf(word) == Quiet;
    assert ([word] + rest)[1..] == rest;
  }

  lemma OutputRead(rest: seq<string>, tmp: string)
    requires ReadMkv(rest).Some?
    ensures ReadMkv(["-q", "-o", tmp] + rest) == Some(ReadMkv(rest).value.(output := tmp))
  {
    OutputWordRead(rest, tmp);
    QuietWordRead(["-o", tmp] + rest);
    assert ["-q", "-o", tmp] + rest == ["-q"] + (["-o", tmp] + rest);
  }

  // ---- and copies the tracks of the kept streams ----

  ghost predicate DistinctIds(ids: seq<int>) {
    forall i, j | 0 <= i < j < |ids| :: ids[i] != ids[j]
  }

  function Copied(tracks: seq<Track>, sel: Selection): seq<Track> {
    if tracks == [] then []
    else
      var last := tracks[|tracks| - 1];
      Copied(tracks[..|tracks| - 1], sel) + if Selects(sel, last.id) then [last] else []
  }

  lemma TracksOfAppend(a: seq<Track>, b: seq<Track>, kind: Kind)
    requires |b| <= 1
    ensures TracksOf(a + b, kind) == TracksOf(a, kind) + TracksOf(b, kind)
  {
    if b == [] {
      assert a + b == a;
    } else {
      assert (a + b)[..|a|] == a && b[..0] == [];
    }
  }

  lemma CopiedAppend(a: seq<Track>, b: seq<Track>, sel: Selection)
    requires |b| <= 1
    ensures Copied(a + b, sel) == Copied(a, sel) + Copied(b, sel)
  {
    if b == [] {
      assert a + b == a;
    } else {
      assert (a + b)[..|a|] == a && b[..0] == [];
    }
  }

  lemma {:induction false} OutputByKind(cmd: MkvCommand, tracks: seq<Track>, kind: Kind)
    ensures TracksOf(MkvOutput(cmd, tracks), kind) == Copied(TracksOf(tracks, kind), SelectionFor(cmd, Some(kind)))
  {
    if tracks != [] {
      var init, last := tracks[..|tracks| - 1], tracks[|tracks| - 1];
      OutputByKind(cmd, init, kind);
      var tail := if Selects(SelectionFor(cmd, FfKind(last.kind)), last.id) then [last] else [];
      TracksOfAppend(MkvOutput(cmd, init), tail, kind);
      CopiedAppend(TracksOf(init, kind), if FfKind(last.kind) == Some(kind) then [last] else [], SelectionFor(cmd, Some(kind)));
    }
  }

  /** Position by position, a track is selected exactly when its stream is kept. */
  ghost predicate SelectsKept(list: seq<Stream>, tracks: seq<Track>, removed: seq<int>, sel: Selection) {
    |list| == |tracks|
    && forall k | 0 <= k < |list| ::
         list[k].mkvId == tracks[k].id && (Selects(sel, tracks[k].id) <==> list[k].index !in removed)
  }

  lemma {:induction false} CopiedAreKept(list: seq<Stream>, tracks: seq<Track>, removed: seq<int>, sel: Selection)
    requires SelectsKept(list, tracks, removed, sel)
    ensures TrackIds(Copied(tracks, sel)) == Ids(Kept(list, removed))
  {
    if list != [] {
      var n := |list| - 1;
      CopiedAreKept(list[..n], tracks[..n], removed, sel);
      assert list[n].mkvId == tracks[n].id;
      if list[n].index in removed {
        assert Copied(tracks, sel) == Copied(tracks[..n], sel);
      } else {
        assert TrackIds(Copied(tracks, sel)) == TrackIds(Copied(tracks[..n], sel)) + [tracks[n].id];
        assert Ids(Kept(list, removed)) == Ids(Kept(list[..n], removed)) + [list[n].mkvId];
      }
    }
  }

  lemma {:induction false} KeptHas(list: seq<Stream>, removed: seq<int>, k: nat)
    requires k < |list| && list[k].index !in removed
    ensures list[k] in Kept(list, removed)
  {
    if k < |list| - 1 {
      KeptHas(list[..|list| - 1], removed, k);
    }
  }

  lemma KeptById(list: seq<Stream>, removed: seq<int>, k: nat)
    requires DistinctIds(Ids(list)) && k < |list| && list[k].mkvId in Ids(Kept(list, removed))
    ensures list[k].index !in removed
  {
    var kept := Kept(list, removed);
    var j :| 0 <= j < |kept| && Ids(kept)[j] == list[k].mkvId;
    KeptAre(list, removed, j);
    var i :| 0 <= i < |list| && list[i] == kept[j];
    assert Ids(list)[i] == Ids(list)[k];
    assert i == k;
  }

  lemma ChosenSelects(list: seq<Stream>, tracks: seq<Track>, removed: seq<int>)
    requires Ids(list) == TrackIds(tracks) && DistinctIds(Ids(list))
    ensures SelectsKept(list, tracks, removed, Chosen(list, removed))
  {
    assert |Ids(list)| == |list| && |TrackIds(tracks)| == |tracks|;
    var kept := Kept(list, removed);
    forall k | 0 <= k < |list|
      ensures list[k].mkvId == tracks[k].id
      ensures Selects(Chosen(list, removed), tracks[k].id) <==> list[k].index !in removed
    {
      assert Ids(list)[k] == TrackIds(tracks)[k];
      if list[k].index !in removed {
        KeptHas(list, removed, k);
        var j :| 0 <= j < |kept| && kept[j] == list[k];
        assert Ids(kept)[j] == list[k].mkvId;
      }
      if list[k].mkvId in Ids(kept) {
        KeptById(list, removed, k);
      }
    }
  }

  /** Exact alignment: k-th stream and k-th track of each media type, with no id shared within a type. */
  ghost predicate Exact(streams: seq<Stream>, tracks: seq<Track>) {
    forall kind: Kind | kind.Media() ::
      Ids(OfType(streams, kind)) == TrackIds(TracksOf(tracks, kind)) && DistinctIds(TrackIds(TracksOf(tracks, kind)))
  }

  lemma MkvKeepsTheRest(streams: seq<Stream>, tracks: seq<Track>, path: string, spec: Spec, tmp: string, kind: Kind)
    requires Exact(streams, tracks) && kind.Media()
    ensures TrackIds(TracksOf(MkvOutput(MkvMeaning(streams, path, spec, tmp), tracks), kind))
         == Ids(Kept(OfType(streams, kind), RemovedOf(spec, kind)))
  {
    var cmd := MkvMeaning(streams, path, spec, tmp);
    var list, removed := OfType(streams, kind), RemovedOf(spec, kind);
    OutputByKind(cmd, tracks, kind);
    ChosenSelects(list, TracksOf(tracks, kind), removed);
    assert SelectionFor(cmd, Some(kind)) == Chosen(list, removed);
    CopiedAreKept(list, TracksOf(tracks, kind), removed, Chosen(list, removed));
  }

  // ---- ffmpeg reads back the negative maps ----

  ghost predicate AllRead(maps: seq<string>) {
    forall k | 0 <= k < |maps| :: ReadMap(maps[k]).Some?
  }

  ghost function Read(maps: seq<string>): seq<MapArg>
    requires AllRead(maps)
  {
    seq(|maps|, k requires 0 <= k < |maps| => ReadMap(maps[k]).value)
  }

  /** Each option of ffmpeg's is read with its value, whatever follows. */
  lemma LogLevelRead(value: string, rest: seq<string>)
    ensures ReadFf(["-v", value] + rest) == ReadFf(rest)
  {
    var word := "-v";
    assert FfWordOf(word) == LogLevel;
    assert ([word, value] + rest)[2..] == rest;
  }

  lemma CodecRead(value: string, rest: seq<string>)
    ensures ReadFf(["-c", value] + rest)
         == if ReadFf(rest).Some? then Some(ReadFf(rest).value.(codec := Last(value, ReadFf(rest).value.codec))) else None
  {
    var word := "-c";
    assert FfWordOf(word) == Codec;
    assert ([word, value] + rest)[2..] == rest;
  }

  lemma FormatRead(value: string, rest: seq<string>)
    ensures ReadFf(["-f", value] + rest)
         == if ReadFf(rest).Some? then Some(ReadFf(rest).value.(format := Last(value, ReadFf(rest).value.format))) else None
  {
    var word := "-f";
    assert FfWordOf(word) == Format;
    assert ([word, value] + rest)[2..] == rest;
  }

  lemma MapOptionRead(m: string, rest: seq<string>)
    requires ReadMap(m).Some?
    ensures ReadFf(["-map", m] + rest)
         == if ReadFf(rest).Some? then Some(ReadFf(rest).value.(maps := [ReadMap(m).value] + ReadFf(rest).value.maps))
            else None
  {
    assert FfWordOf("-map") == Map;
    assert (["-map", m] + rest)[2..] == rest;
  }

  lemma InputRead(file: string, rest: seq<string>)
    ensures ReadFf(["-i", file] + rest) == if ReadFf(rest).Some? then Some(ReadFf(rest).value.(input := file)) else None
  {
    assert FfWordOf("-i") == Input;
    assert (["-i", file] + rest)[2..] == rest;
  }

  lemma Regroup<T>(a: seq<T>, b: seq<T>, c: seq<T>)
    ensures a + b + c == a + (b + c)
  {
  }

  lemma {:induction false} MapsRead(maps: seq<string>, rest: seq<string>)
    requires AllRead(maps)
    ensures ReadFf(MapArgs(maps) + rest)
         == if ReadFf(rest).Some? then Some(ReadFf(rest).value.(maps := Read(maps) + ReadFf(rest).value.maps)) else None
  {
    if maps == [] {
      assert MapArgs(maps) + rest == rest;
      if ReadFf(rest).Some? {
        assert Read(maps) + ReadFf(rest).value.maps == ReadFf(rest).value.maps;
      }
    } else {
      var n := |maps| - 1;
      var m := ReadMap(maps[n]).value;
      MapOptionRead(maps[n], rest);
      MapsRead(maps[..n], ["-map", maps[n]] + rest);
      Regroup(MapArgs(maps[..n]), ["-map", maps[n]], rest);
      assert Read(maps) == Read(maps[..n]) + [m];
      if ReadFf(rest).Some? {
        Regroup(Read(maps[..n]), [m], ReadFf(rest).value.maps);
      }
    }
  }

  lemma OverwriteRead(rest: seq<string>)
    ensures ReadFf(["-y"] + rest)
         == if ReadFf(rest).Some? then Some(ReadFf(rest).value.(overwrites := true)) else None
  {
    var word := "-y";
    assert FfWordOf(word) == Overwrite;
    assert ([word] + rest)[1..] == rest;
  }

  lemma HeadSplits(path: string, rest: seq<string>)
    ensures FfHead(path) + rest == ["-y"] + (["-v", "error"] + (["-i", SafePathArg(path)] + (["-map", "0"] + rest)))
  {
  }

  lemma HeadRead(path: string, rest: seq<string>)
    ensures ReadFf(FfHead(path) + rest)
         == if ReadFf(rest).Some?
            then Some(ReadFf(rest).value.(input := SafePathArg(path), maps := [AllStreams] + ReadFf(rest).value.maps,
                                          overwrites := true))
            else None
  {
    var map0 := ["-map", "0"] + rest;
    MapOptionRead("0", rest);
    var input := ["-i", SafePathArg(path)] + map0;
    InputRead(SafePathArg(path), map0);
    LogLevelRead("error", input);
    OverwriteRead(["-v", "error"] + input);
    HeadSplits(path, rest);
  }

  /** The format ffmpeg is told to write, for the files whose extension does not tell it. */
  function FormatFor(path: string): Option<string> {
    if ToLower(Ext(path)) == ".mp4" || ToLower(Ext(path)) == ".m4v" then Some("mp4") else None
  }

  lemma OutputFileRead(tmp: string)
    ensures if "-" <= tmp then ReadFf([tmp]).None? || ReadFf([tmp]).value.outputs == []
            else ReadFf([tmp]) == Some(FfCommand("", [], None, None, false, [tmp]))
  {
    var last, none: seq<string> := [tmp], [];
    assert last[1..] == none && last + none == last;
    assert ReadFf(none) == Some(FfCommand("", [], None, None, false, []));
  }

  /** The output file is read as one exactly when its name does not start with a dash. */
  lemma TailRead(path: string, tmp: string)
    ensures if "-" <= tmp then ReadFf(FfTail(path) + [tmp]).None? || ReadFf(FfTail(path) + [tmp]).value.outputs == []
            else ReadFf(FfTail(path) + [tmp]) == Some(FfCommand("", [], Some("copy"), FormatFor(path), false, [tmp]))
  {
    OutputFileRead(tmp);
    FormatRead("mp4", [tmp]);
    CodecRead("copy", ["-f", "mp4"] + [tmp]);
    CodecRead("copy", [tmp]);
    if FormatFor(path).Some? {
      assert FfTail(path) + [tmp] == ["-c", "copy"] + (["-f", "mp4"] + [tmp]);
    } else {
      assert FfTail(path) + [tmp] == ["-c", "copy"] + [tmp];
    }
  }

  function FfMeaning(path: string, maps: seq<MapArg>, tmp: string): FfCommand {
    FfCommand(SafePathArg(path), [AllStreams] + maps, Some("copy"), FormatFor(path), true, [tmp])
  }

  lemma FfReadsUnless(streams: seq<Stream>, path: string, spec: Spec, tmp: string)
    requires AllRead(SortStrings(FfNegatives(streams, spec)))
    ensures ReadFf(WithOutput(Ffmpeg, FfLine(streams, path, spec), tmp))
         == Some(FfMeaning(path, Read(SortStrings(FfNegatives(streams, spec))), tmp))
       <==> !("-" <= tmp)
  {
    var maps := SortStrings(FfNegatives(streams, spec));
    var tail := FfTail(path) + [tmp];
    TailRead(path, tmp);
    MapsRead(maps, tail);
    HeadRead(path, MapArgs(maps) + tail);
    Regroup(FfHead(path) + MapArgs(maps), FfTail(path), [tmp]);
    Regroup(FfHead(path), MapArgs(maps), tail);
    if !("-" <= tmp) {
      assert [AllStreams] + (Read(maps) + []) == [AllStreams] + Read(maps);
    }
  }

  /** The temporary file is named after the directory, so it starts with a dash exactly if that does. */
  lemma TempStarts(path: string, rnd: string)
    ensures "-" <= TempPath(path, rnd) <==> "-" <= Dir(path)
  {
    assert TempPath(path, rnd)[0] == Dir(path)[0];
  }

  /**
   ffmpeg reads its command line as: this input, everything mapped but the listed
   streams, this output; exactly when the cleaned directory of the media path
   does not start with a dash.
   */
  lemma FfReads(streams: seq<Stream>, path: string, spec: Spec, rnd: string)
    requires AllRead(SortStrings(FfNegatives(streams, spec)))
    ensures ReadFf(WithOutput(Ffmpeg, FfLine(streams, path, spec), TempPath(path, rnd)))
         == Some(FfMeaning(path, Read(SortStrings(FfNegatives(streams, spec))), TempPath(path, rnd)))
       <==> !("-" <= Dir(path))
  {
    FfReadsUnless(streams, path, spec, TempPath(path, rnd));
    TempStarts(path, rnd);
  }

  /**
   Whatever is mapped is copied, never encoded again, for every path and spec; the
   output format is named exactly for .mp4 and .m4v, in any case; and the output
   replaces the empty temporary file.
   */
  lemma FfCopies(streams: seq<Stream>, path: string, spec: Spec, rnd: string)
    requires AllRead(SortStrings(FfNegatives(streams, spec))) && !("-" <= Dir(path))
    ensures var cmd := ReadFf(WithOutput(Ffmpeg, FfLine(streams, path, spec), TempPath(path, rnd)));
            && cmd.Some? && cmd.value.codec == Some("copy") && cmd.value.overwrites
            && cmd.value.input == SafePathArg(path) && cmd.value.outputs == [TempPath(path, rnd)]
            && (cmd.value.format == Some("mp4") <==> ToLower(Ext(path)) == ".mp4" || ToLower(Ext(path)) == ".m4v")
            && (cmd.value.format == Some("mp4") || cmd.value.format.None?)
  {
    FfReads(streams, path, spec, rnd);
  }

  /** Absolute paths are never affected. */
  lemma AbsoluteIsSafe(path: string)
    requires "/" <= path
    ensures !("-" <= Dir(path))
  {
    SlashedPrefix(path);
  }

  /** Relative ones such as ./-x/y.mkv are, although SafePathArg guards the input's name. */
  lemma DashDirectory(d: string, base: string, streams: seq<Stream>, spec: Spec, rnd: string)
    requires "-" <= d && '/' !in d && '/' !in base && AllRead(SortStrings(FfNegatives(streams, spec)))
    ensures var path := "./" + d + "/" + base;
            ReadFf(WithOutput(Ffmpeg, FfLine(streams, path, spec), TempPath(path, rnd)))
            != Some(FfMeaning(path, Read(SortStrings(FfNegatives(streams, spec))), TempPath(path, rnd)))
  {
    assert d[0] == '-';
    DirOfDotted(d, base);
    FfReads(streams, "./" + d + "/" + base, spec, rnd);
  }

  // ---- and maps the kept streams, in whatever order the negatives come ----

  ghost predicate Hit(streams: seq<Stream>, drops: seq<MapArg>, i: nat)
    requires i < |streams|
  {
    exists k :: 0 <= k < |drops| && Hits(drops[k], streams, i)
  }

  ghost function Survivors(streams: seq<Stream>, drops: seq<MapArg>, n: nat): (at: seq<nat>)
    requires n <= |streams|
    ensures forall p | p in at :: p < n
  {
    if n == 0 then []
    else
      var before := Survivors(streams, drops, n - 1);
      if Hit(streams, drops, n - 1) then before else before + [n - 1]
  }

  lemma {:induction false} SurviveNone(streams: seq<Stream>, n: nat)
    requires n <= |streams|
    ensures Survivors(streams, [], n) == seq(n, i => i)
  {
    if n > 0 {
      SurviveNone(streams, n - 1);
    }
  }

  lemma HitOneMore(streams: seq<Stream>, drops: seq<MapArg>, m: MapArg, i: nat)
    requires i < |streams|
    ensures Hit(streams, drops + [m], i) <==> Hit(streams, drops, i) || Hits(m, streams, i)
  {
    var all := drops + [m];
    if k :| 0 <= k < |drops| && Hits(drops[k], streams, i) {
      assert all[k] == drops[k];
    }
    assert all[|drops|] == m;
  }

  lemma {:induction false} SurviveOneMore(streams: seq<Stream>, drops: seq<MapArg>, m: MapArg, n: nat)
    requires n <= |streams|
    ensures Spare(streams, m, Survivors(streams, drops, n)) == Survivors(streams, drops + [m], n)
  {
    if n > 0 {
      var i := n - 1;
      SurviveOneMore(streams, drops, m, i);
      HitOneMore(streams, drops, m, i);
      if !Hit(streams, drops, i) {
        var before := Survivors(streams, drops, i);
        assert (before + [i])[..|before|] == before;
      }
    }
  }

  lemma MappedOneMore(streams: seq<Stream>, maps: seq<MapArg>, m: MapArg)
    requires m != AllStreams
    ensures Mapped(streams, maps + [m]) == Spare(streams, m, Mapped(streams, maps))
  {
    assert (maps + [m])[..|maps|] == maps;
  }

  lemma MappedFirst(streams: seq<Stream>)
    ensures Mapped(streams, [AllStreams]) == Survivors(streams, [], |streams|)
  {
    SurviveNone(streams, |streams|);
    assert [AllStreams][..0] == [];
    assert Mapped(streams, []) == [];
  }

  lemma {:induction false} MappedAre(streams: seq<Stream>, drops: seq<MapArg>)
    requires AllStreams !in drops
    ensures Mapped(streams, [AllStreams] + drops) == Survivors(streams, drops, |streams|)
  {
    if drops == [] {
      assert [AllStreams] + drops == [AllStreams];
      MappedFirst(streams);
    } else {
      var init, last := drops[..|drops| - 1], drops[|drops| - 1];
      MappedAre(streams, init);
      SurviveOneMore(streams, init, last, |streams|);
      MappedOneMore(streams, [AllStreams] + init, last);
      assert init + [last] == drops;
      Regroup([AllStreams], init, [last]);
    }
  }

  lemma {:induction false} SurvivorsAreKept(streams: seq<Stream>, drops: seq<MapArg>, removed: seq<int>, n: nat)
    requires n <= |streams|
    requires forall i: nat | i < |streams| :: Hit(streams, drops, i) <==> streams[i].index in removed
    ensures At(streams, Survivors(streams, drops, n)) == Kept(streams[..n], removed)
  {
    if n > 0 {
      SurvivorsAreKept(streams, drops, removed, n - 1);
      assert streams[..n][..n - 1] == streams[..n - 1];
      assert Hit(streams, drops, n - 1) <==> streams[n - 1].index in removed;
      if !Hit(streams, drops, n - 1) {
        assert At(streams, Survivors(streams, drops, n)) == At(streams, Survivors(streams, drops, n - 1)) + [streams[n - 1]];
      }
    }
  }

  lemma {:induction false} PositionFinds(list: seq<Stream>, k: nat)
    requires DistinctIndexes(list) && k < |list|
    ensures PositionIn(list, list[k].index) == k
  {
    var n := |list| - 1;
    if k < n {
      PositionFinds(list[..n], k);
    } else if PositionIn(list[..n], list[k].index) >= 0 {
      PositionIs(list[..n], list[k].index);
    }
  }

  lemma {:induction false} PositionIs(list: seq<Stream>, index: int)
    requires PositionIn(list, index) >= 0
    ensures list[PositionIn(list, index)].index == index
  {
    var n := |list| - 1;
    if PositionIn(list[..n], index) >= 0 {
      PositionIs(list[..n], index);
    }
  }

  lemma {:induction false} NegativeOf(list: seq<Stream>, prefix: string, removed: seq<int>, x: int)
    requires x in removed
    ensures prefix + Itoa(PositionIn(list, x)) in Negatives(list, prefix, removed)
  {
    var n := |removed| - 1;
    if x != removed[n] {
      NegativeOf(list, prefix, removed[..n], x);
    }
  }

  lemma {:induction false} NegativeFrom(list: seq<Stream>, prefix: string, removed: seq<int>, s: string) returns (x: int)
    requires s in Negatives(list, prefix, removed)
    ensures x in removed && s == prefix + Itoa(PositionIn(list, x))
  {
    var n := |removed| - 1;
    x := removed[n];
    if s in Negatives(list, prefix, removed[..n]) {
      x := NegativeFrom(list, prefix, removed[..n], s);
    }
  }

  lemma NegativeReads(p: nat)
    ensures ReadMap(NEG_AUDIO + Itoa(p)) == Some(Without(Audio, p))
    ensures ReadMap(NEG_SUB + Itoa(p)) == Some(Without(Subtitle, p))
  {
    AtoiItoa(p);
    var a, s := NEG_AUDIO + Itoa(p), NEG_SUB + Itoa(p);
    assert a[|NEG_AUDIO|..] == Itoa(p) && s[|NEG_SUB|..] == Itoa(p);
    assert a[0] == '-' && s[0] == '-' && "0"[0] == '0';
    assert s[3] == 's' && NEG_AUDIO[3] == 'a';
  }

  /** A removed stream of the right type is found at its rank. */
  lemma RemovedAt(streams: seq<Stream>, removed: seq<int>, kind: Kind, x: int) returns (i: nat)
    requires DistinctIndexes(streams) && AllOfKind(streams, removed, kind) && x in removed
    ensures i < |streams| && streams[i].index == x && streams[i].kind == kind
    ensures PositionIn(OfType(streams, kind), x) == Rank(streams, i)
  {
    ByIndexFinds(streams, x);
    i :| i < |streams| && streams[i] == ByIndex(streams)[x] && streams[i].index == x;
    RankInType(streams, i);
    OfTypeDistinct(streams, kind);
    PositionFinds(OfType(streams, kind), Rank(streams, i));
  }

  ghost predicate SameElements(a: seq<string>, b: seq<string>) {
    forall s :: s in a <==> s in b
  }

  ghost predicate SpecOfKinds(streams: seq<Stream>, spec: Spec) {
    AllOfKind(streams, spec.audio, Audio) && AllOfKind(streams, spec.subs, Subtitle)
  }

  /** Every negative map of a validated spec names one removed stream. */
  lemma NegativeNames(streams: seq<Stream>, spec: Spec, s: string) returns (i: nat)
    requires DistinctIndexes(streams) && SpecOfKinds(streams, spec) && s in FfNegatives(streams, spec)
    ensures i < |streams| && streams[i].index in spec.audio + spec.subs
    ensures ReadMap(s) == Some(Without(streams[i].kind, Rank(streams, i)))
  {
    if s in Negatives(OfType(streams, Audio), NEG_AUDIO, spec.audio) {
      var x := NegativeFrom(OfType(streams, Audio), NEG_AUDIO, spec.audio, s);
      i := RemovedAt(streams, spec.audio, Audio, x);
    } else {
      var x := NegativeFrom(OfType(streams, Subtitle), NEG_SUB, spec.subs, s);
      i := RemovedAt(streams, spec.subs, Subtitle, x);
    }
    NegativeReads(Rank(streams, i));
  }

  /** Every removed stream is named by some negative map. */
  lemma NamedByNegative(streams: seq<Stream>, spec: Spec, i: nat) returns (s: string)
    requires DistinctIndexes(streams) && SpecOfKinds(streams, spec)
    requires i < |streams| && streams[i].index in spec.audio + spec.subs
    ensures s in FfNegatives(streams, spec) && ReadMap(s) == Some(Without(streams[i].kind, Rank(streams, i)))
  {
    IndexFound(streams, i);
    var kind, prefix := streams[i].kind, if streams[i].kind == Audio then NEG_AUDIO else NEG_SUB;
    var list := OfType(streams, kind);
    RankInType(streams, i);
    OfTypeDistinct(streams, kind);
    PositionFinds(list, Rank(streams, i));
    s := prefix + Itoa(Rank(streams, i));
    NegativeOf(list, prefix, RemovedOf(spec, kind), streams[i].index);
    NegativeReads(Rank(streams, i));
  }

  lemma TypeAndRankAreUnique(streams: seq<Stream>, i: nat, j: nat)
    requires i < |streams| && j < |streams|
    requires streams[i].kind == streams[j].kind && Rank(streams, i) == Rank(streams, j)
    ensures streams[i] == streams[j]
  {
    RankInType(streams, i);
    RankInType(streams, j);
  }

  lemma ReadInAnyOrder(streams: seq<Stream>, spec: Spec, maps: seq<string>)
    requires DistinctIndexes(streams) && SpecOfKinds(streams, spec)
    requires SameElements(maps, FfNegatives(streams, spec))
    ensures AllRead(maps) && AllStreams !in Read(maps)
    ensures forall i: nat | i < |streams| :: Hit(streams, Read(maps), i) <==> streams[i].index in spec.audio + spec.subs
  {
    forall k | 0 <= k < |maps| ensures ReadMap(maps[k]).Some? && ReadMap(maps[k]).value != AllStreams {
      assert maps[k] in maps;
      var i := NegativeNames(streams, spec, maps[k]);
    }
    var drops := Read(maps);
    forall i: nat | i < |streams|
      ensures Hit(streams, drops, i) <==> streams[i].index in spec.audio + spec.subs
    {
      if streams[i].index in spec.audio + spec.subs {
        var s := NamedByNegative(streams, spec, i);
        var k :| 0 <= k < |maps| && maps[k] == s;
        assert Hits(drops[k], streams, i);
      }
      if k :| 0 <= k < |drops| && Hits(drops[k], streams, i) {
        assert maps[k] in maps;
        var j := NegativeNames(streams, spec, maps[k]);
        TypeAndRankAreUnique(streams, i, j);
      }
    }
  }

  /**
   ffmpeg keeps exactly the streams that are not removed, in container order,
   whatever order (and however often) the negative maps are given in.
   */
  lemma FfKeepsTheRest(streams: seq<Stream>, spec: Spec, maps: seq<string>)
    requires DistinctIndexes(streams) && SpecOfKinds(streams, spec)
    requires SameElements(maps, FfNegatives(streams, spec))
    ensures AllRead(maps)
    ensures var at := Mapped(streams, [AllStreams] + Read(maps));
            (forall p | p in at :: p < |streams|) && At(streams, at) == Kept(streams, spec.audio + spec.subs)
  {
    ReadInAnyOrder(streams, spec, maps);
    MappedAre(streams, Read(maps));
    SurvivorsAreKept(streams, Read(maps), spec.audio + spec.subs, |streams|);
    assert streams[..|streams|] == streams;
  }

  // ---- sort.Strings ----

  ghost predicate Sorted(s: seq<string>) {
    forall i | 0 < i < |s| :: LexLeq(s[i - 1], s[i])
  }

  lemma {:induction false} LexTotal(a: string, b: string)
    ensures LexLeq(a, b) || LexLeq(b, a)
  {
    if a != "" && b != "" && a[0] == b[0] {
      LexTotal(a[1..], b[1..]);
    }
  }

  lemma {:induction false} InsertCounts(s: seq<string>, x: string)
    ensures multiset(InsertSorted(s, x)) == multiset(s) + multiset{x}
  {
    if s != [] {
      assert s == [s[0]] + s[1..];
      InsertCounts(s[1..], x);
    }
  }

  lemma ConsSorted(x: string, s: seq<string>)
    requires Sorted(s) && (s != [] ==> LexLeq(x, s[0]))
    ensures Sorted([x] + s)
  {
    forall i | 0 < i < |[x] + s| ensures LexLeq(([x] + s)[i - 1], ([x] + s)[i]) {
      if i > 1 {
        assert LexLeq(s[i - 2], s[i - 1]);
      }
    }
  }

  lemma {:induction false} InsertIsSorted(s: seq<string>, x: string)
    requires Sorted(s)
    ensures Sorted(InsertSorted(s, x))
    ensures InsertSorted(s, x)[0] == x || (s != [] && InsertSorted(s, x)[0] == s[0])
  {
    if s == [] {
    } else if LexLeq(x, s[0]) {
      ConsSorted(x, s);
    } else {
      LexTotal(x, s[0]);
      var rest := s[1..];
      assert Sorted(rest) by {
        forall i | 0 < i < |rest| ensures LexLeq(rest[i - 1], rest[i]) {
          assert LexLeq(s[i], s[i + 1]);
        }
      }
      if rest != [] {
        assert LexLeq(s[0], s[1]);
      }
      InsertIsSorted(rest, x);
      ConsSorted(s[0], InsertSorted(rest, x));
    }
  }

  /** a is a prefix of b, or smaller at the first position where they differ. */
  ghost predicate Precedes(a: string, b: string) {
    a <= b || exists k: nat :: DifferAt(a, b, k)
  }

  ghost predicate DifferAt(a: string, b: string, k: nat) {
    k < |a| && k < |b| && a[..k] == b[..k] && a[k] < b[k]
  }

  lemma DifferLater(x: char, a: string, b: string, k: nat)
    ensures DifferAt([x] + a, [x] + b, k + 1) <==> DifferAt(a, b, k)
  {
    var c, d := [x] + a, [x] + b;
    if k < |a| && k < |b| {
      assert c[..k + 1] == [x] + a[..k] && d[..k + 1] == [x] + b[..k];
      assert a[..k] == c[..k + 1][1..] && b[..k] == d[..k + 1][1..];
    }
  }

  lemma SameBefore(a: string, b: string, k: nat)
    requires DifferAt(a, b, k)
    ensures k > 0 ==> a[0] == b[0]
  {
    if k > 0 {
      assert a[..k][0] == b[..k][0];
    }
  }

  lemma PrecedesLater(x: char, a: string, b: string)
    ensures Precedes([x] + a, [x] + b) <==> Precedes(a, b)
  {
    var c, d := [x] + a, [x] + b;
    assert a == c[1..] && b == d[1..];
    if k: nat :| DifferAt(c, d, k) {
      DifferLater(x, a, b, k - 1);
    }
    if k: nat :| DifferAt(a, b, k) {
      DifferLater(x, a, b, k);
    }
  }

  lemma {:induction false} LexIsPrecedes(a: string, b: string)
    ensures LexLeq(a, b) <==> Precedes(a, b)
  {
    if a != "" && b != "" {
      assert a == [a[0]] + a[1..] && b == [b[0]] + b[1..];
      if a[0] == b[0] {
        LexIsPrecedes(a[1..], b[1..]);
        PrecedesLater(a[0], a[1..], b[1..]);
      } else {
        assert a[0] < b[0] ==> DifferAt(a, b, 0);
        forall k: nat | DifferAt(a, b, k) ensures k == 0 {
          SameBefore(a, b, k);
        }
      }
    }
  }

  lemma {:induction false} InsertionIsSorted(s: seq<string>)
    ensures Sorted(SortStrings(s)) && multiset(SortStrings(s)) == multiset(s)
  {
    if s != [] {
      InsertionIsSorted(s[1..]);
      InsertIsSorted(SortStrings(s[1..]), s[0]);
      InsertCounts(SortStrings(s[1..]), s[0]);
      assert s == [s[0]] + s[1..];
    }
  }

  lemma SortIsSorted(s: seq<string>)
    ensures multiset(SortStrings(s)) == multiset(s)
    ensures forall i | 0 < i < |SortStrings(s)| :: Precedes(SortStrings(s)[i - 1], SortStrings(s)[i])
  {
    InsertionIsSorted(s);
    forall i | 0 < i < |SortStrings(s)| ensures Precedes(SortStrings(s)[i - 1], SortStrings(s)[i]) {
      LexIsPrecedes(SortStrings(s)[i - 1], SortStrings(s)[i]);
    }
  }

  lemma SortKeepsElements(s: seq<string>)
    ensures SameElements(SortStrings(s), s)
  {
    SortIsSorted(s);
    forall x ensures x in SortStrings(s) <==> x in s {
      assert x in SortStrings(s) <==> x in multiset(SortStrings(s));
    }
  }

  // ---- the main results ----

  lemma AlignmentGivesExact(streams: seq<Stream>, tracks: seq<Track>)
    requires Alignable(streams, tracks) && DistinctIds(TrackIds(tracks))
    ensures Exact(WithIds(streams, tracks), tracks)
  {
    forall kind: Kind | kind.Media()
      ensures Ids(OfType(WithIds(streams, tracks), kind)) == TrackIds(TracksOf(tracks, kind))
      ensures DistinctIds(TrackIds(TracksOf(tracks, kind)))
    {
      AlignmentIsExact(streams, tracks, kind);
      TracksDistinct(tracks, kind);
    }
  }

  lemma {:induction false} TracksDistinct(tracks: seq<Track>, kind: Kind)
    requires DistinctIds(TrackIds(tracks))
    ensures DistinctIds(TrackIds(TracksOf(tracks, kind)))
  {
    if tracks != [] {
      var n := |tracks| - 1;
      assert TrackIds(tracks[..n]) == TrackIds(tracks)[..n];
      TracksDistinct(tracks[..n], kind);
      var list := TracksOf(tracks[..n], kind);
      forall k | 0 <= k < |list| ensures list[k].id != tracks[n].id {
        TracksAre(tracks[..n], kind, k);
        var j :| 0 <= j < n && tracks[j] == list[k];
        assert TrackIds(tracks)[j] != TrackIds(tracks)[n];
      }
      assert TracksOf(tracks, kind) == if FfKind(tracks[n].kind) == Some(kind) then list + [tracks[n]] else list;
      forall i, j | 0 <= i < j < |list| ensures list[i].id != list[j].id {
        assert TrackIds(list)[i] != TrackIds(list)[j];
      }
    }
  }

  /** What mkvmerge writes for a command line, by media type, as its track ids. */
  ghost function MkvWrites(args: seq<string>, tracks: seq<Track>, kind: Kind): Option<seq<int>> {
    var cmd := ReadMkv(args);
    if cmd.None? then None else Some(TrackIds(TracksOf(MkvOutput(cmd.value, tracks), kind)))
  }

  /** What ffmpeg writes: the mapped streams as they are, if it is to copy them to the one file, which is there already. */
  ghost function FfWrites(args: seq<string>, streams: seq<Stream>): Option<seq<Stream>> {
    var cmd := ReadFf(args);
    if cmd.None? || cmd.value.codec != Some("copy") || !cmd.value.overwrites || |cmd.value.outputs| != 1 || exists p :: p in Mapped(streams, cmd.value.maps) && p >= |streams| then None
    else Some(At(streams, Mapped(streams, cmd.value.maps)))
  }

  /** ffmpeg's command line for a validated spec writes exactly the kept streams. */
  lemma FfWritesTheKept(streams: seq<Stream>, path: string, spec: Spec, tmp: string)
    requires DistinctIndexes(streams) && SpecOfKinds(streams, spec) && !("-" <= tmp)
    ensures FfWrites(WithOutput(Ffmpeg, FfLine(streams, path, spec), tmp), streams)
         == Some(Kept(streams, spec.audio + spec.subs))
  {
    var negs := FfNegatives(streams, spec);
    SortKeepsElements(negs);
    FfKeepsTheRest(streams, spec, SortStrings(negs));
    FfReadsUnless(streams, path, spec, tmp);
  }

  /** mkvmerge's command line writes, of each media type, exactly the tracks of the kept streams. */
  lemma MkvWritesTheKept(streams: seq<Stream>, tracks: seq<Track>, path: string, spec: Spec, tmp: string, kind: Kind)
    requires DistinctIndexes(streams) && SpecOfKinds(streams, spec)
    requires Exact(streams, tracks) && MkvIdsKnown(streams) && kind.Media()
    ensures MkvWrites(WithOutput(Mkvmerge, MkvLine(streams, path, spec), tmp), tracks, kind)
         == Some(Ids(OfType(Kept(streams, spec.audio + spec.subs), kind)))
  {
    MkvReads(streams, path, spec, tmp);
    MkvKeepsTheRest(streams, tracks, path, spec, tmp, kind);
    KeptByKind(streams, spec, kind);
  }

  /**
   The two backends mean the same: for any spec whose indexes are of the right
   types, both write the streams it leaves, type by type and in order.
   */
  lemma BackendsAgree(streams: seq<Stream>, tracks: seq<Track>, path: string, spec: Spec, tmp: string, kind: Kind)
    requires DistinctIndexes(streams) && SpecOfKinds(streams, spec)
    requires Exact(streams, tracks) && MkvIdsKnown(streams) && kind.Media() && !("-" <= tmp)
    ensures var mkv := MkvWrites(WithOutput(Mkvmerge, MkvLine(streams, path, spec), tmp), tracks, kind);
            var ff := FfWrites(WithOutput(Ffmpeg, FfLine(streams, path, spec), tmp), streams);
            ff.Some? && mkv == Some(Ids(OfType(ff.value, kind)))
  {
    FfWritesTheKept(streams, path, spec, tmp);
    MkvWritesTheKept(streams, tracks, path, spec, tmp, kind);
  }

  // ---- the choice of tool ----

  /** The streams Probe returns, from ffprobe's streams and mkvmerge's identification, if any. */
  ghost function Probed(raw: seq<Stream>, ident: Option<seq<Track>>): seq<Stream> {
    if ident.Some? && Alignable(raw, ident.value) then WithIds(raw, ident.value) else raw
  }

  lemma AlignedIdsKnown(raw: seq<Stream>, tracks: seq<Track>)
    requires Alignable(raw, tracks) && NonNegative(TrackIds(tracks))
    ensures MkvIdsKnown(WithIds(raw, tracks))
  {
    var streams := WithIds(raw, tracks);
    forall s | s in streams && (s.kind == Audio || s.kind == Subtitle) ensures s.mkvId >= 0 {
      var i :| 0 <= i < |streams| && streams[i] == s;
      AlignedHasTrack(raw, tracks, i);
      var t := Partner(raw, tracks, i).value;
      var j :| 0 <= j < |tracks| && tracks[j] == t;
      assert TrackIds(tracks)[j] == t.id;
    }
  }

  /**
   For a non-empty validated spec the ids count as known exactly when mkvmerge's
   tracks align with the streams, so mkvmerge is only chosen on an exact alignment.
   */
  lemma MkvmergeOnlyWhenExact(raw: seq<Stream>, ident: Option<seq<Track>>, spec: Spec, allowLastAudio: bool)
    requires forall s | s in raw :: s.mkvId == -1
    requires ident.Some? ==> NonNegative(TrackIds(ident.value)) && DistinctIds(TrackIds(ident.value))
    requires ValidSpec(Probed(raw, ident), spec, allowLastAudio) && (spec.audio != [] || spec.subs != [])
    ensures MkvIdsKnown(Probed(raw, ident)) <==> ident.Some? && Alignable(raw, ident.value)
    ensures MkvIdsKnown(Probed(raw, ident)) ==> Exact(Probed(raw, ident), ident.value)
  {
    if ident.Some? && Alignable(raw, ident.value) {
      AlignedIdsKnown(raw, ident.value);
      AlignmentGivesExact(raw, ident.value);
    } else {
      var x := if spec.audio != [] then spec.audio[0] else spec.subs[0];
      ByIndexFinds(raw, x);
    }
  }

  lemma IdsDoNotMatter(raw: seq<Stream>, tracks: seq<Track>)
    requires DistinctIndexes(raw)
    ensures DistinctIndexes(WithIds(raw, tracks))
  {
    var streams := WithIds(raw, tracks);
    assert forall i | 0 <= i < |raw| :: streams[i].index == raw[i].index;
  }

  /** The streams of the list whose ids these are, by their ffprobe index. */
  ghost function IndexesOf(list: seq<Stream>, ids: seq<int>): seq<int> {
    seq(|ids|, k requires 0 <= k < |ids| => IndexWithId(list, ids[k]))
  }

  /** The index of the last stream of the list with this id; -1 if there is none. */
  function IndexWithId(list: seq<Stream>, id: int): int {
    if list == [] then -1
    else
      var last := list[|list| - 1];
      if last.mkvId == id then last.index else IndexWithId(list[..|list| - 1], id)
  }

  lemma {:induction false} IdNames(list: seq<Stream>, k: nat)
    requires DistinctIds(Ids(list)) && k < |list|
    ensures IndexWithId(list, list[k].mkvId) == list[k].index
  {
    var n := |list| - 1;
    if k < n {
      assert Ids(list)[k] != Ids(list)[n];
      assert Ids(list[..n]) == Ids(list)[..n];
      IdNames(list[..n], k);
    }
  }

  /** On an exact alignment the ids of some streams of a type name those streams. */
  lemma IdsNameStreams(list: seq<Stream>, some: seq<Stream>)
    requires DistinctIds(Ids(list)) && forall s | s in some :: s in list
    ensures IndexesOf(list, Ids(some)) == Indexes(some)
  {
    forall k | 0 <= k < |some| ensures IndexWithId(list, some[k].mkvId) == some[k].index {
      assert some[k] in list;
      var j :| 0 <= j < |list| && list[j] == some[k];
      IdNames(list, j);
    }
  }

  lemma {:induction false} KeptAreOfType(streams: seq<Stream>, removed: seq<int>, kind: Kind)
    ensures forall s | s in OfType(Kept(streams, removed), kind) :: s in OfType(streams, kind)
  {
    if streams != [] {
      KeptAreOfType(streams[..|streams| - 1], removed, kind);
      var rest, last := Kept(streams[..|streams| - 1], removed), streams[|streams| - 1];
      assert (rest + [last])[..|rest|] == rest;
      assert OfType(rest + [last], kind) == OfType(rest, kind) + if last.kind == kind then [last] else [];
      assert rest + [] == rest;
    }
  }

  /**
   The streams RemoveTracks's command leaves, by media type and as ffprobe
   indexes, whichever tool runs it; mkvmerge's tracks are named through the ids.
   */
  ghost function Written(tool: Tool, args: seq<string>, streams: seq<Stream>, ident: Option<seq<Track>>,
                         kind: Kind): Option<seq<int>> {
    match tool
    case Mkvmerge =>
      var out := if ident.None? then None else MkvWrites(args, ident.value, kind);
      if out.None? then None else Some(IndexesOf(OfType(streams, kind), out.value))
    case Ffmpeg => var out := FfWrites(args, streams); if out.None? then None else Some(Indexes(OfType(out.value, kind)))
  }

  /** RemoveTracks's command line, with the temporary file's name. */
  ghost function Command(tool: Tool, streams: seq<Stream>, path: string, spec: Spec, rnd: string): seq<string> {
    WithOutput(tool, if tool == Mkvmerge then MkvLine(streams, path, spec) else FfLine(streams, path, spec),
               TempPath(path, rnd))
  }

  lemma MkvmergeWritesTheKept(streams: seq<Stream>, tracks: seq<Track>, path: string, spec: Spec, rnd: string, kind: Kind)
    requires DistinctIndexes(streams) && SpecOfKinds(streams, spec)
    requires Exact(streams, tracks) && MkvIdsKnown(streams) && kind.Media()
    ensures Written(Mkvmerge, Command(Mkvmerge, streams, path, spec, rnd), streams, Some(tracks), kind)
         == Some(Indexes(OfType(Kept(streams, spec.audio + spec.subs), kind)))
  {
    MkvWritesTheKept(streams, tracks, path, spec, TempPath(path, rnd), kind);
    KeptAreOfType(streams, spec.audio + spec.subs, kind);
    IdsNameStreams(OfType(streams, kind), OfType(Kept(streams, spec.audio + spec.subs), kind));
  }

  /**
   RemoveTracks end to end, from probe to command line: for every validated
   non-empty spec, whichever tool buildArgs picks writes, of each media type,
   exactly the kept streams; with ffmpeg if the file's directory has no name
   that begins with a dash.
   */
  lemma RemovalIsExact(raw: seq<Stream>, ident: Option<seq<Track>>, spec: Spec, allowLastAudio: bool,
                       tool: Tool, path: string, rnd: string, kind: Kind)
    requires DistinctIndexes(raw) && forall s | s in raw :: s.mkvId == -1
    requires ident.Some? ==> NonNegative(TrackIds(ident.value)) && DistinctIds(TrackIds(ident.value))
    requires ValidSpec(Probed(raw, ident), spec, allowLastAudio) && (spec.audio != [] || spec.subs != [])
    requires if tool == Mkvmerge then MkvIdsKnown(Probed(raw, ident)) else !("-" <= Dir(path))
    requires kind.Media()
    ensures var streams := Probed(raw, ident);
            Written(tool, Command(tool, streams, path, spec, rnd), streams, ident, kind)
            == Some(Indexes(OfType(Kept(streams, spec.audio + spec.subs), kind)))
  {
    var streams := Probed(raw, ident);
    if ident.Some? {
      IdsDoNotMatter(raw, ident.value);
    }
    MkvmergeOnlyWhenExact(raw, ident, spec, allowLastAudio);
    if tool == Mkvmerge {
      MkvmergeWritesTheKept(streams, ident.value, path, spec, rnd, kind);
    } else {
      TempStarts(path, rnd);
      FfWritesTheKept(streams, path, spec, TempPath(path, rnd));
    }
  }
}
