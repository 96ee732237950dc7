/**
 What the two remux tools do with the argument lists of `Backends`. The tools
 are assumed to read their documented options as written here; a command line
 outside that subset reads as None.
 */
module BackendMeaning {
  import opened Wrappers
  import opened Text
  import opened Streams
  import opened Removal
  import opened Backends

  // ---- mkvmerge ----

  datatype Selection = Every | Nothing | Only(ids: seq<int>)

  datatype MkvCommand = MkvCommand(audio: Selection, subs: Selection, output: string, inputs: seq<string>)

  function ParseIds(parts: seq<string>): Option<seq<int>> {
    if parts == [] then Some([])
    else
      var first, rest := Atoi(parts[0]), ParseIds(parts[1..]);
      if first.Some? && rest.Some? then Some([first.value] + rest.value) else None
  }

  datatype MkvWord = Quiet | NoAudio | NoSubs | Output | AudioTracks | SubTracks | File | Unknown

  function MkvWordOf(arg: string): MkvWord {
    if !("-" <= arg || "@" <= arg) then File
    else if arg == "-q" then Quiet
    else if arg == "-o" then Output
    else if arg == "--no-audio" then NoAudio
    else if arg == "--no-subtitles" then NoSubs
    else if arg == "--audio-tracks" then AudioTracks
    else if arg == "--subtitle-tracks" then SubTracks
    else Unknown
  }

  /** The command line from its first word on; the words before it set no more than the defaults. */
  function ReadMkv(args: seq<string>): Option<MkvCommand> {
    if args == [] then Some(MkvCommand(Every, Every, "", []))
    else
      match MkvWordOf(args[0])
      case Unknown => None
      case Quiet => ReadMkv(args[1..])
      case File =>
        var r := ReadMkv(args[1..]);
        if r.Some? then Some(r.value.(inputs := [args[0]] + r.value.inputs)) else None
      case NoAudio =>
        var r := ReadMkv(args[1..]);
        if r.Some? then Some(r.value.(audio := Nothing)) else None
      case NoSubs =>
        var r := ReadMkv(args[1..]);
        if r.Some? then Some(r.value.(subs := Nothing)) else None
      case Output =>
        if |args| < 2 then None
        else
          var r := ReadMkv(args[2..]);
          if r.Some? then Some(r.value.(output := args[1])) else None
      case AudioTracks =>
        if |args| < 2 then None
        else
          var r, ids := ReadMkv(args[2..]), ParseIds(Split(args[1], ','));
          if r.Some? && ids.Some? then Some(r.value.(audio := Only(ids.value))) else None
      case SubTracks =>
        if |args| < 2 then None
        else
          var r, ids := ReadMkv(args[2..]), ParseIds(Split(args[1], ','));
          if r.Some? && ids.Some? then Some(r.value.(subs := Only(ids.value))) else None
  }

  predicate Selects(sel: Selection, id: int) {
    match sel
    case Every => true
    case Nothing => false
    case Only(ids) => id in ids
  }

  function SelectionFor(cmd: MkvCommand, kind: Option<Kind>): Selection {
    if kind == Some(Audio) then cmd.audio else if kind == Some(Subtitle) then cmd.subs else Every
  }

  /** The tracks mkvmerge copies, in container order. */
  function MkvOutput(cmd: MkvCommand, tracks: seq<Track>): seq<Track> {
    if tracks == [] then []
    else
      var last := tracks[|tracks| - 1];
      MkvOutput(cmd, tracks[..|tracks| - 1])
      + if Selects(SelectionFor(cmd, FfKind(last.kind)), last.id) then [last] else []
  }

  // ---- ffmpeg ----

  datatype MapArg = AllStreams | Without(kind: Kind, nth: nat)

  /** `codec` and `format` are those of the output; `overwrites`: an existing output file is replaced. */
  datatype FfCommand = FfCommand(input: string, maps: seq<MapArg>, codec: Option<string>, format: Option<string>,
                                 overwrites: bool, outputs: seq<string>)

  function ReadMap(m: string): Option<MapArg> {
    if m == "0" then Some(AllStreams)
    else if NEG_AUDIO <= m && Atoi(m[|NEG_AUDIO|..]).Some? then Some(Without(Audio, Atoi(m[|NEG_AUDIO|..]).value))
    else if NEG_SUB <= m && Atoi(m[|NEG_SUB|..]).Some? then Some(Without(Subtitle, Atoi(m[|NEG_SUB|..]).value))
    else None
  }

  datatype FfWord = Overwrite | Input | Map | Codec | Format | LogLevel | OutFile | UnknownOption

  function FfWordOf(arg: string): FfWord {
    if !("-" <= arg) then OutFile
    else if arg == "-y" then Overwrite
    else if arg == "-i" then Input
    else if arg == "-map" then Map
    else if arg == "-c" then Codec
    else if arg == "-f" then Format
    else if arg == "-v" then LogLevel
    else UnknownOption
  }

  /** Of an option given more than once the last one counts. */
  function Last(value: string, later: Option<string>): Option<string> {
    if later.Some? then later else Some(value)
  }

  function ReadFf(args: seq<string>): Option<FfCommand> {
    if args == [] then Some(FfCommand("", [], None, None, false, []))
    else
      match FfWordOf(args[0])
      case UnknownOption => None
      case Overwrite =>
        var r := ReadFf(args[1..]);
        if r.Some? then Some(r.value.(overwrites := true)) else None
      case OutFile =>
        var r := ReadFf(args[1..]);
        if r.Some? then Some(r.value.(outputs := [args[0]] + r.value.outputs)) else None
      case LogLevel => if |args| < 2 then None else ReadFf(args[2..])
      case Codec =>
        if |args| < 2 then None
        else
          var r := ReadFf(args[2..]);
          if r.Some? then Some(r.value.(codec := Last(args[1], r.value.codec))) else None
      case Format =>
        if |args| < 2 then None
        else
          var r := ReadFf(args[2..]);
          if r.Some? then Some(r.value.(format := Last(args[1], r.value.format))) else None
      case Input =>
        if |args| < 2 then None
        else
          var r := ReadFf(args[2..]);
          if r.Some? then Some(r.value.(input := args[1])) else None
      case Map =>
        if |args| < 2 then None
        else
          var r, m := ReadFf(args[2..]), ReadMap(args[1]);
          if r.Some? && m.Some? then Some(r.value.(maps := [m.value] + r.value.maps)) else None
  }

  predicate Hits(m: MapArg, streams: seq<Stream>, i: nat)
    requires i < |streams|
  {
    m == Without(streams[i].kind, Rank(streams, i))
  }

  /** The positions among `at` that a negative map leaves. */
  function Spare(streams: seq<Stream>, m: MapArg, at: seq<nat>): seq<nat> {
    if at == [] then []
    else
      var last := at[|at| - 1];
      Spare(streams, m, at[..|at| - 1]) + if last < |streams| && Hits(m, streams, last) then [] else [last]
  }

  /** ffmpeg applies -map options from left to right: the mapped stream positions, in output order. */
  function Mapped(streams: seq<Stream>, maps: seq<MapArg>): seq<nat> {
    if maps == [] then []
    else
      var sofar, m := Mapped(streams, maps[..|maps| - 1]), maps[|maps| - 1];
      if m == AllStreams then sofar + seq(|streams|, i => i) else Spare(streams, m, sofar)
  }

  function At(streams: seq<Stream>, at: seq<nat>): seq<Stream>
    requires forall p | p in at :: p < |streams|
  {
    seq(|at|, k requires 0 <= k < |at| => assert at[k] in at; streams[at[k]])
  }
}
