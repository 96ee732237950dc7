/**
 External subtitles: how a file name is read (internal/scan/sidecar.go) and
 which video of a directory owns it (scanOne in internal/scan/scanner.go).
 */
module Sidecars {
  import opened Wrappers
  import opened Text
  import E = RecycleNames

  datatype Sidecar = Sidecar(name: string, lang: string, hi: bool, forced: bool, ext: string)

  const SUBTITLE_EXTS := {"srt", "ass", "ssa", "sub", "idx", "vtt", "smi", "sup"}
  const VIDEO_EXTS := {".mkv", ".mp4", ".m4v", ".avi", ".mov", ".webm", ".ts", ".m2ts", ".wmv", ".flv"}
  const HI_TOKENS := {"hi", "sdh", "cc"}
  const FORCED_TOKENS := {"forced", "foreign"}

  predicate IsVideo(name: string) {
    ToLower(Ext(name)) in VIDEO_EXTS
  }

  function BaseOf(name: string): string {
    TrimSuffix(name, Ext(name))
  }

  predicate Letters(s: string) {
    forall i | 0 <= i < |s| :: 'a' <= s[i] <= 'z' || 'A' <= s[i] <= 'Z'
  }

  /** ^[a-zA-Z]{2,3}(-[a-zA-Z]{2,4})?$ */
  predicate IsLang(tok: string) {
    var parts := Split(tok, '-');
    && 2 <= |parts[0]| <= 3 && Letters(parts[0])
    && (|parts| == 1 || (|parts| == 2 && 2 <= |parts[1]| <= 4 && Letters(parts[1])))
  }

  predicate IsHi(tok: string) {
    ToLower(tok) in HI_TOKENS
  }

  predicate IsForced(tok: string) {
    ToLower(tok) in FORCED_TOKENS
  }

  predicate NamesLang(tok: string) {
    !IsHi(tok) && !IsForced(tok) && IsLang(tok)
  }

  /** The dot-separated tokens after the base name, the extension last. */
  function Tokens(name: string, base: string): (parts: seq<string>)
    requires |base| < |name|
    ensures |parts| >= 1
  {
    Split(name[|base| + 1..], '.')
  }

  predicate Matches(name: string, base: string) {
    && |base| < |name| && base <= name && name[|base|] == '.'
    && var parts := Tokens(name, base); ToLower(parts[|parts| - 1]) in SUBTITLE_EXTS
  }

  /** lang is the first language token; flag words such as "hi" never count as one. */
  ghost predicate LangIs(lang: string, toks: seq<string>) {
    if exists i | 0 <= i < |toks| :: NamesLang(toks[i])
    then exists i | 0 <= i < |toks| ::
           NamesLang(toks[i]) && lang == ToLower(toks[i]) && forall j | 0 <= j < i :: !NamesLang(toks[j])
    else lang == ""
  }

  ghost predicate Reads(sc: Sidecar, toks: seq<string>) {
    && (sc.hi <==> exists i | 0 <= i < |toks| :: IsHi(toks[i]))
    && (sc.forced <==> exists i | 0 <= i < |toks| :: IsForced(toks[i]) && !IsHi(toks[i]))
    && LangIs(sc.lang, toks)
  }

  lemma ReadsOneMore(sc: Sidecar, toks: seq<string>, tok: string)
    requires Reads(sc, toks)
    ensures IsHi(tok) ==> Reads(sc.(hi := true), toks + [tok])
    ensures !IsHi(tok) && IsForced(tok) ==> Reads(sc.(forced := true), toks + [tok])
    ensures NamesLang(tok) && sc.lang == "" ==> Reads(sc.(lang := ToLower(tok)), toks + [tok])
    ensures !IsHi(tok) && !IsForced(tok) && (sc.lang != "" || !IsLang(tok)) ==> Reads(sc, toks + [tok])
  {
    var more := toks + [tok];
    assert more[|toks|] == tok;
    assert forall i | 0 <= i < |toks| :: more[i] == toks[i];
    LangOneMore(sc.lang, toks, tok);
  }

  lemma LangOneMore(lang: string, toks: seq<string>, tok: string)
    requires LangIs(lang, toks)
    ensures LangIs(if lang == "" && NamesLang(tok) then ToLower(tok) else lang, toks + [tok])
  {
    var more := toks + [tok];
    if i :| 0 <= i < |toks| && NamesLang(toks[i]) && lang == ToLower(toks[i]) && forall j | 0 <= j < i :: !NamesLang(toks[j]) {
      assert lang != "" by {
        assert toks[i] != "";
      }
      assert NamesLang(more[i]) && lang == ToLower(more[i]);
      assert forall j | 0 <= j < i :: !NamesLang(more[j]);
    } else {
      assert lang == "";
      if NamesLang(tok) {
        assert NamesLang(more[|toks|]);
        assert forall j | 0 <= j < |toks| :: !NamesLang(more[j]);
      }
    }
  }

  method MatchSidecar(name: string, base: string) returns (found: Option<Sidecar>)
    ensures found.Some? <==> Matches(name, base)
    ensures found.Some? ==>
              var parts := Tokens(name, base);
              && found.value.name == name && found.value.ext == ToLower(parts[|parts| - 1])
              && Reads(found.value, parts[..|parts| - 1])
  {
    if |name| <= |base| || !(base <= name) || name[|base|] != '.' {
      return None;
    }
    var parts := Split(name[|base| + 1..], '.');
    var ext := ToLower(parts[|parts| - 1]);
    if ext !in SUBTITLE_EXTS {
      return None;
    }
    var sc := Sidecar(name, "", false, false, ext);
    for k := 0 to |parts| - 1
      invariant sc.name == name && sc.ext == ext
      invariant Reads(sc, parts[..k])
    {
      assert parts[..k + 1] == parts[..k] + [parts[k]];
      sc := ReadToken(sc, parts[k], parts[..k]);
    }
    return Some(sc);
  }

  /** The body of the token loop. */
  method ReadToken(sc: Sidecar, tok: string, ghost before: seq<string>) returns (r: Sidecar)
    requires Reads(sc, before)
    ensures Reads(r, before + [tok]) && r.name == sc.name && r.ext == sc.ext
  {
    ReadsOneMore(sc, before, tok);
    r := sc;
    if IsHi(tok) {
      r := sc.(hi := true);
    } else if IsForced(tok) {
      r := sc.(forced := true);
    } else if sc.lang == "" && IsLang(tok) {
      r := sc.(lang := ToLower(tok));
    }
  }

  // ---- ownership in a directory ----

  /** Some other video of the directory has a longer base that also matches. */
  predicate OwnedByLonger(listing: seq<string>, name: string, base: string) {
    exists i | 0 <= i < |listing| ::
      IsVideo(listing[i]) && base + "." <= BaseOf(listing[i]) && Matches(name, BaseOf(listing[i]))
  }

  predicate Owns(listing: seq<string>, base: string, name: string) {
    Matches(name, base) && !OwnedByLonger(listing, name, base)
  }

  function OwnedNames(listing: seq<string>, base: string, names: seq<string>): seq<string> {
    if names == [] then []
    else
      var last := names[|names| - 1];
      OwnedNames(listing, base, names[..|names| - 1]) + if Owns(listing, base, last) then [last] else []
  }

  /** The names of scanOne's sidecars for the video with this base. */
  method CollectSidecars(listing: seq<string>, base: string) returns (owned: seq<string>)
    ensures owned == OwnedNames(listing, base, listing)
  {
    var longer := [];
    for i := 0 to |listing|
      invariant forall b | b in longer :: exists j | 0 <= j < i ::
                  IsVideo(listing[j]) && base + "." <= BaseOf(listing[j]) && b == BaseOf(listing[j])
      invariant forall j | 0 <= j < i && IsVideo(listing[j]) && base + "." <= BaseOf(listing[j]) ::
                  BaseOf(listing[j]) in longer
    {
      var other := BaseOf(listing[i]);
      if IsVideo(listing[i]) && base + "." <= other {
        longer := longer + [other];
      }
    }
    owned := [];
    for i := 0 to |listing|
      invariant owned == OwnedNames(listing, base, listing[..i])
    {
      assert listing[..i + 1][..i] == listing[..i];
      var m := MatchSidecar(listing[i], base);
      var taken := MatchedByAny(listing[i], longer);
      if m.Some? && !taken {
        owned := owned + [listing[i]];
      }
    }
    assert listing[..|listing|] == listing;
  }

  method MatchedByAny(name: string, bases: seq<string>) returns (matched: bool)
    ensures matched <==> exists b | b in bases :: Matches(name, b)
  {
    for i := 0 to |bases|
      invariant forall j | 0 <= j < i :: !Matches(name, bases[j])
    {
      var m := MatchSidecar(name, bases[i]);
      if m.Some? {
        return true;
      }
    }
    return false;
  }

  /** The bases of the directory's videos that match a name. */
  ghost function Candidates(listing: seq<string>, name: string): set<string> {
    set i | 0 <= i < |listing| && IsVideo(listing[i]) && Matches(name, BaseOf(listing[i])) :: BaseOf(listing[i])
  }

  lemma {:induction false} Longest(bases: set<string>) returns (b: string)
    requires bases != {}
    ensures b in bases && forall c | c in bases :: |c| <= |b|
  {
    var x :| x in bases;
    if bases == {x} {
      b := x;
    } else {
      var y := Longest(bases - {x});
      b := if |x| > |y| then x else y;
      assert forall c | c in bases :: c == x || c in bases - {x};
    }
  }

  /** Of two bases of one name, the shorter with its dot is a prefix of the longer. */
  lemma BasesNest(name: string, a: string, b: string)
    requires Matches(name, a) && Matches(name, b) && |a| < |b|
    ensures a + "." <= b
  {
    assert a == name[..|a|] && b == name[..|b|];
  }

  /** A video base owns a name exactly when it is the longest of those that match it. */
  lemma OwnerIsLongest(listing: seq<string>, name: string, base: string)
    requires base in Candidates(listing, name)
    ensures Owns(listing, base, name) <==> forall c | c in Candidates(listing, name) :: |c| <= |base|
  {
    if Owns(listing, base, name) {
      forall c | c in Candidates(listing, name) ensures |c| <= |base| {
        if |c| > |base| {
          BasesNest(name, base, c);
        }
      }
    }
    if forall c | c in Candidates(listing, name) :: |c| <= |base| {
      forall i | 0 <= i < |listing| && IsVideo(listing[i]) && Matches(name, BaseOf(listing[i]))
        ensures !(base + "." <= BaseOf(listing[i]))
      {
        assert BaseOf(listing[i]) in Candidates(listing, name);
      }
    }
  }

  /** Every subtitle name that some video base matches has exactly one owner. */
  lemma ExactlyOneOwner(listing: seq<string>, name: string) returns (owner: string)
    requires Candidates(listing, name) != {}
    ensures owner in Candidates(listing, name) && Owns(listing, owner, name)
    ensures forall b | b in Candidates(listing, name) && Owns(listing, b, name) :: b == owner
  {
    owner := Longest(Candidates(listing, name));
    OwnerIsLongest(listing, name, owner);
    forall b | b in Candidates(listing, name) && Owns(listing, b, name) ensures b == owner {
      OwnerIsLongest(listing, name, b);
      assert b == name[..|b|] && owner == name[..|owner|];
    }
  }

  lemma {:induction false} OwnedNamesAre(listing: seq<string>, base: string, names: seq<string>, name: string)
    ensures name in OwnedNames(listing, base, names) <==> name in names && Owns(listing, base, name)
  {
    if names != [] {
      var n := |names| - 1;
      OwnedNamesAre(listing, base, names[..n], name);
      assert names == names[..n] + [names[n]];
    }
  }

  /** Over the whole directory, scanOne collects each matched subtitle for one base, and no other. */
  lemma CollectedOnce(listing: seq<string>, name: string) returns (owner: string)
    requires name in listing && Candidates(listing, name) != {}
    ensures owner in Candidates(listing, name) && name in OwnedNames(listing, owner, listing)
    ensures forall i | 0 <= i < |listing| && IsVideo(listing[i]) ::
              name in OwnedNames(listing, BaseOf(listing[i]), listing) ==> BaseOf(listing[i]) == owner
  {
    owner := ExactlyOneOwner(listing, name);
    OwnedNamesAre(listing, owner, listing, name);
    forall i | 0 <= i < |listing| && IsVideo(listing[i]) && name in OwnedNames(listing, BaseOf(listing[i]), listing)
      ensures BaseOf(listing[i]) == owner
    {
      OwnedNamesAre(listing, BaseOf(listing[i]), listing, name);
      assert BaseOf(listing[i]) in Candidates(listing, name);
    }
  }

  // ---- language tokens ----

  /** Two or three letters, or those, a hyphen, and two to four letters. */
  lemma LangTokens(tok: string)
    ensures IsLang(tok) <==> IsShort(tok, 2, 3) || exists a, b :: IsShort(a, 2, 3) && IsShort(b, 2, 4) && tok == a + "-" + b
  {
    SplitJoins(tok, '-');
    var parts := Split(tok, '-');
    if |parts| == 1 {
      assert tok == parts[0];
    } else if |parts| == 2 && IsLang(tok) {
      assert [parts[0], parts[1]][1..] == [parts[1]] && parts == [parts[0], parts[1]];
      assert IsShort(parts[0], 2, 3) && IsShort(parts[1], 2, 4) && tok == parts[0] + "-" + parts[1];
    }
    if IsShort(tok, 2, 3) {
      SplitFirst(tok, "", '-');
    }
    if a, b :| IsShort(a, 2, 3) && IsShort(b, 2, 4) && tok == a + "-" + b {
      assert a + "-" + b == a + ['-'] + b;
      SplitFirst(a, b, '-');
      SplitFirst(b, "", '-');
    }
  }

  predicate IsShort(s: string, least: nat, most: nat) {
    least <= |s| <= most && forall i | 0 <= i < |s| :: 'a' <= s[i] <= 'z' || 'A' <= s[i] <= 'Z'
  }

  lemma {:induction false} SplitJoins(s: string, sep: char)
    ensures Join(Split(s, sep), sep) == s
  {
    if s != "" {
      SplitJoins(s[1..], sep);
      var rest := Split(s[1..], sep);
      assert rest == [rest[0]] + rest[1..];
    }
  }

  // ---- what the scanner collects, the engine agrees to delete ----

  /** What follows the last dot of s, if it has one. */
  predicate IsLast(s: string, last: string, whole: bool) {
    && '.' !in last && |last| <= |s| && s[|s| - |last|..] == last
    && if whole then last == s else |last| < |s| && s[|s| - |last| - 1] == '.'
  }

  lemma LastStays(s: string, last: string, whole: bool)
    requires s != "" && IsLast(s[1..], last, whole)
    ensures s[0] == '.' || !whole ==> IsLast(s, last, false)
    ensures s[0] != '.' && whole ==> IsLast(s, [s[0]] + last, true)
  {
    assert s[|s| - |last|..] == s[1..][|s| - 1 - |last|..];
    assert whole ==> [s[0]] + last == s;
  }

  lemma {:induction false} LastToken(s: string)
    ensures IsLast(s, Split(s, '.')[|Split(s, '.')| - 1], |Split(s, '.')| == 1)
  {
    if s != "" {
      LastToken(s[1..]);
      var rest := Split(s[1..], '.');
      LastStays(s, rest[|rest| - 1], |rest| == 1);
    }
  }

  lemma DottedExts(x: string)
    ensures x in SUBTITLE_EXTS <==> "." + x in E.SUBTITLE_EXTS
  {
    assert ("." + x)[1..] == x;
    assert ".srt"[1..] == "srt" && ".ass"[1..] == "ass" && ".ssa"[1..] == "ssa" && ".sub"[1..] == "sub";
    assert ".idx"[1..] == "idx" && ".vtt"[1..] == "vtt" && ".smi"[1..] == "smi" && ".sup"[1..] == "sup";
    assert "." + "srt" == ".srt" && "." + "ass" == ".ass" && "." + "ssa" == ".ssa" && "." + "sub" == ".sub";
    assert "." + "idx" == ".idx" && "." + "vtt" == ".vtt" && "." + "smi" == ".smi" && "." + "sup" == ".sup";
  }

  lemma ExtOfDotted(stem: string, last: string)
    requires '.' !in last && '/' !in last
    ensures Ext(stem + ("." + last)) == "." + last
  {
    var e := "." + last;
    forall i | 1 <= i < |e| ensures e[i] != '.' && e[i] != '/' {
      assert e[i] == last[i - 1] && last[i - 1] in last;
    }
    E.ExtOfSuffixed(stem, e);
  }

  lemma EndsDotted(name: string, k: nat, last: string, whole: bool)
    requires k < |name| && name[k] == '.' && IsLast(name[k + 1..], last, whole)
    ensures name == name[..|name| - |last| - 1] + ("." + last) && (forall c | c in last :: c in name)
  {
    var at := |name| - |last| - 1;
    assert name[at] == '.';
    assert name[at + 1..] == last;
    assert name == name[..at] + [name[at]] + name[at + 1..];
  }

  lemma ExtOfLast(name: string, k: nat, last: string, whole: bool)
    requires k < |name| && name[k] == '.' && '/' !in name && IsLast(name[k + 1..], last, whole)
    ensures Ext(name) == "." + last
  {
    EndsDotted(name, k, last, whole);
    ExtOfDotted(name[..|name| - |last| - 1], last);
  }

  lemma ExtIsLastToken(name: string, base: string)
    requires |base| < |name| && name[|base|] == '.' && '/' !in name
    ensures Ext(name) == "." + LastOf(name, base)
  {
    LastToken(name[|base| + 1..]);
    ExtOfLast(name, |base|, LastOf(name, base), |Tokens(name, base)| == 1);
  }

  function LastOf(name: string, base: string): string
    requires |base| < |name|
  {
    var parts := Tokens(name, base); parts[|parts| - 1]
  }

  lemma LowerDotted(s: string)
    ensures ToLower("." + s) == "." + ToLower(s)
  {
  }

  /**
   A name that begins with a video's base and a dot is collected as its sidecar
   exactly if the engine takes it for a subtitle, which it may delete.
   */
  lemma CollectedAreDeletable(name: string, base: string)
    requires |base| < |name| && base <= name && name[|base|] == '.' && '/' !in name
    ensures Matches(name, base) <==> E.IsSubtitle(name)
  {
    ExtIsLastToken(name, base);
    var last := LastOf(name, base);
    LowerDotted(last);
    DottedExts(ToLower(last));
  }
}
