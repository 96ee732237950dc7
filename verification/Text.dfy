/**
 The string operations the program takes from its standard library: decimal
 conversion, splitting and joining, ASCII case folding and file extensions.
 */
module Text {
  import opened Wrappers

  // ---- decimal numbers (strconv.Itoa / Atoi) ----

  predicate IsDigit(c: char) {
    '0' <= c <= '9'
  }

  predicate AllDigits(s: string) {
    forall i | 0 <= i < |s| :: IsDigit(s[i])
  }

  function NatToString(n: nat): (s: string)
    ensures |s| > 0 && AllDigits(s)
  {
    var last := [(n % 10) as char + '0'];
    if n < 10 then last else NatToString(n / 10) + last
  }

  function Itoa(n: int): string {
    if n < 0 then "-" + NatToString(-n) else NatToString(n)
  }

  function DigitsValue(s: string): nat
    requires AllDigits(s)
  {
    if s == "" then 0 else DigitsValue(s[..|s| - 1]) * 10 + (s[|s| - 1] - '0') as nat
  }

  /** Reads a non-negative decimal number. */
  function Atoi(s: string): Option<nat> {
    if s != "" && AllDigits(s) then Some(DigitsValue(s)) else None
  }

  lemma {:induction false} DigitsRoundTrip(n: nat)
    ensures DigitsValue(NatToString(n)) == n
  {
    if n >= 10 {
      DigitsRoundTrip(n / 10);
      assert NatToString(n)[..|NatToString(n)| - 1] == NatToString(n / 10);
    } else {
      assert NatToString(n)[..0] == "";
    }
  }

  lemma AtoiItoa(n: nat)
    ensures Atoi(Itoa(n)) == Some(n)
  {
    DigitsRoundTrip(n);
  }

  lemma ItoaInjective(m: nat, n: nat)
    requires Itoa(m) == Itoa(n)
    ensures m == n
  {
    AtoiItoa(m);
    AtoiItoa(n);
  }

  // ---- split and join ----

  function Split(s: string, sep: char): (parts: seq<string>)
    ensures |parts| >= 1
  {
    if s == "" then [""]
    else
      var rest := Split(s[1..], sep);
      if s[0] == sep then [""] + rest else [[s[0]] + rest[0]] + rest[1..]
  }

  function Join(parts: seq<string>, sep: char): string {
    if |parts| == 0 then ""
    else if |parts| == 1 then parts[0]
    else parts[0] + [sep] + Join(parts[1..], sep)
  }

  lemma {:induction false} SplitFirst(p: string, rest: string, sep: char)
    requires sep !in p
    ensures Split(p, sep) == [p]
    ensures Split(p + [sep] + rest, sep) == [p] + Split(rest, sep)
  {
    if p == "" {
      assert ([sep] + rest)[1..] == rest;
      assert p + [sep] + rest == [sep] + rest;
    } else {
      SplitFirst(p[1..], rest, sep);
      assert (p + [sep] + rest)[1..] == p[1..] + [sep] + rest;
      assert [p[0]] + p[1..] == p;
    }
  }

  lemma {:induction false} SplitJoin(parts: seq<string>, sep: char)
    requires |parts| >= 1 && forall i | 0 <= i < |parts| :: sep !in parts[i]
    ensures Split(Join(parts, sep), sep) == parts
  {
    if |parts| == 1 {
      SplitFirst(parts[0], "", sep);
    } else {
      SplitJoin(parts[1..], sep);
      SplitFirst(parts[0], Join(parts[1..], sep), sep);
      assert [parts[0]] + parts[1..] == parts;
    }
  }

  // ---- ASCII case folding ----

  function Lower(c: char): char {
    if 'A' <= c <= 'Z' then c + ' ' else c
  }

  const UPPER := "ABCDEFGHIJKLMNOPQRSTUVWXYZ"
  const LOWER := "abcdefghijklmnopqrstuvwxyz"

  lemma LowerIsAscii(c: char)
    ensures forall k | 0 <= k < |UPPER| :: Lower(UPPER[k]) == LOWER[k]
    ensures c !in UPPER ==> Lower(c) == c
  {
    if 'A' <= c <= 'Z' {
      assert c == UPPER[c as int - 'A' as int];
    }
  }

  function ToLower(s: string): (r: string)
    ensures |r| == |s| && forall i | 0 <= i < |s| :: r[i] == Lower(s[i])
  {
    seq(|s|, i requires 0 <= i < |s| => Lower(s[i]))
  }

  predicate EqualFold(a: string, b: string) {
    ToLower(a) == ToLower(b)
  }

  // ---- affixes ----

  predicate HasSuffix(s: string, suffix: string) {
    |suffix| <= |s| && s[|s| - |suffix|..] == suffix
  }

  function TrimSuffix(s: string, suffix: string): string {
    if HasSuffix(s, suffix) then s[..|s| - |suffix|] else s
  }

  /** filepath.Ext: the suffix of the last path element from its last dot on, or "". */
  function Ext(name: string): (e: string)
    ensures HasSuffix(name, e)
    ensures e == "" || e[0] == '.'
  {
    if name == "" || name[|name| - 1] == '/' then ""
    else if name[|name| - 1] == '.' then "."
    else
      var e := Ext(name[..|name| - 1]);
      if e == "" then "" else e + [name[|name| - 1]]
  }

  // ---- paths (filepath.Base, Dir and Clean, and the engine's truncateBytes) ----

  /** filepath.Base of a path that does not end in a slash. */
  function Base(path: string): (b: string)
    ensures HasSuffix(path, b)
  {
    if path == "" || path[|path| - 1] == '/' then "" else Base(path[..|path| - 1]) + [path[|path| - 1]]
  }

  /** The path up to its last slash, with it. */
  function UpToSlash(path: string): string {
    if path == "" || path[|path| - 1] == '/' then path else UpToSlash(path[..|path| - 1])
  }

  /** The components that are left when "", "." and ".." are worked off. */
  function Resolve(parts: seq<string>, rooted: bool): seq<string> {
    if parts == [] then []
    else
      var sofar, last := Resolve(parts[..|parts| - 1], rooted), parts[|parts| - 1];
      if last == "" || last == "." then sofar
      else if last != ".." then sofar + [last]
      else if sofar != [] && sofar[|sofar| - 1] != ".." then sofar[..|sofar| - 1]
      else if rooted then sofar else sofar + [".."]
  }

  function CleanPath(path: string): (r: string)
    ensures r != "" && (r[0] == '/' <== "/" <= path)
  {
    var rooted := "/" <= path;
    var body := Join(Resolve(Split(path, '/'), rooted), '/');
    if rooted then "/" + body else if body == "" then "." else body
  }

  function Dir(path: string): string {
    CleanPath(UpToSlash(path))
  }

  lemma {:induction false} SlashedPrefix(path: string)
    requires "/" <= path
    ensures "/" <= UpToSlash(path)
  {
    if path[|path| - 1] != '/' {
      SlashedPrefix(path[..|path| - 1]);
    }
  }

  lemma {:induction false} UpToLast(dir: string, base: string)
    requires '/' !in base
    ensures UpToSlash(dir + "/" + base) == dir + "/"
  {
    var path := dir + "/" + base;
    if base != "" {
      assert path[|path| - 1] == base[|base| - 1];
      UpToLast(dir, base[..|base| - 1]);
      assert path[..|path| - 1] == dir + "/" + base[..|base| - 1];
    }
  }

  /** Cleaning takes the "./" off a directory's name. */
  lemma DirOfDotted(d: string, base: string)
    requires d != "" && d != "." && d != ".." && '/' !in d && '/' !in base
    ensures Dir("./" + d + "/" + base) == d
  {
    UpToLast("./" + d, base);
    assert "./" + d + "/" == "." + ['/'] + (d + "/");
    SplitFirst(".", d + "/", '/');
    assert d + "/" == d + ['/'] + "";
    SplitFirst(d, "", '/');
    var parts := [".", d, ""];
    assert Split("./" + d + "/", '/') == parts;
    assert ["."][..0] == [] && [".", d][..1] == ["."] && parts[..2] == [".", d];
    assert Resolve(["."], false) == [];
    assert Resolve([".", d], false) == [d];
    assert Resolve(parts, false) == [d];
  }

  /** truncateBytes, for names whose characters are single bytes. */
  function Truncate(s: string, max: nat): string {
    if |s| <= max then s else s[..max]
  }

  // ---- what cleaning leaves alone ----

  lemma {:induction false} ResolveDotted(parts: seq<string>)
    ensures Resolve(["."] + parts, false) == Resolve(parts, false)
  {
    var dotted := ["."] + parts;
    if parts == [] {
      assert dotted == ["."] && dotted[..0] == [];
      assert Resolve(dotted[..0], false) == [];
    } else {
      var n := |parts| - 1;
      ResolveDotted(parts[..n]);
      assert dotted[..|dotted| - 1] == ["."] + parts[..n];
    }
  }

  /** "./" in front of a relative path names the same file. */
  lemma DottedIsSame(path: string)
    requires !("/" <= path)
    ensures CleanPath("./" + path) == CleanPath(path)
  {
    assert "./" + path == "." + ['/'] + path;
    SplitFirst(".", path, '/');
    ResolveDotted(Split(path, '/'));
  }

  lemma {:induction false} BaseOfPath(path: string)
    ensures '/' !in Base(path) && path == UpToSlash(path) + Base(path)
  {
    if path != "" && path[|path| - 1] != '/' {
      BaseOfPath(path[..|path| - 1]);
    }
  }
}
