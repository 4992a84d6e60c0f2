/** The two path translations as functions on strings, the directory steps a path
    stands for in either syntax, and how the two agree. */
module PathSpec {
  import opened Sequences

  // ---------- the translations ----------

  /** The part of a path after the slashes it starts with. */
  function SkipSlashes(p: string): (r: string)
    ensures |r| <= |p| && (r == "" || r[0] != '/')
  {
    if p != "" && p[0] == '/' then SkipSlashes(p[1..]) else p
  }

  /** p starts with the component "..". */
  predicate StartsWithParent(p: string) {
    |p| >= 2 && p[0] == '.' && p[1] == '.' && (|p| == 2 || p[2] == '/')
  }

  predicate StartsWithDot(p: string) {
    |p| >= 1 && p[0] == '.' && (|p| == 1 || p[1] == '/')
  }

  function SkipOneSlash(p: string): (r: string)
    ensures |r| <= |p|
  {
    if p != "" && p[0] == '/' then p[1..] else p
  }

  /** The conversion loop of posix9_path_to_mac. */
  function ToMacRest(p: string): string
    decreases |p|
  {
    if p == "" then ""
    else if p[0] == '/' then
      var r := SkipSlashes(p[1..]);
      if StartsWithParent(r) then "::" + ToMacRest(SkipOneSlash(r[2..])) else ":" + ToMacRest(r)
    else [p[0]] + ToMacRest(p[1..])
  }

  /** posix9_path_to_mac before the trailing colon is looked at. */
  function ToMacRaw(path: string, volume: string): string
    requires path != ""
  {
    if path[0] == '/' then
      if "Volumes/" <= path[1..] then ToMacRest(path[9..]) else volume + ":" + ToMacRest(path[1..])
    else if StartsWithDot(path) then ":" + ToMacRest(SkipOneSlash(path[1..]))
    else if StartsWithParent(path) then "::" + ToMacRest(SkipOneSlash(path[2..]))
    else ":" + ToMacRest(path)
  }

  /** A single trailing colon goes, a double one stays. */
  function Trim(s: string): string {
    if |s| >= 2 && s[|s| - 1] == ':' && s[|s| - 2] != ':' then s[..|s| - 1] else s
  }

  function ToMac(path: string, volume: string): string {
    if path == "" then "" else Trim(ToMacRaw(path, volume))
  }

  /** The conversion loop of posix9_path_from_mac. */
  function FromMacRest(p: string): string
    decreases |p|
  {
    if p == "" then ""
    else if p[0] == ':' then
      if |p| >= 2 && p[1] == ':' then "/.." + FromMacRest(p[2..]) else "/" + FromMacRest(p[1..])
    else [p[0]] + FromMacRest(p[1..])
  }

  /** The leading colons of a relative path after the first one. */
  function FromMacParents(p: string): string {
    if p == "" then ""
    else if p[0] == ':' then "/.." + FromMacParents(p[1..])
    else "/" + FromMacRest(p)
  }

  function FromMac(mac: string): string {
    if mac == "" then ""
    else if mac[0] == ':' then "." + FromMacParents(mac[1..])
    else "/Volumes/" + FromMacRest(mac)
  }

  // ---------- bounded buffers ----------

  /** What the translation of a path starts with, before its loop: written whatever the
      size of the buffer. */
  function StartText(path: string, volume: string): string
    requires path != ""
  {
    if path[0] == '/' then
      if "Volumes/" <= path[1..] then "" else volume + ":"
    else if StartsWithParent(path) then "::"
    else ":"
  }

  /** What the loop starts with. */
  function StartRest(path: string): (r: string)
    requires path != ""
  {
    if path[0] == '/' then
      if "Volumes/" <= path[1..] then path[9..] else path[1..]
    else if StartsWithDot(path) then SkipOneSlash(path[1..])
    else if StartsWithParent(path) then SkipOneSlash(path[2..])
    else path
  }

  /** The conversion loop of posix9_path_to_mac with room for that many characters: it
      looks at the room before each turn, and a turn may write two. */
  function ToMacCut(p: string, room: int): string
    decreases |p|
  {
    if p == "" || room <= 0 then ""
    else if p[0] == '/' then
      var r := SkipSlashes(p[1..]);
      if StartsWithParent(r) then "::" + ToMacCut(SkipOneSlash(r[2..]), room - 2) else ":" + ToMacCut(r, room - 1)
    else [p[0]] + ToMacCut(p[1..], room - 1)
  }

  /** What is written, before the trailing colon is looked at. */
  function ToMacWritten(path: string, volume: string, size: nat): string {
    if path == "" then ""
    else StartText(path, volume) + ToMacCut(StartRest(path), size - 1 - |StartText(path, volume)|)
  }

  function ToMacBounded(path: string, volume: string, size: nat): string {
    Trim(ToMacWritten(path, volume, size))
  }

  /** The start of a translation from Mac. */
  function FromStartText(mac: string): string
    requires mac != ""
  {
    if mac[0] == ':' then "." + ParentsText(mac[1..]) else "/Volumes/"
  }

  function ParentsText(p: string): string {
    if p == "" then "" else if p[0] == ':' then "/.." + ParentsText(p[1..]) else "/"
  }

  function ParentsRest(p: string): string {
    if p == "" || p[0] != ':' then p else ParentsRest(p[1..])
  }

  function FromStartRest(mac: string): string
    requires mac != ""
  {
    if mac[0] == ':' then ParentsRest(mac[1..]) else mac
  }

  function FromMacCut(p: string, room: int): string
    decreases |p|
  {
    if p == "" || room <= 0 then ""
    else if p[0] == ':' then
      if |p| >= 2 && p[1] == ':' then "/.." + FromMacCut(p[2..], room - 3) else "/" + FromMacCut(p[1..], room - 1)
    else [p[0]] + FromMacCut(p[1..], room - 1)
  }

  function FromMacBounded(mac: string, size: nat): string {
    if mac == "" then ""
    else FromStartText(mac) + FromMacCut(FromStartRest(mac), size - 1 - |FromStartText(mac)|)
  }

  // ---------- output lengths ----------

  lemma {:induction false} RestIsNoLonger(p: string)
    ensures |ToMacRest(p)| <= |p|
    decreases |p|
  {
    if p == "" {
    } else if p[0] == '/' {
      var r := SkipSlashes(p[1..]);
      if StartsWithParent(r) {
        RestIsNoLonger(SkipOneSlash(r[2..]));
      } else {
        RestIsNoLonger(r);
      }
    } else {
      RestIsNoLonger(p[1..]);
    }
  }

  /** How long a translated path can get, for any input at all. */
  lemma ToMacLength(path: string, volume: string)
    requires path != ""
    ensures |ToMacRaw(path, volume)| <= if path[0] == '/' then |path| + |volume| else |path| + 1
  {
    if path[0] == '/' {
      if "Volumes/" <= path[1..] {
        RestIsNoLonger(path[9..]);
      } else {
        RestIsNoLonger(path[1..]);
      }
    } else if StartsWithDot(path) {
      RestIsNoLonger(SkipOneSlash(path[1..]));
    } else if StartsWithParent(path) {
      RestIsNoLonger(SkipOneSlash(path[2..]));
    } else {
      RestIsNoLonger(path);
    }
  }

  lemma {:induction false} FromRestLength(p: string)
    ensures |FromMacRest(p)| <= |p| + |p| / 2
    decreases |p|
  {
    if p != "" {
      if |p| >= 2 && p[0] == ':' && p[1] == ':' {
        FromRestLength(p[2..]);
      } else {
        FromRestLength(p[1..]);
      }
    }
  }

  lemma {:induction false} ParentsLength(p: string)
    ensures |FromMacParents(p)| <= 3 * |p|
  {
    if p != "" {
      if p[0] == ':' { ParentsLength(p[1..]); } else { FromRestLength(p); }
    }
  }

  /** How long a path translated from Mac can get, for any input at all. */
  lemma FromMacLength(mac: string)
    requires mac != ""
    ensures |FromMac(mac)| <= if mac[0] == ':' then 3 * |mac| - 2 else |mac| + |mac| / 2 + 9
  {
    if mac[0] == ':' { ParentsLength(mac[1..]); } else { FromRestLength(mac); }
  }

  lemma AppendPrefix(a: string, s: string, t: string)
    requires s <= t
    ensures a + s <= a + t
  {
  }

  /** The cut text is a prefix, all of it if there is room, and else at most one character
      longer than the room. */
  lemma {:induction false} CutIsPrefix(p: string, room: int)
    ensures ToMacCut(p, room) <= ToMacRest(p)
    ensures |ToMacCut(p, room)| >= room || ToMacCut(p, room) == ToMacRest(p)
    ensures room >= 0 ==> |ToMacCut(p, room)| <= room + 1
    ensures room >= |ToMacRest(p)| ==> ToMacCut(p, room) == ToMacRest(p)
    decreases |p|
  {
    if p != "" && room > 0 {
      if p[0] == '/' {
        var r := SkipSlashes(p[1..]);
        if StartsWithParent(r) {
          var next := SkipOneSlash(r[2..]);
          CutIsPrefix(next, room - 2);
          AppendPrefix("::", ToMacCut(next, room - 2), ToMacRest(next));
        } else {
          CutIsPrefix(r, room - 1);
          AppendPrefix(":", ToMacCut(r, room - 1), ToMacRest(r));
        }
      } else {
        CutIsPrefix(p[1..], room - 1);
        AppendPrefix([p[0]], ToMacCut(p[1..], room - 1), ToMacRest(p[1..]));
      }
    }
  }

  lemma RawSplits(path: string, volume: string)
    requires path != ""
    ensures ToMacRaw(path, volume) == StartText(path, volume) + ToMacRest(StartRest(path))
  {
    NothingFirst(ToMacRest(StartRest(path)));
  }

  /** A smaller buffer gets a prefix of the translation: size - 1 characters of it, or one
      more if a pair of colons falls on the edge, or the start alone if that is longer.
      With room for all of it, it gets all. */
  lemma BoundedIsPrefix(path: string, volume: string, size: nat)
    requires path != ""
    ensures var w, raw := ToMacWritten(path, volume, size), ToMacRaw(path, volume);
      && w <= raw && (w == raw || |w| >= size - 1)
      && |w| <= (if |StartText(path, volume)| < size then size else |StartText(path, volume)|)
      && (size > |raw| ==> w == raw && ToMacBounded(path, volume, size) == ToMac(path, volume))
  {
    var t, p := StartText(path, volume), StartRest(path);
    RawSplits(path, volume);
    CutIsPrefix(p, size - 1 - |t|);
    AppendPrefix(t, ToMacCut(p, size - 1 - |t|), ToMacRest(p));
  }

  lemma {:induction false} FromCutIsPrefix(p: string, room: int)
    ensures FromMacCut(p, room) <= FromMacRest(p)
    ensures |FromMacCut(p, room)| >= room || FromMacCut(p, room) == FromMacRest(p)
    ensures room >= 0 ==> |FromMacCut(p, room)| <= room + 2
    ensures room >= |FromMacRest(p)| ==> FromMacCut(p, room) == FromMacRest(p)
    decreases |p|
  {
    if p != "" && room > 0 {
      if p[0] == ':' && |p| >= 2 && p[1] == ':' {
        FromCutIsPrefix(p[2..], room - 3);
        AppendPrefix("/..", FromMacCut(p[2..], room - 3), FromMacRest(p[2..]));
      } else {
        FromCutIsPrefix(p[1..], room - 1);
        AppendPrefix("/", FromMacCut(p[1..], room - 1), FromMacRest(p[1..]));
        AppendPrefix([p[0]], FromMacCut(p[1..], room - 1), FromMacRest(p[1..]));
      }
    }
  }

  lemma {:induction false} ParentsSplit(p: string)
    ensures FromMacParents(p) == ParentsText(p) + FromMacRest(ParentsRest(p))
  {
    if p != "" && p[0] == ':' {
      ParentsSplit(p[1..]);
      Associates("/..", ParentsText(p[1..]), FromMacRest(ParentsRest(p[1..])));
    }
  }

  lemma FromMacSplits(mac: string)
    requires mac != ""
    ensures FromMac(mac) == FromStartText(mac) + FromMacRest(FromStartRest(mac))
  {
    if mac[0] == ':' {
      ParentsSplit(mac[1..]);
      Associates(".", ParentsText(mac[1..]), FromMacRest(ParentsRest(mac[1..])));
    }
  }

  /** The same from Mac, where a turn writes up to three characters. */
  lemma FromBoundedIsPrefix(mac: string, size: nat)
    requires mac != ""
    ensures var w := FromMacBounded(mac, size);
      && w <= FromMac(mac) && (w == FromMac(mac) || |w| >= size - 1)
      && |w| <= (if |FromStartText(mac)| < size then size + 1 else |FromStartText(mac)|)
      && (size > |FromMac(mac)| ==> w == FromMac(mac))
  {
    var t, p := FromStartText(mac), FromStartRest(mac);
    FromMacSplits(mac);
    FromCutIsPrefix(p, size - 1 - |t|);
    AppendPrefix(t, FromMacCut(p, size - 1 - |t|), FromMacRest(p));
  }

  // ---------- what a path means ----------

  datatype Step = Up | Down(name: string)
  datatype Place = Relative(steps: seq<Step>) | Absolute(volume: string, steps: seq<Step>)

  /** The length of the component p starts with. */
  function Span(p: string, sep: char): (n: nat)
    ensures n <= |p| && sep !in p[..n] && (n < |p| ==> p[n] == sep)
  {
    if p == "" || p[0] == sep then 0
    else
      var n := 1 + Span(p[1..], sep);
      assert p[..n] == [p[0]] + p[1..][..n - 1];
      n
  }

  /** The non-empty components of a POSIX path. */
  function Components(p: string): seq<string>
    decreases |p|
  {
    if p == "" then []
    else if p[0] == '/' then Components(p[1..])
    else
      var n := Span(p, '/');
      assert n > 0;
      [p[..n]] + Components(p[n..])
  }

  function StepsOf(cs: seq<string>): seq<Step> {
    if cs == [] then []
    else (if cs[0] == "." then [] else if cs[0] == ".." then [Up] else [Down(cs[0])]) + StepsOf(cs[1..])
  }

  predicate IsDots(c: string) {
    c == "." || c == ".."
  }

  /** Pathname resolution as POSIX describes it, with /Volumes/V naming volume V and
      every other absolute path lying on the default volume. */
  function PosixMeaning(path: string, volume: string): Place {
    var cs := Components(path);
    if path == "" || path[0] != '/' then Relative(StepsOf(cs))
    else if |cs| >= 2 && cs[0] == "Volumes" && !IsDots(cs[1]) then Absolute(cs[1], StepsOf(cs[2..]))
    else Absolute(volume, StepsOf(cs))
  }

  /** After the volume or the leading colon: names end at a colon, and each further
      colon is one step up. */
  function MacSteps(p: string): seq<Step>
    decreases |p|
  {
    if p == "" then []
    else if p[0] == ':' then [Up] + MacSteps(p[1..])
    else
      var n := Span(p, ':');
      assert n > 0;
      [Down(p[..n])] + if n < |p| then MacSteps(p[n + 1..]) else []
  }

  function MacMeaning(mac: string): Place {
    if mac != "" && mac[0] == ':' then Relative(MacSteps(mac[1..]))
    else
      var n := Span(mac, ':');
      Absolute(mac[..n], if n < |mac| then MacSteps(mac[n + 1..]) else [])
  }

  // ---------- the paths that are translated faithfully ----------

  predicate ValidName(n: string) {
    n != "" && '/' !in n && ':' !in n && !IsDots(n)
  }

  /** Where the next component begins behind q, a run of slashes or the end: ".." right
      after the run is part of the separator, with one slash if there is one. */
  function NextStart(q: string): (r: string)
    ensures |r| <= |q| && (q != "" && q[0] == '/' ==> |r| < |q|)
  {
    var r := SkipSlashes(q);
    if q != "" && q[0] == '/' && StartsWithParent(r) then SkipOneSlash(r[2..]) else r
  }

  /** Names separated by runs of slashes; after a name ".." may come, with at most one
      slash behind it and then a name again, or the end. */
  predicate Clean(p: string)
    decreases |p|
  {
    p == "" ||
    (p[0] != '/' &&
     var n := Span(p, '/');
     n > 0 && !IsDots(p[..n]) && Clean(NextStart(p[n..])))
  }

  /** The guard of posix9_path_to_mac that a caller can check: no colons; "." and ".."
      may come first in a relative path, with at most one slash behind them; everything
      else is clean, from the volume on or from the one slash at the root on. */
  predicate Translatable(path: string) {
    path != "" && ':' !in path &&
    if path[0] == '/' then
      if "Volumes/" <= path[1..] then path[9..] != "" && Clean(path[9..]) else Clean(path[1..])
    else if StartsWithDot(path) then Clean(SkipOneSlash(path[1..]))
    else if StartsWithParent(path) then Clean(SkipOneSlash(path[2..]))
    else Clean(path)
  }
}
