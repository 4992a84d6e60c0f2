/** When the text the translators write stays within the buffer, terminator included: for
    every path and every size, exactly. */
module PathBuffers {
  import opened PathFromMac
  import opened PathMeaning
  import opened PathRoundTrip
  import opened PathSpec
  import opened PathTranslation
  import opened Sequences

  // ---------- to Mac ----------

  /** In the conversion loop of posix9_path_to_mac from text p, a turn that writes two
      colons begins when i characters have been written. */
  predicate ParentTurnAt(p: string, i: int)
    decreases |p|
  {
    i >= 0 && p != "" &&
    if p[0] == '/' then
      var r := SkipSlashes(p[1..]);
      if StartsWithParent(r) then i == 0 || ParentTurnAt(SkipOneSlash(r[2..]), i - 2) else ParentTurnAt(r, i - 1)
    else ParentTurnAt(p[1..], i - 1)
  }

  /** The loop exceeds its room exactly if there is one character of room left at such a
      turn. */
  lemma {:induction false} CutExceeds(p: string, room: nat)
    ensures |ToMacCut(p, room)| > room <==> ParentTurnAt(p, room - 1)
    decreases |p|
  {
    if p != "" && room > 0 {
      if p[0] == '/' {
        var r := SkipSlashes(p[1..]);
        if StartsWithParent(r) {
          if room >= 2 { CutExceeds(SkipOneSlash(r[2..]), room - 2); }
        } else {
          CutExceeds(r, room - 1);
        }
      } else {
        CutExceeds(p[1..], room - 1);
      }
    }
  }

  /** What a caller can check: the start of the path leaves room for the terminator, and no
      parent finds room for its first colon only. */
  predicate StaysInside(path: string, volume: string, size: nat) {
    if path == "" then size > 0
    else
      var start := |StartText(path, volume)|;
      start < size && !ParentTurnAt(StartRest(path), size - 2 - start)
  }

  /** For every path, default volume and size: the text and its terminator are within the
      first size characters if and only if that holds. */
  lemma WrittenFits(path: string, volume: string, size: nat)
    ensures |ToMacWritten(path, volume, size)| < size <==> StaysInside(path, volume, size)
  {
    if path != "" && |StartText(path, volume)| < size {
      CutExceeds(StartRest(path), size - 1 - |StartText(path, volume)|);
    }
  }

  /** Parents are the only turns that write two characters in a row that are colons. */
  predicate TwoColonsAt(s: string, i: int) {
    0 <= i && i + 1 < |s| && s[i] == ':' && s[i + 1] == ':'
  }

  lemma {:induction false} TurnAfterName(c: string, q: string, i: int)
    requires '/' !in c
    ensures ParentTurnAt(c + q, i) <==> ParentTurnAt(q, i - |c|)
  {
    if c == "" {
      NothingFirst(q);
    } else {
      assert (c + q)[1..] == c[1..] + q && (c + q)[0] == c[0];
      TurnAfterName(c[1..], q, i - 1);
    }
  }

  lemma CleanStart(p: string)
    requires Clean(p) && ':' !in p
    ensures ToMacRest(p) == "" || ToMacRest(p)[0] != ':'
  {
  }

  lemma TurnAtSeparator(q: string, i: int)
    requires q != "" && q[0] == '/'
    ensures ParentTurnAt(q, i) <==>
      if Lead(q) != [] then i == 0 || ParentTurnAt(NextStart(q), i - 2) else ParentTurnAt(NextStart(q), i - 1)
  {
  }

  lemma ColonsAfterName(c: string, sep: string, t: string, i: int)
    requires c != "" && ':' !in c && (sep == ":" || sep == "::") && (t == "" || t[0] != ':')
    ensures TwoColonsAt(c + (sep + t), i) <==> (sep == "::" && i == |c|) || TwoColonsAt(t, i - |c| - |sep|)
  {
    var s := c + (sep + t);
    assert forall k | 0 <= k < |c| :: s[k] == c[k];
    assert s[|c|..] == sep + t && (sep + t)[|sep|..] == t;
    assert forall k | 0 <= k < |sep| :: s[|c| + k] == sep[k];
    assert forall k | 0 <= k < |t| :: s[|c| + |sep| + k] == t[k];
    if TwoColonsAt(t, i - |c| - |sep|) {
      assert s[i] == t[i - |c| - |sep|] && s[i + 1] == t[i + 1 - |c| - |sep|];
    }
    if TwoColonsAt(s, i) && i >= |c| + |sep| {
      assert s[i] == t[i - |c| - |sep|] && s[i + 1] == t[i + 1 - |c| - |sep|];
    }
  }

  lemma NoTwoColons(c: string, i: int)
    requires ':' !in c
    ensures !TwoColonsAt(c, i)
  {
  }

  /** One component and one separator. */
  lemma TurnAfterComponent(c: string, q: string, i: int)
    requires c != "" && '/' !in c && ':' !in c && q != "" && q[0] == '/'
    requires var t := ToMacRest(NextStart(q)); t == "" || t[0] != ':'
    requires var j := i - |c| - if Lead(q) != [] then 2 else 1;
      ParentTurnAt(NextStart(q), j) <==> TwoColonsAt(ToMacRest(NextStart(q)), j)
    ensures ParentTurnAt(c + q, i) <==> TwoColonsAt(c + ToMacRest(q), i)
  {
    TurnAfterName(c, q, i);
    TurnAtSeparator(q, i - |c|);
    SeparatorTranslates(q);
    ColonsAfterName(c, if Lead(q) != [] then "::" else ":", ToMacRest(NextStart(q)), i);
  }

  /** In clean text the turns can be seen in the output. */
  lemma {:induction false} TurnIsTwoColons(p: string, i: int)
    requires Clean(p) && ':' !in p
    ensures ParentTurnAt(p, i) <==> TwoColonsAt(ToMacRest(p), i)
    decreases |p|
  {
    if p != "" {
      var c, q := FirstComponent(p);
      RestCopiesName(c, q);
      if q == "" {
        LastComponent(c, i);
      } else {
        TurnIsTwoColons(NextStart(q), i - |c| - if Lead(q) != [] then 2 else 1);
        CleanStart(NextStart(q));
        TurnAfterComponent(c, q, i);
      }
    }
  }

  lemma LastComponent(c: string, i: int)
    requires '/' !in c && ':' !in c
    ensures !ParentTurnAt(c + "", i) && !TwoColonsAt(c + ToMacRest(""), i)
  {
    TurnAfterName(c, "", i);
    assert c + "" == c;
    NoTwoColons(c, i);
  }

  lemma StartIsClean(path: string)
    requires Translatable(path)
    ensures Clean(StartRest(path)) && ':' !in StartRest(path)
  {
  }

  lemma TwoColonsBehind(a: string, s: string, i: nat)
    ensures TwoColonsAt(a + s, |a| + i) <==> TwoColonsAt(s, i)
  {
  }

  /** For a path that is translated faithfully the output shows it: the text stays inside
      unless the start is too long or two colons stand on the last two places, where the
      second would leave none for the terminator. */
  lemma TranslatableFits(path: string, volume: string, size: nat)
    requires Translatable(path)
    ensures |ToMacWritten(path, volume, size)| < size <==>
      |StartText(path, volume)| < size &&
      !(|StartText(path, volume)| + 2 <= size && TwoColonsAt(ToMacRaw(path, volume), size - 2))
  {
    WrittenFits(path, volume, size);
    RawSplits(path, volume);
    StartIsClean(path);
    TurnInRaw(StartText(path, volume), StartRest(path), size);
  }

  lemma TurnInRaw(t: string, p: string, size: nat)
    requires Clean(p) && ':' !in p
    ensures ParentTurnAt(p, size - 2 - |t|) <==> |t| + 2 <= size && TwoColonsAt(t + ToMacRest(p), size - 2)
  {
    TurnIsTwoColons(p, size - 2 - |t|);
    if |t| + 2 <= size { TwoColonsBehind(t, ToMacRest(p), size - 2 - |t|); }
  }

  /** A parent behind a name that all but fills the buffer: for every name, the terminator
      lands one place behind it. */
  lemma ParentAtTheEdge(n: string, x: string, volume: string)
    requires ValidName(n)
    ensures |ToMacWritten(n + ("/../" + x), volume, |n| + 3)| == |n| + 3
  {
    var path := n + ("/../" + x);
    EdgePath(n, x);
    WrittenFits(path, volume, |n| + 3);
    TurnAfterName(n, "/../" + x, |n|);
    SlashDots(x);
    BoundedIsPrefix(path, volume, |n| + 3);
  }

  lemma EdgePath(n: string, x: string)
    requires ValidName(n)
    ensures var path := n + ("/../" + x);
      path != "" && path[0] != '/' && StartText(path, "") == ":" && StartRest(path) == path
  {
    var path := n + ("/../" + x);
    assert path[0] == n[0] && forall k | 0 <= k < |n| :: path[k] == n[k];
    assert path[|n|] == '/';
    if |n| == 1 {
      assert n == [n[0]];
    } else if |n| == 2 {
      assert n == [n[0], n[1]];
    }
  }

  lemma SlashDots(x: string)
    ensures ParentTurnAt("/../" + x, 0)
  {
    var q := "/../" + x;
    assert q[1..] == "../" + x && SkipSlashes(q[1..]) == q[1..];
  }

  // ---------- from Mac ----------

  /** In the conversion loop of posix9_path_from_mac from text p, a turn that writes three
      characters begins when i have been written. */
  predicate DoubleColonAt(p: string, i: int)
    decreases |p|
  {
    i >= 0 && p != "" &&
    if |p| >= 2 && p[0] == ':' && p[1] == ':' then i == 0 || DoubleColonAt(p[2..], i - 3)
    else DoubleColonAt(p[1..], i - 1)
  }

  lemma {:induction false} FromCutExceeds(p: string, room: nat)
    ensures |FromMacCut(p, room)| > room <==> DoubleColonAt(p, room - 1) || DoubleColonAt(p, room - 2)
    decreases |p|
  {
    if p != "" && room > 0 {
      if |p| >= 2 && p[0] == ':' && p[1] == ':' {
        if room >= 3 { FromCutExceeds(p[2..], room - 3); }
      } else {
        FromCutExceeds(p[1..], room - 1);
      }
    }
  }

  predicate FromStaysInside(mac: string, size: nat) {
    if mac == "" then size > 0
    else
      var start, p := |FromStartText(mac)|, FromStartRest(mac);
      start < size && !DoubleColonAt(p, size - 2 - start) && !DoubleColonAt(p, size - 3 - start)
  }

  /** For every Mac path and size: the text and its terminator are within the first size
      characters if and only if the start leaves room for the terminator and no pair of
      colons finds room for one or two of its three characters only. */
  lemma FromWrittenFits(mac: string, size: nat)
    ensures |FromMacBounded(mac, size)| < size <==> FromStaysInside(mac, size)
  {
    if mac != "" && |FromStartText(mac)| < size {
      FromCutExceeds(FromStartRest(mac), size - 1 - |FromStartText(mac)|);
    }
  }

  lemma {:induction false} DoubleAfterName(c: string, q: string, i: int)
    requires ':' !in c
    ensures DoubleColonAt(c + q, i) <==> DoubleColonAt(q, i - |c|)
  {
    if c == "" {
      NothingFirst(q);
    } else {
      assert (c + q)[1..] == c[1..] + q && (c + q)[0] == c[0];
      DoubleAfterName(c[1..], q, i - 1);
    }
  }

  /** p ends in two colons, and a turn that writes three characters is at i exactly if it
      is the turn for those. */
  ghost predicate DoubleAtEnd(p: string, i: int) {
    DoubleColonAt(p, i) <==> TwoColonsAt(p, |p| - 2) && i == |FromMacRest(p)| - 3
  }

  lemma LastName(n: string, i: int)
    requires n != "" && ':' !in n
    ensures DoubleAtEnd(n, i)
  {
    DoubleAfterName(n, "", i);
    assert n + "" == n;
  }

  lemma LastPair(n: string, i: int)
    requires n != "" && ':' !in n
    ensures DoubleAtEnd(n + "::", i)
  {
    DoubleAfterName(n, "::", i);
    FromMacCopiesName(n, "::");
    assert FromMacRest("::") == "/.." + FromMacRest("");
  }

  lemma NameAndRest(n: string, x: string, i: int)
    requires n != "" && ':' !in n && (x == "" || x[0] != ':') && DoubleAtEnd(x, i - |n| - 1)
    ensures DoubleAtEnd(n + (":" + x), i)
  {
    var q := ":" + x;
    assert q[1..] == x;
    DoubleAfterName(n, q, i);
    FromMacCopiesName(n, q);
    EndOf(n, x);
  }

  lemma EndOf(n: string, x: string)
    requires n != "" && ':' !in n && (x == "" || x[0] != ':')
    ensures var p := n + (":" + x); TwoColonsAt(p, |p| - 2) <==> TwoColonsAt(x, |x| - 2)
  {
    var p := n + (":" + x);
    assert p[|n| - 1] in n && p[|n|] == ':' && p[|n| + 1..] == x;
    if |x| >= 2 { assert p[|p| - 2] == x[|x| - 2] && p[|p| - 1] == x[|x| - 1]; }
  }

  lemma {:induction false} SafeTailEnds(m: MacTail, i: int)
    requires WellFormed(m) && ColonsAreSafe(m)
    ensures DoubleAtEnd(MacString(m), i)
  {
    match m
    case Stop =>
    case Final(n) => LastName(n, i);
    case Folder(n, k, next) =>
      SafeFolderText(n, k, next);
      if k == 1 {
        StartsPlain(next);
        SafeTailEnds(next, i - |n| - 1);
        NameAndRest(n, MacString(next), i);
      } else {
        LastPair(n, i);
      }
  }

  lemma SafeFolderText(n: string, k: nat, next: MacTail)
    requires k == 1 || (k == 2 && next == Stop)
    ensures MacString(Folder(n, k, next)) == if k == 1 then n + (":" + MacString(next)) else n + "::"
  {
    assert Colons(1) == ":" + Colons(0) && Colons(2) == ":" + Colons(1);
  }

  /** The leading colons leave the text after the run. */
  lemma {:induction false} ParentsRestIsTail(p: string)
    ensures ParentsRest(p) == p[ColonRun(p)..]
  {
    if p != "" && p[0] == ':' { ParentsRestIsTail(p[1..]); }
  }

  /** For a Mac path that is translated faithfully: unless the start is too long, the text
      exceeds the buffer only if the path ends in a pair of colons behind a name, and then
      for two sizes. */
  lemma MacTranslatableFits(mac: string, size: nat)
    requires MacTranslatable(mac)
    ensures |FromMacBounded(mac, size)| < size <==>
      |FromStartText(mac)| < size &&
      !(TwoColonsAt(FromStartRest(mac), |FromStartRest(mac)| - 2) && size <= |FromMac(mac)| <= size + 1)
  {
    FromWrittenFits(mac, size);
    FromMacSplits(mac);
    SafeRestEnds(mac, size - 2 - |FromStartText(mac)|);
  }

  lemma SafeRestEnds(mac: string, i: int)
    requires MacTranslatable(mac)
    ensures var p := FromStartRest(mac);
      DoubleColonAt(p, i) || DoubleColonAt(p, i - 1) <==>
      TwoColonsAt(p, |p| - 2) && i + 2 <= |FromMacRest(p)| <= i + 3
  {
    RestIsTail(mac);
    var m := Parse(mac[ColonRun(mac)..]);
    ParseReads(mac[ColonRun(mac)..]);
    SafeTailEnds(m, i);
    SafeTailEnds(m, i - 1);
  }

  lemma RestIsTail(mac: string)
    requires mac != ""
    ensures FromStartRest(mac) == mac[ColonRun(mac)..]
  {
    if mac[0] == ':' {
      ParentsRestIsTail(mac[1..]);
      assert mac[1..][ColonRun(mac[1..])..] == mac[ColonRun(mac)..];
    } else {
      assert ColonRun(mac) == 0 && mac[0..] == mac;
    }
  }

  /** No absolute path fits 9 characters: "/Volumes/" alone takes them. */
  lemma VolumesNeedsTen(mac: string, size: nat)
    requires mac != "" && mac[0] != ':' && size <= 9
    ensures |FromMacBounded(mac, size)| >= 9 && !FromStaysInside(mac, size)
  {
    FromWrittenFits(mac, size);
  }

  /** Leading colons are written whatever the size: three characters for each after the
      first. */
  lemma {:induction false} ParentsAreWritten(k: nat, x: string)
    ensures |ParentsText(Colons(k) + x)| >= 3 * k
  {
    if k > 0 {
      ParentsAreWritten(k - 1, x);
      FirstColon(k, x);
      assert (":" + (Colons(k - 1) + x))[1..] == Colons(k - 1) + x;
    }
  }

  lemma LeadingColonsExceed(k: nat, x: string, size: nat)
    requires size <= 3 * k + 1
    ensures |FromMacBounded(Colons(k + 1) + x, size)| >= 3 * k + 1 && !FromStaysInside(Colons(k + 1) + x, size)
  {
    var mac := Colons(k + 1) + x;
    FirstColon(k + 1, x);
    assert mac[0] == ':' && mac[1..] == Colons(k) + x;
    ParentsAreWritten(k, x);
    FromWrittenFits(mac, size);
  }
}
