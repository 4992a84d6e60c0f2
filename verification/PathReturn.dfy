/** Which paths come back: translated one way and then the other, a path that is translated
    faithfully leads to the same place again, or does not, depending on where it goes up. */
module PathReturn {
  import opened PathFromMac
  import opened PathMeaning
  import opened PathRoundTrip
  import opened PathSpec
  import opened PathTranslation
  import opened Sequences

  // ---------- POSIX to Mac and back ----------

  /** Clean text in which ".." comes at the very end only. */
  predicate UpLast(p: string)
    decreases |p|
  {
    p == "" ||
    (p[0] != '/' &&
     var q := p[Span(p, '/')..];
     Span(p, '/') > 0 && (Lead(q) != [] ==> NextStart(q) == "") && UpLast(NextStart(q)))
  }

  /** What a caller can check of a Translatable path. */
  predicate ComesBack(path: string, volume: string)
    requires path != ""
  {
    UpLast(StartRest(path)) && (path[0] == '/' && !("Volumes/" <= path[1..]) ==> ValidName(volume))
  }

  /** The names and colons that clean text becomes. */
  function TailOf(p: string): MacTail
    decreases |p|
  {
    var n := Span(p, '/');
    var q := p[n..];
    if p == "" || p[0] == '/' then Stop
    else if q == "" then Final(p)
    else Folder(p[..n], if Lead(q) != [] then 2 else 1, TailOf(NextStart(q)))
  }

  lemma FewColons()
    ensures Colons(0) == "" && Colons(1) == ":" && Colons(2) == "::"
  {
    assert Colons(1) == ":" + Colons(0) && Colons(2) == ":" + Colons(1);
  }

  lemma {:induction false} TailReads(p: string)
    requires Clean(p) && ':' !in p
    ensures WellFormed(TailOf(p)) && ValidMac(TailOf(p)) && MacString(TailOf(p)) == ToMacRest(p)
    ensures ColonsAreSafe(TailOf(p)) <==> UpLast(p)
    ensures TailOf(p) == Stop <==> p == ""
    decreases |p|
  {
    if p != "" {
      var n := Span(p, '/');
      var c, q := p[..n], p[n..];
      assert p == c + q;
      RestCopiesName(c, q);
      NextStartWithin(q);
      if q == "" {
        assert c == p && c + ToMacRest("") == c;
      } else {
        TailReads(NextStart(q));
        SeparatorTranslates(q);
        FewColons();
        Associates(c, if Lead(q) != [] then "::" else ":", ToMacRest(NextStart(q)));
      }
    }
  }

  /** Without the colon it may end in. */
  function TrimTail(m: MacTail): MacTail {
    match m
    case Stop => Stop
    case Final(n) => m
    case Folder(n, k, next) => if k == 1 && next == Stop then Final(n) else Folder(n, k, TrimTail(next))
  }

  lemma {:induction false} TrimTailKeeps(m: MacTail)
    ensures WellFormed(m) ==> WellFormed(TrimTail(m))
    ensures ValidMac(m) && WellFormed(m) ==> ValidMac(TrimTail(m))
    ensures ValidMac(TrimTail(m)) && WellFormed(m) ==> ValidMac(m)
    ensures ColonsAreSafe(TrimTail(m)) <==> ColonsAreSafe(m)
    ensures TrimTail(m) == Stop <==> m == Stop
  {
    if m.Folder? { TrimTailKeeps(m.next); }
  }

  lemma {:induction false} TrimTailText(before: string, m: MacTail)
    requires WellFormed(m) && m != Stop
    ensures Trim(before + MacString(m)) == before + MacString(TrimTail(m))
    decreases m
  {
    match m
    case Final(n) => NoTrim(before, n);
    case Folder(n, k, next) =>
      if next == Stop {
        TrimLast(before, n, k);
      } else {
        var a := n + Colons(k);
        TrimTailText(before + a, next);
        Associates(before, a, MacString(next));
        Associates(before, a, MacString(TrimTail(next)));
      }
  }

  lemma TrimLast(before: string, n: string, k: nat)
    requires n != "" && ':' !in n && k > 0
    ensures Trim(before + MacString(Folder(n, k, Stop))) == before + if k == 1 then n else MacString(Folder(n, k, Stop))
  {
    var s := before + (n + Colons(k) + "");
    FewColons();
    if k == 1 {
      assert s == before + n + ":";
      assert s[|s| - 2] == n[|n| - 1];
    } else {
      LastColons(k);
      assert s[|s| - 1] == Colons(k)[k - 1] && s[|s| - 2] == Colons(k)[k - 2];
    }
  }

  lemma {:induction false} LastColons(k: nat)
    ensures forall i | 0 <= i < k :: Colons(k)[i] == ':'
  {
    if k > 0 { LastColons(k - 1); }
  }

  lemma RelativeForm(path: string, volume: string) returns (k: nat, m: MacTail)
    requires Translatable(path) && path[0] != '/'
    ensures k > 0 && WellFormed(m) && ToMac(path, volume) == Colons(k) + MacString(m)
    ensures ValidMac(m) && (ColonsAreSafe(m) <==> UpLast(StartRest(path)))
  {
    var p := StartRest(path);
    k := if StartsWithParent(path) then 2 else 1;
    m := TrimTail(TailOf(p));
    FewColons();
    TailReads(p);
    TrimTailKeeps(TailOf(p));
    RawSplits(path, volume);
    if p != "" { TrimTailText(Colons(k), TailOf(p)); }
  }

  lemma AbsoluteForm(path: string, volume: string) returns (m: MacTail)
    requires Translatable(path) && path[0] == '/' && volume != "" && ':' !in volume
    ensures WellFormed(m) && m != Stop && ToMac(path, volume) == MacString(m)
    ensures ValidMac(m) && ColonsAreSafe(m) <==> ComesBack(path, volume)
  {
    var p := StartRest(path);
    TailReads(p);
    RawSplits(path, volume);
    var t := TailOf(p);
    if !("Volumes/" <= path[1..]) {
      t := Folder(volume, 1, TailOf(p));
      FewColons();
    }
    TrimTailKeeps(t);
    TrimTailText("", t);
    NothingFirst(MacString(t));
    NothingFirst(MacString(TrimTail(t)));
    m := TrimTail(t);
  }

  /** For every path that posix9_path_to_mac translates faithfully: translated back, it leads
      to the same place if and only if no name comes behind a ".." that comes behind a name,
      and the default volume, if it is used, has a name POSIX can have. */
  lemma PathComesBack(path: string, volume: string)
    requires Translatable(path) && volume != "" && ':' !in volume
    ensures PosixMeaning(FromMac(ToMac(path, volume)), volume) == PosixMeaning(path, volume) <==> ComesBack(path, volume)
    ensures MacTranslatable(ToMac(path, volume)) <==> ComesBack(path, volume)
  {
    TranslationKeepsMeaning(path, volume);
    FromMacKeepsMeaning(ToMac(path, volume), volume);
    if path[0] == '/' {
      var m := AbsoluteForm(path, volume);
      AbsoluteKeepsMeaning(m, volume);
    } else {
      var k, m := RelativeForm(path, volume);
      RelativeKeepsMeaning(k, m, volume);
    }
  }

  // ---------- Mac to POSIX and back ----------

  /** What the colons and names become is clean. */
  lemma {:induction false} TailIsClean(m: MacTail)
    requires WellFormed(m) && ValidMac(m) && ColonsAreSafe(m)
    ensures Clean(FromMacRest(MacString(m))) && ':' !in FromMacRest(MacString(m))
  {
    match m
    case Stop =>
    case Final(n) =>
      FromMacCopiesName(n, "");
      CleanName(n, "");
      assert n + "" == n;
    case Folder(n, k, next) =>
      var y := FromMacRest(MacString(next));
      FolderTranslates(n, k, next);
      TailIsClean(next);
      if k == 1 {
        CleanFolder(n, y);
      } else {
        CleanParent(n);
      }
  }

  lemma CleanFolder(n: string, y: string)
    requires ValidName(n) && Clean(y) && ':' !in y
    ensures Clean(n + ("/" + y)) && ':' !in n + ("/" + y)
  {
    var q := "/" + y;
    CleanName(n, q);
    assert q[1..] == y;
    NoParentFirst(y);
  }

  lemma NoParentFirst(y: string)
    requires Clean(y)
    ensures SkipSlashes(y) == y && !StartsWithParent(y) && !StartsWithDot(y)
  {
  }

  lemma CleanParent(n: string)
    requires ValidName(n)
    ensures Clean(n + ColonsOut(2, "")) && ':' !in n + ColonsOut(2, "")
  {
    var q := "/..";
    assert ColonsOut(2, "") == q;
    CleanName(n, q);
    assert q[1..] == "..";
    assert NextStart(q) == "";
  }

  /** For every Mac path that posix9_path_from_mac translates faithfully: translated back, it
      leads to the same place if and only if it does not begin with two colons. */
  lemma MacComesBack(mac: string, volume: string)
    requires MacTranslatable(mac) && volume != "" && ':' !in volume
    ensures MacMeaning(ToMac(FromMac(mac), volume)) == MacMeaning(mac) <==> !("::" <= mac)
    ensures Translatable(FromMac(mac)) <==> !("::" <= mac)
  {
    FromMacKeepsMeaning(mac, volume);
    TranslationKeepsMeaning(FromMac(mac), volume);
    FromMacIsTranslatable(mac);
  }

  lemma FromMacIsTranslatable(mac: string)
    requires MacTranslatable(mac)
    ensures Translatable(FromMac(mac)) <==> !("::" <= mac)
  {
    var k := ColonRun(mac);
    var m := Parse(mac[k..]);
    ParseReads(mac[k..]);
    TailIsClean(m);
    if k == 0 {
      assert mac[0..] == mac;
      VolumePath(FromMacRest(mac));
      FromMacStart(mac);
    } else {
      assert mac == ":" + mac[1..] && mac[1..][ColonRun(mac[1..])..] == mac[k..];
      RelativePath(mac[1..]);
    }
  }

  lemma FromMacStart(mac: string)
    requires mac != "" && mac[0] != ':'
    ensures FromMacRest(mac) != ""
  {
  }

  lemma DotPath(x: string)
    requires x == "" || x[0] == '/'
    ensures Translatable("." + x) <==> ':' !in x && Clean(SkipOneSlash(x))
  {
    var path := "." + x;
    assert path[1..] == x;
    assert StartsWithDot(path);
  }

  lemma ParentsStart(p: string)
    ensures FromMacParents(p) == "" || FromMacParents(p)[0] == '/'
    ensures FromMacParents(":" + p) == "/.." + FromMacParents(p)
  {
    assert (":" + p)[1..] == p;
  }

  lemma DotsAreNotClean(x: string)
    requires x == "" || x[0] == '/'
    ensures !Clean(SkipOneSlash("/.." + x))
  {
    assert ("/.." + x)[1..] == ".." + x;
    CleanName("..", x);
  }

  lemma SlashAndText(y: string)
    ensures SkipOneSlash("/" + y) == y && (':' in "/" + y <==> ':' in y)
  {
    assert ("/" + y)[1..] == y;
    assert "/" + y == ['/'] + y;
  }

  /** The dot, and one parent for each further colon. */
  lemma RelativePath(p: string)
    requires Clean(FromMacRest(p[ColonRun(p)..])) && ':' !in FromMacRest(p[ColonRun(p)..])
    ensures Translatable(FromMac(":" + p)) <==> p == "" || p[0] != ':'
  {
    FromMacRelative(p);
    ParentsStart(p);
    DotPath(FromMacParents(p));
    if p == "" || p[0] != ':' {
      assert p[0..] == p;
      SlashAndText(FromMacRest(p));
    } else {
      assert p == ":" + p[1..];
      ParentsStart(p[1..]);
      DotsAreNotClean(FromMacParents(p[1..]));
    }
  }

  lemma VolumePath(r: string)
    requires Clean(r) && ':' !in r
    ensures Translatable("/Volumes/" + r) <==> r != ""
  {
    assert ("/Volumes/" + r)[9..] == r && "Volumes/" <= ("/Volumes/" + r)[1..];
  }
}
