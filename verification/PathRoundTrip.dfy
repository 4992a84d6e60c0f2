/** There and back again. */
module PathRoundTrip {
  import opened PathSpec
  import opened PathMeaning
  import opened Sequences

  ghost predicate ValidNames(ns: seq<string>) {
    ns != [] && forall i | 0 <= i < |ns| :: ValidName(ns[i])
  }

  /** The names with sep between them. */
  function Join(ns: seq<string>, sep: char): string {
    if ns == [] then ""
    else if |ns| == 1 then ns[0]
    else ns[0] + [sep] + Join(ns[1..], sep)
  }

  lemma {:induction false} JoinToMac(ns: seq<string>)
    requires ValidNames(ns)
    ensures ToMacRest(Join(ns, '/')) == Join(ns, ':')
  {
    var n := ns[0];
    if |ns| == 1 {
      RestCopiesName(n, "");
      assert n + "" == n;
    } else {
      var rest := Join(ns[1..], '/');
      JoinToMac(ns[1..]);
      JoinStart(ns[1..], '/');
      JoinIsNoDots(ns[1..]);
      assert n + ['/'] + rest == n + ("/" + rest);
      RestCopiesName(n, "/" + rest);
      SlashBeforeName(rest);
      assert n + (":" + ToMacRest(rest)) == n + [':'] + ToMacRest(rest);
    }
  }

  lemma SlashBeforeName(rest: string)
    requires rest != "" && rest[0] != '/' && !StartsWithParent(rest)
    ensures ToMacRest("/" + rest) == ":" + ToMacRest(rest)
  {
    assert ("/" + rest)[1..] == rest;
  }

  lemma JoinIsNoDots(ns: seq<string>)
    requires ValidNames(ns)
    ensures !StartsWithParent(Join(ns, '/')) && !StartsWithDot(Join(ns, '/'))
  {
    var n, p := ns[0], Join(ns, '/');
    assert ValidName(n);
    assert forall i | 0 <= i < |n| :: p[i] == n[i];
    if |n| == 1 {
      assert n == [n[0]];
    } else if |n| == 2 {
      assert n == [n[0], n[1]];
    }
  }

  lemma {:induction false} FromMacCopiesName(n: string, rest: string)
    requires ':' !in n
    ensures FromMacRest(n + rest) == n + FromMacRest(rest)
  {
    if n == "" {
      assert n + rest == rest;
    } else {
      assert (n + rest)[1..] == n[1..] + rest && (n + rest)[0] == n[0];
      FromMacCopiesName(n[1..], rest);
      assert [n[0]] + (n[1..] + FromMacRest(rest)) == n + FromMacRest(rest);
    }
  }

  lemma {:induction false} JoinFromMac(ns: seq<string>)
    requires ValidNames(ns)
    ensures FromMacRest(Join(ns, ':')) == Join(ns, '/')
  {
    var n := ns[0];
    if |ns| == 1 {
      FromMacCopiesName(n, "");
      assert n + "" == n;
    } else {
      var rest := Join(ns[1..], ':');
      JoinFromMac(ns[1..]);
      JoinStart(ns[1..], ':');
      assert n + [':'] + rest == n + (":" + rest);
      FromMacCopiesName(n, ":" + rest);
      assert (":" + rest)[1..] == rest;
      assert n + ("/" + Join(ns[1..], '/')) == n + ['/'] + Join(ns[1..], '/');
    }
  }

  lemma {:induction false} JoinStart(ns: seq<string>, sep: char)
    requires ValidNames(ns) && (sep == ':' || sep == '/')
    ensures Join(ns, sep) != "" && Join(ns, sep)[0] != ':' && Join(ns, sep)[0] != '/'
    ensures Join(ns, sep)[|Join(ns, sep)| - 1] != ':'
    decreases |ns|
  {
    assert ValidName(ns[0]);
    var j := Join(ns, sep);
    if |ns| == 1 {
      assert j[|j| - 1] in ns[0];
    } else {
      JoinStart(ns[1..], sep);
    }
  }

  lemma AbsoluteToMac(ns: seq<string>, volume: string)
    requires ValidNames(ns)
    ensures ToMac("/Volumes/" + Join(ns, '/'), volume) == Join(ns, ':')
  {
    var path := "/Volumes/" + Join(ns, '/');
    assert "Volumes/" <= path[1..] && path[9..] == Join(ns, '/');
    JoinToMac(ns);
    JoinStart(ns, ':');
  }

  lemma AbsoluteFromMac(ns: seq<string>)
    requires ValidNames(ns)
    ensures FromMac(Join(ns, ':')) == "/Volumes/" + Join(ns, '/')
  {
    JoinFromMac(ns);
    JoinStart(ns, ':');
  }

  /** /Volumes/V/a/b -> V:a:b -> /Volumes/V/a/b, and V:a:b back to itself. */
  lemma AbsoluteRoundTrip(ns: seq<string>, volume: string)
    requires ValidNames(ns)
    ensures FromMac(ToMac("/Volumes/" + Join(ns, '/'), volume)) == "/Volumes/" + Join(ns, '/')
    ensures ToMac(FromMac(Join(ns, ':')), volume) == Join(ns, ':')
  {
    AbsoluteToMac(ns, volume);
    AbsoluteFromMac(ns);
  }

  lemma NoTrim(s: string, x: string)
    requires x != "" && x[|x| - 1] != ':'
    ensures Trim(s + x) == s + x
  {
    assert (s + x)[|s + x| - 1] == x[|x| - 1];
  }

  lemma RelativeToMac(ns: seq<string>, volume: string)
    requires ValidNames(ns)
    ensures ToMac("./" + Join(ns, '/'), volume) == ":" + Join(ns, ':')
  {
    var path := "./" + Join(ns, '/');
    assert SkipOneSlash(path[1..]) == Join(ns, '/');
    JoinToMac(ns);
    JoinStart(ns, ':');
    NoTrim(":", Join(ns, ':'));
  }

  lemma RelativeFromMac(ns: seq<string>)
    requires ValidNames(ns)
    ensures FromMac(":" + Join(ns, ':')) == "./" + Join(ns, '/')
  {
    var mac := ":" + Join(ns, ':');
    assert mac[1..] == Join(ns, ':');
    JoinStart(ns, ':');
    JoinFromMac(ns);
    assert "." + ("/" + Join(ns, '/')) == "./" + Join(ns, '/');
  }

  /** ./a/b -> :a:b -> ./a/b, and :a:b back to itself. */
  lemma RelativeRoundTrip(ns: seq<string>, volume: string)
    requires ValidNames(ns)
    ensures FromMac(ToMac("./" + Join(ns, '/'), volume)) == "./" + Join(ns, '/')
    ensures ToMac(FromMac(":" + Join(ns, ':')), volume) == ":" + Join(ns, ':')
  {
    RelativeToMac(ns, volume);
    RelativeFromMac(ns);
  }

  // ---------- a slash at the end ----------

  /** x ends in n, which is a whole component. */
  predicate EndsIn(x: string, n: string) {
    |n| <= |x| && x[|x| - |n|..] == n && (|n| < |x| ==> x[|x| - |n| - 1] == '/')
  }

  lemma EndsInRest(x: string, n: string, k: nat)
    requires EndsIn(x, n) && k <= |x| - |n|
    ensures EndsIn(x[k..], n)
  {
    assert x[k..][|x| - k - |n|..] == x[|x| - |n|..];
  }

  lemma LongerThanName(x: string, n: string)
    requires EndsIn(x, n) && ValidName(n)
    ensures x[0] == '/' ==> |x| > |n|
  {
    if |x| == |n| { assert x[0] == n[0] && n[0] in n; }
  }

  lemma DropFirst(x: string)
    requires x != ""
    ensures (x + "/")[1..] == x[1..] + "/" && (x + "/")[0] == x[0]
  {
  }

  /** Slashes are passed over, the last name not. */
  lemma {:induction false} SkipToName(x: string, n: string)
    requires EndsIn(x, n) && ValidName(n)
    ensures var r := SkipSlashes(x); EndsIn(r, n) && SkipSlashes(x + "/") == r + "/"
  {
    DropFirst(x);
    LongerThanName(x, n);
    if x[0] == '/' {
      EndsInRest(x, n, 1);
      SkipToName(x[1..], n);
    }
  }

  /** A parent before the last name has a slash behind it. */
  lemma ParentBeforeName(r: string, n: string)
    requires EndsIn(r, n) && ValidName(n)
    ensures StartsWithParent(r + "/") <==> StartsWithParent(r)
    ensures StartsWithDot(r + "/") <==> StartsWithDot(r)
    ensures StartsWithParent(r) ==> |r| >= |n| + 3 && r[2] == '/'
    ensures StartsWithDot(r) ==> |r| >= |n| + 2 && r[1] == '/'
  {
    if |r| == |n| { assert r == n; }
    if |n| == 1 { assert n == [n[0]]; }
    if |n| == 2 { assert n == [n[0], n[1]]; }
  }

  /** s does not end in a colon, and t is s with one behind it. */
  predicate OneColonMore(s: string, t: string) {
    s != "" && s[|s| - 1] != ':' && t == s + ":"
  }

  lemma OneColonAfter(a: string, s: string, t: string)
    requires OneColonMore(s, t)
    ensures OneColonMore(a + s, a + t)
  {
    assert (a + s)[|a + s| - 1] == s[|s| - 1];
    Associates(a, s, ":");
  }

  lemma NameAlone(n: string)
    requires ValidName(n)
    ensures OneColonMore(ToMacRest(n), ToMacRest(n + "/"))
  {
    RestCopiesName(n, "/");
    RestCopiesName(n, "");
    assert n + "" == n && ToMacRest("/") == ":" && n[|n| - 1] in n;
  }

  lemma {:induction false} RestWithSlash(x: string, n: string)
    requires EndsIn(x, n) && ValidName(n)
    ensures OneColonMore(ToMacRest(x), ToMacRest(x + "/"))
    decreases |x|, 0
  {
    DropFirst(x);
    LongerThanName(x, n);
    if |x| == |n| {
      assert x == n;
      NameAlone(n);
    } else {
      EndsInRest(x, n, 1);
      if x[0] == '/' {
        SkipToName(x[1..], n);
        SlashWithSlash(x, SkipSlashes(x[1..]), n);
      } else {
        RestWithSlash(x[1..], n);
        OneColonAfter([x[0]], ToMacRest(x[1..]), ToMacRest(x[1..] + "/"));
      }
    }
  }

  lemma {:induction false} SlashWithSlash(x: string, r: string, n: string)
    requires x != "" && x[0] == '/' && r == SkipSlashes(x[1..]) && EndsIn(r, n) && ValidName(n)
    requires SkipSlashes((x + "/")[1..]) == r + "/"
    ensures OneColonMore(ToMacRest(x), ToMacRest(x + "/"))
    decreases |r|, 1
  {
    ParentBeforeName(r, n);
    if StartsWithParent(r) {
      EndsInRest(r, n, 3);
      assert SkipOneSlash(r[2..]) == r[3..] && SkipOneSlash((r + "/")[2..]) == r[3..] + "/";
      RestWithSlash(r[3..], n);
      OneColonAfter("::", ToMacRest(r[3..]), ToMacRest(r[3..] + "/"));
    } else {
      RestWithSlash(r, n);
      OneColonAfter(":", ToMacRest(r), ToMacRest(r + "/"));
    }
  }

  lemma VolumesWithSlash(p: string)
    ensures "Volumes/" <= p + "/" <==> "Volumes/" <= p || p == "Volumes"
  {
    if |p| >= 8 { assert (p + "/")[..8] == p[..8]; }
    if |p| == 7 { assert (p + "/")[..7] == p; }
  }

  lemma FoldersBelowVolumes(path: string, n: string)
    requires EndsIn(path, n) && ValidName(n) && path[0] == '/' && "Volumes/" <= path[1..]
    ensures |path| - |n| >= 9
  {
    assert path[8] == path[1..][7] == '/';
    assert forall i | 0 <= i < |n| :: path[|path| - |n| + i] == n[i];
  }

  lemma DropNine(x: string)
    requires |x| >= 9
    ensures (x + "/")[9..] == x[9..] + "/"
  {
  }

  lemma VolumeWithSlash(path: string, n: string)
    requires EndsIn(path, n) && ValidName(n) && path[0] == '/' && "Volumes/" <= path[1..]
    ensures EndsIn(path[9..], n) && (path + "/")[9..] == path[9..] + "/"
  {
    FoldersBelowVolumes(path, n);
    EndsInRest(path, n, 9);
    DropNine(path);
  }

  lemma RootWithSlash(path: string, n: string)
    requires EndsIn(path, n) && ValidName(n) && path[1..] != "Volumes" && path[0] == '/'
    ensures var long := path + "/";
      ("Volumes/" <= long[1..] <==> "Volumes/" <= path[1..]) && StartRest(long) == StartRest(path) + "/"
    ensures EndsIn(StartRest(path), n)
  {
    DropFirst(path);
    LongerThanName(path, n);
    VolumesWithSlash(path[1..]);
    if "Volumes/" <= path[1..] {
      VolumeWithSlash(path, n);
    } else {
      EndsInRest(path, n, 1);
    }
  }

  /** Behind a dot or two at the start, and the slash that follows. */
  lemma DotsWithSlash(path: string, n: string, k: nat)
    requires EndsIn(path, n) && ValidName(n) && 0 < k && k < |path| - |n| && path[k] == '/'
    ensures SkipOneSlash(path[k..]) == path[k + 1..] && EndsIn(path[k + 1..], n)
    ensures SkipOneSlash((path + "/")[k..]) == path[k + 1..] + "/"
  {
    EndsInRest(path, n, k + 1);
    assert (path + "/")[k..] == path[k..] + "/" && path[k..][1..] == path[k + 1..];
  }

  lemma RelativeWithSlash(path: string, n: string)
    requires EndsIn(path, n) && ValidName(n) && path[0] != '/'
    ensures StartRest(path + "/") == StartRest(path) + "/" && EndsIn(StartRest(path), n)
    ensures StartsWithParent(path + "/") <==> StartsWithParent(path)
  {
    ParentBeforeName(path, n);
    DropFirst(path);
    if StartsWithDot(path) {
      DotsWithSlash(path, n, 1);
    } else if StartsWithParent(path) {
      DotsWithSlash(path, n, 2);
    }
  }

  lemma StartWithSlash(path: string, n: string, volume: string)
    requires EndsIn(path, n) && ValidName(n) && path != "/Volumes"
    ensures StartText(path + "/", volume) == StartText(path, volume) && StartRest(path + "/") == StartRest(path) + "/"
    ensures EndsIn(StartRest(path), n)
  {
    if path[0] == '/' {
      assert path == "/" + path[1..];
      RootWithSlash(path, n);
    } else {
      RelativeWithSlash(path, n);
    }
  }

  lemma TrimOneColon(s: string, t: string)
    requires OneColonMore(s, t)
    ensures Trim(s) == s && Trim(t) == s
  {
    assert t[..|t| - 1] == s;
  }

  /** A slash behind the last name makes no difference, and the Mac path does not end in a
      colon; except that "/Volumes/" is where volumes are and "/Volumes" a folder. */
  lemma SlashAtEndIsDropped(path: string, n: string, volume: string)
    requires EndsIn(path, n) && ValidName(n) && path != "/Volumes"
    ensures var mac := ToMac(path, volume);
      ToMac(path + "/", volume) == mac && mac != "" && mac[|mac| - 1] != ':'
  {
    StartWithSlash(path, n, volume);
    RestWithSlash(StartRest(path), n);
    RawSplits(path, volume);
    RawSplits(path + "/", volume);
    OneColonAfter(StartText(path, volume), ToMacRest(StartRest(path)), ToMacRest(StartRest(path + "/")));
    TrimOneColon(ToMacRaw(path, volume), ToMacRaw(path + "/", volume));
  }
}
