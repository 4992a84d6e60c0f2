/** When posix9_path_from_mac keeps the meaning of a Mac path: for every string, exactly
    when its names are names in POSIX too and no name is followed by more than one colon,
    or by two at the very end. */
module PathFromMac {
  import opened PathSpec
  import opened PathMeaning
  import opened PathRoundTrip
  import opened Sequences

  function Colons(k: nat): (s: string)
    ensures |s| == k
  {
    if k == 0 then "" else ":" + Colons(k - 1)
  }

  lemma FirstColon(k: nat, x: string)
    requires k > 0
    ensures Colons(k) + x == ":" + (Colons(k - 1) + x)
  {
    Associates(":", Colons(k - 1), x);
  }

  /** Names with runs of colons behind them. */
  datatype MacTail =
    | Stop
    | Final(name: string)
    | Folder(name: string, colons: nat, next: MacTail)

  /** Every string that does not start with a colon is one of these. */
  predicate WellFormed(m: MacTail) {
    match m
    case Stop => true
    case Final(n) => n != "" && ':' !in n
    case Folder(n, k, next) => n != "" && ':' !in n && k > 0 && WellFormed(next)
  }

  /** All of whose names can be names in POSIX: no slashes, not "." or "..". */
  predicate ValidMac(m: MacTail) {
    match m
    case Stop => true
    case Final(n) => ValidName(n)
    case Folder(n, k, next) => ValidName(n) && k > 0 && ValidMac(next)
  }

  function MacString(m: MacTail): string {
    match m
    case Stop => ""
    case Final(n) => n
    case Folder(n, k, next) => n + Colons(k) + MacString(next)
  }

  /** The guard a caller can check: colon runs the translator gets right. */
  predicate ColonsAreSafe(m: MacTail) {
    match m
    case Stop => true
    case Final(n) => true
    case Folder(n, k, next) => (k == 1 || (k == 2 && next == Stop)) && ColonsAreSafe(next)
  }

  /** What k colons and the text behind them become. */
  function ColonsOut(k: nat, rest: string): string {
    if k == 0 then rest else if k == 1 then "/" + rest else "/.." + ColonsOut(k - 2, rest)
  }

  lemma {:induction false} ColonsTranslate(k: nat, x: string)
    requires x == "" || x[0] != ':'
    ensures FromMacRest(Colons(k) + x) == ColonsOut(k, FromMacRest(x))
  {
    var p := Colons(k) + x;
    if k == 0 {
      assert p == x;
    } else if k == 1 {
      assert Colons(1) == ":" + Colons(0);
      assert p[1..] == x;
    } else {
      assert Colons(k) == ":" + (":" + Colons(k - 2));
      assert p[0] == ':' && p[1] == ':' && p[2..] == Colons(k - 2) + x;
      ColonsTranslate(k - 2, x);
    }
  }

  lemma StartsPlain(m: MacTail)
    requires WellFormed(m)
    ensures MacString(m) == "" || MacString(m)[0] != ':'
    ensures MacString(m) == "" <==> m == Stop
  {
    if m != Stop {
      assert MacString(m)[0] == m.name[0];
    }
  }

  lemma FolderTranslates(n: string, k: nat, next: MacTail)
    requires ':' !in n && k > 0 && WellFormed(next)
    ensures FromMacRest(n + Colons(k) + MacString(next)) == n + ColonsOut(k, FromMacRest(MacString(next)))
  {
    StartsPlain(next);
    assert n + Colons(k) + MacString(next) == n + (Colons(k) + MacString(next));
    FromMacCopiesName(n, Colons(k) + MacString(next));
    ColonsTranslate(k, MacString(next));
  }

  /** The translated text starts with the first name, whole. */
  lemma TranslatedStart(m: MacTail) returns (z: string)
    requires WellFormed(m) && m != Stop
    ensures FromMacRest(MacString(m)) == m.name + z && (z == "" || z[0] == '/')
  {
    match m
    case Final(n) =>
      FromMacCopiesName(n, "");
      assert n + "" == n;
      z := "";
    case Folder(n, k, next) =>
      FolderTranslates(n, k, next);
      z := ColonsOut(k, FromMacRest(MacString(next)));
  }

  function Ups(k: nat): (s: seq<Step>)
    ensures |s| == k && forall i | 0 <= i < k :: s[i] == Up
  {
    if k == 0 then [] else [Up] + Ups(k - 1)
  }

  lemma UpsAfter(k: nat, s: seq<Step>)
    requires k > 0
    ensures Ups(k) + s == [Up] + (Ups(k - 1) + s)
  {
  }

  lemma {:induction false} MacColons(k: nat, x: string)
    ensures MacSteps(Colons(k) + x) == Ups(k) + MacSteps(x)
  {
    if k == 0 {
      assert Colons(0) + x == x;
    } else {
      var p := Colons(k - 1) + x;
      MacColons(k - 1, x);
      UpFirst(p);
      FirstColon(k, x);
      UpsAfter(k, MacSteps(x));
    }
  }

  /** k colons after a name are one separator and k - 1 steps up. */
  lemma FolderMacSteps(n: string, k: nat, x: string)
    requires n != "" && ':' !in n && k > 0
    ensures MacSteps(n + Colons(k) + x) == [Down(n)] + (Ups(k - 1) + MacSteps(x))
  {
    assert n + Colons(k) + x == n + ":" + (Colons(k - 1) + x) by {
      assert Colons(k) == ":" + Colons(k - 1);
    }
    MacStepsName(n, Colons(k - 1) + x);
    MacColons(k - 1, x);
  }

  /** k colons at the end become k / 2 steps up only. */
  lemma {:induction false} TrailingColons(k: nat)
    ensures PosixSteps(ColonsOut(k, "")) == Ups(k / 2)
  {
    if k == 1 {
      RootComponents("");
      assert "/" + "" == "/";
    } else if k >= 2 {
      TrailingColons(k - 2);
      SlashParent(ColonsOut(k - 2, ""));
    }
  }

  /** "/.." in front of a text that is empty or starts with a slash is one step up. */
  lemma SlashParent(rest: string)
    requires rest == "" || rest[0] == '/'
    ensures PosixSteps("/.." + rest) == [Up] + PosixSteps(rest)
  {
    assert "/.." + rest == "/" + (".." + rest);
    RootComponents(".." + rest);
    ComponentsName("..", rest);
    StepsAppend("..", Components(rest));
  }

  lemma ColonsOutStart(k: nat, y: string)
    requires k > 0
    ensures ColonsOut(k, y) != "" && ColonsOut(k, y)[0] == '/'
  {
  }

  lemma NameFirst(n: string, z: string)
    requires n != "" && '/' !in n && !IsDots(n) && (z == "" || z[0] == '/')
    ensures PosixSteps(n + z) == [Down(n)] + PosixSteps(z)
  {
    ComponentsName(n, z);
    StepsAppend(n, Components(z));
  }

  /** k colons before a name: after (k - 1) / 2 steps up comes a step down, because
      with an even run the ".." runs into the name. */
  lemma {:induction false} DownTooEarly(k: nat, n: string, z: string)
    requires k > 0 && ValidName(n) && (z == "" || z[0] == '/')
    ensures
      var s := PosixSteps(ColonsOut(k, n + z));
      |s| > (k - 1) / 2 && s[(k - 1) / 2].Down?
    decreases k
  {
    var y := n + z;
    if k == 1 {
      RootComponents(y);
      NameFirst(n, z);
    } else if k == 2 {
      assert "/.." + y == "/" + ((".." + n) + z);
      RootComponents((".." + n) + z);
      NameFirst(".." + n, z);
      assert ColonsOut(0, y) == y;
    } else {
      DownTooEarly(k - 2, n, z);
      ColonsOutStart(k - 2, y);
      SlashParent(ColonsOut(k - 2, y));
    }
  }

  /** Steps of the translation and of the original, compared for every tail. */
  lemma {:induction false} TailKeepsMeaning(m: MacTail)
    requires ValidMac(m) && WellFormed(m)
    ensures PosixSteps(FromMacRest(MacString(m))) == MacSteps(MacString(m)) <==> ColonsAreSafe(m)
  {
    match m
    case Stop =>
    case Final(n) =>
      FromMacCopiesName(n, "");
      assert n + "" == n;
      NameFirst(n, "");
      MacStepsName(n, "");
    case Folder(n, k, next) =>
      var y := FromMacRest(MacString(next));
      FolderTranslates(n, k, next);
      FolderMacSteps(n, k, MacString(next));
      ColonsOutStart(k, y);
      NameFirst(n, ColonsOut(k, y));
      TailKeepsMeaning(next);
      ColonsKeepMeaning(k, next);
      ConsEqual(Down(n), PosixSteps(ColonsOut(k, y)), Ups(k - 1) + MacSteps(MacString(next)));
  }

  function Cons(a: Step, s: seq<Step>): seq<Step> {
    [a] + s
  }

  lemma ColonsKeepMeaning(k: nat, next: MacTail)
    requires k > 0 && ValidMac(next) && WellFormed(next)
    ensures
      var x, y := MacString(next), FromMacRest(MacString(next));
      PosixSteps(ColonsOut(k, y)) == Ups(k - 1) + MacSteps(x) <==>
      (k == 1 && PosixSteps(y) == MacSteps(x)) || (k == 2 && next == Stop)
  {
    var x, y := MacString(next), FromMacRest(MacString(next));
    StartsPlain(next);
    if next == Stop {
      TrailingColons(k);
      assert Ups(k - 1) + MacSteps(x) == Ups(k - 1);
      assert |Ups(k / 2)| == k / 2;
    } else if k == 1 {
      RootComponents(y);
      assert Ups(0) + MacSteps(x) == MacSteps(x);
    } else {
      var z := TranslatedStart(next);
      DownTooEarly(k, next.name, z);
      assert (Ups(k - 1) + MacSteps(x))[(k - 1) / 2] == Up;
    }
  }

  lemma ConsEqual(a: Step, s: seq<Step>, t: seq<Step>)
    ensures Cons(a, s) == Cons(a, t) <==> s == t
  {
    assert Cons(a, s)[1..] == s && Cons(a, t)[1..] == t;
  }

  lemma {:induction false} ParentsTranslate(k: nat, x: string)
    requires x == "" || x[0] != ':'
    ensures PosixSteps(FromMacParents(Colons(k) + x)) == Ups(k) + PosixSteps(FromMacRest(x))
    ensures FromMacParents(Colons(k) + x) == "" || FromMacParents(Colons(k) + x)[0] == '/'
  {
    if k == 0 {
      assert Colons(0) + x == x;
      if x != "" {
        RootComponents(FromMacRest(x));
      }
    } else {
      var p := Colons(k - 1) + x;
      ParentsTranslate(k - 1, x);
      FirstColon(k, x);
      assert (":" + p)[1..] == p;
      SlashParent(FromMacParents(p));
      UpsAfter(k, PosixSteps(FromMacRest(x)));
    }
  }

  lemma DotDropped(rest: string)
    requires rest == "" || rest[0] == '/'
    ensures PosixSteps("." + rest) == PosixSteps(rest)
  {
    ComponentsName(".", rest);
    StepsAppend(".", Components(rest));
  }

  lemma UpsEqual(k: nat, s: seq<Step>, t: seq<Step>)
    ensures Ups(k) + s == Ups(k) + t <==> s == t
  {
    assert (Ups(k) + s)[k..] == s && (Ups(k) + t)[k..] == t;
  }

  lemma RelativeSteps(k: nat, x: string, volume: string)
    requires k > 0 && (x == "" || x[0] != ':')
    ensures PosixMeaning(FromMac(Colons(k) + x), volume) == Relative(Ups(k - 1) + PosixSteps(FromMacRest(x)))
  {
    var p := Colons(k - 1) + x;
    FirstColon(k, x);
    FromMacRelative(p);
    ParentsTranslate(k - 1, x);
    DotDropped(FromMacParents(p));
  }

  lemma FromMacRelative(p: string)
    ensures FromMac(":" + p) == "." + FromMacParents(p)
  {
    assert (":" + p)[1..] == p;
  }

  lemma RelativeMacSteps(k: nat, x: string)
    requires k > 0
    ensures MacMeaning(Colons(k) + x) == Relative(Ups(k - 1) + MacSteps(x))
  {
    var p := Colons(k - 1) + x;
    FirstColon(k, x);
    RelativeMeaning(p);
    MacColons(k - 1, x);
  }

  lemma RelativeKeepsMeaning(k: nat, m: MacTail, volume: string)
    requires k > 0 && WellFormed(m)
    ensures
      var mac := Colons(k) + MacString(m);
      PosixMeaning(FromMac(mac), volume) == MacMeaning(mac) <==> ValidMac(m) && ColonsAreSafe(m)
  {
    var x := MacString(m);
    StartsPlain(m);
    RelativeSteps(k, x, volume);
    RelativeMacSteps(k, x);
    UpsEqual(k - 1, PosixSteps(FromMacRest(x)), MacSteps(x));
    if ValidMac(m) {
      TailKeepsMeaning(m);
    } else {
      var name := ForeignName(m);
      NoForeignNames(FromMacRest(x), name);
    }
  }

  /** A name that POSIX cannot have is a step the POSIX reading does not have. */
  lemma {:induction false} ForeignName(m: MacTail) returns (name: string)
    requires WellFormed(m) && !ValidMac(m)
    ensures (IsDots(name) || '/' in name) && Down(name) in MacSteps(MacString(m))
  {
    match m
    case Final(n) =>
      name := n;
      MacStepsName(n, "");
    case Folder(n, k, next) =>
      FolderMacSteps(n, k, MacString(next));
      if ValidName(n) {
        name := ForeignName(next);
      } else {
        name := n;
      }
  }

  lemma AbsoluteSteps(v: string, z: string, volume: string)
    requires ValidName(v) && (z == "" || z[0] == '/')
    ensures PosixMeaning("/Volumes/" + (v + z), volume) == Absolute(v, PosixSteps(z))
  {
    PrefixedComponents(v + z);
    ComponentsName(v, z);
    assert ["Volumes"] + ([v] + Components(z)) == ["Volumes", v] + Components(z);
    assert (["Volumes", v] + Components(z))[2..] == Components(z);
  }

  /** The steps behind the volume. */
  function Behind(m: MacTail): seq<Step>
    requires WellFormed(m) && m != Stop
  {
    match m
    case Final(_) => []
    case Folder(_, k, next) => Ups(k - 1) + MacSteps(MacString(next))
  }

  /** The text behind the volume's name, translated. */
  function BehindText(m: MacTail): string
    requires m != Stop
  {
    match m
    case Final(_) => ""
    case Folder(_, k, next) => ColonsOut(k, FromMacRest(MacString(next)))
  }

  lemma AbsoluteTexts(m: MacTail)
    requires WellFormed(m) && m != Stop
    ensures FromMac(MacString(m)) == "/Volumes/" + (m.name + BehindText(m))
    ensures BehindText(m) == "" || BehindText(m)[0] == '/'
  {
    StartsPlain(m);
    match m
    case Final(n) =>
      FromMacCopiesName(n, "");
      assert n + "" == n;
    case Folder(n, k, next) =>
      FolderTranslates(n, k, next);
      ColonsOutStart(k, FromMacRest(MacString(next)));
  }

  lemma AbsoluteMacMeaning(m: MacTail)
    requires WellFormed(m) && m != Stop
    ensures MacMeaning(MacString(m)) == Absolute(m.name, Behind(m))
    ensures MacSteps(MacString(m)) == [Down(m.name)] + Behind(m)
  {
    match m
    case Final(n) =>
      VolumeMeaning(n, "");
      MacStepsName(n, "");
    case Folder(n, k, next) =>
      var rest := Colons(k - 1) + MacString(next);
      assert n + Colons(k) + MacString(next) == n + ":" + rest by {
        assert Colons(k) == ":" + Colons(k - 1);
      }
      VolumeMeaning(n, rest);
      MacColons(k - 1, MacString(next));
      FolderMacSteps(n, k, MacString(next));
  }

  lemma ValidVolume(m: MacTail, volume: string)
    requires WellFormed(m) && ValidMac(m) && m != Stop
    ensures PosixMeaning(FromMac(MacString(m)), volume) == MacMeaning(MacString(m)) <==> ColonsAreSafe(m)
  {
    var v, z := m.name, BehindText(m);
    AbsoluteTexts(m);
    AbsoluteSteps(v, z, volume);
    AbsoluteMacMeaning(m);
    TailKeepsMeaning(m);
    StartsPlain(m);
    var y := TranslatedStart(m);
    assert FromMac(MacString(m)) == "/Volumes/" + FromMacRest(MacString(m));
    assert (v + z)[|v|..] == z && (v + y)[|v|..] == y;
    assert ("/Volumes/" + (v + z))[9..] == v + z && ("/Volumes/" + (v + y))[9..] == v + y;
    NameFirst(v, z);
    ConsEqual(Down(v), PosixSteps(z), Behind(m));
  }

  // ---------- names POSIX cannot have ----------

  function Downs(s: seq<Step>): nat {
    |s| - multiset(s)[Up]
  }

  lemma DownsAdd(a: seq<Step>, b: seq<Step>)
    ensures Downs(a + b) == Downs(a) + Downs(b)
  {
    assert multiset(a + b) == multiset(a) + multiset(b);
    assert multiset(a)[Up] <= |multiset(a)| && multiset(b)[Up] <= |multiset(b)|;
  }

  lemma {:induction false} UpsHaveNoDowns(k: nat)
    ensures Downs(Ups(k)) == 0
  {
    if k > 0 {
      UpsHaveNoDowns(k - 1);
      DownsAdd([Up], Ups(k - 1));
    }
  }

  /** However many colons come before it, a name is one step down. */
  lemma {:induction false} NameIsOneDown(k: nat, n: string, z: string)
    requires k > 0 && ValidName(n) && (z == "" || z[0] == '/')
    ensures Downs(PosixSteps(ColonsOut(k, n + z))) == 1 + Downs(PosixSteps(z))
    decreases k
  {
    var y := n + z;
    if k == 1 {
      RootComponents(y);
      NameFirst(n, z);
      DownsAdd([Down(n)], PosixSteps(z));
    } else if k == 2 {
      assert "/.." + y == "/" + ((".." + n) + z);
      RootComponents((".." + n) + z);
      NameFirst(".." + n, z);
      assert ColonsOut(0, y) == y;
      DownsAdd([Down(".." + n)], PosixSteps(z));
    } else {
      NameIsOneDown(k - 2, n, z);
      ColonsOutStart(k - 2, y);
      SlashParent(ColonsOut(k - 2, y));
      DownsAdd([Up], PosixSteps(ColonsOut(k - 2, y)));
    }
  }

  lemma BehindDowns(m: MacTail)
    requires WellFormed(m) && m != Stop
    ensures Downs(Behind(m)) == if m.Final? then 0 else Downs(MacSteps(MacString(m.next)))
  {
    if m.Folder? {
      UpsHaveNoDowns(m.colons - 1);
      DownsAdd(Ups(m.colons - 1), MacSteps(MacString(m.next)));
    }
  }

  /** The names behind the volume, if POSIX can have them, stay as many steps down. */
  lemma {:induction false} DownsStay(m: MacTail)
    requires WellFormed(m) && m != Stop && (m.Folder? ==> ValidMac(m.next))
    ensures Downs(PosixSteps(BehindText(m))) == Downs(Behind(m))
  {
    BehindDowns(m);
    if m.Folder? {
      if m.next == Stop {
        TrailingColons(m.colons);
        UpsHaveNoDowns(m.colons / 2);
      } else {
        DownsStay(m.next);
        NextDown(m.colons, m.next);
      }
    }
  }

  lemma NextDown(k: nat, next: MacTail)
    requires k > 0 && WellFormed(next) && ValidMac(next) && next != Stop
    requires Downs(PosixSteps(BehindText(next))) == Downs(Behind(next))
    ensures Downs(PosixSteps(ColonsOut(k, FromMacRest(MacString(next))))) == Downs(MacSteps(MacString(next)))
  {
    TextStart(next);
    NameIsOneDown(k, next.name, BehindText(next));
    AbsoluteMacMeaning(next);
    DownsAdd([Down(next.name)], Behind(next));
  }

  lemma TextStart(m: MacTail)
    requires WellFormed(m) && m != Stop
    ensures FromMacRest(MacString(m)) == m.name + BehindText(m)
    ensures BehindText(m) == "" || BehindText(m)[0] == '/'
  {
    AbsoluteTexts(m);
    StartsPlain(m);
    assert ("/Volumes/" + FromMacRest(MacString(m)))[9..] == FromMacRest(MacString(m));
    assert ("/Volumes/" + (m.name + BehindText(m)))[9..] == m.name + BehindText(m);
  }

  lemma {:induction false} ComponentsConcat(a: string, b: string)
    requires b == "" || b[0] == '/'
    ensures Components(a + b) == Components(a) + Components(b)
    decreases |a|
  {
    if a == "" {
      assert a + b == b;
    } else if a[0] == '/' {
      assert (a + b)[1..] == a[1..] + b;
      ComponentsConcat(a[1..], b);
    } else {
      var n := Span(a, '/');
      var c, q := a[..n], a[n..];
      assert a == c + q;
      Associates(c, q, b);
      Associates([c], Components(q), Components(b));
      ComponentsName(c, q);
      ComponentsName(c, q + b);
      ComponentsConcat(q, b);
    }
  }

  lemma {:induction false} StepsConcat(a: seq<string>, b: seq<string>)
    ensures StepsOf(a + b) == StepsOf(a) + StepsOf(b)
  {
    if a == [] {
      assert a + b == b;
    } else {
      assert a + b == [a[0]] + (a[1..] + b);
      StepsAppend(a[0], a[1..] + b);
      StepsConcat(a[1..], b);
    }
  }

  /** A volume name POSIX cannot have: either another volume is read, or the path is
      read on the default volume, below a folder called Volumes. */
  lemma InvalidVolume(m: MacTail, volume: string)
    requires WellFormed(m) && m != Stop && !ValidName(m.name) && (m.Folder? ==> ValidMac(m.next))
    ensures PosixMeaning(FromMac(MacString(m)), volume) != MacMeaning(MacString(m))
  {
    var v, z := m.name, BehindText(m);
    AbsoluteTexts(m);
    AbsoluteMacMeaning(m);
    PrefixedComponents(v + z);
    var cs := Components("/Volumes/" + (v + z));
    if |cs| >= 2 { PosixNames("/Volumes/" + (v + z), 1); }
    ComponentsConcat(v, z);
    StepsAppend("Volumes", Components(v + z));
    StepsConcat(Components(v), Components(z));
    DownsAdd([Down("Volumes")], StepsOf(Components(v)) + PosixSteps(z));
    DownsAdd(StepsOf(Components(v)), PosixSteps(z));
    DownsStay(m);
  }

  lemma {:induction false} PartOfComponents(cs: seq<string>, name: string)
    requires |cs| >= 2
    ensures Down(name) in StepsOf(cs[2..]) ==> Down(name) in StepsOf(cs)
  {
    StepNames(cs, name);
    StepNames(cs[2..], name);
  }

  /** A name behind the volume that POSIX cannot have. */
  lemma InvalidBehind(m: MacTail, volume: string)
    requires WellFormed(m) && m.Folder? && !ValidMac(m.next)
    ensures PosixMeaning(FromMac(MacString(m)), volume) != MacMeaning(MacString(m))
  {
    var name := ForeignName(m.next);
    var path := FromMac(MacString(m));
    AbsoluteMacMeaning(m);
    NoForeignNames(path, name);
    if |Components(path)| >= 2 { PartOfComponents(Components(path), name); }
  }

  lemma AbsoluteKeepsMeaning(m: MacTail, volume: string)
    requires WellFormed(m) && m != Stop
    ensures PosixMeaning(FromMac(MacString(m)), volume) == MacMeaning(MacString(m))
      <==> ValidMac(m) && ColonsAreSafe(m)
  {
    if ValidMac(m) {
      ValidVolume(m, volume);
    } else if m.Folder? && !ValidMac(m.next) {
      InvalidBehind(m, volume);
    } else {
      InvalidVolume(m, volume);
    }
  }

  // ---------- every string ----------

  /** The colons q begins with. */
  function ColonRun(q: string): (k: nat)
    ensures k <= |q| && (k < |q| ==> q[k] != ':') && (k > 0 <==> q != "" && q[0] == ':')
  {
    if q != "" && q[0] == ':' then 1 + ColonRun(q[1..]) else 0
  }

  lemma {:induction false} ColonRunIsColons(q: string)
    ensures q == Colons(ColonRun(q)) + q[ColonRun(q)..]
  {
    if q != "" && q[0] == ':' {
      ColonRunIsColons(q[1..]);
      assert q == ":" + q[1..];
    }
  }

  function Parse(p: string): (m: MacTail)
    requires p == "" || p[0] != ':'
    ensures m == Stop <==> p == ""
    decreases |p|
  {
    if p == "" then Stop
    else
      var n := Span(p, ':');
      if n == |p| then Final(p)
      else
        var k := ColonRun(p[n..]);
        Folder(p[..n], k, Parse(p[n + k..]))
  }

  lemma {:induction false} ParseReads(p: string)
    requires p == "" || p[0] != ':'
    ensures WellFormed(Parse(p)) && MacString(Parse(p)) == p
    decreases |p|
  {
    if p != "" {
      var n := Span(p, ':');
      if n == |p| {
        assert p[..n] == p;
      } else {
        ParseReads(p[n + ColonRun(p[n..])..]);
        SplitAtRun(p, n);
      }
    }
  }

  lemma SplitAtRun(p: string, n: nat)
    requires n <= |p|
    ensures p == p[..n] + Colons(ColonRun(p[n..])) + p[n + ColonRun(p[n..])..]
  {
    var q := p[n..];
    ColonRunIsColons(q);
    assert q[ColonRun(q)..] == p[n + ColonRun(q)..];
    assert p == p[..n] + q;
  }

  /** The guard of posix9_path_from_mac that a caller can check. */
  predicate MacTranslatable(mac: string) {
    mac != "" && var m := Parse(mac[ColonRun(mac)..]); ValidMac(m) && ColonsAreSafe(m)
  }

  /** For every string: read as a POSIX path, the output means what the input means as a
      Mac path, if and only if the input is MacTranslatable. */
  lemma FromMacKeepsMeaning(mac: string, volume: string)
    ensures PosixMeaning(FromMac(mac), volume) == MacMeaning(mac) <==> MacTranslatable(mac)
  {
    if mac != "" {
      var k := ColonRun(mac);
      var m := Parse(mac[k..]);
      ColonRunIsColons(mac);
      ParseReads(mac[k..]);
      if k > 0 {
        RelativeKeepsMeaning(k, m, volume);
      } else {
        AbsoluteKeepsMeaning(m, volume);
      }
    }
  }

  /** A file whose name has a slash in it is taken for a file in a folder. */
  lemma SlashIsMisread(v: string, a: string, b: string, volume: string)
    requires ValidName(v) && ValidName(a) && ValidName(b)
    ensures MacMeaning(v + ":" + (a + "/" + b)) == Absolute(v, [Down(a + "/" + b)])
    ensures PosixMeaning(FromMac(v + ":" + (a + "/" + b)), volume) == Absolute(v, [Down(a), Down(b)])
  {
    var n := a + "/" + b;
    VolumeMeaning(v, n);
    MacStepsName(n, "");
    var m := Folder(v, 1, Final(n));
    assert Colons(1) == ":" by { assert Colons(1) == ":" + Colons(0); }
    assert MacString(m) == v + ":" + n;
    AbsoluteTexts(m);
    FromMacCopiesName(n, "");
    assert n + "" == n;
    AbsoluteSteps(v, "/" + n, volume);
    RootComponents(n);
    SlashedSteps(a, b);
  }

  lemma SlashedSteps(a: string, b: string)
    requires ValidName(a) && ValidName(b)
    ensures PosixSteps(a + "/" + b) == [Down(a), Down(b)]
  {
    assert a + "/" + b == a + ("/" + b);
    NameFirst(a, "/" + b);
    RootComponents(b);
    NameFirst(b, "");
    assert b + "" == b;
  }

  /** A name followed by "::" and another name: the parent step is lost and the
      last name gains two dots. */
  lemma InteriorParentIsMisread(a: string, b: string)
    requires ValidName(a) && ValidName(b)
    ensures FromMac(a + "::" + b) == "/Volumes/" + a + "/.." + b
  {
    FolderTranslates(a, 2, Final(b));
    assert Colons(2) == "::" by {
      assert Colons(1) == ":" + Colons(0);
    }
    FromMacCopiesName(b, "");
    assert b + "" == b;
    assert ColonsOut(2, b) == "/.." + b by {
      assert ColonsOut(0, b) == b;
    }
    assert (a + "::" + b)[0] == a[0];
    assert "/Volumes/" + (a + ("/.." + b)) == "/Volumes/" + a + "/.." + b;
  }
}
