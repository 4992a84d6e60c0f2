/** When posix9_path_to_mac keeps the meaning of a path: for every string, exactly when
    it is Translatable. */
module PathTranslation {
  import opened PathSpec
  import opened PathMeaning
  import opened Sequences

  /** A component with a colon in it is nowhere in a Mac reading. */
  lemma {:induction false} ColonComponent(p: string) returns (i: nat)
    requires ':' in p
    ensures i < |Components(p)| && ':' in Components(p)[i]
    decreases |p|
  {
    if p[0] == '/' {
      i := ColonComponent(p[1..]);
    } else {
      var n := Span(p, '/');
      if ':' in p[..n] {
        i := 0;
      } else {
        assert p == p[..n] + p[n..];
        var j := ColonComponent(p[n..]);
        i := j + 1;
      }
    }
  }

  lemma ColonsAreLost(path: string, mac: string, volume: string)
    requires ':' in path
    ensures MacMeaning(mac) != PosixMeaning(path, volume)
  {
    var i := ColonComponent(path);
    MacHasNo(mac, Components(path)[i]);
    PosixHas(path, i, volume);
  }

  lemma PosixHas(path: string, i: nat, volume: string)
    requires i < |Components(path)| && ':' in Components(path)[i]
    ensures var m := PosixMeaning(path, volume);
      Down(Components(path)[i]) in m.steps || (m.Absolute? && m.volume == Components(path)[i])
  {
    var cs := Components(path);
    StepNames(cs, cs[i]);
    if |cs| >= 2 {
      StepNames(cs[2..], cs[i]);
      assert i >= 2 ==> cs[2..][i - 2] == cs[i];
    }
  }

  lemma MacHasNo(mac: string, name: string)
    requires ':' in name
    ensures Down(name) !in MacMeaning(mac).steps && (MacMeaning(mac).Absolute? ==> MacMeaning(mac).volume != name)
  {
    if mac != "" && mac[0] == ':' {
      MacNames(mac[1..], name);
    } else {
      var n := Span(mac, ':');
      if n < |mac| { MacNames(mac[n + 1..], name); }
    }
  }

  lemma RelativeStart(path: string, volume: string)
    requires path != "" && path[0] != '/' && ':' !in path
    ensures MacMeaning(ToMacRaw(path, volume)) == PosixMeaning(path, volume) <==> Translatable(path)
  {
    if StartsWithDot(path) {
      var t := SkipOneSlash(path[1..]);
      RelativeMeaning(ToMacRest(t));
      DotFirst(path);
      StepsAgree(t);
    } else if StartsWithParent(path) {
      var t := SkipOneSlash(path[2..]);
      TwoColons(ToMacRest(t));
      ParentFirst(path);
      StepsAgree(t);
      assert ([Up] + TranslatedSteps(t))[1..] == TranslatedSteps(t) && ([Up] + PosixSteps(t))[1..] == PosixSteps(t);
    } else {
      RelativeMeaning(ToMacRest(path));
      StepsAgree(path);
    }
  }

  lemma TwoColons(t: string)
    ensures MacMeaning("::" + t) == Relative([Up] + MacSteps(t))
  {
    TwoColonText(t);
    RelativeMeaning(":" + t);
    UpFirst(t);
  }

  /** An absolute path that does not name a volume. */
  lemma DefaultStart(x: string, volume: string)
    requires ':' !in x && !("Volumes/" <= x) && volume != "" && ':' !in volume
    ensures MacMeaning(ToMacRaw("/" + x, volume)) == PosixMeaning("/" + x, volume) <==> Clean(x)
  {
    DefaultRead(x, volume);
    RootComponents(x);
    StepsAgree(x);
    if NamesVolume(Components(x)) {
      HiddenVolume(x);
      HiddenVolumeDiffers(x);
    }
  }

  lemma DefaultRead(x: string, volume: string)
    requires !("Volumes/" <= x) && volume != "" && ':' !in volume
    ensures MacMeaning(ToMacRaw("/" + x, volume)) == Absolute(volume, TranslatedSteps(x))
  {
    assert ("/" + x)[1..] == x;
    VolumeMeaning(volume, ToMacRest(x));
  }

  predicate NamesVolume(cs: seq<string>) {
    |cs| >= 2 && cs[0] == "Volumes" && !IsDots(cs[1])
  }

  /** The first two components are names: they are two steps down. */
  lemma StepsLater(cs: seq<string>)
    requires |cs| >= 2 && !IsDots(cs[0]) && !IsDots(cs[1])
    ensures StepsOf(cs) == [Down(cs[0]), Down(cs[1])] + StepsOf(cs[2..])
  {
    assert cs == [cs[0]] + ([cs[1]] + cs[2..]);
    StepsAppend(cs[0], [cs[1]] + cs[2..]);
    StepsAppend(cs[1], cs[2..]);
  }

  lemma HiddenVolumeDiffers(x: string)
    requires ':' !in x && NamesVolume(Components(x))
    ensures TranslatedSteps(x) != StepsOf(Components(x)[2..])
  {
    var cs := Components(x);
    var s := StepsOf(cs[2..]);
    Compare(x);
    NoDotsInPosix(x);
    StepsLater(cs);
    assert multiset([Down(cs[0]), Down(cs[1])] + s) == multiset([Down(cs[0]), Down(cs[1])]) + multiset(s);
  }

  /** Components that begin with "Volumes" where the text does not say so come after a
      second slash. */
  lemma HiddenVolume(x: string)
    requires |Components(x)| >= 2 && Components(x)[0] == "Volumes" && !("Volumes/" <= x)
    ensures x[0] == '/'
  {
    if x[0] != '/' {
      var c, q := FirstComponent(x);
      ComponentsName(c, q);
      VolumesPrefix(q);
      assert false;
    }
  }

  lemma VolumesPrefix(q: string)
    requires q == "" || q[0] == '/'
    ensures |Components(q)| >= 1 ==> "Volumes/" <= "Volumes" + q
  {
    if q != "" { assert "Volumes" + q == "Volumes/" + q[1..]; }
  }

  /** The part after /Volumes/, which begins with a component. */
  lemma VolumeStart(c: string, q: string, volume: string)
    requires c != "" && '/' !in c && ':' !in c && (q == "" || q[0] == '/') && ':' !in NextStart(q)
    ensures MacMeaning(ToMacRest(c + q)) == PosixMeaning("/Volumes/" + (c + q), volume)
      <==> !IsDots(c) && Clean(NextStart(q))
  {
    var next := NextStart(q);
    VolumeRead(c, q);
    VolumePosix(c, q, volume);
    SeparatorSteps(q);
    StepsAgree(next);
    LeadEqual(Lead(q), TranslatedSteps(next), PosixSteps(next));
    if IsDots(c) {
      Compare(next);
      ComparedAfter(Lead(q), Lead(q), TranslatedSteps(next), PosixSteps(next), !Clean(next));
      DotVolume(c, Components(q), Lead(q) + TranslatedSteps(next));
      VolumeDotsDiffer(c, q);
    }
  }

  lemma LeadEqual(a: seq<Step>, s: seq<Step>, t: seq<Step>)
    ensures a + s == a + t <==> s == t
  {
    assert (a + s)[|a|..] == s && (a + t)[|a|..] == t;
  }

  lemma VolumePosix(c: string, q: string, volume: string)
    requires c != "" && '/' !in c && (q == "" || q[0] == '/')
    ensures PosixMeaning("/Volumes/" + (c + q), volume) ==
      if IsDots(c) then Absolute(volume, StepsOf(["Volumes"] + ([c] + Components(q)))) else Absolute(c, PosixSteps(q))
  {
    PrefixedComponents(c + q);
    ComponentsName(c, q);
    FromThird("Volumes", c, Components(q));
  }

  lemma FromThird(a: string, b: string, cs: seq<string>)
    ensures ([a] + ([b] + cs))[2..] == cs && ([a] + ([b] + cs))[0] == a && ([a] + ([b] + cs))[1] == b
  {
  }

  lemma VolumeRead(c: string, q: string)
    requires c != "" && '/' !in c && ':' !in c && (q == "" || q[0] == '/')
    ensures MacMeaning(ToMacRest(c + q)) == Absolute(c, Lead(q) + TranslatedSteps(NextStart(q)))
  {
    RestCopiesName(c, q);
    if q == "" {
      VolumeMeaning(c, "");
      assert c + "" == c;
    } else {
      SeparatorTranslates(q);
      if Lead(q) != [] {
        VolumeAndParent(c, ToMacRest(NextStart(q)));
      } else {
        VolumeAndColon(c, ToMacRest(NextStart(q)));
      }
    }
  }

  lemma VolumeAndColon(c: string, t: string)
    requires c != "" && ':' !in c
    ensures MacMeaning(c + (":" + t)) == Absolute(c, [] + MacSteps(t))
  {
    VolumeMeaning(c, t);
    Associates(c, ":", t);
    NothingFirst(MacSteps(t));
  }

  lemma VolumeAndParent(c: string, t: string)
    requires c != "" && ':' !in c
    ensures MacMeaning(c + ("::" + t)) == Absolute(c, [Up] + MacSteps(t))
  {
    VolumeMeaning(c, ":" + t);
    UpFirst(t);
    ParentText(c, t);
  }

  /** Under "/Volumes/." nothing is a volume, so the POSIX reading goes down once more. */
  lemma DotVolume(c: string, cs: seq<string>, m: seq<Step>)
    requires IsDots(c) && Compared(m, StepsOf(cs), false)
    ensures m != StepsOf(["Volumes"] + ([c] + cs)) || HasDots(m)
  {
    StepsAppend("Volumes", [c] + cs);
    StepsAppend(c, cs);
    var p := [Down("Volumes")] + (StepOf(c) + StepsOf(cs));
    assert multiset(p) == multiset([Down("Volumes")]) + (multiset(StepOf(c)) + multiset(StepsOf(cs)));
  }

  lemma VolumeDotsDiffer(c: string, q: string)
    requires c != "" && '/' !in c && (q == "" || q[0] == '/')
    ensures !HasDots(StepsOf(["Volumes"] + ([c] + Components(q))))
  {
    NoDotsInPosix("/Volumes/" + (c + q));
    PrefixedComponents(c + q);
    ComponentsName(c, q);
  }

  /** After /Volumes/, where a volume is due and there is none. */
  lemma NoVolume(r: string, volume: string)
    requires (r == "" || r[0] == '/') && volume != ""
    ensures MacMeaning(ToMacRest(r)) != PosixMeaning("/Volumes/" + r, volume)
  {
    PrefixedComponents(r);
    if r != "" { SeparatorTranslates(r); }
  }

  lemma VolumesStart(r: string, volume: string)
    requires ':' !in r && volume != ""
    ensures MacMeaning(ToMacRaw("/Volumes/" + r, volume)) == PosixMeaning("/Volumes/" + r, volume)
      <==> r != "" && Clean(r)
  {
    var path := "/Volumes/" + r;
    assert "Volumes/" <= path[1..] && path[9..] == r;
    if r == "" || r[0] == '/' {
      NoVolume(r, volume);
    } else {
      var c, q := FirstComponent(r);
      VolumeStart(c, q, volume);
    }
  }

  lemma AbsoluteStart(path: string, volume: string)
    requires path != "" && path[0] == '/' && ':' !in path && volume != "" && ':' !in volume
    ensures MacMeaning(ToMacRaw(path, volume)) == PosixMeaning(path, volume) <==> Translatable(path)
  {
    var x := path[1..];
    assert path == "/" + x;
    if "Volumes/" <= x {
      var r := path[9..];
      assert path == "/Volumes/" + r;
      VolumesStart(r, volume);
    } else {
      DefaultStart(x, volume);
    }
  }

  /** For every string: read as a Mac path, the output means what the input means as a
      POSIX path, if and only if the input is Translatable. */
  lemma TranslationKeepsMeaning(path: string, volume: string)
    requires volume != "" && ':' !in volume
    ensures MacMeaning(ToMac(path, volume)) == PosixMeaning(path, volume) <==> Translatable(path)
  {
    if path == "" {
    } else if ':' in path {
      ColonsAreLost(path, ToMac(path, volume), volume);
    } else {
      if path[0] == '/' { AbsoluteStart(path, volume); } else { RelativeStart(path, volume); }
      RawOrVolumes(path, volume);
    }
  }

  /** Trimming matters to no reading; the text is empty only for /Volumes/ itself. */
  lemma RawOrVolumes(path: string, volume: string)
    requires path != "" && volume != ""
    ensures MacMeaning(ToMac(path, volume)) == MacMeaning(ToMacRaw(path, volume))
  {
    if ToMacRaw(path, volume) != "" { TrimKeepsMeaning(ToMacRaw(path, volume)); }
  }

  /** So a second ".." in a row is read as a name, whatever comes behind it. */
  lemma AdjacentParentsAreMisread(rest: string, volume: string)
    requires volume != "" && ':' !in volume && (rest == "" || rest[0] == '/')
    ensures MacMeaning(ToMac("../.." + rest, volume)) != PosixMeaning("../.." + rest, volume)
  {
    TranslationKeepsMeaning("../.." + rest, volume);
    TwoParentsText(rest);
    CleanName("..", rest);
  }

  lemma TwoParentsText(rest: string)
    ensures StartsWithParent("../.." + rest) && SkipOneSlash(("../.." + rest)[2..]) == ".." + rest
  {
  }

  /** A ".." directly behind a volume is translated faithfully. */
  lemma ParentOfVolumeIsKept(v: string, x: string, volume: string)
    requires volume != "" && ':' !in volume && ValidName(v) && ValidName(x)
    ensures MacMeaning(ToMac("/Volumes/" + (v + ("/../" + x)), volume)) ==
            PosixMeaning("/Volumes/" + (v + ("/../" + x)), volume)
  {
    CleanName(x, "");
    assert x + "" == x;
    CleanAfterParent(v, x);
    var r := v + ("/../" + x);
    VolumePrefix(r);
    TranslationKeepsMeaning("/Volumes/" + r, volume);
  }

  lemma VolumePrefix(r: string)
    requires r != "" && ':' !in r && Clean(r)
    ensures Translatable("/Volumes/" + r)
  {
    assert ("/Volumes/" + r)[9..] == r && "Volumes/" <= ("/Volumes/" + r)[1..];
  }

  /** One at the root of the default volume is not. */
  lemma ParentOfRootIsMisread(rest: string, volume: string)
    requires volume != "" && ':' !in volume && (rest == "" || rest[0] == '/')
    ensures MacMeaning(ToMac("/.." + rest, volume)) != PosixMeaning("/.." + rest, volume)
  {
    var root := "/.." + rest;
    assert root[1..] == ".." + rest && root[1] == '.';
    CleanName("..", rest);
    TranslationKeepsMeaning(root, volume);
  }

  lemma CleanName(c: string, q: string)
    requires c != "" && '/' !in c && (q == "" || q[0] == '/')
    ensures Clean(c + q) <==> !IsDots(c) && Clean(NextStart(q))
  {
    SpanName(c, q, '/');
    assert (c + q)[..|c|] == c && (c + q)[|c|..] == q && (c + q)[0] == c[0];
  }

  lemma CleanAfterParent(v: string, x: string)
    requires ValidName(v) && ValidName(x) && Clean(x)
    ensures Clean(v + ("/../" + x))
  {
    var q := "/../" + x;
    CleanName(v, q);
    assert SkipSlashes(q) == "../" + x by {
      assert q[1..] == "../" + x;
      assert SkipSlashes(q[1..]) == q[1..];
    }
    assert SkipOneSlash(("../" + x)[2..]) == x;
  }
}
