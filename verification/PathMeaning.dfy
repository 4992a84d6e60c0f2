/** The meaning of a translated path. */
module PathMeaning {
  import opened PathSpec
  import opened Sequences

  // ---------- reading POSIX text ----------

  lemma {:induction false} SpanName(n: string, rest: string, sep: char)
    requires sep !in n && (rest == "" || rest[0] == sep)
    ensures Span(n + rest, sep) == |n|
  {
    if n == "" {
      assert n + rest == rest;
    } else {
      assert (n + rest)[1..] == n[1..] + rest;
      SpanName(n[1..], rest, sep);
    }
  }

  lemma ComponentsName(n: string, rest: string)
    requires n != "" && '/' !in n && (rest == "" || rest[0] == '/')
    ensures Components(n + rest) == [n] + Components(rest)
  {
    SpanName(n, rest, '/');
    assert (n + rest)[..|n|] == n && (n + rest)[|n|..] == rest;
    assert (n + rest)[0] == n[0];
  }

  lemma StepsAppend(a: string, cs: seq<string>)
    ensures StepsOf([a] + cs) == StepOf(a) + StepsOf(cs)
  {
    assert ([a] + cs)[1..] == cs;
  }

  function StepOf(c: string): seq<Step> {
    if c == "." then [] else if c == ".." then [Up] else [Down(c)]
  }

  function PosixSteps(p: string): seq<Step> {
    StepsOf(Components(p))
  }

  lemma RootComponents(x: string)
    ensures Components("/" + x) == Components(x)
  {
    assert ("/" + x)[1..] == x;
  }

  lemma PrefixedComponents(rest: string)
    ensures Components("/Volumes/" + rest) == ["Volumes"] + Components(rest)
  {
    assert "/Volumes/" + rest == "/" + ("Volumes" + ("/" + rest));
    RootComponents("Volumes" + ("/" + rest));
    ComponentsName("Volumes", "/" + rest);
    RootComponents(rest);
  }

  lemma {:induction false} SkipKeepsComponents(q: string)
    ensures Components(SkipSlashes(q)) == Components(q)
  {
    if q != "" && q[0] == '/' { SkipKeepsComponents(q[1..]); }
  }

  /** The step that belongs to the separator q. */
  function Lead(q: string): seq<Step> {
    if q != "" && q[0] == '/' && StartsWithParent(SkipSlashes(q)) then [Up] else []
  }

  lemma ParentFirst(r: string)
    requires StartsWithParent(r)
    ensures PosixSteps(r) == [Up] + PosixSteps(SkipOneSlash(r[2..]))
  {
    assert r == ".." + r[2..];
    ComponentsName("..", r[2..]);
    StepsAppend("..", Components(r[2..]));
  }

  lemma DotFirst(r: string)
    requires StartsWithDot(r)
    ensures PosixSteps(r) == PosixSteps(SkipOneSlash(r[1..]))
  {
    assert r == "." + r[1..];
    ComponentsName(".", r[1..]);
    StepsAppend(".", Components(r[1..]));
  }

  lemma SeparatorSteps(q: string)
    requires q == "" || q[0] == '/'
    ensures PosixSteps(q) == Lead(q) + PosixSteps(NextStart(q))
  {
    SkipKeepsComponents(q);
    if Lead(q) != [] { ParentFirst(SkipSlashes(q)); }
  }

  /** The POSIX reading, one component and one separator at a time. */
  lemma PosixReads(c: string, q: string)
    requires c != "" && '/' !in c && (q == "" || q[0] == '/')
    ensures PosixSteps(c + q) == StepOf(c) + (Lead(q) + PosixSteps(NextStart(q)))
  {
    ComponentsName(c, q);
    StepsAppend(c, Components(q));
    SeparatorSteps(q);
  }

  /** A step down in a POSIX reading is to a component that is neither "." nor "..". */
  lemma {:induction false} PosixNames(p: string, i: nat)
    requires i < |Components(p)|
    ensures Components(p)[i] != "" && '/' !in Components(p)[i]
    ensures ':' in Components(p)[i] ==> ':' in p
    decreases |p|
  {
    if p[0] == '/' {
      PosixNames(p[1..], i);
    } else {
      var n := Span(p, '/');
      if i > 0 { PosixNames(p[n..], i - 1); }
    }
  }

  lemma {:induction false} StepNames(cs: seq<string>, name: string)
    ensures Down(name) in StepsOf(cs) <==> name in cs && !IsDots(name)
  {
    if cs != [] { StepNames(cs[1..], name); }
  }

  lemma NoForeignNames(p: string, name: string)
    requires IsDots(name) || '/' in name
    ensures Down(name) !in PosixSteps(p)
  {
    StepNames(Components(p), name);
    if name in Components(p) {
      var i :| 0 <= i < |Components(p)| && Components(p)[i] == name;
      PosixNames(p, i);
    }
  }

  // ---------- reading Mac text ----------

  lemma MacStepsName(n: string, rest: string)
    requires n != "" && ':' !in n
    ensures MacSteps(n) == [Down(n)]
    ensures MacSteps(n + ":" + rest) == [Down(n)] + MacSteps(rest)
  {
    SpanName(n, "", ':');
    assert n + "" == n && n[..|n|] == n;
    var p := n + ":" + rest;
    assert p == n + (":" + rest);
    SpanName(n, ":" + rest, ':');
    assert p[0] == n[0] && p[..|n|] == n && p[|n| + 1..] == rest;
  }

  lemma UpFirst(rest: string)
    ensures MacSteps(":" + rest) == [Up] + MacSteps(rest)
  {
    assert (":" + rest)[1..] == rest;
  }

  lemma RelativeMeaning(rest: string)
    ensures MacMeaning(":" + rest) == Relative(MacSteps(rest))
  {
    assert (":" + rest)[1..] == rest;
  }

  lemma VolumeMeaning(v: string, rest: string)
    requires v != "" && ':' !in v
    ensures MacMeaning(v + ":" + rest) == Absolute(v, MacSteps(rest))
    ensures MacMeaning(v) == Absolute(v, [])
  {
    var p := v + ":" + rest;
    assert p == v + (":" + rest);
    SpanName(v, ":" + rest, ':');
    assert p[0] == v[0] && p[..|v|] == v && p[|v| + 1..] == rest;
    SpanName(v, "", ':');
    assert v + "" == v && v[..|v|] == v;
  }

  /** q split at its first colon. */
  lemma SplitAtColon(q: string) returns (n: string, rest: string)
    requires q != "" && q[0] != ':' && Span(q, ':') < |q|
    ensures n != "" && ':' !in n && q == n + ":" + rest
    ensures |rest| < |q| && (q[|q| - 1] != ':' ==> rest != "" && rest[|rest| - 1] != ':')
  {
    var k := Span(q, ':');
    n, rest := q[..k], q[k + 1..];
  }

  lemma ColonBefore(rest: string)
    requires MacSteps(rest + ":") == MacSteps(rest)
    ensures MacSteps(":" + rest + ":") == MacSteps(":" + rest)
  {
    UpFirst(rest);
    UpFirst(rest + ":");
    assert ":" + rest + ":" == ":" + (rest + ":");
  }

  lemma NameBefore(n: string, rest: string)
    requires n != "" && ':' !in n && MacSteps(rest + ":") == MacSteps(rest)
    ensures MacSteps(n + ":" + rest + ":") == MacSteps(n + ":" + rest)
  {
    MacStepsName(n, rest);
    MacStepsName(n, rest + ":");
    assert n + ":" + rest + ":" == n + ":" + (rest + ":");
  }

  /** A single colon at the end of a name adds no step. */
  lemma {:induction false} TrailingColon(q: string)
    requires q != "" && q[|q| - 1] != ':'
    ensures MacSteps(q + ":") == MacSteps(q)
    decreases |q|
  {
    if q[0] == ':' {
      var rest := q[1..];
      TrailingColon(rest);
      ColonBefore(rest);
      assert q == ":" + rest;
    } else if Span(q, ':') == |q| {
      assert q[..|q|] == q;
      MacStepsName(q, "");
      assert q + ":" + "" == q + ":";
    } else {
      var n, rest := SplitAtColon(q);
      TrailingColon(rest);
      NameBefore(n, rest);
    }
  }

  lemma TrimKeepsMeaning(s: string)
    requires s != ""
    ensures MacMeaning(Trim(s)) == MacMeaning(s)
  {
    if Trim(s) != s {
      var q := s[..|s| - 1];
      assert s == q + ":" && Trim(s) == q;
      MeaningIgnoresColon(q);
    }
  }

  lemma MeaningIgnoresColon(q: string)
    requires q != "" && q[|q| - 1] != ':'
    ensures MacMeaning(q + ":") == MacMeaning(q)
  {
    if q[0] == ':' {
      var rest := q[1..];
      TrailingColon(rest);
      RelativeMeaning(rest);
      RelativeMeaning(rest + ":");
      assert q == ":" + rest;
      Associates(":", rest, ":");
    } else if Span(q, ':') == |q| {
      assert q[..|q|] == q;
      VolumeMeaning(q, "");
      assert q + ":" + "" == q + ":";
    } else {
      var n, rest := SplitAtColon(q);
      TrailingColon(rest);
      VolumeIgnoresColon(n, rest);
    }
  }

  lemma VolumeIgnoresColon(n: string, rest: string)
    requires n != "" && ':' !in n && MacSteps(rest + ":") == MacSteps(rest)
    ensures MacMeaning(n + ":" + rest + ":") == MacMeaning(n + ":" + rest)
  {
    VolumeMeaning(n, rest);
    VolumeMeaning(n, rest + ":");
    assert n + ":" + rest + ":" == n + ":" + (rest + ":");
  }

  /** No name in a Mac path has a colon in it. */
  lemma {:induction false} MacNames(q: string, name: string)
    requires ':' in name
    ensures Down(name) !in MacSteps(q)
    decreases |q|
  {
    if q == "" {
    } else if q[0] == ':' {
      MacNames(q[1..], name);
    } else {
      var n := Span(q, ':');
      if n < |q| { MacNames(q[n + 1..], name); }
    }
  }

  // ---------- translating ----------

  lemma {:induction false} RestCopiesName(n: string, rest: string)
    requires '/' !in n
    ensures ToMacRest(n + rest) == n + ToMacRest(rest)
  {
    if n == "" {
      assert n + rest == rest;
    } else {
      assert (n + rest)[1..] == n[1..] + rest && (n + rest)[0] == n[0];
      RestCopiesName(n[1..], rest);
      assert [n[0]] + (n[1..] + ToMacRest(rest)) == n + ToMacRest(rest);
    }
  }

  /** The steps of the translated text, where a component is due. */
  function TranslatedSteps(p: string): seq<Step> {
    MacSteps(ToMacRest(p))
  }

  /** A separator becomes one colon, or two if ".." belongs to it. */
  lemma SeparatorTranslates(q: string)
    requires q != "" && q[0] == '/'
    ensures ToMacRest(q) == (if Lead(q) != [] then "::" else ":") + ToMacRest(NextStart(q))
  {
  }

  /** Where a component is due, a separator is one step up too many. */
  lemma SlashTranslates(q: string)
    requires q != "" && q[0] == '/'
    ensures TranslatedSteps(q) == [Up] + (Lead(q) + TranslatedSteps(NextStart(q)))
  {
    var t := ToMacRest(NextStart(q));
    SeparatorTranslates(q);
    UpFirst(t);
    UpFirst(":" + t);
    TwoColonText(t);
    if Lead(q) == [] { NothingFirst(MacSteps(t)); }
  }

  lemma TwoColonText(t: string)
    ensures "::" + t == ":" + (":" + t)
  {
  }

  /** The Mac reading of a translation, one component and one separator at a time. */
  lemma Translates(c: string, q: string)
    requires c != "" && '/' !in c && ':' !in c && (q == "" || q[0] == '/')
    ensures ToMacRest(c + q) == c + ToMacRest(q)
    ensures TranslatedSteps(c + q) == [Down(c)] + (Lead(q) + TranslatedSteps(NextStart(q)))
  {
    RestCopiesName(c, q);
    if q == "" {
      MacStepsName(c, "");
      assert c + "" == c;
    } else {
      SeparatorTranslates(q);
      var t := ToMacRest(NextStart(q));
      if Lead(q) != [] {
        NameAndParent(c, t);
      } else {
        NameAndColon(c, t);
      }
    }
  }

  lemma NameAndColon(c: string, t: string)
    requires c != "" && ':' !in c
    ensures MacSteps(c + (":" + t)) == [Down(c)] + ([] + MacSteps(t))
  {
    MacStepsName(c, t);
    Associates(c, ":", t);
    NothingFirst(MacSteps(t));
  }

  lemma NameAndParent(c: string, t: string)
    requires c != "" && ':' !in c
    ensures MacSteps(c + ("::" + t)) == [Down(c)] + ([Up] + MacSteps(t))
  {
    MacStepsName(c, ":" + t);
    UpFirst(t);
    ParentText(c, t);
  }

  lemma ParentText(c: string, t: string)
    ensures c + ("::" + t) == c + ":" + (":" + t)
  {
  }

  // ---------- comparing ----------

  predicate HasDots(s: seq<Step>) {
    Down(".") in s || Down("..") in s
  }

  function UpCount(s: seq<Step>): nat {
    multiset(s)[Up]
  }

  /** m is at least as far up as p and as far down, strictly further up if more, unless
      it goes into a folder called "." or "..". */
  predicate Compared(m: seq<Step>, p: seq<Step>, more: bool) {
    HasDots(m) || (|m| - UpCount(m) == |p| - UpCount(p) && UpCount(m) >= UpCount(p) + if more then 1 else 0)
  }

  lemma ComparedAfter(a: seq<Step>, b: seq<Step>, m: seq<Step>, p: seq<Step>, more: bool)
    requires Compared(m, p, more)
    requires HasDots(a) || (|a| - UpCount(a) == |b| - UpCount(b) && UpCount(a) >= UpCount(b))
    ensures Compared(a + m, b + p, more || (UpCount(a) > UpCount(b)))
  {
    assert multiset(a + m) == multiset(a) + multiset(m) && multiset(b + p) == multiset(b) + multiset(p);
  }

  /** p split into its first component and the rest. */
  lemma FirstComponent(p: string) returns (c: string, q: string)
    requires p != "" && p[0] != '/'
    ensures c != "" && '/' !in c && p == c + q && (q == "" || q[0] == '/') && |q| < |p|
    ensures Clean(p) <==> !IsDots(c) && Clean(NextStart(q))
    ensures forall x | x in c || x in q || x in NextStart(q) :: x in p
  {
    var n := Span(p, '/');
    c, q := p[..n], p[n..];
    NextStartWithin(q);
  }

  lemma {:induction false} SkipWithin(q: string)
    ensures forall x | x in SkipSlashes(q) :: x in q
  {
    if q != "" && q[0] == '/' { SkipWithin(q[1..]); }
  }

  lemma NextStartWithin(q: string)
    ensures forall x | x in NextStart(q) :: x in q
  {
    SkipWithin(q);
  }

  lemma {:induction false} CleanTranslates(p: string)
    requires Clean(p) && ':' !in p
    ensures TranslatedSteps(p) == PosixSteps(p)
    decreases |p|
  {
    if p != "" {
      var c, q := FirstComponent(p);
      CleanTranslates(NextStart(q));
      Translates(c, q);
      PosixReads(c, q);
    }
  }

  /** Whatever the path, an error shows: an unread "." or ".." as a name no POSIX reading
      has, a slash too many as a step up. */
  lemma {:induction false} Compare(p: string)
    requires ':' !in p
    ensures Compared(TranslatedSteps(p), PosixSteps(p), !Clean(p))
    decreases |p|
  {
    if p == "" {
    } else if p[0] == '/' {
      var next := NextStart(p);
      NextStartWithin(p);
      Compare(next);
      SlashTranslates(p);
      SeparatorSteps(p);
      ComparedAfter(Lead(p), Lead(p), TranslatedSteps(next), PosixSteps(next), !Clean(next));
      OneMoreUp(Lead(p) + TranslatedSteps(next), Lead(p) + PosixSteps(next), !Clean(next));
    } else {
      var c, q := FirstComponent(p);
      var next := NextStart(q);
      Compare(next);
      Translates(c, q);
      PosixReads(c, q);
      ComparedAfter(Lead(q), Lead(q), TranslatedSteps(next), PosixSteps(next), !Clean(next));
      ComparedAfter([Down(c)], StepOf(c), Lead(q) + TranslatedSteps(next), Lead(q) + PosixSteps(next), !Clean(next));
    }
  }

  lemma OneMoreUp(m: seq<Step>, p: seq<Step>, more: bool)
    requires Compared(m, p, more)
    ensures Compared([Up] + m, p, true)
  {
    assert multiset([Up] + m) == multiset([Up]) + multiset(m);
    assert [] + p == p;
  }

  lemma NoDotsInPosix(p: string)
    ensures !HasDots(PosixSteps(p))
  {
    NoForeignNames(p, ".");
    NoForeignNames(p, "..");
  }

  /** The steps agree exactly for clean text. */
  lemma StepsAgree(p: string)
    requires ':' !in p
    ensures TranslatedSteps(p) == PosixSteps(p) <==> Clean(p)
  {
    Compare(p);
    NoDotsInPosix(p);
    if Clean(p) { CleanTranslates(p); }
  }
}
