/** What the environment calls mean: an ordered list of bindings, read as a map. */
module EnvironmentSpec {
  import opened Powers
  import opened Wrappers

  datatype Status = Success | InvalidArgument | OutOfMemory
  datatype Binding = Binding(name: string, value: string)

  const MAX_ENV_VARS := 128
  const MAX_ENV_SIZE := 4096

  /** C strings: the terminator is not part of them. */
  predicate NoNul(s: string) {
    '\0' !in s
  }

  predicate ValidName(name: string) {
    name != "" && '=' !in name && NoNul(name)
  }

  function Text(b: Binding): string {
    b.name + "=" + b.value
  }

  ghost predicate WellFormed(es: seq<Binding>) {
    && (forall i | 0 <= i < |es| :: ValidName(es[i].name) && NoNul(es[i].value))
    && (forall i, j | 0 <= i < j < |es| :: es[i].name != es[j].name)
  }

  /** The position of a name, or |es|. */
  function IndexOf(es: seq<Binding>, name: string): (i: nat)
    ensures i <= |es| && (i < |es| ==> es[i].name == name)
    ensures forall j | 0 <= j < i :: es[j].name != name
  {
    if es == [] then 0
    else if es[0].name == name then 0
    else IndexOf(es[1..], name) + 1
  }

  ghost function ToMap(es: seq<Binding>): map<string, string> {
    map b | b in es :: b.name := ValueOf(es, b.name)
  }

  function ValueOf(es: seq<Binding>, name: string): string {
    var i := IndexOf(es, name);
    if i < |es| then es[i].value else ""
  }

  function Update(es: seq<Binding>, name: string, value: string): seq<Binding> {
    var i := IndexOf(es, name);
    if i < |es| then es[i := Binding(name, value)] else es + [Binding(name, value)]
  }

  function Delete(es: seq<Binding>, name: string): seq<Binding> {
    var i := IndexOf(es, name);
    if i < |es| then es[..i] + es[i + 1..] else es
  }

  /** The test of the search loops: strncmp on the name's length, then '='. */
  predicate Matches(name: string, b: Binding) {
    name + "=" <= Text(b)
  }

  /** The first binding the search loop stops at, or |es|. */
  function Search(es: seq<Binding>, name: string): (i: nat)
    ensures i <= |es| && (i < |es| ==> Matches(name, es[i]))
    ensures forall j | 0 <= j < i :: !Matches(name, es[j])
  {
    if es == [] then 0
    else if Matches(name, es[0]) then 0
    else Search(es[1..], name) + 1
  }

  /** What getenv returns. */
  function Lookup(es: seq<Binding>, name: string): Option<string> {
    var i := Search(es, name);
    if i < |es| then Some(Text(es[i])[|name| + 1..]) else None
  }

  // ---------- the list refines a map ----------

  lemma InMap(es: seq<Binding>, name: string)
    ensures name in ToMap(es) <==> IndexOf(es, name) < |es|
    ensures name in ToMap(es) ==> ToMap(es)[name] == es[IndexOf(es, name)].value
  {
    if IndexOf(es, name) < |es| {
      assert es[IndexOf(es, name)] in es;
    }
  }

  lemma IndexUnique(es: seq<Binding>, i: nat, name: string)
    requires WellFormed(es) && i < |es| && es[i].name == name
    ensures IndexOf(es, name) == i
  {
  }

  lemma UpdateKeepsWellFormed(es: seq<Binding>, name: string, value: string)
    requires WellFormed(es) && ValidName(name) && NoNul(value)
    ensures WellFormed(Update(es, name, value))
  {
  }

  lemma DeleteKeepsWellFormed(es: seq<Binding>, name: string)
    requires WellFormed(es)
    ensures WellFormed(Delete(es, name))
  {
  }

  lemma UpdatedIndex(es: seq<Binding>, name: string, value: string, n: string)
    requires WellFormed(es) && ValidName(name) && NoNul(value)
    ensures
      var us := Update(es, name, value);
      if n == name then IndexOf(us, n) < |us| && us[IndexOf(us, n)].value == value
      else (IndexOf(us, n) < |us| <==> IndexOf(es, n) < |es|) &&
           (IndexOf(es, n) < |es| ==> us[IndexOf(us, n)].value == es[IndexOf(es, n)].value)
  {
    var us := Update(es, name, value);
    UpdateKeepsWellFormed(es, name, value);
    if n == name {
      IndexUnique(us, IndexOf(es, name), n);
    } else if IndexOf(es, n) < |es| {
      IndexUnique(us, IndexOf(es, n), n);
    }
  }

  /** Setting a name changes the map at that name only. */
  lemma UpdateIsMapUpdate(es: seq<Binding>, name: string, value: string)
    requires WellFormed(es) && ValidName(name) && NoNul(value)
    ensures ToMap(Update(es, name, value)) == ToMap(es)[name := value]
  {
    forall n
      ensures
        var m, u := ToMap(es), ToMap(Update(es, name, value));
        (n in u <==> n == name || n in m) && (n in u ==> u[n] == if n == name then value else m[n])
    {
      UpdatedAt(es, name, value, n);
    }
    SameMap(ToMap(Update(es, name, value)), ToMap(es)[name := value]);
  }

  lemma SameMap(u: map<string, string>, w: map<string, string>)
    requires forall n :: (n in u <==> n in w) && (n in u ==> u[n] == w[n])
    ensures u == w
  {
  }

  lemma UpdatedAt(es: seq<Binding>, name: string, value: string, n: string)
    requires WellFormed(es) && ValidName(name) && NoNul(value)
    ensures
      var m, u := ToMap(es), ToMap(Update(es, name, value));
      (n in u <==> n == name || n in m) && (n in u ==> u[n] == if n == name then value else m[n])
  {
    InMap(Update(es, name, value), n);
    InMap(es, n);
    UpdatedIndex(es, name, value, n);
  }

  lemma DeletedIndex(es: seq<Binding>, name: string, n: string)
    requires WellFormed(es)
    ensures
      var ds := Delete(es, name);
      if n == name then IndexOf(ds, n) == |ds|
      else (IndexOf(ds, n) < |ds| <==> IndexOf(es, n) < |es|) &&
           (IndexOf(es, n) < |es| ==> ds[IndexOf(ds, n)].value == es[IndexOf(es, n)].value)
  {
    var ds, k, i := Delete(es, name), IndexOf(es, name), IndexOf(es, n);
    DeleteKeepsWellFormed(es, name);
    if n != name && i < |es| {
      IndexUnique(ds, if i < k then i else i - 1, n);
    }
    if IndexOf(ds, n) < |ds| {
      var j := IndexOf(ds, n);
      IndexUnique(es, if j < k then j else j + 1, n);
    }
  }

  /** Unsetting a name removes it and leaves every other name alone. */
  lemma DeleteIsMapRemoval(es: seq<Binding>, name: string)
    requires WellFormed(es)
    ensures ToMap(Delete(es, name)) == ToMap(es) - {name}
  {
    var ds := Delete(es, name);
    forall n
      ensures n in ToMap(ds) <==> n in ToMap(es) - {name}
      ensures n in ToMap(ds) ==> ToMap(ds)[n] == ToMap(es)[n]
    {
      InMap(ds, n);
      InMap(es, n);
      DeletedIndex(es, name, n);
    }
  }

  /** The position of the first equals sign, or |t|. */
  function FirstEquals(t: string): (i: nat)
    ensures i <= |t| && (i < |t| ==> t[i] == '=') && '=' !in t[..i]
  {
    if t == "" || t[0] == '=' then 0
    else
      var i := FirstEquals(t[1..]) + 1;
      assert t[..i] == [t[0]] + t[1..][..i - 1];
      i
  }

  lemma {:induction false} EqualsAfterName(name: string, rest: string)
    requires '=' !in name
    ensures FirstEquals(name + "=" + rest) == |name|
  {
    if name != "" {
      EqualsAfterName(name[1..], rest);
      assert (name + "=" + rest)[1..] == name[1..] + "=" + rest;
      assert (name + "=" + rest)[0] == name[0];
    }
  }

  lemma {:induction false} PrefixFirstEquals(p: string, t: string)
    requires p <= t && FirstEquals(p) < |p|
    ensures FirstEquals(t) == FirstEquals(p)
  {
    if p[0] != '=' {
      PrefixFirstEquals(p[1..], t[1..]);
    }
  }

  lemma MatchIsName(name: string, b: Binding)
    requires '=' !in name && ValidName(b.name)
    ensures Matches(name, b) <==> name == b.name
  {
    EqualsAfterName(name, "");
    EqualsAfterName(b.name, b.value);
    assert name + "=" + "" == name + "=";
    if Matches(name, b) {
      PrefixFirstEquals(name + "=", Text(b));
      assert Text(b)[..|b.name|] == b.name && (name + "=")[..|name|] == name;
    }
    if name == b.name {
      assert Text(b)[..|name| + 1] == name + "=";
    }
  }

  /** getenv is map lookup for every name without an equals sign. */
  lemma LookupIsMapLookup(es: seq<Binding>, name: string)
    requires WellFormed(es) && '=' !in name
    ensures Lookup(es, name) == if name in ToMap(es) then Some(ToMap(es)[name]) else None
  {
    InMap(es, name);
    forall i | 0 <= i < |es|
      ensures Matches(name, es[i]) <==> name == es[i].name
    {
      MatchIsName(name, es[i]);
    }
    var i := Search(es, name);
    if i < |es| {
      IndexUnique(es, i, name);
      assert Text(es[i])[|name| + 1..] == es[i].value;
    }
  }

  lemma MatchAcrossEquals(name: string, rest: string, b: Binding)
    requires '=' !in name && ValidName(b.name)
    ensures Matches(name + "=" + rest, b) <==> name == b.name && rest + "=" <= b.value
  {
    var whole := name + "=" + rest;
    var n := |name|;
    if Matches(whole, b) {
      assert (whole + "=")[..n + 1] == name + "=";
      assert Text(b)[..n + 1] == (whole + "=")[..n + 1];
      assert Matches(name, b);
    }
    MatchIsName(name, b);
    if name == b.name {
      assert whole + "=" == (name + "=") + (rest + "=");
      assert Text(b) == (name + "=") + b.value;
      PrefixAfter(name + "=", rest + "=", b.value);
    }
  }

  lemma PrefixAfter(p: string, a: string, b: string)
    ensures p + a <= p + b <==> a <= b
  {
    if p + a <= p + b {
      assert (p + b)[..|p + a|][|p|..] == a;
    }
    if a <= b {
      assert p + b == p + a + b[|a|..];
    }
  }

  /** For a name that does contain an equals sign, getenv matches on into the
      value: "A=B" finds the tail of A's value after "B=". */
  lemma LookupAcrossEquals(es: seq<Binding>, name: string, rest: string)
    requires WellFormed(es) && '=' !in name
    ensures Lookup(es, name + "=" + rest) ==
            if name in ToMap(es) && rest + "=" <= ToMap(es)[name]
            then Some(ToMap(es)[name][|rest| + 1..]) else None
  {
    InMap(es, name);
    MatchesAcrossEquals(es, name, rest);
    var i := Search(es, name + "=" + rest);
    if i < |es| {
      IndexUnique(es, i, name);
      TailOfText(es[i], name, rest);
    }
  }

  lemma MatchesAcrossEquals(es: seq<Binding>, name: string, rest: string)
    requires WellFormed(es) && '=' !in name
    ensures forall i | 0 <= i < |es| :: Matches(name + "=" + rest, es[i]) <==> name == es[i].name && rest + "=" <= es[i].value
  {
    forall i | 0 <= i < |es|
      ensures Matches(name + "=" + rest, es[i]) <==> name == es[i].name && rest + "=" <= es[i].value
    {
      MatchAcrossEquals(name, rest, es[i]);
    }
  }

  lemma TailOfText(b: Binding, name: string, rest: string)
    requires b.name == name && |rest| < |b.value|
    ensures Text(b)[|name + "=" + rest| + 1..] == b.value[|rest| + 1..]
  {
  }

  // ---------- the calls, on bindings and bytes used ----------

  datatype Env = Env(entries: seq<Binding>, used: nat)

  function Cost(name: string, value: string): nat {
    |name| + 1 + |value| + 1
  }

  function OrEmpty(value: Option<string>): string {
    if value.Some? then value.value else ""
  }

  /** setenv past its argument check. */
  function SetValid(s: Env, n: string, v: string, overwrite: bool): (Status, Env) {
    var found := IndexOf(s.entries, n) < |s.entries|;
    if found && !overwrite then (Success, s)
    else if !found && |s.entries| >= MAX_ENV_VARS - 1 then (OutOfMemory, s)
    else if s.used + Cost(n, v) >= MAX_ENV_SIZE then (OutOfMemory, s)
    else (Success, Env(Update(s.entries, n, v), s.used + Cost(n, v)))
  }

  /** setenv: the status and the new store. */
  function SetEnv(s: Env, name: Option<string>, value: Option<string>, overwrite: bool): (Status, Env) {
    if name.None? || name.value == "" || '=' in name.value then (InvalidArgument, s)
    else SetValid(s, name.value, OrEmpty(value), overwrite)
  }

  function UnsetEnv(s: Env, name: Option<string>): (Status, Env) {
    if name.None? || name.value == "" || '=' in name.value then (InvalidArgument, s)
    else (Success, s.(entries := Delete(s.entries, name.value)))
  }

  function PutEnv(s: Env, t: Option<string>): (Status, Env) {
    if t.None? then (InvalidArgument, s)
    else
      var i := FirstEquals(t.value);
      if i == |t.value| || i >= 256 then (InvalidArgument, s)
      else SetEnv(s, Some(t.value[..i]), Some(t.value[i + 1..]), true)
  }

  datatype Call =
    | Set(name: Option<string>, value: Option<string>, overwrite: bool)
    | Unset(name: Option<string>)
    | Put(text: Option<string>)

  predicate ValidCall(c: Call) {
    match c
    case Set(n, v, _) => (n.Some? ==> NoNul(n.value)) && (v.Some? ==> NoNul(v.value))
    case Unset(n) => n.Some? ==> NoNul(n.value)
    case Put(t) => t.Some? ==> NoNul(t.value)
  }

  // ---------- sizes in 32 bits ----------

  /** The bytes a call needs in the arena. */
  function CostOf(c: Call): nat {
    match c
    case Set(n, v, _) => if n.Some? then Cost(n.value, OrEmpty(v)) else 0
    case Unset(n) => 0
    case Put(t) => if t.Some? then |t.value| + 1 else 0
  }

  /** The test for room, with sums of size_t. */
  predicate RoomTest(used: nat, cost: nat) {
    (used + cost % WORD) % WORD < MAX_ENV_SIZE
  }

  /** The sum passes 2^32 and looks small again. */
  predicate LooksSmall(used: nat, cost: nat) {
    used + cost >= WORD && (used + cost) % WORD < MAX_ENV_SIZE
  }

  /** The test answers right if and only if it does not. */
  lemma RoomTestExact(used: nat, cost: nat)
    ensures (RoomTest(used, cost) <==> used + cost < MAX_ENV_SIZE) <==> !LooksSmall(used, cost)
  {
    assert (used + cost % WORD) % WORD == (used + cost) % WORD by {
      assert used + cost == used + cost % WORD + WORD * (cost / WORD);
    }
  }

  /** So it does for all strings that together are shorter than 2^32 by the size of the
      arena. */
  predicate Measured(c: Call) {
    CostOf(c) <= WORD - MAX_ENV_SIZE
  }

  lemma MeasuredIsRight(used: nat, c: Call)
    requires used < MAX_ENV_SIZE && Measured(c)
    ensures !LooksSmall(used, CostOf(c))
  {
  }

  function Apply(s: Env, c: Call): (Status, Env) {
    match c
    case Set(n, v, o) => SetEnv(s, n, v, o)
    case Unset(n) => UnsetEnv(s, n)
    case Put(t) => PutEnv(s, t)
  }

  function Run(s: Env, cs: seq<Call>): Env
    decreases cs
  {
    if cs == [] then s else Run(Apply(s, cs[0]).1, cs[1..])
  }

  ghost predicate Sound(s: Env) {
    WellFormed(s.entries) && |s.entries| <= MAX_ENV_VARS - 1 && s.used < MAX_ENV_SIZE
  }

  lemma CallKeepsSound(s: Env, c: Call)
    requires Sound(s) && ValidCall(c)
    ensures Sound(Apply(s, c).1)
    ensures Apply(s, c).0 != Success ==> Apply(s, c).1 == s
    ensures s.used <= Apply(s, c).1.used
  {
    match c
    case Set(n, v, o) => SetKeepsSound(s, n, v, o);
    case Unset(n) => if n.Some? { DeleteKeepsWellFormed(s.entries, n.value); }
    case Put(t) =>
      if t.Some? {
        var i := FirstEquals(t.value);
        if i < |t.value| {
          SetKeepsSound(s, Some(t.value[..i]), Some(t.value[i + 1..]), true);
        }
      }
  }

  lemma SetKeepsSound(s: Env, name: Option<string>, value: Option<string>, overwrite: bool)
    requires Sound(s) && (name.Some? ==> NoNul(name.value)) && (value.Some? ==> NoNul(value.value))
    ensures Sound(SetEnv(s, name, value, overwrite).1)
  {
    if name.Some? && ValidName(name.value) {
      UpdateKeepsWellFormed(s.entries, name.value, OrEmpty(value));
    }
  }

  /** A successful setenv is a map update, unless the name was bound and
      overwriting was not asked for. */
  lemma SetIsMapUpdate(s: Env, name: string, value: Option<string>, overwrite: bool)
    requires Sound(s) && NoNul(name) && (value.Some? ==> NoNul(value.value))
    ensures
      var (st, t) := SetEnv(s, Some(name), value, overwrite);
      st == Success ==>
        ToMap(t.entries) == if name in ToMap(s.entries) && !overwrite then ToMap(s.entries)
                            else ToMap(s.entries)[name := OrEmpty(value)]
  {
    InMap(s.entries, name);
    if ValidName(name) {
      UpdateIsMapUpdate(s.entries, name, OrEmpty(value));
    }
  }

  /** There is room for one more binding of name, stored with the value. */
  predicate Fits(s: Env, name: string, value: Option<string>) {
    && (name in Names(s.entries) || |s.entries| < 127)
    && s.used + |name| + |OrEmpty(value)| + 2 < 4096
  }

  function Names(es: seq<Binding>): set<string> {
    set b | b in es :: b.name
  }

  lemma NamesAreBound(es: seq<Binding>, name: string)
    ensures name in Names(es) <==> IndexOf(es, name) < |es|
    ensures name in Names(es) <==> name in ToMap(es)
  {
    InMap(es, name);
  }

  /** When setenv succeeds, and what it answers otherwise: EINVAL for an empty name or one
      with an equals sign, and ENOMEM when something has to be stored and does not fit. */
  lemma SetStatus(s: Env, name: string, value: Option<string>, overwrite: bool)
    requires Sound(s)
    ensures var (st, t) := SetEnv(s, Some(name), value, overwrite);
      var kept := name in ToMap(s.entries) && !overwrite;
      && (st == InvalidArgument <==> name == "" || '=' in name)
      && (st == Success <==> name != "" && '=' !in name && (kept || Fits(s, name, value)))
      && t.used == s.used + if st == Success && !kept then |name| + |OrEmpty(value)| + 2 else 0
    ensures SetEnv(s, None, value, overwrite) == (InvalidArgument, s)
  {
    NamesAreBound(s.entries, name);
  }

  /** unsetenv succeeds exactly for a non-empty name without an equals sign.  Then the variable
      is gone from the map, and getenv does not find it; no byte of the arena is given back. */
  lemma UnsetIsMapRemoval(s: Env, name: string)
    requires Sound(s) && NoNul(name)
    ensures var (st, t) := UnsetEnv(s, Some(name));
      && (st == Success <==> name != "" && '=' !in name) && t.used == s.used
      && (st == Success ==> ToMap(t.entries) == ToMap(s.entries) - {name} && Lookup(t.entries, name) == None)
      && (st != Success ==> st == InvalidArgument && t == s)
    ensures UnsetEnv(s, None) == (InvalidArgument, s)
  {
    DeleteIsMapRemoval(s.entries, name);
    DeleteKeepsWellFormed(s.entries, name);
    if '=' !in name { LookupIsMapLookup(Delete(s.entries, name), name); }
  }

  /** putenv of name=value is setenv(name, value, 1), except that it refuses names of 256
      characters or more; it refuses text without an equals sign. */
  lemma PutIsSet(s: Env, name: string, value: string)
    requires '=' !in name
    ensures PutEnv(s, Some(name + "=" + value)) ==
      if |name| < 256 then SetEnv(s, Some(name), Some(value), true) else (InvalidArgument, s)
    ensures PutEnv(s, Some(name)) == (InvalidArgument, s) && PutEnv(s, None) == (InvalidArgument, s)
  {
    var t := name + "=" + value;
    EqualsAfterName(name, value);
    assert t[..|name|] == name && t[|name| + 1..] == value;
    NoEquals(name);
  }

  lemma {:induction false} NoEquals(t: string)
    requires '=' !in t
    ensures FirstEquals(t) == |t|
  {
    if t != "" { NoEquals(t[1..]); }
  }

  /** putenv("name=value") is setenv(name, value, 1). */
  lemma PutIsMapUpdate(s: Env, name: string, value: string)
    requires Sound(s) && NoNul(name) && NoNul(value) && '=' !in name
    ensures
      var (st, t) := PutEnv(s, Some(name + "=" + value));
      st == Success ==> ToMap(t.entries) == ToMap(s.entries)[name := value]
  {
    var t := name + "=" + value;
    EqualsAfterName(name, value);
    var i := |name|;
    assert t[..i] == name && t[i + 1..] == value;
    SetIsMapUpdate(s, name, Some(value), true);
  }

  /** Every run from a sound store stays sound. */
  lemma {:induction false} RunKeepsSound(s: Env, cs: seq<Call>)
    requires Sound(s) && forall c | c in cs :: ValidCall(c)
    ensures Sound(Run(s, cs)) && s.used <= Run(s, cs).used
    decreases cs
  {
    if cs != [] {
      assert cs[0] in cs;
      CallKeepsSound(s, cs[0]);
      RunKeepsSound(Apply(s, cs[0]).1, cs[1..]);
    }
  }

  /** How many calls of a run moved the arena pointer, that is, stored something. */
  function Stores(s: Env, cs: seq<Call>): nat
    decreases cs
  {
    if cs == [] then 0
    else
      var t := Apply(s, cs[0]).1;
      (if t.used != s.used then 1 else 0) + Stores(t, cs[1..])
  }

  /** The arena is never reclaimed, so a process can store fewer than 1366 values
      in its whole life, however many it deletes. */
  lemma {:induction false} StoresAreBounded(s: Env, cs: seq<Call>)
    requires Sound(s) && forall c | c in cs :: ValidCall(c)
    ensures 3 * Stores(s, cs) <= Run(s, cs).used - s.used
    ensures Stores(s, cs) <= 1365
    decreases cs
  {
    if cs != [] {
      assert cs[0] in cs;
      CallKeepsSound(s, cs[0]);
      StoresAreBounded(Apply(s, cs[0]).1, cs[1..]);
      RunKeepsSound(Apply(s, cs[0]).1, cs[1..]);
    }
  }
}
