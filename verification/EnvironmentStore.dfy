/** The store itself: an append-only arena of bytes and an array of pointers into
    it, NULL-terminated and without gaps. */
module EnvironmentStore {
  import opened Wrappers
  import opened EnvironmentSpec
  import opened Powers

  const NULL := -1

  const DEFAULTS: seq<Binding> :=
    [Binding("HOME", "/"), Binding("PATH", "/bin:/usr/bin"), Binding("SHELL", "/bin/sh"),
     Binding("USER", "root"), Binding("TERM", "vt100"), Binding("LANG", "en_US")]

  lemma DefaultAt(name: string, value: string, i: nat)
    requires i < |DEFAULTS| && DEFAULTS[i] == Binding(name, value) && forall j | 0 <= j < i :: DEFAULTS[j].name != name
    ensures ValueOf(DEFAULTS, name) == value && name in Names(DEFAULTS)
  {
    var k := IndexOf(DEFAULTS, name);
    assert DEFAULTS[i].name == name;
    assert k <= i;
    assert Binding(name, value) in DEFAULTS;
  }

  /** The environment a program starts with: where things are. */
  lemma DefaultPlaces()
    ensures ValueOf(DEFAULTS, "HOME") == "/" && ValueOf(DEFAULTS, "PATH") == "/bin:/usr/bin"
    ensures ValueOf(DEFAULTS, "SHELL") == "/bin/sh"
  {
    DefaultAt("HOME", "/", 0);
    DefaultAt("PATH", "/bin:/usr/bin", 1);
    DefaultAt("SHELL", "/bin/sh", 2);
  }

  /** And who uses it, and how. */
  lemma DefaultUser()
    ensures ValueOf(DEFAULTS, "USER") == "root" && ValueOf(DEFAULTS, "TERM") == "vt100"
    ensures ValueOf(DEFAULTS, "LANG") == "en_US"
  {
    DefaultAt("USER", "root", 3);
    DefaultAt("TERM", "vt100", 4);
    DefaultAt("LANG", "en_US", 5);
  }

  /** b is stored at off, terminated, within the used part of the arena. */
  ghost predicate StoredAt(arena: seq<char>, used: nat, off: int, b: Binding) {
    && 0 <= off && off + |Text(b)| + 1 <= used <= |arena|
    && arena[off..off + |Text(b)|] == Text(b)
    && arena[off + |Text(b)|] == '\0'
  }

  ghost predicate Apart(off: int, b: Binding, off': int, b': Binding) {
    off + |Text(b)| + 1 <= off' || off' + |Text(b')| + 1 <= off
  }

  /** Slot i points at the text of entry i. */
  ghost predicate Slot(arena: seq<char>, vars: seq<int>, s: Env, i: nat) {
    i < |s.entries| && i < |vars| && StoredAt(arena, s.used, vars[i], s.entries[i])
  }

  ghost predicate SlotsApart(vars: seq<int>, es: seq<Binding>, i: nat, j: nat) {
    i < |es| <= |vars| && j < |es| && Apart(vars[i], es[i], vars[j], es[j])
  }

  /** The arena and the pointer array represent a store. */
  ghost predicate Represents(arena: seq<char>, vars: seq<int>, s: Env) {
    && |arena| == MAX_ENV_SIZE && |vars| == MAX_ENV_VARS + 1 && Sound(s)
    && (forall i: nat | i < |s.entries| :: Slot(arena, vars, s, i))
    && (forall i | |s.entries| <= i <= MAX_ENV_VARS :: vars[i] == NULL)
    && (forall i: nat, j: nat | i < j < |s.entries| :: SlotsApart(vars, s.entries, i, j))
  }

  /** One new text at the end of the used part, the old bytes untouched. */
  ghost predicate Appended(old_: seq<char>, new_: seq<char>, used: nat, b: Binding) {
    && |old_| == |new_| && used + |Text(b)| + 1 <= |new_|
    && new_[..used] == old_[..used]
    && new_[used..used + |Text(b)|] == Text(b) && new_[used + |Text(b)|] == '\0'
  }

  lemma StaysStored(a: seq<char>, a': seq<char>, used: nat, used': nat, off: int, b: Binding)
    requires StoredAt(a, used, off, b) && used <= used' <= |a'| && a[..used] == a'[..used]
    ensures StoredAt(a', used', off, b)
  {
    var n := off + |Text(b)|;
    forall k | off <= k <= n ensures a'[k] == a[k] {
      assert a'[..used][k] == a[..used][k];
    }
    assert a'[off..n] == a[off..n];
  }

  /** Appending a text and pointing at it, in the old slot or in a new one, is Update. */
  lemma PointAt(a: seq<char>, a': seq<char>, vars: seq<int>, s: Env, b: Binding)
    requires Represents(a, vars, s) && Appended(a, a', s.used, b) && ValidName(b.name) && NoNul(b.value)
    requires s.used + |Text(b)| + 1 < MAX_ENV_SIZE
    requires IndexOf(s.entries, b.name) == |s.entries| ==> |s.entries| < MAX_ENV_VARS - 1
    ensures
      var i := IndexOf(s.entries, b.name);
      Represents(a', vars[i := s.used], Env(Update(s.entries, b.name, b.value), s.used + |Text(b)| + 1))
  {
    var i := IndexOf(s.entries, b.name);
    var t := Env(Update(s.entries, b.name, b.value), s.used + |Text(b)| + 1);
    UpdateKeepsWellFormed(s.entries, b.name, b.value);
    OldSlots(a, vars, s);
    PointStored(a, a', vars, s.used, s.entries, b, i);
    PointApart(vars[i := s.used], t.entries, s.used, i);
    var vs := vars[i := s.used];
    forall k: nat | k < |t.entries| ensures Slot(a', vs, t, k) { }
    forall k: nat, j: nat | k < j < |t.entries| ensures SlotsApart(vs, t.entries, k, j) { }
  }

  lemma EntriesNotNull(a: seq<char>, vars: seq<int>, s: Env)
    requires Represents(a, vars, s)
    ensures forall i | 0 <= i < |s.entries| :: vars[i] != NULL
  {
    forall i | 0 <= i < |s.entries| ensures vars[i] != NULL {
      assert Slot(a, vars, s, i);
    }
  }

  lemma OldSlots(a: seq<char>, vars: seq<int>, s: Env)
    requires Represents(a, vars, s)
    ensures forall k | 0 <= k < |s.entries| :: StoredAt(a, s.used, vars[k], s.entries[k])
    ensures forall k, j | 0 <= k < j < |s.entries| :: Apart(vars[k], s.entries[k], vars[j], s.entries[j])
  {
    forall k | 0 <= k < |s.entries| ensures StoredAt(a, s.used, vars[k], s.entries[k]) {
      assert Slot(a, vars, s, k);
    }
    forall k, j | 0 <= k < j < |s.entries| ensures Apart(vars[k], s.entries[k], vars[j], s.entries[j]) {
      assert SlotsApart(vars, s.entries, k, j);
    }
  }

  lemma PointStored(a: seq<char>, a': seq<char>, vars: seq<int>, used: nat, es: seq<Binding>, b: Binding, i: nat)
    requires |es| <= MAX_ENV_VARS < |vars| && |a| == MAX_ENV_SIZE && i <= |es| && i == IndexOf(es, b.name) && i < |vars|
    requires forall k | 0 <= k < |es| :: StoredAt(a, used, vars[k], es[k])
    requires forall k, j | 0 <= k < j < |es| :: Apart(vars[k], es[k], vars[j], es[j])
    requires Appended(a, a', used, b)
    ensures var us, vs := Update(es, b.name, b.value), vars[i := used];
      && (forall k | 0 <= k < |us| :: StoredAt(a', used + |Text(b)| + 1, vs[k], us[k]))
      && (forall k | 0 <= k < |us| && k != i :: vs[k] + |Text(us[k])| + 1 <= used)
      && (forall k, j | 0 <= k < j < |us| && k != i && j != i :: Apart(vs[k], us[k], vs[j], us[j]))
      && i < |us| && vs[i] == used && us[i] == b
  {
    var us, vs := Update(es, b.name, b.value), vars[i := used];
    forall k | 0 <= k < |us| && k != i
      ensures StoredAt(a', used + |Text(b)| + 1, vs[k], us[k]) && vs[k] + |Text(us[k])| + 1 <= used
    {
      StaysStored(a, a', used, used + |Text(b)| + 1, vars[k], es[k]);
    }
    assert StoredAt(a', used + |Text(b)| + 1, used, b);
  }

  /** The new text is behind all others. */
  lemma PointApart(vs: seq<int>, us: seq<Binding>, used: nat, i: nat)
    requires |us| <= |vs| && i < |us| && vs[i] == used
    requires forall k | 0 <= k < |us| && k != i :: vs[k] + |Text(us[k])| + 1 <= used
    requires forall k, j | 0 <= k < j < |us| && k != i && j != i :: Apart(vs[k], us[k], vs[j], us[j])
    ensures forall k, j | 0 <= k < j < |us| :: Apart(vs[k], us[k], vs[j], us[j])
  {
  }

  /** The pointers with slot i shifted out, the way the inner loop of unsetenv leaves them. */
  function ShiftedOut(vars: seq<int>, i: nat, n: nat): (r: seq<int>)
    requires i < n < |vars|
    ensures |r| == |vars|
  {
    vars[..i] + vars[i + 1..n + 1] + vars[n..]
  }

  function Before(k: nat, i: nat): nat {
    if k < i then k else k + 1
  }

  lemma ShiftedAt(vars: seq<int>, i: nat, n: nat, k: nat)
    requires i < n < |vars| && k < |vars|
    ensures ShiftedOut(vars, i, n)[k] == if k < n then vars[Before(k, i)] else vars[k]
  {
  }

  lemma ShiftedEntry(es: seq<Binding>, i: nat, k: nat)
    requires i < |es| && k < |es| - 1
    ensures (es[..i] + es[i + 1..])[k] == es[Before(k, i)]
  {
  }

  /** Shifting the pointers down over slot i is Delete. */
  lemma ShiftOver(a: seq<char>, vars: seq<int>, s: Env, name: string)
    requires Represents(a, vars, s) && IndexOf(s.entries, name) < |s.entries|
    ensures Represents(a, ShiftedOut(vars, IndexOf(s.entries, name), |s.entries|),
                       s.(entries := Delete(s.entries, name)))
  {
    var i, n := IndexOf(s.entries, name), |s.entries|;
    var t, vs := s.(entries := Delete(s.entries, name)), ShiftedOut(vars, i, n);
    DeleteKeepsWellFormed(s.entries, name);
    forall k: nat | k < n - 1 ensures Slot(a, vs, t, k) {
      ShiftedSlot(a, vars, s, i, k);
    }
    forall k: nat, j: nat | k < j < n - 1 ensures SlotsApart(vs, t.entries, k, j) {
      ShiftedApart(vars, s.entries, i, k, j);
    }
    forall k: nat | n - 1 <= k < |vs| ensures vs[k] == NULL {
      ShiftedAt(vars, i, n, k);
    }
  }

  lemma ShiftedSlot(a: seq<char>, vars: seq<int>, s: Env, i: nat, k: nat)
    requires Represents(a, vars, s) && i < |s.entries| && k < |s.entries| - 1
    ensures Slot(a, ShiftedOut(vars, i, |s.entries|), s.(entries := s.entries[..i] + s.entries[i + 1..]), k)
  {
    ShiftedAt(vars, i, |s.entries|, k);
    ShiftedEntry(s.entries, i, k);
    assert Slot(a, vars, s, Before(k, i));
  }

  lemma ShiftedApart(vars: seq<int>, es: seq<Binding>, i: nat, k: nat, j: nat)
    requires i < |es| < |vars| && k < j < |es| - 1 && SlotsApart(vars, es, Before(k, i), Before(j, i))
    ensures SlotsApart(ShiftedOut(vars, i, |es|), es[..i] + es[i + 1..], k, j)
  {
    ShiftedAt(vars, i, |es|, k);
    ShiftedAt(vars, i, |es|, j);
    ShiftedEntry(es, i, k);
    ShiftedEntry(es, i, j);
  }

  class Environment {
    const vars: array<int>
    const storage: array<char>
    var used: nat
    /** The bindings the arena holds, in pointer order. */
    ghost var entries: seq<Binding>

    ghost function Abstract(): Env reads this {
      Env(entries, used)
    }

    ghost predicate Valid() reads this, vars, storage {
      Represents(storage[..], vars[..], Abstract())
    }

    /** init_environment, which every call runs first. */
    constructor ()
      ensures Valid() && fresh(vars) && fresh(storage)
      ensures entries == DEFAULTS
    {
      vars := new int[MAX_ENV_VARS + 1](_ => NULL);
      storage := new char[MAX_ENV_SIZE](_ => '\0');
      used := 0;
      entries := [];
      new;
      NothingStored(storage[..], vars[..]);
      var i := 0;
      while i < |DEFAULTS|
        invariant 0 <= i <= |DEFAULTS|
        invariant Valid() && entries == DEFAULTS[..i] && used <= 32 * i
      {
        AddDefault(i);
        i := i + 1;
      }
      WholeOf(DEFAULTS);
    }

    /** One turn of its loop; there is room for all of them. */
    method AddDefault(i: nat)
      requires Valid() && i < |DEFAULTS| && entries == DEFAULTS[..i] && used <= 32 * i
      modifies this, vars, storage
      ensures Valid() && entries == DEFAULTS[..i + 1] && used <= 32 * (i + 1)
    {
      var b := DEFAULTS[i];
      DefaultFits(i);
      if used + |Text(b)| + 1 < MAX_ENV_SIZE {
        Store(b.name, b.value, i);
      }
    }

    /** Writes name=value at the end of the arena and points slot i at it. */
    method Store(name: string, value: string, i: nat)
      requires Valid() && ValidName(name) && NoNul(value)
      requires i == IndexOf(entries, name) && i < MAX_ENV_VARS - 1
      requires used + Cost(name, value) < MAX_ENV_SIZE
      modifies this, vars, storage
      ensures Valid() && entries == Update(old(entries), name, value)
      ensures used == old(used) + Cost(name, value)
      ensures storage[..old(used)] == old(storage[..used])
    {
      ghost var b, a := Binding(name, value), storage[..];
      var text := name + "=" + value;
      WriteText(text);
      ghost var before := vars[..];
      PointAt(a, storage[..], before, Abstract(), b);
      vars[i] := used;
      assert vars[..] == before[i := used];
      entries := Update(entries, name, value);
      used := used + |text| + 1;
    }

    /** strcpy and sprintf: the characters and then the terminator. */
    method WriteText(text: string)
      requires storage.Length == MAX_ENV_SIZE && used + |text| + 1 <= MAX_ENV_SIZE
      modifies storage
      ensures storage[..used] == old(storage[..used])
      ensures storage[used..used + |text|] == text && storage[used + |text|] == '\0'
    {
      var j := 0;
      while j < |text|
        invariant 0 <= j <= |text|
        invariant storage[..used] == old(storage[..used])
        invariant storage[used..used + j] == text[..j]
      {
        storage[used + j] := text[j];
        j := j + 1;
      }
      storage[used + j] := '\0';
    }

    /** strncmp(env_vars[i], name, namelen) == 0 && env_vars[i][namelen] == '='. */
    method NameMatches(i: nat, name: string) returns (m: bool)
      requires Valid() && i < |entries| && NoNul(name)
      ensures m == Matches(name, entries[i])
    {
      var off := vars[i];
      ghost var t := Text(entries[i]);
      assert Slot(storage[..], vars[..], Abstract(), i);
      assert forall k | 0 <= k < |t| :: t[k] == storage[off + k] by {
        assert t == storage[..][off..off + |t|];
      }
      var j := 0;
      while j < |name| && storage[off + j] == name[j]
        invariant 0 <= j <= |name| && j <= |t| && name[..j] == t[..j]
      {
        assert j < |t|;
        j := j + 1;
      }
      m := j == |name| && storage[off + j] == '=';
      StopDecides(name, t, j, storage[off + j]);
    }

    /** The search loop of getenv, setenv and unsetenv. */
    method Find(name: string) returns (i: nat)
      requires Valid() && NoNul(name)
      ensures i == Search(entries, name)
      ensures vars[i] == NULL <==> i == |entries|
    {
      EntriesNotNull(storage[..], vars[..], Abstract());
      assert forall k | 0 <= k < |entries| :: vars[k] == vars[..][k];
      i := 0;
      while vars[i] != NULL
        invariant 0 <= i <= |entries|
        invariant forall j | 0 <= j < i :: !Matches(name, entries[j])
        decreases |entries| - i
      {
        var m := NameMatches(i, name);
        if m {
          assert Slot(storage[..], vars[..], Abstract(), i);
          SearchFirst(entries, name, i);
          return;
        }
        i := i + 1;
      }
      SearchFirst(entries, name, i);
    }

    /** The value's address, or NULL; the bytes there are the value and its terminator. */
    method GetEnv(name: Option<string>) returns (p: int)
      requires Valid() && (name.Some? ==> NoNul(name.value))
      ensures name.None? ==> p == NULL
      ensures name.Some? ==> (p == NULL <==> Lookup(entries, name.value).None?)
      ensures p != NULL ==>
                var v := Lookup(entries, name.value).value;
                0 <= p && p + |v| < used && storage[p..p + |v|] == v && storage[p + |v|] == '\0'
    {
      if name.None? {
        return NULL;
      }
      var i := Find(name.value);
      if vars[i] == NULL {
        return NULL;
      }
      p := vars[i] + |name.value| + 1;
      ValueStored(storage[..], vars[..], Abstract(), i, |name.value| + 1);
    }

    method SetEnv(name: Option<string>, value: Option<string>, overwrite: bool) returns (r: Status)
      requires Valid() && ValidCall(Set(name, value, overwrite))
      requires !LooksSmall(used, CostOf(Set(name, value, overwrite)))
      modifies this, vars, storage
      ensures Valid() && (r, Abstract()) == EnvironmentSpec.SetEnv(old(Abstract()), name, value, overwrite)
      ensures storage[..old(used)] == old(storage[..used])
    {
      if name.None? || name.value == "" || '=' in name.value {
        return InvalidArgument;
      }
      var i := Find(name.value);
      SearchIsIndex(entries, name.value);
      r := SetAt(i, name.value, if value.Some? then value.value else "", overwrite);
    }

    /** setenv once the search loop has stopped at slot i. */
    method SetAt(i: nat, name: string, value: string, overwrite: bool) returns (r: Status)
      requires Valid() && ValidName(name) && NoNul(value) && !LooksSmall(used, Cost(name, value))
      requires i == IndexOf(entries, name) && (vars[i] == NULL <==> i == |entries|)
      modifies this, vars, storage
      ensures Valid() && (r, Abstract()) == EnvironmentSpec.SetValid(old(Abstract()), name, value, overwrite)
      ensures storage[..old(used)] == old(storage[..used])
    {
      if vars[i] != NULL {
        if !overwrite {
          return Success;
        }
      } else if i >= MAX_ENV_VARS - 1 {
        return OutOfMemory;
      }
      r := StoreIfRoom(name, value, i);
    }

    method StoreIfRoom(name: string, value: string, i: nat) returns (r: Status)
      requires Valid() && ValidName(name) && NoNul(value) && !LooksSmall(used, Cost(name, value))
      requires i == IndexOf(entries, name) && i < MAX_ENV_VARS - 1
      modifies this, vars, storage
      ensures Valid() && storage[..old(used)] == old(storage[..used])
      ensures (r, Abstract()) ==
              if old(used) + Cost(name, value) >= MAX_ENV_SIZE then (OutOfMemory, old(Abstract()))
              else (Success, Env(Update(old(entries), name, value), old(used) + Cost(name, value)))
    {
      var totallen := Cost(name, value) % WORD;
      RoomTestExact(used, Cost(name, value));
      if (used + totallen) % WORD >= MAX_ENV_SIZE {
        return OutOfMemory;
      }
      Store(name, value, i);
      r := Success;
    }

    method UnsetEnv(name: Option<string>) returns (r: Status)
      requires Valid() && ValidCall(Unset(name))
      modifies this`entries, vars
      ensures Valid() && (r, Abstract()) == EnvironmentSpec.UnsetEnv(old(Abstract()), name)
    {
      if name.None? || name.value == "" || '=' in name.value {
        return InvalidArgument;
      }
      var i := Find(name.value);
      SearchIsIndex(entries, name.value);
      if vars[i] != NULL {
        Remove(i, name.value);
      }
      r := Success;
    }

    method Remove(i: nat, name: string)
      requires Valid() && i == IndexOf(entries, name) && i < |entries|
      modifies this`entries, vars
      ensures Valid() && entries == Delete(old(entries), name)
    {
      ShiftOver(storage[..], vars[..], Abstract(), name);
      EntriesNotNull(storage[..], vars[..], Abstract());
      assert forall k | 0 <= k < |entries| :: vars[k] == vars[..][k];
      Shift(i, |entries|);
      entries := Delete(entries, name);
    }

    /** The inner loop of unsetenv; n is the position of the first NULL. */
    method Shift(i: nat, ghost n: nat)
      requires i < n < vars.Length && vars[n] == NULL
      requires forall k | 0 <= k < n :: vars[k] != NULL
      modifies vars
      ensures vars[..] == ShiftedOut(old(vars[..]), i, n)
    {
      var j := i;
      while vars[j] != NULL
        invariant i <= j <= n
        invariant forall k | 0 <= k < i :: vars[k] == old(vars[k])
        invariant forall k | i <= k < j :: vars[k] == old(vars[k + 1])
        invariant forall k | j <= k < vars.Length :: vars[k] == old(vars[k])
        decreases n - j
      {
        vars[j] := vars[j + 1];
        j := j + 1;
      }
    }

    method PutEnv(text: Option<string>) returns (r: Status)
      requires Valid() && ValidCall(Put(text)) && !LooksSmall(used, CostOf(Put(text)))
      modifies this, vars, storage
      ensures Valid() && (r, Abstract()) == EnvironmentSpec.PutEnv(old(Abstract()), text)
      ensures storage[..old(used)] == old(storage[..used])
    {
      if text.None? {
        return InvalidArgument;
      }
      var t := text.value;
      var eq := StrChr(t);
      if eq == |t| {
        return InvalidArgument;
      }
      if eq >= 256 {
        return InvalidArgument;
      }
      assert CostOf(Set(Some(t[..eq]), Some(t[eq + 1..]), true)) == CostOf(Put(text));
      r := SetEnv(Some(t[..eq]), Some(t[eq + 1..]), true);
    }

    /** Any calls that change the environment, in a row. */
    method RunCalls(cs: seq<Call>)
      requires Valid() && forall c | c in cs :: ValidCall(c) && Measured(c)
      modifies this, vars, storage
      ensures Valid() && Abstract() == Run(old(Abstract()), cs) && old(used) <= used
      ensures storage[..old(used)] == old(storage[..used])
      decreases cs
    {
      if cs != [] {
        RunCall(cs[0]);
        RunCalls(cs[1..]);
      }
    }

    method RunCall(c: Call)
      requires Valid() && ValidCall(c) && Measured(c)
      modifies this, vars, storage
      ensures Valid() && Abstract() == Apply(old(Abstract()), c).1 && old(used) <= used
      ensures storage[..old(used)] == old(storage[..used])
    {
      CallKeepsSound(Abstract(), c);
      MeasuredIsRight(used, c);
      match c {
        case Set(n, v, o) => var _ := SetEnv(n, v, o);
        case Unset(n) => var _ := UnsetEnv(n);
        case Put(t) => var _ := PutEnv(t);
      }
    }

    /** What a pointer from getenv points at outlives whatever is set, unset and put
        afterwards: the value it had then and its terminator stay where they are. */
    method GetEnvAndRun(name: Option<string>, cs: seq<Call>) returns (p: int)
      requires Valid() && (name.Some? ==> NoNul(name.value))
      requires forall c | c in cs :: ValidCall(c) && Measured(c)
      modifies this, vars, storage
      ensures Valid() && Abstract() == Run(old(Abstract()), cs)
      ensures p != NULL ==>
                name.Some? && Lookup(old(entries), name.value).Some? &&
                var v := Lookup(old(entries), name.value).value;
                0 <= p && p + |v| < storage.Length && storage[p..p + |v|] == v && storage[p + |v|] == '\0'
    {
      p := GetEnv(name);
      ghost var arena, n := storage[..], used;
      RunCalls(cs);
      if p != NULL { SamePrefix(arena, storage[..], n, p, |Lookup(old(entries), name.value).value|); }
    }
  }

  lemma SamePrefix(a: seq<char>, b: seq<char>, n: nat, p: nat, k: nat)
    requires p + k < n <= |a| && n <= |b| && a[..n] == b[..n]
    ensures b[p..p + k] == a[p..p + k] && b[p + k] == a[p + k]
  {
    assert b[p..p + k] == b[..n][p..p + k] && a[p..p + k] == a[..n][p..p + k];
    assert b[p + k] == b[..n][p + k] && a[p + k] == a[..n][p + k];
  }

  /** strchr(t, '='), as an index. */
  method StrChr(t: string) returns (i: nat)
    ensures i == FirstEquals(t)
  {
    i := 0;
    while i < |t| && t[i] != '='
      invariant 0 <= i <= |t| && '=' !in t[..i]
    {
      i := i + 1;
    }
    StopIsFirst(t, i);
  }

  lemma StopIsFirst(t: string, i: nat)
    requires i <= |t| && '=' !in t[..i] && (i < |t| ==> t[i] == '=')
    ensures FirstEquals(t) == i
  {
    assert forall k | 0 <= k < i :: t[k] == t[..i][k];
    var f := FirstEquals(t);
    assert forall k | 0 <= k < f :: t[k] == t[..f][k];
  }

  /** Where a character-by-character comparison stops decides the match. */
  lemma StopDecides(name: string, t: string, j: nat, c: char)
    requires j <= |name| && j <= |t| && name[..j] == t[..j]
    requires c == if j < |t| then t[j] else '\0'
    requires j < |name| ==> c != name[j] && NoNul(name)
    ensures name + "=" <= t <==> j == |name| && c == '='
  {
    var p := name + "=";
    assert p <= t ==> t[j] == p[j];
    assert j == |name| && c == '=' ==> t[..j + 1] == p;
  }

  lemma SearchFirst(es: seq<Binding>, name: string, i: nat)
    requires i <= |es| && (forall j | 0 <= j < i :: !Matches(name, es[j])) && (i < |es| ==> Matches(name, es[i]))
    ensures Search(es, name) == i
  {
  }

  lemma SearchIsIndex(es: seq<Binding>, name: string)
    requires WellFormed(es) && ValidName(name)
    ensures Search(es, name) == IndexOf(es, name)
  {
    var i := IndexOf(es, name);
    forall j | 0 <= j < |es|
      ensures Matches(name, es[j]) <==> name == es[j].name
    {
      MatchIsName(name, es[j]);
    }
    SearchFirst(es, name, i);
  }

  /** What is behind position k of entry i's text, in the arena. */
  lemma ValueStored(a: seq<char>, vars: seq<int>, s: Env, i: nat, k: nat)
    requires Represents(a, vars, s) && i < |s.entries| && k <= |Text(s.entries[i])|
    ensures
      var v, p := Text(s.entries[i])[k..], vars[i] + k;
      0 <= p && p + |v| < s.used <= |a| && a[p..p + |v|] == v && a[p + |v|] == '\0'
  {
    assert Slot(a, vars, s, i);
    TailStored(a, s.used, vars[i], s.entries[i], k);
  }

  lemma TailStored(a: seq<char>, used: nat, off: int, b: Binding, k: nat)
    requires StoredAt(a, used, off, b) && k <= |Text(b)|
    ensures
      var v, p := Text(b)[k..], off + k;
      p + |v| < used && a[p..p + |v|] == v && a[p + |v|] == '\0'
  {
    var n := off + |Text(b)|;
    assert a[off + k..n] == a[off..n][k..];
  }

  lemma NothingStored(a: seq<char>, vars: seq<int>)
    requires |a| == MAX_ENV_SIZE && |vars| == MAX_ENV_VARS + 1 && forall i | 0 <= i < |vars| :: vars[i] == NULL
    ensures Represents(a, vars, Env([], 0))
  {
  }

  lemma WholeOf(es: seq<Binding>)
    ensures es[..|es|] == es
  {
  }

  /** The names of the defaults begin differently. */
  lemma DefaultInitials(i: nat)
    requires i < |DEFAULTS|
    ensures DEFAULTS[i].name != "" && DEFAULTS[i].name[0] == "HPSUTL"[i]
  {
  }

  lemma DefaultIsShort(i: nat)
    requires i < |DEFAULTS|
    ensures ValidName(DEFAULTS[i].name) && NoNul(DEFAULTS[i].value) && |Text(DEFAULTS[i])| < 31
  {
  }

  lemma DefaultFits(i: nat)
    requires i < |DEFAULTS|
    ensures ValidName(DEFAULTS[i].name) && NoNul(DEFAULTS[i].value) && |Text(DEFAULTS[i])| < 31
    ensures IndexOf(DEFAULTS[..i], DEFAULTS[i].name) == i
    ensures Update(DEFAULTS[..i], DEFAULTS[i].name, DEFAULTS[i].value) == DEFAULTS[..i + 1]
  {
    DefaultIsShort(i);
    DefaultInitials(i);
    forall j | 0 <= j < i ensures DEFAULTS[..i][j].name != DEFAULTS[i].name { DefaultInitials(j); }
    AppendNext(DEFAULTS, i);
  }

  lemma AppendNext(es: seq<Binding>, i: nat)
    requires i < |es| && forall j | 0 <= j < i :: es[..i][j].name != es[i].name
    ensures IndexOf(es[..i], es[i].name) == i && Update(es[..i], es[i].name, es[i].value) == es[..i + 1]
  {
    assert es[..i + 1] == es[..i] + [es[i]];
    assert es[i] == Binding(es[i].name, es[i].value);
  }
}
