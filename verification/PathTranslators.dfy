/** The translators themselves, writing through a pointer into the caller's buffer.  out is
    the memory from that pointer on: the dst_size characters of the buffer and whatever lies
    behind it. */
module PathTranslators {
  import opened PathBuffers
  import opened PathSpec
  import opened Sequences

  /** How far the conversion loop of path_to_mac has come: the text written so far
      and the text still to come make up the whole. */
  ghost predicate Progress(buf: seq<char>, d: nat, rest: string, whole: string) {
    d <= |buf| && buf[..d] + rest == whole
  }

  /** From index on, memory is as it was. */
  ghost predicate Untouched(before: seq<char>, after: seq<char>, index: nat) {
    |before| == |after| && forall k | index <= k < |after| :: after[k] == before[k]
  }

  lemma UntouchedOn(a: seq<char>, b: seq<char>, c: seq<char>, i: nat, j: nat)
    requires Untouched(a, b, i) && Untouched(b, c, j) && i <= j
    ensures Untouched(a, c, j)
  {
  }

  /** With nothing to come the text is there. */
  lemma Complete(buf: seq<char>, d: nat, whole: string)
    requires Progress(buf, d, "", whole)
    ensures d == |whole| && buf[..d] == whole
  {
  }

  /** Writing the text that comes next moves it from what is to come to what is done. */
  lemma Advance(before: seq<char>, from: nat, text: string, rest: string, whole: string, after: seq<char>)
    requires Progress(before, from, text + rest, whole)
    requires from + |text| <= |after| && after[..from + |text|] == before[..from] + text
    ensures Progress(after, from + |text|, rest, whole)
  {
    Associates(before[..from], text, rest);
  }

  method Put(out: array<char>, d: nat, text: string) returns (e: nat)
    requires d + |text| <= out.Length
    modifies out
    ensures e == d + |text| && out[..d] == old(out[..d]) && out[d..e] == text
    ensures Untouched(old(out[..]), out[..], e)
    ensures out[..e] == old(out[..d]) + text
  {
    var i := 0;
    while i < |text|
      invariant 0 <= i <= |text|
      invariant out[..d] == old(out[..d]) && out[d..d + i] == text[..i]
      invariant Untouched(old(out[..]), out[..], d + i)
    {
      out[d + i] := text[i];
      i := i + 1;
    }
    e := d + i;
    assert out[..e] == out[..d] + out[d..e];
  }

  /** posix9_path_to_mac with dst_size size, or with the 1024 of its own buffer.  Nothing
      behind the terminator changes, so nothing behind the buffer does if the text stays
      inside it; otherwise the terminator is behind the buffer. */
  method PathToMac(path: string, volume: string, out: array<char>, size: nat) returns (n: nat)
    requires out.Length > |ToMacWritten(path, volume, size)|
    modifies out
    ensures n == |ToMacBounded(path, volume, size)| && n < out.Length
    ensures out[..n] == ToMacBounded(path, volume, size) && out[n] == '\0'
    ensures var w := |ToMacWritten(path, volume, size)|; out[w] == '\0' && Untouched(old(out[..]), out[..], w + 1)
    ensures StaysInside(path, volume, size) ==> Untouched(old(out[..]), out[..], size)
    ensures !StaysInside(path, volume, size) ==> |ToMacWritten(path, volume, size)| >= size
  {
    WrittenFits(path, volume, size);
    if path == "" {
      out[0] := '\0';
      return 0;
    }
    ghost var whole := ToMacWritten(path, volume, size);
    var d, p := PathStart(path, volume, out);
    d := ConvertRest(path, p, out, size, d, whole);
    n := Terminate(out, d, whole);
  }

  /** The terminator, and the trailing colon before it. */
  method Terminate(out: array<char>, d: nat, ghost whole: string) returns (n: nat)
    requires d < out.Length && d == |whole| && out[..d] == whole
    modifies out
    ensures n == |Trim(whole)| && n < out.Length && out[..n] == Trim(whole) && out[n] == '\0'
    ensures out[d] == '\0' && Untouched(old(out[..]), out[..], d + 1)
  {
    out[d] := '\0';
    assert out[..d] == whole;
    n := d;
    if d > 1 && out[d - 1] == ':' && out[d - 2] != ':' {
      out[d - 1] := '\0';
      n := d - 1;
      assert out[..n] == whole[..n];
    }
  }

  /** The start of the path: root, volume, "." or "..". */
  method PathStart(path: string, volume: string, out: array<char>) returns (d: nat, p: nat)
    requires path != "" && out.Length >= |StartText(path, volume)|
    modifies out
    ensures p <= |path| && path[p..] == StartRest(path)
    ensures d == |StartText(path, volume)| && out[..d] == StartText(path, volume)
    ensures Untouched(old(out[..]), out[..], d)
  {
    d, p := 0, 0;
    if path[0] == '/' {
      p := 1;
      if |path| >= 9 && path[1..9] == "Volumes/" {
        p := p + 8;
      } else {
        d := Put(out, 0, volume);
        d := Put(out, d, ":");
      }
    } else {
      d := Put(out, 0, ":");
      if path[0] == '.' {
        if |path| == 1 || path[1] == '/' {
          p := 1;
          if p < |path| && path[p] == '/' {
            p := p + 1;
          }
        } else if path[1] == '.' && (|path| == 2 || path[2] == '/') {
          d := Put(out, d, ":");
          p := 2;
          if p < |path| && path[p] == '/' {
            p := p + 1;
          }
        }
      }
    }
  }

  /** The conversion loop. */
  method ConvertRest(path: string, start: nat, out: array<char>, size: nat, from: nat, ghost whole: string)
    returns (d: nat)
    requires start <= |path| && |whole| < out.Length
    requires Progress(out[..], from, ToMacCut(path[start..], size - 1 - from), whole)
    modifies out
    ensures d == |whole| && out[..d] == whole && Untouched(old(out[..]), out[..], d)
  {
    var p := start;
    d := from;
    while p < |path| && d < size - 1
      invariant start <= p <= |path| && Progress(out[..], d, ToMacCut(path[p..], size - 1 - d), whole)
      invariant from <= d && Untouched(old(out[..]), out[..], d)
      decreases |path| - p
    {
      ghost var before, i := out[..], d;
      if path[p] == '/' {
        d, p := ConvertSlash(path, p, out, size, d, whole);
      } else {
        d := ConvertChar(path, p, out, size, d, whole);
        p := p + 1;
      }
      UntouchedOn(old(out[..]), before, out[..], i, d);
    }
    Complete(out[..], d, whole);
  }

  method ConvertChar(path: string, p: nat, out: array<char>, size: nat, from: nat, ghost whole: string)
    returns (d: nat)
    requires p < |path| && path[p] != '/' && |whole| < out.Length && from < size - 1
    requires Progress(out[..], from, ToMacCut(path[p..], size - 1 - from), whole)
    modifies out
    ensures Progress(out[..], d, ToMacCut(path[p + 1..], size - 1 - d), whole)
    ensures from <= d && Untouched(old(out[..]), out[..], d)
  {
    ghost var before := out[..];
    assert path[p..][1..] == path[p + 1..];
    d := Put(out, from, [path[p]]);
    Advance(before, from, [path[p]], ToMacCut(path[p + 1..], size - 2 - from), whole, out[..]);
  }

  /** What one turn at a slash writes, and where it leaves off. */
  lemma CutAtSlash(q: string, room: int)
    requires q != "" && q[0] == '/' && room > 0
    ensures var r := SkipSlashes(q[1..]);
      ToMacCut(q, room) ==
      if StartsWithParent(r) then ":" + (":" + ToMacCut(SkipOneSlash(r[2..]), room - 2)) else ":" + ToMacCut(r, room - 1)
  {
    var r := SkipSlashes(q[1..]);
    if StartsWithParent(r) {
      Associates(":", ":", ToMacCut(SkipOneSlash(r[2..]), room - 2));
    }
  }

  /** The loop body at a slash: one colon for the run, another for "..". */
  method ConvertSlash(path: string, start: nat, out: array<char>, size: nat, from: nat, ghost whole: string)
    returns (d: nat, p: nat)
    requires start < |path| && path[start] == '/' && |whole| < out.Length && from < size - 1
    requires Progress(out[..], from, ToMacCut(path[start..], size - 1 - from), whole)
    modifies out
    ensures start < p <= |path| && Progress(out[..], d, ToMacCut(path[p..], size - 1 - d), whole)
    ensures from <= d && Untouched(old(out[..]), out[..], d)
  {
    ghost var before := out[..];
    p := SkipRun(path, start + 1);
    ghost var r := path[p..];
    assert path[start..][1..] == path[start + 1..];
    CutAtSlash(path[start..], size - 1 - from);
    ghost var room := size - 2 - from;
    ghost var rest := if StartsWithParent(r) then ":" + ToMacCut(SkipOneSlash(r[2..]), room - 1) else ToMacCut(r, room);
    d := Put(out, from, ":");
    Advance(before, from, ":", rest, whole, out[..]);
    if p + 1 < |path| && path[p] == '.' && path[p + 1] == '.' && (p + 2 == |path| || path[p + 2] == '/') {
      assert StartsWithParent(r);
      d, p := ConvertParent(path, p, out, d, ToMacCut(SkipOneSlash(r[2..]), room - 1), whole);
    } else {
      assert !StartsWithParent(r);
    }
  }

  /** "..", with one slash behind it if there is one. */
  method ConvertParent(path: string, start: nat, out: array<char>, from: nat, ghost rest: string, ghost whole: string)
    returns (d: nat, p: nat)
    requires start + 2 <= |path| && |whole| < out.Length && Progress(out[..], from, ":" + rest, whole)
    modifies out
    ensures start < p <= |path| && path[p..] == SkipOneSlash(path[start + 2..])
    ensures d == from + 1 && Progress(out[..], d, rest, whole) && Untouched(old(out[..]), out[..], d)
  {
    ghost var before := out[..];
    d := Put(out, from, ":");
    Advance(before, from, ":", rest, whole, out[..]);
    p := start + 2;
    if p < |path| && path[p] == '/' {
      p := p + 1;
    }
  }

  /** while (*p == '/') p++; */
  method SkipRun(path: string, start: nat) returns (p: nat)
    requires start <= |path|
    ensures start <= p <= |path| && path[p..] == SkipSlashes(path[start..])
  {
    p := start;
    while p < |path| && path[p] == '/'
      invariant start <= p <= |path| && SkipSlashes(path[p..]) == SkipSlashes(path[start..])
    {
      assert path[p..][1..] == path[p + 1..];
      p := p + 1;
    }
  }

  /** posix9_path_from_mac, on the same terms. */
  method PathFromMac(mac: string, out: array<char>, size: nat) returns (n: nat)
    requires out.Length > |FromMacBounded(mac, size)|
    modifies out
    ensures n == |FromMacBounded(mac, size)| && out[..n] == FromMacBounded(mac, size) && out[n] == '\0'
    ensures Untouched(old(out[..]), out[..], n + 1)
    ensures FromStaysInside(mac, size) ==> Untouched(old(out[..]), out[..], size)
    ensures !FromStaysInside(mac, size) ==> n >= size
  {
    FromWrittenFits(mac, size);
    if mac == "" {
      out[0] := '\0';
      return 0;
    }
    ghost var whole := FromMacBounded(mac, size);
    var d: nat, p: nat := 0, 0;
    if mac[0] == ':' {
      d, p := LeadingColons(mac, out);
    } else {
      d := Put(out, 0, "/Volumes/");
      assert mac[0..] == mac;
    }
    while p < |mac| && d < size - 1
      invariant 0 <= p <= |mac| && Progress(out[..], d, FromMacCut(mac[p..], size - 1 - d), whole)
      invariant Untouched(old(out[..]), out[..], d)
      decreases |mac| - p
    {
      ghost var before, i := out[..], d;
      d, p := ConvertMac(mac, p, out, size, d, whole);
      UntouchedOn(old(out[..]), before, out[..], i, d);
    }
    Complete(out[..], d, whole);
    out[d] := '\0';
    n := d;
  }

  method LeadingColons(mac: string, out: array<char>) returns (d: nat, p: nat)
    requires mac != "" && mac[0] == ':' && out.Length >= |FromStartText(mac)|
    modifies out
    ensures p <= |mac| && mac[p..] == FromStartRest(mac)
    ensures d == |FromStartText(mac)| && out[..d] == FromStartText(mac) && Untouched(old(out[..]), out[..], d)
  {
    d := Put(out, 0, ".");
    p := 1;
    while p < |mac| && mac[p] == ':'
      invariant 1 <= p <= |mac| && Progress(out[..], d, ParentsText(mac[p..]), FromStartText(mac))
      invariant ParentsRest(mac[p..]) == FromStartRest(mac) && Untouched(old(out[..]), out[..], d)
      decreases |mac| - p
    {
      assert mac[p..][1..] == mac[p + 1..];
      Associates(out[..d], "/..", ParentsText(mac[p + 1..]));
      d := Put(out, d, "/..");
      p := p + 1;
    }
    if p < |mac| {
      d := Put(out, d, "/");
    }
  }

  /** The loop body of posix9_path_from_mac. */
  method ConvertMac(mac: string, start: nat, out: array<char>, size: nat, from: nat, ghost whole: string)
    returns (d: nat, p: nat)
    requires start < |mac| && |whole| < out.Length && from < size - 1
    requires Progress(out[..], from, FromMacCut(mac[start..], size - 1 - from), whole)
    modifies out
    ensures start < p <= |mac| && Progress(out[..], d, FromMacCut(mac[p..], size - 1 - d), whole)
    ensures from <= d && Untouched(old(out[..]), out[..], d)
  {
    ghost var r, before, room := mac[start..], out[..], size - 1 - from;
    if mac[start] == ':' {
      if start + 1 < |mac| && mac[start + 1] == ':' {
        assert r[2..] == mac[start + 2..];
        p := start + 2;
        d := Put(out, from, "/..");
        Advance(before, from, "/..", FromMacCut(mac[p..], room - 3), whole, out[..]);
      } else {
        assert r[1..] == mac[start + 1..];
        p := start + 1;
        d := Put(out, from, "/");
        Advance(before, from, "/", FromMacCut(mac[p..], room - 1), whole, out[..]);
      }
    } else {
      assert r[1..] == mac[start + 1..];
      p := start + 1;
      d := Put(out, from, [mac[start]]);
      Advance(before, from, [mac[start]], FromMacCut(mac[p..], room - 1), whole, out[..]);
    }
  }
}
