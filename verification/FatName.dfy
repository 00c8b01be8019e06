/** Short names: eight characters and three of extension, in upper case, padded with spaces. */
module FatName {
  import opened Bytes

  const DOT: Byte := 46
  const SPACE: Byte := 32

  function Upper(b: Byte): Byte {
    if 97 <= b <= 122 then b - 32 else b
  }

  /** The part of a name before its first dot. */
  function Base(name: seq<Byte>): (r: seq<Byte>)
    ensures DOT !in r && r <= name
  {
    if name == [] || name[0] == DOT then [] else [name[0]] + Base(name[1..])
  }

  /** The part after it. */
  function Extension(name: seq<Byte>): seq<Byte> {
    if name == [] then [] else if name[0] == DOT then name[1..] else Extension(name[1..])
  }

  /** The first n characters, in upper case, padded. */
  function Field(s: seq<Byte>, n: nat): (r: seq<Byte>)
    ensures |r| == n && forall i :: 0 <= i < n ==> r[i] == if i < |s| then Upper(s[i]) else SPACE
  {
    seq(n, i requires i >= 0 => if i < |s| then Upper(s[i]) else SPACE)
  }

  function Sfn(name: seq<Byte>): (r: seq<Byte>)
    ensures |r| == 11
  {
    Field(Base(name), 8) + Field(Extension(name), 3)
  }

  lemma BaseAt(s: seq<Byte>, p: nat)
    requires p <= |Base(s)|
    ensures p <= |s| && Base(s)[p..] == Base(s[p..]) && Extension(s) == Extension(s[p..])
  {
    if p > 0 { BaseAt(s[1..], p - 1); }
  }

  /** The first loop: the base, and how far it got. */
  method MakeBase(input: seq<Byte>) returns (out: seq<Byte>, p: nat)
    ensures |out| == 11 && p <= |Base(input)|
    ensures forall k :: 0 <= k < 11 ==> out[k] == if k < 8 then Field(Base(input), 8)[k] else SPACE
  {
    hide Base, Extension;
    out := seq(11, _ => SPACE);
    p := 0;
    BaseEnds(input, 0);
    while p < |input| && input[p] != DOT && p < 8
      invariant 0 <= p <= |Base(input)| && p <= 8 && |out| == 11
      invariant forall k :: 0 <= k < 11 ==> out[k] == if k < p then Upper(Base(input)[k]) else SPACE
    {
      BaseEnds(input, p);
      out := out[p := Upper(input[p])];
      p := p + 1;
    }
    BaseEnds(input, p);
  }

  /** At the end of the base there is a dot or nothing. */
  lemma BaseEnds(s: seq<Byte>, p: nat)
    requires p <= |Base(s)|
    ensures p <= |s| && (p == |Base(s)| <==> p == |s| || s[p] == DOT)
    ensures p < |Base(s)| ==> Base(s)[p] == s[p]
  {
    BaseAt(s, p);
    if p < |s| { assert s[p..][0] == s[p]; }
  }

  /** The second loop: the place after the first dot. */
  method SkipBase(input: seq<Byte>, start: nat) returns (q: nat)
    requires start <= |Base(input)|
    ensures q <= |input| && input[q..] == Extension(input)
  {
    hide Base;
    BaseAt(input, start);
    q := start;
    while q < |input| && input[q] != DOT
      invariant start <= q <= |input| && Extension(input) == Extension(input[q..])
    {
      assert input[q..][0] == input[q] && input[q..][1..] == input[q + 1..];
      q := q + 1;
    }
    if q < |input| {
      assert input[q..][0] == input[q] && input[q..][1..] == input[q + 1..];
      q := q + 1;
    }
  }

  /** The driver's loops compute that name. */
  method MakeSfn(input: seq<Byte>) returns (out: seq<Byte>)
    ensures out == Sfn(input)
  {
    hide Base, Extension;
    var p;
    out, p := MakeBase(input);
    p := SkipBase(input, p);
    ghost var x, q := Extension(input), p;
    var i := 8;
    while p < |input| && i < 11
      invariant 8 <= i <= 11 && p == q + (i - 8) <= |input| && x == input[q..] && |out| == 11
      invariant forall k :: 0 <= k < 8 ==> out[k] == Field(Base(input), 8)[k]
      invariant forall k :: 8 <= k < 11 ==> out[k] == if k < i then Upper(x[k - 8]) else SPACE
    {
      out := out[i := Upper(input[p])];
      i, p := i + 1, p + 1;
    }
  }

  /** A short name never starts with a dot, and starts with a character of the name or a space. */
  lemma SfnStart(name: seq<Byte>)
    ensures Sfn(name)[0] != DOT
    ensures Sfn(name)[0] == if name == [] || name[0] == DOT then SPACE else Upper(name[0])
  {
    if name != [] && name[0] != DOT { assert Base(name)[0] == name[0]; }
  }

  // ----- what a short name is -----

  /** Place d is that of the first dot of a name, or its end if it has none. */
  predicate FirstDot(name: seq<Byte>, d: nat) {
    d <= |name| && (forall k :: 0 <= k < d ==> name[k] != '.' as int) && (d < |name| ==> name[d] == '.' as int)
  }

  lemma {:induction false} PartsAt(name: seq<Byte>, d: nat)
    requires FirstDot(name, d)
    ensures Base(name) == name[..d] && Extension(name) == if d < |name| then name[d + 1..] else []
  {
    if d > 0 {
      var rest := name[1..];
      assert FirstDot(rest, d - 1);
      PartsAt(rest, d - 1);
      assert name[..d] == [name[0]] + rest[..d - 1];
      if d < |name| { assert name[d + 1..] == rest[d..]; }
    }
  }

  lemma UpperIs(c: char)
    requires c < 256 as char
    ensures Upper(c as int) == if 'a' <= c <= 'z' then ('A' + (c - 'a')) as int else c as int
  {
  }

  /** The short name, byte by byte: up to eight characters before the first dot and up to three after it, letters in
      upper case, and spaces in the other places. */
  lemma SfnBytes(name: seq<Byte>, d: nat)
    requires FirstDot(name, d)
    ensures |Sfn(name)| == 11
    ensures forall k :: 0 <= k < 8 ==> Sfn(name)[k] == if k < d then Upper(name[k]) else ' ' as int
    ensures forall k :: 8 <= k < 11 ==>
      Sfn(name)[k] == if d + 1 + (k - 8) < |name| then Upper(name[d + 1 + (k - 8)]) else ' ' as int
  {
    hide Base, Extension;
    PartsAt(name, d);
  }

  /** Two names that differ at most in the case of letters. */
  predicate SameName(a: seq<Byte>, b: seq<Byte>) {
    |a| == |b| && forall k :: 0 <= k < |a| ==> Upper(a[k]) == Upper(b[k])
  }

  /** A name of at most eight characters, or of at most eight, the only dot and one to three more; neither part ends
      in a space. */
  predicate Plain(name: seq<Byte>, d: nat) {
    && FirstDot(name, d) && d <= 8 && (d > 0 ==> name[d - 1] != SPACE)
    && (d < |name| ==> d + 2 <= |name| <= d + 4 && DOT !in name[d + 1..] && name[|name| - 1] != SPACE)
  }

  ghost predicate IsPlain(name: seq<Byte>) {
    exists d: nat :: Plain(name, d)
  }

  lemma DotBefore(a: seq<Byte>, b: seq<Byte>, d: nat, e: nat)
    requires FirstDot(a, d) && FirstDot(b, e) && SameName(a, b)
    ensures d <= e
  {
    if e < |b| { assert Upper(a[e]) == Upper(b[e]); }
  }

  lemma SameCase(a: seq<Byte>, b: seq<Byte>, d: nat, e: nat)
    requires Plain(a, d) && Plain(b, e) && SameName(a, b)
    ensures Sfn(a) == Sfn(b)
  {
    hide Sfn;
    DotBefore(a, b, d, e);
    DotBefore(b, a, e, d);
    SfnBytes(a, d);
    SfnBytes(b, e);
    forall k | 0 <= k < 11 ensures Sfn(a)[k] == Sfn(b)[k] {
    }
  }

  /** Where the base ends can be read off a short name, and where the extension ends. */
  lemma SameParts(a: seq<Byte>, b: seq<Byte>, d: nat, e: nat)
    requires Plain(a, d) && Plain(b, e) && Sfn(a) == Sfn(b)
    ensures d <= e && |a| - d <= |b| - e
  {
    hide Sfn;
    SfnBytes(a, d);
    SfnBytes(b, e);
    if d > 0 { assert Sfn(a)[d - 1] != SPACE; }
    if |a| > d { assert Sfn(a)[8 + |a| - d - 2] != SPACE; }
  }

  /** Plain names have the same short name exactly when they are equal up to case. */
  lemma PlainNames(a: seq<Byte>, b: seq<Byte>)
    requires IsPlain(a) && IsPlain(b)
    ensures Sfn(a) == Sfn(b) <==> SameName(a, b)
  {
    var d: nat :| Plain(a, d);
    var e: nat :| Plain(b, e);
    if SameName(a, b) { SameCase(a, b, d, e); }
    if Sfn(a) == Sfn(b) { SameLetters(a, b, d, e); }
  }

  lemma SameLetters(a: seq<Byte>, b: seq<Byte>, d: nat, e: nat)
    requires Plain(a, d) && Plain(b, e) && Sfn(a) == Sfn(b)
    ensures SameName(a, b)
  {
    hide Sfn;
    SameParts(a, b, d, e);
    SameParts(b, a, e, d);
    SfnBytes(a, d);
    SfnBytes(b, e);
    forall k | 0 <= k < |a| ensures Upper(a[k]) == Upper(b[k]) {
      if k < d {
        assert Sfn(a)[k] == Sfn(b)[k];
      } else if k > d {
        var j := 8 + k - d - 1;
        assert Sfn(a)[j] == Sfn(b)[j];
      }
    }
  }
}
