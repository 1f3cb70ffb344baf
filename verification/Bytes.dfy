/** Bytes, big-endian fields and fixed-width names, as the agent writes them and the parser reads them. */
module Bytes {
  import opened Arith

  type byte = x: int | 0 <= x < 256

  // ---------------------------------------------------------------- big-endian numbers

  function Pow256(w: nat): (n: nat)
    ensures n > 0
  {
    if w == 0 then 1 else 256 * Pow256(w - 1)
  }

  /** The low w bytes of n, most significant first. */
  function BE(n: nat, w: nat): (bs: seq<byte>)
    ensures |bs| == w
  {
    if w == 0 then [] else BE(n / 256, w - 1) + [n % 256]
  }

  function FromBE(bs: seq<byte>): (n: nat) {
    if bs == [] then 0 else FromBE(bs[..|bs| - 1]) * 256 + bs[|bs| - 1]
  }

  lemma {:induction false} FromBEOfBE(n: nat, w: nat)
    requires n < Pow256(w)
    ensures FromBE(BE(n, w)) == n
  {
    if w > 0 {
      assert BE(n, w)[..w - 1] == BE(n / 256, w - 1);
      FromBEOfBE(n / 256, w - 1);
    }
  }

  lemma {:induction false} BELow(n: nat, w: nat)
    ensures FromBE(BE(n, w)) == n % Pow256(w)
  {
    if w > 0 {
      assert BE(n, w)[..w - 1] == BE(n / 256, w - 1);
      BELow(n / 256, w - 1);
      DivTwice(n, 256, Pow256(w - 1));
    }
  }

  /** The high bytes of a number and its low bytes. */
  lemma {:induction false} BESplit(n: nat, high: nat, low: nat, q: nat)
    requires q == n / Pow256(low)
    ensures BE(n, high + low) == BE(q, high) + BE(n, low)
    decreases low
  {
    if low > 0 {
      DivTwice(n, 256, Pow256(low - 1));
      BESplit(n / 256, high, low - 1, q);
    }
  }

  lemma {:induction false} Powers()
    ensures Pow256(2) == 0x1_0000 && Pow256(4) == 0x1_0000_0000 && Pow256(6) == 0x1_0000_0000_0000
    ensures Pow256(8) == 0x1_0000_0000_0000_0000
  {
    assert Pow256(3) == 0x100_0000;
    assert Pow256(5) == 0x100_0000_0000;
    assert Pow256(7) == 0x100_0000_0000_0000;
  }

  // ---------------------------------------------------------------- records of fixed-width fields

  predicate Fits(vals: seq<nat>, widths: seq<nat>) {
    |vals| == |widths| && forall i :: 0 <= i < |vals| ==> vals[i] < Pow256(widths[i])
  }

  function Width(widths: seq<nat>): (n: nat) {
    if widths == [] then 0 else widths[0] + Width(widths[1..])
  }

  function Pack(vals: seq<nat>, widths: seq<nat>): (bs: seq<byte>)
    requires |vals| == |widths|
    ensures |bs| == Width(widths)
    decreases |vals|
  {
    if widths == [] then [] else BE(vals[0], widths[0]) + Pack(vals[1..], widths[1..])
  }

  /** struct.unpack: the buffer must have exactly the size of the format. */
  function Unpack(bs: seq<byte>, widths: seq<nat>): (vals: seq<nat>)
    requires |bs| == Width(widths)
    ensures |vals| == |widths|
    decreases |widths|, |bs|
  {
    if widths == [] then [] else [FromBE(bs[..widths[0]])] + Unpack(bs[widths[0]..], widths[1..])
  }

  lemma {:induction false} UnpackHead(head: seq<byte>, tail: seq<byte>, widths: seq<nat>)
    requires widths != [] && widths[0] == |head| && |tail| == Width(widths[1..])
    ensures Unpack(head + tail, widths) == [FromBE(head)] + Unpack(tail, widths[1..])
  {
    assert (head + tail)[..|head|] == head && (head + tail)[|head|..] == tail;
  }

  /** Unpacking undoes packing. */
  lemma {:induction false} UnpackPack(vals: seq<nat>, widths: seq<nat>)
    requires Fits(vals, widths)
    ensures Unpack(Pack(vals, widths), widths) == vals
    decreases |widths|
  {
    if widths != [] {
      UnpackHead(BE(vals[0], widths[0]), Pack(vals[1..], widths[1..]), widths);
      FromBEOfBE(vals[0], widths[0]);
      UnpackPack(vals[1..], widths[1..]);
    }
  }

  lemma {:induction false} PackSnoc(vals: seq<nat>, widths: seq<nat>, v: nat, w: nat)
    requires |vals| == |widths|
    ensures Pack(vals + [v], widths + [w]) == Pack(vals, widths) + BE(v, w)
    decreases |widths|
  {
    if widths == [] {
      assert Pack([v], [w]) == BE(v, w) + Pack([v][1..], [w][1..]);
    } else {
      assert (vals + [v])[1..] == vals[1..] + [v] && (widths + [w])[1..] == widths[1..] + [w];
      PackSnoc(vals[1..], widths[1..], v, w);
    }
  }

  // ---------------------------------------------------------------- fixed-width names

  predicate Ascii(s: seq<byte>) {
    forall i :: 0 <= i < |s| ==> 0 < s[i] < 128
  }

  function Zeros(n: nat): (bs: seq<byte>)
    ensures |bs| == n
  {
    seq(n, _ => 0)
  }

  /** A NUL-padded name field: at most size - 1 bytes of the name are kept. */
  function PadName(name: seq<byte>, size: nat): (bs: seq<byte>)
    requires size > 0
    ensures |bs| == size
  {
    if |name| < size then name + Zeros(size - |name|) else name[..size - 1] + [0]
  }

  /** As much of the name as leaves room for one NUL, and NULs from there on. */
  lemma {:induction false} PadNameIs(name: seq<byte>, size: nat, i: nat)
    requires i < size
    ensures PadName(name, size)[i] == if i < |name| && i < size - 1 then name[i] else 0
  {
  }

  function UpToNul(bs: seq<byte>): (r: seq<byte>) {
    if bs == [] || bs[0] == 0 then [] else [bs[0]] + UpToNul(bs[1..])
  }

  function OnlyAscii(bs: seq<byte>): (r: seq<byte>) {
    if bs == [] then [] else (if bs[0] < 128 then [bs[0]] else []) + OnlyAscii(bs[1..])
  }

  /** Reading a name field: up to the first NUL, ignoring what is not ASCII. */
  function ReadName(bs: seq<byte>): (r: seq<byte>) {
    OnlyAscii(UpToNul(bs))
  }

  lemma {:induction false} UpToNulStops(s: seq<byte>, rest: seq<byte>)
    requires Ascii(s) && rest != [] && rest[0] == 0
    ensures UpToNul(s + rest) == s
  {
    if s == [] {
      assert s + rest == rest;
    } else {
      assert (s + rest)[1..] == s[1..] + rest;
      UpToNulStops(s[1..], rest);
    }
  }

  lemma {:induction false} OnlyAsciiKeeps(s: seq<byte>)
    requires Ascii(s)
    ensures OnlyAscii(s) == s
  {
    if s != [] {
      OnlyAsciiKeeps(s[1..]);
    }
  }

  lemma {:induction false} ReadPadded(name: seq<byte>, size: nat)
    requires Ascii(name) && |name| < size
    ensures ReadName(PadName(name, size)) == name
  {
    UpToNulStops(name, Zeros(size - |name|));
    OnlyAsciiKeeps(name);
  }

  /** The characters a string loses at both ends when it is stripped. */
  predicate Blank(b: byte) {
    b == 32 || 9 <= b <= 13 || 28 <= b <= 31
  }

  function StripLeft(s: seq<byte>): (r: seq<byte>) {
    if s != [] && Blank(s[0]) then StripLeft(s[1..]) else s
  }

  function StripRight(s: seq<byte>): (r: seq<byte>) {
    if s != [] && Blank(s[|s| - 1]) then StripRight(s[..|s| - 1]) else s
  }

  function Strip(s: seq<byte>): (r: seq<byte>) {
    StripRight(StripLeft(s))
  }

  const WHITESPACE: set<byte> := {9, 10, 11, 12, 13, 28, 29, 30, 31, 32}

  predicate AllWhitespace(s: seq<byte>) {
    forall i :: 0 <= i < |s| ==> s[i] in WHITESPACE
  }

  /** Neither end is whitespace. */
  predicate Trimmed(s: seq<byte>) {
    s == [] || (s[0] !in WHITESPACE && s[|s| - 1] !in WHITESPACE)
  }

  /** r is what stands between all whitespace at the beginning and all whitespace at the end. */
  ghost predicate StripsTo(s: seq<byte>, r: seq<byte>) {
    Trimmed(r) && exists left, right :: AllWhitespace(left) && AllWhitespace(right) && s == left + r + right
  }

  lemma {:induction false} BlankIsWhitespace(b: byte)
    ensures Blank(b) <==> b in WHITESPACE
  {
  }

  lemma {:induction false} StripLeftIs(s: seq<byte>) returns (left: seq<byte>)
    ensures AllWhitespace(left) && s == left + StripLeft(s)
    ensures StripLeft(s) == [] || StripLeft(s)[0] !in WHITESPACE
  {
    left := [];
    if s != [] {
      BlankIsWhitespace(s[0]);
      if Blank(s[0]) {
        left := StripLeftIs(s[1..]);
        left := [s[0]] + left;
      }
    }
  }

  lemma {:induction false} StripRightIs(s: seq<byte>) returns (right: seq<byte>)
    ensures AllWhitespace(right) && s == StripRight(s) + right
    ensures StripRight(s) == [] || StripRight(s)[|StripRight(s)| - 1] !in WHITESPACE
  {
    right := [];
    if s != [] {
      BlankIsWhitespace(s[|s| - 1]);
      if Blank(s[|s| - 1]) {
        right := StripRightIs(s[..|s| - 1]);
        right := right + [s[|s| - 1]];
      }
    }
  }

  /** Stripping removes the whitespace at both ends and nothing else. */
  lemma {:induction false} StripIs(s: seq<byte>)
    ensures StripsTo(s, Strip(s))
  {
    var left := StripLeftIs(s);
    var right := StripRightIs(StripLeft(s));
    assert Strip(s) != [] ==> Strip(s)[0] == StripLeft(s)[0];
    assert s == left + Strip(s) + right;
  }

  /** There is only one such result, so what is trimmed already stays as it is. */
  lemma {:induction false} StripIsUnique(s: seq<byte>, r: seq<byte>, t: seq<byte>)
    requires StripsTo(s, r) && StripsTo(s, t)
    ensures r == t
  {
    var a, b :| AllWhitespace(a) && AllWhitespace(b) && s == a + r + b;
    var c, d :| AllWhitespace(c) && AllWhitespace(d) && s == c + t + d;
    if r == [] {
      AllWhitespaceInside(s, a + b, c, t, d);
    } else if t == [] {
      AllWhitespaceInside(s, c + d, a, r, b);
    } else {
      SameCut(s, a, r, b, c, t, d);
      SameCut(s, c, t, d, a, r, b);
    }
  }

  lemma {:induction false} AllWhitespaceInside(
    s: seq<byte>, all: seq<byte>, left: seq<byte>, r: seq<byte>, right: seq<byte>)
    requires AllWhitespace(all) && s == all && s == left + r + right && Trimmed(r)
    ensures r == []
  {
    assert forall i :: 0 <= i < |r| ==> r[i] == s[|left| + i];
  }

  lemma {:induction false} SameCut(
    s: seq<byte>, a: seq<byte>, r: seq<byte>, b: seq<byte>, c: seq<byte>, t: seq<byte>, d: seq<byte>)
    requires AllWhitespace(a) && AllWhitespace(b) && r != [] && Trimmed(r) && s == a + r + b
    requires AllWhitespace(c) && AllWhitespace(d) && t != [] && Trimmed(t) && s == c + t + d
    ensures |a| <= |c| && |b| <= |d|
    ensures |a| == |c| && |b| == |d| ==> r == t
  {
    var n := |s|;
    assert s[|c|] == t[0] && s[n - 1 - |d|] == t[|t| - 1];
    assert forall i :: 0 <= i < |a| ==> s[i] == a[i];
    assert forall i :: n - |b| <= i < n ==> s[i] == b[i - (n - |b|)];
    assert r == s[|a|..n - |b|] && t == s[|c|..n - |d|];
  }

  lemma {:induction false} TrimmedStays(s: seq<byte>)
    requires Trimmed(s)
    ensures Strip(s) == s
  {
    assert AllWhitespace([]) && s == [] + s + [];
    StripIs(s);
    StripIsUnique(s, Strip(s), s);
  }

  // ---------------------------------------------------------------- decoding names

  /** Everything before the first NUL, or all of it. */
  lemma {:induction false} UpToNulIs(bs: seq<byte>)
    ensures UpToNul(bs) <= bs && 0 !in UpToNul(bs)
    ensures |UpToNul(bs)| < |bs| ==> bs[|UpToNul(bs)|] == 0
  {
    if bs != [] && bs[0] != 0 {
      UpToNulIs(bs[1..]);
    }
  }

  /** Decoding drops exactly the bytes from 128 on and keeps the order of the others. */
  lemma {:induction false} OnlyAsciiIs(a: seq<byte>, b: byte, c: seq<byte>)
    ensures OnlyAscii(a + c) == OnlyAscii(a) + OnlyAscii(c)
    ensures OnlyAscii([b]) == if b < 128 then [b] else []
  {
    assert [b][1..] == [];
    if a == [] {
      assert a + c == c;
    } else {
      assert (a + c)[1..] == a[1..] + c;
      OnlyAsciiIs(a[1..], b, c);
    }
  }
}
