/** Parsing works TLV by TLV: any byte string is a list of complete TLVs followed by an incomplete rest, and the
    parser sees exactly that list. */
module Boundaries {
  import opened Options
  import opened Bytes
  import opened Wire
  import opened Parser
  import opened Encoder

  /** Too short for the TLV it begins, if it begins one at all. */
  predicate Incomplete(bs: seq<byte>) {
    |bs| < 2 || |bs| < TlvSize(bs)
  }

  datatype Parts = Parts(tlvs: seq<Tlv>, rest: seq<byte>)

  function Split(bs: seq<byte>): (p: Parts)
    ensures Incomplete(p.rest)
    decreases |bs|
  {
    if Incomplete(bs) then Parts([], bs)
    else
      var tail := Split(bs[TlvSize(bs)..]);
      Parts([Tlv(bs[0], bs[2..TlvSize(bs)])] + tail.tlvs, tail.rest)
  }

  function DecodeAll(ts: seq<Tlv>): (ps: seq<Payload>)
    ensures |ps| == |ts|
  {
    seq(|ts|, i requires 0 <= i < |ts| => Decode(ts[i].kind, ts[i].value))
  }

  function SetAll(f: Frame, ps: seq<Payload>): (r: Frame)
    decreases |ps|
  {
    if ps == [] then f else SetAll(Set(f, ps[0]), ps[1..])
  }

  lemma {:induction false} FirstTlv(bs: seq<byte>)
    requires !Incomplete(bs)
    ensures TlvBytes(Tlv(bs[0], bs[2..TlvSize(bs)])) + bs[TlvSize(bs)..] == bs
  {
  }

  lemma {:induction false} ConcatCons(t: Tlv, ts: seq<Tlv>, rest: seq<byte>)
    ensures Concat([t] + ts) + rest == TlvBytes(t) + (Concat(ts) + rest)
  {
    assert ([t] + ts)[1..] == ts;
  }

  /** Splitting loses nothing. */
  lemma {:induction false} SplitConcat(bs: seq<byte>)
    ensures Concat(Split(bs).tlvs) + Split(bs).rest == bs
    decreases |bs|
  {
    if !Incomplete(bs) {
      var t, tail := Tlv(bs[0], bs[2..TlvSize(bs)]), Split(bs[TlvSize(bs)..]);
      SplitConcat(bs[TlvSize(bs)..]);
      FirstTlv(bs);
      ConcatCons(t, tail.tlvs, tail.rest);
    }
  }

  lemma {:induction false} HeadOfConcat(t: Tlv, rest: seq<byte>)
    ensures var bs := TlvBytes(t) + rest;
            !Incomplete(bs) && TlvSize(bs) == 2 + |t.value| && bs[0] == t.kind
            && bs[2..TlvSize(bs)] == t.value && bs[TlvSize(bs)..] == rest
  {
  }

  /** And only one splitting exists. */
  lemma {:induction false} SplitUnique(ts: seq<Tlv>, rest: seq<byte>)
    requires Incomplete(rest)
    ensures Split(Concat(ts) + rest) == Parts(ts, rest)
    decreases |ts|
  {
    if ts == [] {
      assert Concat(ts) + rest == rest;
    } else {
      assert Concat(ts) + rest == TlvBytes(ts[0]) + (Concat(ts[1..]) + rest);
      HeadOfConcat(ts[0], Concat(ts[1..]) + rest);
      SplitUnique(ts[1..], rest);
    }
  }

  /** Parsing complete TLVs and then the rest is parsing them together. */
  lemma {:induction false} ParseComposes(f: Frame, ts: seq<Tlv>, rest: seq<byte>)
    ensures ParseBody(f, Concat(ts) + rest) == ParseBody(SetAll(f, DecodeAll(ts)), rest)
    decreases |ts|
  {
    if ts == [] {
      assert Concat(ts) + rest == rest;
    } else {
      var tail := Concat(ts[1..]) + rest;
      assert Concat(ts) + rest == TlvBytes(ts[0]) + tail;
      HeadOfConcat(ts[0], tail);
      assert DecodeAll(ts)[1..] == DecodeAll(ts[1..]);
      ParseComposes(Set(f, DecodeAll(ts)[0]), ts[1..], rest);
    }
  }

  /** Any body whatsoever is parsed as its list of complete TLVs; an incomplete rest is ignored. */
  lemma {:induction false} ParseIsSetAll(f: Frame, bs: seq<byte>)
    ensures ParseBody(f, bs) == SetAll(f, DecodeAll(Split(bs).tlvs))
  {
    SplitConcat(bs);
    ParseComposes(f, Split(bs).tlvs, Split(bs).rest);
  }

  lemma {:induction false} SetAllAppend(f: Frame, ps: seq<Payload>, qs: seq<Payload>)
    ensures SetAll(f, ps + qs) == SetAll(SetAll(f, ps), qs)
    decreases |ps|
  {
    if ps == [] {
      assert ps + qs == qs;
    } else {
      assert (ps + qs)[1..] == ps[1..] + qs;
      SetAllAppend(Set(f, ps[0]), ps[1..], qs);
    }
  }

  lemma {:induction false} DecodeAllAppend(xs: seq<Tlv>, ys: seq<Tlv>)
    ensures DecodeAll(xs + ys) == DecodeAll(xs) + DecodeAll(ys)
  {
  }

  predicate Known(kind: byte) {
    T_CPU <= kind <= T_THREAD
  }

  lemma {:induction false} ParseHead(head: seq<byte>, body: seq<byte>)
    requires |head| == HEADER
    ensures Parse(head + body) ==
            if FromBE(head[0..2]) != MAGIC || head[2] != VERSION then None
            else Some(ParseBody(EmptyFrame(FromBE(head[4..8]), FromBE(head[8..12])), body))
  {
    var bs := head + body;
    assert bs[0..2] == head[0..2] && bs[4..8] == head[4..8] && bs[8..12] == head[8..12] && bs[HEADER..] == body;
  }

  lemma {:induction false} UnknownDecoded(u: Tlv)
    requires !Known(u.kind)
    ensures Decode(u.kind, u.value) == Nothing
  {
  }

  lemma {:induction false} UnknownInBody(f: Frame, u: Tlv, rest: seq<byte>)
    requires !Known(u.kind)
    ensures ParseBody(f, TlvBytes(u) + rest) == ParseBody(f, rest)
  {
    HeadOfConcat(u, rest);
    UnknownDecoded(u);
  }

  /** A TLV of an unknown type can be inserted at any boundary of any frame without being noticed. */
  lemma {:induction false} UnknownIsSkipped(head: seq<byte>, xs: seq<Tlv>, u: Tlv, rest: seq<byte>)
    requires |head| == HEADER && !Known(u.kind)
    ensures Parse(head + (Concat(xs) + (TlvBytes(u) + rest))) == Parse(head + (Concat(xs) + rest))
  {
    ParseHead(head, Concat(xs) + (TlvBytes(u) + rest));
    ParseHead(head, Concat(xs) + rest);
    var f := EmptyFrame(FromBE(head[4..8]), FromBE(head[8..12]));
    ParseComposes(f, xs, TlvBytes(u) + rest);
    ParseComposes(f, xs, rest);
    UnknownInBody(SetAll(f, DecodeAll(xs)), u, rest);
  }
}
