/** The dissector's own TLV scanner, against the parser's: both cut a payload into the same complete TLVs. */
module Scanner {
  import opened Options
  import opened Bytes
  import opened Wire
  import opened Parser
  import opened Encoder
  import opened Boundaries

  /** One entry of the scan; a truncated header has no type. */
  datatype Scanned = Scanned(offset: nat, kind: Option<byte>, length: nat, valueLength: nat, total: nat,
                             malformed: bool)

  /** The entries lie end to end from `start` to `end`. */
  predicate Tile(es: seq<Scanned>, start: nat, end: nat) {
    if es == [] then start == end
    else
      && es[0].offset == start && es[|es| - 1].offset + es[|es| - 1].total == end
      && forall i :: 0 <= i < |es| - 1 ==> es[i].offset + es[i].total == es[i + 1].offset
  }

  predicate Describes(e: Scanned, t: Tlv, buffer: seq<byte>) {
    && !e.malformed && e.kind == Some(t.kind) && e.length == e.valueLength == |t.value| && e.total == 2 + |t.value|
    && e.offset + e.total <= |buffer| && buffer[e.offset + 2..e.offset + e.total] == t.value
  }

  predicate DescribeAll(es: seq<Scanned>, ts: seq<Tlv>, buffer: seq<byte>) {
    |es| == |ts| && forall i :: 0 <= i < |es| ==> Describes(es[i], ts[i], buffer)
  }

  /** The last host label that is not empty, as it stands. */
  function LastHost(ts: seq<Tlv>): (r: Option<seq<byte>>) {
    if ts == [] then None
    else if ts[|ts| - 1].kind == T_HOST && ts[|ts| - 1].value != [] then Some(ts[|ts| - 1].value)
    else LastHost(ts[..|ts| - 1])
  }

  /** What the scan reports of a body: its complete TLVs, then one malformed entry if anything is left over. */
  ghost predicate Reports(es: seq<Scanned>, buffer: seq<byte>, parts: Parts) {
    && Tile(es, HEADER, |buffer|)
    && |es| == |parts.tlvs| + (if parts.rest == [] then 0 else 1)
    && DescribeAll(es[..|parts.tlvs|], parts.tlvs, buffer)
    && (parts.rest != [] ==>
          var e := es[|es| - 1];
          e.malformed && e.total == |parts.rest| && (e.kind.None? <==> |parts.rest| < 2))
  }

  lemma {:induction false} SplitNext(bs: seq<byte>)
    requires !Incomplete(bs)
    ensures var tail := Split(bs[TlvSize(bs)..]);
            Split(bs) == Parts([Tlv(bs[0], bs[2..TlvSize(bs)])] + tail.tlvs, tail.rest)
  {
  }

  lemma {:induction false} TileNext(es: seq<Scanned>, start: nat, mid: nat, e: Scanned, end: nat)
    requires Tile(es, start, mid) && e.offset == mid && end == mid + e.total
    ensures Tile(es + [e], start, end)
  {
  }

  ghost predicate SplitSoFar(done: seq<Tlv>, offset: nat, buffer: seq<byte>)
    requires HEADER <= offset <= |buffer|
  {
    Split(buffer[HEADER..]) == Parts(done + Split(buffer[offset..]).tlvs, Split(buffer[offset..]).rest)
  }

  lemma {:induction false} SplitAt(buffer: seq<byte>, offset: nat, t: Tlv, offset': nat)
    requires offset' == offset + 2 + |t.value| <= |buffer| && t.value == buffer[offset + 2..offset']
    requires t.kind == buffer[offset] && |t.value| == buffer[offset + 1]
    ensures var tail := Split(buffer[offset'..]);
            Split(buffer[offset..]) == Parts([t] + tail.tlvs, tail.rest)
  {
    var rest := buffer[offset..];
    assert rest[2..TlvSize(rest)] == t.value && rest[TlvSize(rest)..] == buffer[offset'..];
    SplitNext(rest);
  }

  lemma {:induction false} SplitSoFarNext(done: seq<Tlv>, offset: nat, buffer: seq<byte>, t: Tlv, offset': nat)
    requires HEADER <= offset && offset' == offset + 2 + |t.value| <= |buffer| && SplitSoFar(done, offset, buffer)
    requires t.kind == buffer[offset] && |t.value| == buffer[offset + 1] && t.value == buffer[offset + 2..offset']
    ensures SplitSoFar(done + [t], offset', buffer)
  {
    SplitAt(buffer, offset, t, offset');
    ConsMoves(done, t, Split(buffer[offset'..]).tlvs);
  }

  lemma {:induction false} DescribeNext(es: seq<Scanned>, ts: seq<Tlv>, buffer: seq<byte>, e: Scanned, t: Tlv)
    requires DescribeAll(es, ts, buffer) && Describes(e, t, buffer)
    ensures DescribeAll(es + [e], ts + [t], buffer)
  {
  }

  /** How far a scan has come: `done` are the TLVs before `offset`. */
  ghost predicate Progress(es: seq<Scanned>, host: Option<seq<byte>>, done: seq<Tlv>, offset: nat, buffer: seq<byte>) {
    && HEADER <= offset <= |buffer| && SplitSoFar(done, offset, buffer)
    && Tile(es, HEADER, offset) && DescribeAll(es, done, buffer) && host == LastHost(done)
  }

  lemma {:induction false} ScanNext(
    es: seq<Scanned>, host: Option<seq<byte>>, done: seq<Tlv>, offset: nat, buffer: seq<byte>, t: Tlv, e: Scanned,
    host': Option<seq<byte>>, offset': nat)
    requires Progress(es, host, done, offset, buffer)
    requires offset' == offset + 2 + |t.value| <= |buffer| && t.value == buffer[offset + 2..offset']
    requires t.kind == buffer[offset] && |t.value| == buffer[offset + 1]
    requires e == Scanned(offset, Some(t.kind), |t.value|, |t.value|, 2 + |t.value|, false)
    requires host' == if t.kind == T_HOST && |t.value| > 0 then Some(t.value) else host
    ensures Progress(es + [e], host', done + [t], offset', buffer)
  {
    SplitSoFarNext(done, offset, buffer, t, offset');
    TileNext(es, HEADER, offset, e, offset');
    DescribeNext(es, done, buffer, e, t);
    LastHostNext(done, t);
  }

  lemma {:induction false} LastHostNext(done: seq<Tlv>, t: Tlv)
    ensures LastHost(done + [t]) == if t.kind == T_HOST && t.value != [] then Some(t.value) else LastHost(done)
  {
    assert (done + [t])[..|done|] == done;
  }

  /** Nothing, or only a truncated TLV, is left. */
  lemma {:induction false} ScanEnds(
    es: seq<Scanned>, host: Option<seq<byte>>, done: seq<Tlv>, offset: nat, buffer: seq<byte>, last: seq<Scanned>)
    requires Progress(es, host, done, offset, buffer) && Incomplete(buffer[offset..])
    requires if offset == |buffer| then last == []
             else |last| == 1 && last[0].offset == offset && last[0].total == |buffer| - offset && last[0].malformed
                  && (last[0].kind.None? <==> |buffer| - offset < 2)
    ensures Reports(es + last, buffer, Split(buffer[HEADER..])) && host == LastHost(Split(buffer[HEADER..]).tlvs)
  {
    assert done + [] == done;
    assert (es + last)[..|done|] == es;
    if last != [] {
      TileNext(es, HEADER, offset, last[0], |buffer|);
      assert es + last == es + [last[0]];
    } else {
      assert es + last == es;
    }
  }

  lemma {:induction false} ScanBegins(buffer: seq<byte>)
    requires |buffer| >= HEADER
    ensures Progress([], None, [], HEADER, buffer)
  {
    assert [] + Split(buffer[HEADER..]).tlvs == Split(buffer[HEADER..]).tlvs;
  }

  lemma {:induction false} CutShort(buffer: seq<byte>, offset: nat)
    requires offset < |buffer|
    requires offset + 1 < |buffer| ==> buffer[offset + 1] > |buffer| - offset - 2
    ensures Incomplete(buffer[offset..])
  {
  }

  lemma {:induction false} ScanStops(
    es: seq<Scanned>, host: Option<seq<byte>>, done: seq<Tlv>, offset: nat, buffer: seq<byte>, e: Scanned)
    requires Progress(es, host, done, offset, buffer) && offset < |buffer|
    requires offset + 1 < |buffer| ==> buffer[offset + 1] > |buffer| - offset - 2
    requires e.offset == offset && e.total == |buffer| - offset && e.malformed
    requires e.kind.None? <==> offset + 1 == |buffer|
    ensures Reports(es + [e], buffer, Split(buffer[HEADER..])) && host == LastHost(Split(buffer[HEADER..]).tlvs)
  {
    CutShort(buffer, offset);
    ScanEnds(es, host, done, offset, buffer, [e]);
  }

  method ScanTlvs(buffer: seq<byte>) returns (entries: seq<Scanned>, host: Option<seq<byte>>)
    requires |buffer| >= HEADER
    ensures Reports(entries, buffer, Split(buffer[HEADER..]))
    ensures host == LastHost(Split(buffer[HEADER..]).tlvs)
  {
    entries, host := [], None;
    var offset := HEADER;
    ghost var done: seq<Tlv> := [];
    ScanBegins(buffer);
    while offset < |buffer|
      invariant Progress(entries, host, done, offset, buffer)
    {
      var remaining := |buffer| - offset;
      if remaining < 2 {
        var e := Scanned(offset, None, 0, 0, remaining, true);
        ScanStops(entries, host, done, offset, buffer, e);
        entries := entries + [e];
        return;
      }
      var kind, length: nat := buffer[offset], buffer[offset + 1];
      var available := remaining - 2;
      if length > available {
        var e := Scanned(offset, Some(kind), length, available, 2 + available, true);
        ScanStops(entries, host, done, offset, buffer, e);
        entries := entries + [e];
        return;
      }
      var value := buffer[offset + 2..offset + 2 + length];
      var e := Scanned(offset, Some(kind), length, length, 2 + length, false);
      ghost var t, before, start := Tlv(kind, value), host, offset;
      if kind == T_HOST && length > 0 {
        host := Some(value);
      }
      offset := offset + 2 + length;
      ScanNext(entries, before, done, start, buffer, t, e, host, offset);
      done := done + [t];
      entries := entries + [e];
    }
    ScanEnds(entries, host, done, offset, buffer, []);
    assert entries + [] == entries;
  }

  lemma {:induction false} SetAllNext(f: Frame, ts: seq<Tlv>, t: Tlv)
    ensures SetAll(f, DecodeAll(ts + [t])) == Set(SetAll(f, DecodeAll(ts)), Decode(t.kind, t.value))
  {
    DecodeAllAppend(ts, [t]);
    SetAllAppend(f, DecodeAll(ts), DecodeAll([t]));
    var p := Decode(t.kind, t.value);
    assert DecodeAll([t]) == [p] && [p][1..] == [];
  }

  lemma {:induction false} HostSet(f: Frame, t: Tlv)
    ensures Set(f, Decode(t.kind, t.value)).hostLabel ==
            if t.kind == T_HOST && t.value != [] then Some(Strip(OnlyAscii(t.value))) else f.hostLabel
  {
  }

  /** The parser takes its host label from the same TLV, dropping what is not ASCII and the blanks around it. */
  lemma {:induction false} SameHost(f: Frame, ts: seq<Tlv>)
    ensures SetAll(f, DecodeAll(ts)).hostLabel ==
            match LastHost(ts) { case Some(v) => Some(Strip(OnlyAscii(v))) case None => f.hostLabel }
  {
    if ts != [] {
      var ts', t := ts[..|ts| - 1], ts[|ts| - 1];
      SameHost(f, ts');
      SetAllNext(f, ts', t);
      assert ts == ts' + [t];
      HostSet(SetAll(f, DecodeAll(ts')), t);
    }
  }
}
