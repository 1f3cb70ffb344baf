/** Parsing what the agent sends gives back what it sampled, up to the limits of the one-byte lengths. */
module RoundTrip {
  import opened Options
  import opened Bytes
  import opened Wire
  import opened Parser
  import opened Encoder
  import opened Boundaries
  import opened Budget
  import opened ListRoundTrip

  // ---------------------------------------------------------------- thread groups

  /** Of the flags byte, whatever it is, the lowest bit says that ids are included and the next that the list was
      cut. */
  lemma {:induction false} FlagsAreBits(val: seq<byte>, includeTid: bool, truncated: bool, high: nat)
    requires |val| >= THREAD_HEADER
    requires val[18] == (if includeTid then 1 else 0) + (if truncated then 2 else 0) + 4 * high
    ensures ReadGroup(val).includeTid == includeTid && ReadGroup(val).truncated == truncated
  {
  }

  lemma {:induction false} GroupComesBack(g: ThreadGroup)
    requires ValidGroup(g)
    ensures |EncodeGroup(g)| >= THREAD_HEADER && ReadGroup(EncodeGroup(g)) == g
  {
    var val := EncodeGroup(g);
    HeadComesBack(g, EncodeAll(g.top, EncodeEntry));
    forall i | 0 <= i < |g.top| ensures DecodeEntry(EncodeEntry(g.top[i])) == g.top[i] {
      EntryComesBack(g.top[i]);
    }
    EntriesComeBack(GroupHead(g), g.top, EncodeEntry, DecodeEntry, 28);
  }

  lemma {:induction false} HeadParts(
    name: seq<byte>, total: seq<byte>, flags: byte, states: seq<byte>, count: byte, rest: seq<byte>)
    requires |name| == 16 && |total| == 2 && |states| == 14
    ensures var val := name + total + [flags] + states + [count] + rest;
            && val[..16] == name && val[16..18] == total && val[18] == flags && val[19..33] == states
            && val[33] == count
  {
  }

  lemma {:induction false} HeadComesBack(g: ThreadGroup, rest: seq<byte>)
    requires ValidGroup(g)
    ensures var val := GroupHead(g) + rest;
            GroupOf(val, g.top) == g && val[33] == |g.top|
  {
    HeadParts(PadName(g.name, 16), BE(g.total, 2), Flags(g), Pack(g.states, STATE_WIDTHS), |g.top|, rest);
    ReadPadded(g.name, 16);
    FromBEOfBE(g.total, 2);
    UnpackPack(g.states, STATE_WIDTHS);
  }

  // ---------------------------------------------------------------- what each TLV of the agent says

  predicate Says(t: Tlv, p: Payload) {
    Decode(t.kind, t.value) == p
  }

  lemma {:induction false} HostDecoded(s: Sample)
    requires Ascii(s.hostLabel) && 0 < |s.hostLabel| < HOST_LABEL_SIZE
    ensures Says(HostTlvs(s.hostLabel)[0], HostSays(Strip(s.hostLabel)))
  {
    OnlyAsciiKeeps(s.hostLabel);
  }

  lemma {:induction false} CpuDecoded(s: Sample)
    requires Fits(CpuFields(s.cpu), CPU_WIDTHS)
    ensures Says(CpuTlv(s.cpu), CpuSays(s.cpu))
  {
    UnpackPack(CpuFields(s.cpu), CPU_WIDTHS);
  }

  function Used(m: Mem): (n: nat) {
    if m.total >= m.free then m.total - m.free else 0
  }

  lemma {:induction false} MemDecoded(s: Sample)
    requires Fits(MemFields(s.mem), MEM_WIDTHS)
    ensures Says(MemTlv(s.mem), MemSays(MemReport(s.mem, Used(s.mem))))
  {
    UnpackPack(MemFields(s.mem), MEM_WIDTHS);
  }

  lemma {:induction false} ListComesBack<T(!new)>(es: seq<T>, enc: T -> seq<byte>, dec: seq<byte> --> T, size: nat)
    requires Takes(dec, size) && |es| < 256 && 1 + |es| * size < 256 && forall e :: |enc(e)| == size
    requires forall i :: 0 <= i < |es| ==> dec(enc(es[i])) == es[i]
    ensures var val := Clip(Wire.Counted(es, enc));
            val != [] && ReadEntries(val, 1, val[0], size, dec) == es
  {
    CountedLength(es, enc, size);
    EntriesComeBack([|es|], es, enc, dec, size);
  }

  lemma {:induction false} NetDecoded(s: Sample)
    requires 0 < |s.net| <= MAX_INTERFACES && forall i :: 0 <= i < |s.net| ==> ValidNet(s.net[i])
    ensures Says(NetTlvs(s.net)[0], NetSays(s.net))
  {
    forall i | 0 <= i < |s.net| ensures DecodeNet(EncodeNet(s.net[i])) == s.net[i] {
      NetComesBack(s.net[i]);
    }
    ListComesBack(s.net, EncodeNet, DecodeNet, 24);
  }

  lemma {:induction false} ProcDecoded(s: Sample)
    requires s.procEnabled && |s.procs| <= MAX_GROUPS && forall i :: 0 <= i < |s.procs| ==> ValidProc(s.procs[i])
    ensures Says(ProcTlvs(s.procEnabled, s.procs)[0], ProcsSay(s.procs))
  {
    forall i | 0 <= i < |s.procs| ensures DecodeProc(EncodeProc(s.procs[i])) == s.procs[i] {
      ProcComesBack(s.procs[i]);
    }
    ListComesBack(s.procs, EncodeProc, DecodeProc, 24);
  }

  lemma {:induction false} DisksDecoded(s: Sample)
    requires 0 < |s.disks| <= MAX_DISKS && forall i :: 0 <= i < |s.disks| ==> ValidDisk(s.disks[i])
    ensures Says(DiskTlvs(s.disks)[0], DisksSay(ArrivingDisks(s.disks)))
  {
    DisksComeBackUpToThree(s.disks);
    SaysDisks(Clip(Wire.Counted(s.disks, EncodeDisk)));
  }

  lemma {:induction false} SaysDisks(val: Value)
    requires val != []
    ensures Says(Tlv(T_DISK, val), DisksSay(ReadDisks(val)))
  {
  }

  lemma {:induction false} MountsDecoded(s: Sample)
    requires 0 < |s.mounts| <= MAX_FS && forall i :: 0 <= i < |s.mounts| ==> ValidFs(s.mounts[i])
    ensures Says(FsTlvs(s.mounts)[0], MountsSay(ArrivingMounts(s.mounts)))
  {
    MountsComeBackUpToNine(s.mounts);
    SaysMounts(Clip(Wire.Counted(s.mounts, EncodeFs)));
  }

  lemma {:induction false} SaysMounts(val: Value)
    requires val != []
    ensures Says(Tlv(T_FS, val), MountsSay(ReadMounts(val)))
  {
  }

  lemma {:induction false} GroupDecoded(g: ThreadGroup)
    requires ValidGroup(g) && Sendable(g)
    ensures Says(GroupTlv(g), ThreadsSay(g))
  {
    GroupComesBack(g);
  }

  // ---------------------------------------------------------------- thread groups accumulate

  predicate AllValid(gs: seq<ThreadGroup>) {
    forall i :: 0 <= i < |gs| ==> ValidGroup(gs[i]) && Sendable(gs[i])
  }

  function GroupPayloads(gs: seq<ThreadGroup>): (ps: seq<Payload>)
    ensures |ps| == |gs|
  {
    seq(|gs|, i requires 0 <= i < |gs| => ThreadsSay(gs[i]))
  }

  lemma {:induction false} GroupTlvsAt(gs: seq<ThreadGroup>, i: nat)
    requires i < |gs| && forall j :: 0 <= j < |gs| ==> Sendable(gs[j])
    ensures |GroupTlvs(gs)| == |gs| && GroupTlvs(gs)[i] == GroupTlv(gs[i])
  {
    assert GroupTlvs(gs) == [GroupTlv(gs[0])] + GroupTlvs(gs[1..]);
    if |gs| > 1 {
      GroupTlvsAt(gs[1..], if i == 0 then 0 else i - 1);
    }
  }

  lemma {:induction false} GroupsDecoded(gs: seq<ThreadGroup>)
    requires AllValid(gs)
    ensures DecodeAll(GroupTlvs(gs)) == GroupPayloads(gs)
  {
    assert gs == [] ==> GroupTlvs(gs) == [];
    forall i | 0 <= i < |gs|
      ensures |GroupTlvs(gs)| == |gs| && DecodeAll(GroupTlvs(gs))[i] == ThreadsSay(gs[i])
    {
      GroupTlvsAt(gs, i);
      GroupDecoded(gs[i]);
    }
  }

  lemma {:induction false} GroupsSet(f: Frame, gs: seq<ThreadGroup>)
    ensures SetAll(f, GroupPayloads(gs)) == f.(threads := f.threads + gs)
    decreases |gs|
  {
    if gs == [] {
      assert f.threads + gs == f.threads;
    } else {
      GroupsSet(f.(threads := f.threads + [gs[0]]), gs[1..]);
      assert GroupPayloads(gs)[1..] == GroupPayloads(gs[1..]);
      assert f.threads + [gs[0]] + gs[1..] == f.threads + gs;
    }
  }

  lemma {:induction false} EmittedValid(used: nat, groups: seq<ThreadGroup>)
    requires used <= FRAME_CAP && forall i :: 0 <= i < |groups| ==> ValidGroup(groups[i])
    ensures AllValid(Emitted(used, groups))
  {
    var r := Emitted(used, groups);
    forall i | 0 <= i < |r| ensures ValidGroup(r[i]) && Sendable(r[i]) {
      assert ValidGroup(groups[i]);
    }
  }

  // ---------------------------------------------------------------- the base TLVs

  function HostPayloads(s: Sample): (ps: seq<Payload>) {
    if s.hostLabel == [] then [] else [HostSays(Strip(s.hostLabel))]
  }

  function NetPayloads(s: Sample): (ps: seq<Payload>) {
    if s.net == [] then [] else [NetSays(s.net)]
  }

  function DiskPayloads(s: Sample, disks: seq<DiskEntry>): (ps: seq<Payload>) {
    if s.disks == [] then [] else [DisksSay(disks)]
  }

  function FsPayloads(s: Sample, mounts: seq<FsEntry>): (ps: seq<Payload>) {
    if s.mounts == [] then [] else [MountsSay(mounts)]
  }

  function ProcPayloads(s: Sample): (ps: seq<Payload>) {
    if s.procEnabled then [ProcsSay(s.procs)] else []
  }

  function BasePayloads(s: Sample, disks: seq<DiskEntry>, mounts: seq<FsEntry>): (ps: seq<Payload>) {
    HostPayloads(s) + [CpuSays(s.cpu)] + [MemSays(MemReport(s.mem, Used(s.mem)))] + NetPayloads(s)
    + DiskPayloads(s, disks) + FsPayloads(s, mounts) + ProcPayloads(s)
  }

  lemma {:induction false} OneDecoded(t: Tlv, p: Payload)
    requires Says(t, p)
    ensures DecodeAll([t]) == [p]
  {
  }

  lemma {:induction false} BaseTlvsSplit(s: Sample)
    ensures DecodeAll(BaseTlvs(s)) ==
            DecodeAll(HostTlvs(s.hostLabel)) + DecodeAll([CpuTlv(s.cpu)]) + DecodeAll([MemTlv(s.mem)])
                + DecodeAll(NetTlvs(s.net))
            + DecodeAll(DiskTlvs(s.disks)) + DecodeAll(FsTlvs(s.mounts)) + DecodeAll(ProcTlvs(s.procEnabled, s.procs))
  {
    var a := HostTlvs(s.hostLabel);
    var b := a + [CpuTlv(s.cpu)];
    var c := b + [MemTlv(s.mem)];
    var d := c + NetTlvs(s.net);
    var e := d + DiskTlvs(s.disks);
    DecodeAllAppend(a, [CpuTlv(s.cpu)]);
    DecodeAllAppend(b, [MemTlv(s.mem)]);
    DecodeAllAppend(c, NetTlvs(s.net));
    DecodeAllAppend(d, DiskTlvs(s.disks));
    DecodeAllAppend(e, FsTlvs(s.mounts));
    DecodeAllAppend(e + FsTlvs(s.mounts), ProcTlvs(s.procEnabled, s.procs));
  }

  lemma {:induction false} ScalarsDecoded(s: Sample)
    requires ValidSample(s)
    ensures DecodeAll(HostTlvs(s.hostLabel)) == HostPayloads(s)
    ensures DecodeAll([CpuTlv(s.cpu)]) == [CpuSays(s.cpu)]
    ensures DecodeAll([MemTlv(s.mem)]) == [MemSays(MemReport(s.mem, Used(s.mem)))]
  {
    if s.hostLabel != [] {
      HostDecoded(s);
      OneDecoded(HostTlvs(s.hostLabel)[0], HostSays(Strip(s.hostLabel)));
    }
    CpuDecoded(s);
    OneDecoded(CpuTlv(s.cpu), CpuSays(s.cpu));
    MemDecoded(s);
    OneDecoded(MemTlv(s.mem), MemSays(MemReport(s.mem, Used(s.mem))));
  }

  lemma {:induction false} ListsDecoded(s: Sample)
    requires ValidSample(s)
    ensures DecodeAll(NetTlvs(s.net)) == NetPayloads(s)
    ensures DecodeAll(ProcTlvs(s.procEnabled, s.procs)) == ProcPayloads(s)
  {
    if s.net != [] {
      NetDecoded(s);
      OneDecoded(NetTlvs(s.net)[0], NetSays(s.net));
    }
    if s.procEnabled {
      ProcDecoded(s);
      OneDecoded(ProcTlvs(s.procEnabled, s.procs)[0], ProcsSay(s.procs));
    }
  }

  lemma {:induction false} StorageDecoded(s: Sample)
    requires ValidSample(s)
    ensures DecodeAll(DiskTlvs(s.disks)) == DiskPayloads(s, ArrivingDisks(s.disks))
    ensures DecodeAll(FsTlvs(s.mounts)) == FsPayloads(s, ArrivingMounts(s.mounts))
  {
    if s.disks != [] {
      DisksDecoded(s);
      OneDecoded(DiskTlvs(s.disks)[0], DisksSay(ArrivingDisks(s.disks)));
    }
    if s.mounts != [] {
      MountsDecoded(s);
      OneDecoded(FsTlvs(s.mounts)[0], MountsSay(ArrivingMounts(s.mounts)));
    }
  }

  lemma {:induction false} BaseDecoded(s: Sample)
    requires ValidSample(s)
    ensures DecodeAll(BaseTlvs(s)) == BasePayloads(s, ArrivingDisks(s.disks), ArrivingMounts(s.mounts))
  {
    BaseTlvsSplit(s);
    ScalarsDecoded(s);
    ListsDecoded(s);
    StorageDecoded(s);
  }

  lemma {:induction false} ListsExact(s: Sample)
    requires ValidSample(s)
    ensures ArrivingDisks(s.disks) == s.disks <==> |s.disks| <= 3
    ensures ArrivingMounts(s.mounts) == s.mounts <==> |s.mounts| <= 9
  {
    if s.disks != [] {
      DisksComeBackUpToThree(s.disks);
    }
    if s.mounts != [] {
      MountsComeBackUpToNine(s.mounts);
    }
  }

  /** The frame as it arrives. */
  function Received(s: Sample, disks: seq<DiskEntry>, mounts: seq<FsEntry>, threads: seq<ThreadGroup>): (f: Frame) {
    Frame(s.timestamp, s.sequence, Some(s.cpu), Some(MemReport(s.mem, Used(s.mem))),
          if s.hostLabel == [] then None else Some(Strip(s.hostLabel)),
          if s.net == [] then None else Some(s.net),
          if s.disks == [] then None else Some(disks),
          if s.mounts == [] then None else Some(mounts),
          if s.procEnabled then Some(s.procs) else None,
          threads)
  }

  lemma {:induction false} ScalarsSet(f: Frame, s: Sample)
    ensures SetAll(f, HostPayloads(s) + [CpuSays(s.cpu)] + [MemSays(MemReport(s.mem, Used(s.mem)))])
         == f.(hostLabel := if s.hostLabel == [] then f.hostLabel else Some(Strip(s.hostLabel)), cpu := Some(s.cpu),
               mem := Some(MemReport(s.mem, Used(s.mem))))
  {
    var cpu, mem := CpuSays(s.cpu), MemSays(MemReport(s.mem, Used(s.mem)));
    SetAllAppend(f, HostPayloads(s), [cpu]);
    SetAllAppend(f, HostPayloads(s) + [cpu], [mem]);
  }

  lemma {:induction false} ListsSet(f: Frame, s: Sample, disks: seq<DiskEntry>, mounts: seq<FsEntry>)
    ensures SetAll(f, NetPayloads(s) + DiskPayloads(s, disks) + FsPayloads(s, mounts) + ProcPayloads(s))
         == f.(net := if s.net == [] then f.net else Some(s.net),
               disks := if s.disks == [] then f.disks else Some(disks),
               mounts := if s.mounts == [] then f.mounts else Some(mounts),
               procs := if s.procEnabled then Some(s.procs) else f.procs)
  {
    var a := NetPayloads(s);
    var b := a + DiskPayloads(s, disks);
    var c := b + FsPayloads(s, mounts);
    SetAllAppend(f, a, DiskPayloads(s, disks));
    SetAllAppend(f, b, FsPayloads(s, mounts));
    SetAllAppend(f, c, ProcPayloads(s));
  }

  lemma {:induction false} ScalarsApart(
    a: seq<Payload>, b: seq<Payload>, c: seq<Payload>, d: seq<Payload>, e: seq<Payload>)
    ensures a + b + c + d + e == a + (b + c + d + e)
  {
  }

  lemma {:induction false} BaseSet(s: Sample, disks: seq<DiskEntry>, mounts: seq<FsEntry>)
    ensures SetAll(EmptyFrame(s.timestamp, s.sequence), BasePayloads(s, disks, mounts))
        == Received(s, disks, mounts, [])
  {
    var f := EmptyFrame(s.timestamp, s.sequence);
    var scalars := HostPayloads(s) + [CpuSays(s.cpu)] + [MemSays(MemReport(s.mem, Used(s.mem)))];
    var lists := NetPayloads(s) + DiskPayloads(s, disks) + FsPayloads(s, mounts) + ProcPayloads(s);
    ScalarsApart(scalars, NetPayloads(s), DiskPayloads(s, disks), FsPayloads(s, mounts), ProcPayloads(s));
    SetAllAppend(f, scalars, lists);
    ScalarsSet(f, s);
    ListsSet(SetAll(f, scalars), s, disks, mounts);
  }

  // ---------------------------------------------------------------- the whole frame

  lemma {:induction false} HeaderRead(timestamp: nat, sequence: nat, body: seq<byte>)
    requires timestamp < Pow256(4) && sequence < Pow256(4)
    ensures Parse(Header(timestamp, sequence) + body) == Some(ParseBody(EmptyFrame(timestamp, sequence), body))
  {
    var head := Header(timestamp, sequence);
    assert head[0..2] == BE(MAGIC, 2) && head[2] == VERSION;
    assert head[4..8] == BE(timestamp, 4) && head[8..12] == BE(sequence, 4);
    FromBEOfBE(MAGIC, 2);
    FromBEOfBE(timestamp, 4);
    FromBEOfBE(sequence, 4);
    ParseHead(head, body);
  }

  lemma {:induction false} BodyParsed(f: Frame, xs: seq<Tlv>, ys: seq<Tlv>)
    ensures ParseBody(f, Concat(xs) + Concat(ys)) == SetAll(SetAll(f, DecodeAll(xs)), DecodeAll(ys))
  {
    ParseComposes(f, xs, Concat(ys));
    ParseComposes(SetAll(f, DecodeAll(xs)), ys, []);
    assert Concat(ys) + [] == Concat(ys);
  }

  lemma {:induction false} TlvsParsed(timestamp: nat, sequence: nat, xs: seq<Tlv>, ys: seq<Tlv>)
    requires timestamp < Pow256(4) && sequence < Pow256(4)
    ensures Parse(Header(timestamp, sequence) + Concat(xs) + Concat(ys)) ==
            Some(SetAll(SetAll(EmptyFrame(timestamp, sequence), DecodeAll(xs)), DecodeAll(ys)))
  {
    var head, body := Header(timestamp, sequence), Concat(xs) + Concat(ys);
    assert head + Concat(xs) + Concat(ys) == head + body;
    HeaderRead(timestamp, sequence, body);
    BodyParsed(EmptyFrame(timestamp, sequence), xs, ys);
  }

  lemma {:induction false} FrameIsSendable(s: Sample)
    requires ValidSample(s)
    ensures |BaseBytes(s)| <= FRAME_CAP && StatesSeven(s.threads) && AllValid(EmittedOf(s))
  {
    BaseAlwaysFits(s);
    ValidThreads(s);
    EmittedValid(|BaseBytes(s)|, s.threads);
  }

  lemma {:induction false} ValidThreads(s: Sample)
    requires ValidSample(s)
    ensures StatesSeven(s.threads) && forall i :: 0 <= i < |s.threads| ==> ValidGroup(s.threads[i])
  {
  }

  lemma {:induction false} FrameParsed(s: Sample, disks: seq<DiskEntry>, mounts: seq<FsEntry>, gs: seq<ThreadGroup>)
    requires s.timestamp < Pow256(4) && s.sequence < Pow256(4) && AllValid(gs)
    requires DecodeAll(BaseTlvs(s)) == BasePayloads(s, disks, mounts)
    ensures Parse(BaseBytes(s) + Concat(GroupTlvs(gs))) == Some(Received(s, disks, mounts, gs))
  {
    TlvsParsed(s.timestamp, s.sequence, BaseTlvs(s), GroupTlvs(gs));
    BaseSet(s, disks, mounts);
    GroupsReceived(s, disks, mounts, gs);
  }

  lemma {:induction false} GroupsReceived(s: Sample, disks: seq<DiskEntry>, mounts: seq<FsEntry>, gs: seq<ThreadGroup>)
    requires AllValid(gs)
    ensures SetAll(Received(s, disks, mounts, []), DecodeAll(GroupTlvs(gs))) == Received(s, disks, mounts, gs)
  {
    GroupsDecoded(gs);
    GroupsSet(Received(s, disks, mounts, []), gs);
    assert [] + gs == gs;
  }

  /** The host label arrives without the whitespace at its ends, so unchanged if there is none; an empty one is not
      sent. */
  ghost predicate LabelComesBack(host: seq<byte>, arrived: Option<seq<byte>>) {
    && (arrived.None? <==> host == [])
    && (arrived.Some? ==> StripsTo(host, arrived.value) && (Trimmed(host) ==> arrived.value == host))
  }

  lemma {:induction false} LabelStripped(host: seq<byte>)
    ensures LabelComesBack(host, if host == [] then None else Some(Strip(host)))
  {
    StripIs(host);
    if Trimmed(host) {
      TrimmedStays(host);
    }
  }

  /** For every sample the agent can hold, the frame it sends parses back into that sample: all fields, and the
      thread groups that went out; the disk and mount lists as the cast of their lengths lets them arrive, which is
      exactly as sent when they have at most three and nine entries. */
  lemma {:induction false} FrameComesBack(s: Sample)
    requires ValidSample(s)
    ensures |BaseBytes(s)| <= FRAME_CAP && StatesSeven(s.threads)
    ensures Parse(FrameBytes(s))
         == Some(Received(s, ArrivingDisks(s.disks), ArrivingMounts(s.mounts), EmittedOf(s)))
    ensures ArrivingDisks(s.disks) == s.disks <==> |s.disks| <= 3
    ensures ArrivingMounts(s.mounts) == s.mounts <==> |s.mounts| <= 9
    ensures LabelComesBack(s.hostLabel, Parse(FrameBytes(s)).value.hostLabel)
  {
    FrameIsSendable(s);
    BaseDecoded(s);
    ListsExact(s);
    LabelStripped(s.hostLabel);
    FrameParsed(s, ArrivingDisks(s.disks), ArrivingMounts(s.mounts), EmittedOf(s));
  }
}
