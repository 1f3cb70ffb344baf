/** What the agent puts on the wire for one sample, as a value: header, fixed TLVs, then as many thread groups
    as the frame still has room for. */
module Encoder {
  import opened Bytes
  import opened Wire

  /** A value whose length fits the one length byte. */
  type Value = v: seq<byte> | |v| < 256
  datatype Tlv = Tlv(kind: byte, value: Value)

  function TlvBytes(t: Tlv): (bs: seq<byte>)
    ensures |bs| == 2 + |t.value|
  {
    [t.kind, |t.value|] + t.value
  }

  function Concat(ts: seq<Tlv>): (bs: seq<byte>) {
    if ts == [] then [] else TlvBytes(ts[0]) + Concat(ts[1..])
  }

  lemma {:induction false} ConcatAppend(xs: seq<Tlv>, ys: seq<Tlv>)
    ensures Concat(xs + ys) == Concat(xs) + Concat(ys)
  {
    if xs == [] {
      assert xs + ys == ys;
    } else {
      assert (xs + ys)[1..] == xs[1..] + ys;
      ConcatAppend(xs[1..], ys);
    }
  }

  /** The length of a TLV is cast to one byte, and only that many bytes of the payload are copied. */
  function Clip(payload: seq<byte>): (value: Value)
    ensures |value| == |payload| % 256
    ensures |payload| < 256 ==> value == payload
  {
    payload[..|payload| % 256]
  }

  function Header(timestamp: nat, sequence: nat): (bs: seq<byte>)
    ensures |bs| == HEADER
  {
    BE(MAGIC, 2) + [VERSION] + [0] + BE(timestamp, 4) + BE(sequence, 4)
  }

  // ---------------------------------------------------------------- the TLVs of each collector

  function HostTlvs(hostLabel: seq<byte>): (ts: seq<Tlv>) {
    if hostLabel == [] then [] else [Tlv(T_HOST, Clip(hostLabel))]
  }

  function CpuTlv(c: Cpu): (t: Tlv)
    ensures |t.value| == 10
  {
    Tlv(T_CPU, Pack(CpuFields(c), CPU_WIDTHS))
  }

  function MemTlv(m: Mem): (t: Tlv)
    ensures |t.value| == 18
  {
    Tlv(T_MEM, Pack(MemFields(m), MEM_WIDTHS))
  }

  function NetTlvs(net: seq<NetEntry>): (ts: seq<Tlv>) {
    if net == [] then [] else [Tlv(T_NET, Clip(Wire.Counted(net, EncodeNet)))]
  }

  function DiskTlvs(disks: seq<DiskEntry>): (ts: seq<Tlv>) {
    if disks == [] then [] else [Tlv(T_DISK, Clip(Wire.Counted(disks, EncodeDisk)))]
  }

  function FsTlvs(mounts: seq<FsEntry>): (ts: seq<Tlv>) {
    if mounts == [] then [] else [Tlv(T_FS, Clip(Wire.Counted(mounts, EncodeFs)))]
  }

  function ProcTlvs(enabled: bool, procs: seq<ProcGroup>): (ts: seq<Tlv>) {
    if enabled then [Tlv(T_PROC, Clip(Wire.Counted(procs, EncodeProc)))] else []
  }

  /** Everything but the thread groups, in the order of the collectors. */
  function BaseTlvs(s: Sample): (ts: seq<Tlv>) {
    HostTlvs(s.hostLabel) + [CpuTlv(s.cpu)] + [MemTlv(s.mem)] + NetTlvs(s.net) + DiskTlvs(s.disks) + FsTlvs(s.mounts)
        + ProcTlvs(s.procEnabled, s.procs)
  }

  // ---------------------------------------------------------------- thread groups under the frame budget

  /** A thread group with k threads: type and length, a head of 34 bytes, 28 bytes for each thread. */
  function GroupSize(k: nat): (n: nat) {
    36 + 28 * k
  }

  /** How many of the top threads are sent when `remaining` bytes are left: the largest number that fits. */
  function EmitCount(count: nat, remaining: nat): (k: nat)
    ensures k <= count && k <= MAX_TOP
    ensures k > 0 ==> GroupSize(k) <= remaining
    ensures forall j :: k < j <= count && j <= MAX_TOP ==> GroupSize(j) > remaining
  {
    var room := if remaining < 36 then 0 else (remaining - 36) / 28;
    var most := if count < MAX_TOP then count else MAX_TOP;
    if room < most then room else most
  }

  /** How many top threads of each group go out when `used` bytes are already taken; the first group without room
      for its head ends them. */
  function Plan(used: nat, counts: seq<nat>): (ks: seq<nat>)
    requires used <= FRAME_CAP
    ensures |ks| <= |counts|
    ensures forall i :: 0 <= i < |ks| ==> ks[i] <= counts[i] && ks[i] <= MAX_TOP
    decreases |counts|
  {
    if counts == [] || GroupSize(0) > FRAME_CAP - used then []
    else
      var k := EmitCount(counts[0], FRAME_CAP - used);
      [k] + Plan(used + GroupSize(k), counts[1..])
  }

  function TopCounts(groups: seq<ThreadGroup>): (counts: seq<nat>)
    ensures |counts| == |groups| && forall i :: 0 <= i < |groups| ==> counts[i] == |groups[i].top|
  {
    seq(|groups|, i requires 0 <= i < |groups| => |groups[i].top|)
  }

  function Shrunk(g: ThreadGroup, k: nat): (r: ThreadGroup)
    requires k <= |g.top|
  {
    g.(top := g.top[..k], truncated := g.truncated || k < |g.top|)
  }

  function ShrinkAll(groups: seq<ThreadGroup>, ks: seq<nat>): (r: seq<ThreadGroup>)
    requires |ks| <= |groups| && forall i :: 0 <= i < |ks| ==> ks[i] <= |groups[i].top|
  {
    seq(|ks|, i requires 0 <= i < |ks| => Shrunk(groups[i], ks[i]))
  }

  function Emitted(used: nat, groups: seq<ThreadGroup>): (r: seq<ThreadGroup>)
    requires used <= FRAME_CAP
    ensures |r| <= |groups|
    ensures forall i :: 0 <= i < |r| ==>
              |r[i].top| <= |groups[i].top| && |r[i].top| <= MAX_TOP && r[i] == Shrunk(groups[i], |r[i].top|)
  {
    ShrinkAll(groups, Plan(used, TopCounts(groups)))
  }

  predicate Sendable(g: ThreadGroup) {
    |g.states| == 7 && |g.top| <= MAX_TOP
  }

  function GroupTlv(g: ThreadGroup): (t: Tlv)
    requires Sendable(g)
    ensures |t.value| == 34 + 28 * |g.top|
  {
    EncodeAllLength(g.top, EncodeEntry, 28);
    Tlv(T_THREAD, EncodeGroup(g))
  }

  function GroupTlvs(gs: seq<ThreadGroup>): (ts: seq<Tlv>)
    requires forall i :: 0 <= i < |gs| ==> Sendable(gs[i])
  {
    if gs == [] then [] else [GroupTlv(gs[0])] + GroupTlvs(gs[1..])
  }

  // ---------------------------------------------------------------- the frame

  function BaseBytes(s: Sample): (bs: seq<byte>) {
    Header(s.timestamp, s.sequence) + Concat(BaseTlvs(s))
  }

  predicate StatesSeven(groups: seq<ThreadGroup>) {
    forall i :: 0 <= i < |groups| ==> |groups[i].states| == 7
  }

  function EmittedOf(s: Sample): (gs: seq<ThreadGroup>)
    requires |BaseBytes(s)| <= FRAME_CAP
  {
    if s.procEnabled && s.threadEnabled then Emitted(|BaseBytes(s)|, s.threads) else []
  }

  function FrameBytes(s: Sample): (bs: seq<byte>)
    requires |BaseBytes(s)| <= FRAME_CAP && StatesSeven(s.threads)
  {
    BaseBytes(s) + Concat(GroupTlvs(EmittedOf(s)))
  }
}
