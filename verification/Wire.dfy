/** The TLV v2 layout: what the agent samples, and how one entry of each kind is laid out on the wire. */
module Wire {
  import opened Bytes

  const MAGIC: nat := 0x5446
  const VERSION: byte := 2
  const HEADER: nat := 12
  const FRAME_CAP: nat := 1400

  const T_CPU: byte := 1
  const T_MEM: byte := 2
  const T_HOST: byte := 3
  const T_NET: byte := 4
  const T_DISK: byte := 5
  const T_FS: byte := 6
  const T_PROC: byte := 7
  const T_THREAD: byte := 8

  const MAX_INTERFACES: nat := 4
  const MAX_DISKS: nat := 16
  const MAX_FS: nat := 16
  const MAX_GROUPS: nat := 8
  const MAX_TOP: nat := 7
  const HOST_LABEL_SIZE: nat := 64
  const THREAD_HEADER: nat := 34
  const THREAD_ENTRY: nat := 28

  datatype Cpu = Cpu(user: nat, system: nat, idle: nat, iowait: nat, irq: nat)
  datatype Mem = Mem(total: nat, free: nat, available: nat, load1: nat, load5: nat, load15: nat)
  datatype NetEntry = NetEntry(name: seq<byte>, rx: nat, tx: nat)
  datatype DiskEntry = DiskEntry(
    name: seq<byte>, readsDone: nat, writesDone: nat, sectorsRead: nat, sectorsWritten: nat, readMs: nat, writeMs: nat,
    readIops: nat, writeIops: nat, util: nat)
  datatype FsEntry = FsEntry(mount: seq<byte>, totalKb: nat, used: nat)
  datatype ProcGroup = ProcGroup(name: seq<byte>, instances: nat, cpu: nat, rssKb: nat)
  datatype ThreadEntry = ThreadEntry(name: seq<byte>, instances: nat, cpu: nat, pid: nat, tid: nat)
  datatype ThreadGroup = ThreadGroup(
    name: seq<byte>, total: nat, includeTid: bool, truncated: bool, states: seq<nat>, top: seq<ThreadEntry>)

  const CPU_WIDTHS := [2, 2, 2, 2, 2]
  const MEM_WIDTHS := [4, 4, 4, 2, 2, 2]
  const NET_WIDTHS := [8, 8]
  const DISK_WIDTHS := [8, 8, 8, 8, 8, 8, 4, 4, 2]
  const LEGACY_DISK_WIDTHS := [4, 4, 4, 4, 4, 4, 4, 4, 2]
  const FS_WIDTHS := [8, 2]
  const LEGACY_FS_WIDTHS := [4, 2]
  const PROC_WIDTHS := [2, 2, 4]
  const ENTRY_WIDTHS := [2, 2, 4, 4]
  const STATE_WIDTHS := [2, 2, 2, 2, 2, 2, 2]

  // ---------------------------------------------------------------- one named record

  /** A NUL-padded name followed by big-endian fields: the shape of every list entry. */
  function Record(name: seq<byte>, size: nat, vals: seq<nat>, widths: seq<nat>): (bs: seq<byte>)
    requires size > 0 && |vals| == |widths|
    ensures |bs| == size + Width(widths)
  {
    PadName(name, size) + Pack(vals, widths)
  }

  lemma {:induction false} RecordRead(name: seq<byte>, size: nat, vals: seq<nat>, widths: seq<nat>)
    requires Ascii(name) && |name| < size && Fits(vals, widths)
    ensures var bs := Record(name, size, vals, widths);
            ReadName(bs[..size]) == name && Unpack(bs[size..], widths) == vals
  {
    var bs := Record(name, size, vals, widths);
    assert bs[..size] == PadName(name, size) && bs[size..] == Pack(vals, widths);
    ReadPadded(name, size);
    UnpackPack(vals, widths);
  }

  // ---------------------------------------------------------------- network interfaces

  function NetFields(e: NetEntry): (v: seq<nat>) { [e.rx, e.tx] }

  predicate ValidNet(e: NetEntry) {
    Ascii(e.name) && |e.name| < 8 && Fits(NetFields(e), NET_WIDTHS)
  }

  function EncodeNet(e: NetEntry): (bs: seq<byte>)
    ensures |bs| == 24
  {
    Record(e.name, 8, NetFields(e), NET_WIDTHS)
  }

  function DecodeNet(bs: seq<byte>): (e: NetEntry)
    requires |bs| == 24
  {
    var v := Unpack(bs[8..], NET_WIDTHS);
    NetEntry(ReadName(bs[..8]), v[0], v[1])
  }

  // ---------------------------------------------------------------- disks, in two generations

  function DiskFields(e: DiskEntry): (v: seq<nat>) {
    [e.readsDone, e.writesDone, e.sectorsRead, e.sectorsWritten, e.readMs, e.writeMs, e.readIops, e.writeIops, e.util]
  }

  predicate ValidDisk(e: DiskEntry) {
    Ascii(e.name) && |e.name| < 8 && Fits(DiskFields(e), DISK_WIDTHS)
  }

  predicate ValidLegacyDisk(e: DiskEntry) {
    Ascii(e.name) && |e.name| < 8 && Fits(DiskFields(e), LEGACY_DISK_WIDTHS)
  }

  function EncodeDisk(e: DiskEntry): (bs: seq<byte>)
    ensures |bs| == 66
  {
    Record(e.name, 8, DiskFields(e), DISK_WIDTHS)
  }

  function EncodeLegacyDisk(e: DiskEntry): (bs: seq<byte>)
    ensures |bs| == 42
  {
    Record(e.name, 8, DiskFields(e), LEGACY_DISK_WIDTHS)
  }

  function DiskOf(name: seq<byte>, v: seq<nat>): (e: DiskEntry)
    requires |v| == 9
  {
    DiskEntry(name, v[0], v[1], v[2], v[3], v[4], v[5], v[6], v[7], v[8])
  }

  function DecodeDisk(bs: seq<byte>): (e: DiskEntry)
    requires |bs| == 66
  {
    DiskOf(ReadName(bs[..8]), Unpack(bs[8..], DISK_WIDTHS))
  }

  function DecodeLegacyDisk(bs: seq<byte>): (e: DiskEntry)
    requires |bs| == 42
  {
    DiskOf(ReadName(bs[..8]), Unpack(bs[8..], LEGACY_DISK_WIDTHS))
  }

  // ---------------------------------------------------------------- mounted filesystems, in two generations

  function FsFields(e: FsEntry): (v: seq<nat>) { [e.totalKb, e.used] }

  predicate ValidFs(e: FsEntry) {
    Ascii(e.mount) && |e.mount| < 16 && Fits(FsFields(e), FS_WIDTHS)
  }

  predicate ValidLegacyFs(e: FsEntry) {
    Ascii(e.mount) && |e.mount| < 16 && Fits(FsFields(e), LEGACY_FS_WIDTHS)
  }

  function EncodeFs(e: FsEntry): (bs: seq<byte>)
    ensures |bs| == 26
  {
    Record(e.mount, 16, FsFields(e), FS_WIDTHS)
  }

  function EncodeLegacyFs(e: FsEntry): (bs: seq<byte>)
    ensures |bs| == 22
  {
    Record(e.mount, 16, FsFields(e), LEGACY_FS_WIDTHS)
  }

  function DecodeFs(bs: seq<byte>): (e: FsEntry)
    requires |bs| == 26
  {
    var v := Unpack(bs[16..], FS_WIDTHS);
    FsEntry(ReadName(bs[..16]), v[0], v[1])
  }

  function DecodeLegacyFs(bs: seq<byte>): (e: FsEntry)
    requires |bs| == 22
  {
    var v := Unpack(bs[16..], LEGACY_FS_WIDTHS);
    FsEntry(ReadName(bs[..16]), v[0], v[1])
  }

  // ---------------------------------------------------------------- process groups

  function ProcFields(e: ProcGroup): (v: seq<nat>) { [e.instances, e.cpu, e.rssKb] }

  predicate ValidProc(e: ProcGroup) {
    Ascii(e.name) && |e.name| < 16 && Fits(ProcFields(e), PROC_WIDTHS)
  }

  function EncodeProc(e: ProcGroup): (bs: seq<byte>)
    ensures |bs| == 24
  {
    Record(e.name, 16, ProcFields(e), PROC_WIDTHS)
  }

  function DecodeProc(bs: seq<byte>): (e: ProcGroup)
    requires |bs| == 24
  {
    var v := Unpack(bs[16..], PROC_WIDTHS);
    ProcGroup(ReadName(bs[..16]), v[0], v[1], v[2])
  }

  // ---------------------------------------------------------------- threads

  function EntryFields(e: ThreadEntry): (v: seq<nat>) { [e.instances, e.cpu, e.pid, e.tid] }

  predicate ValidEntry(e: ThreadEntry) {
    Ascii(e.name) && |e.name| < 16 && Fits(EntryFields(e), ENTRY_WIDTHS)
  }

  function EncodeEntry(e: ThreadEntry): (bs: seq<byte>)
    ensures |bs| == THREAD_ENTRY
  {
    Record(e.name, 16, EntryFields(e), ENTRY_WIDTHS)
  }

  function DecodeEntry(bs: seq<byte>): (e: ThreadEntry)
    requires |bs| == THREAD_ENTRY
  {
    var v := Unpack(bs[16..], ENTRY_WIDTHS);
    ThreadEntry(ReadName(bs[..16]), v[0], v[1], v[2], v[3])
  }

  // ---------------------------------------------------------------- every entry comes back

  lemma {:induction false} NetComesBack(e: NetEntry)
    requires ValidNet(e)
    ensures DecodeNet(EncodeNet(e)) == e
  {
    RecordRead(e.name, 8, NetFields(e), NET_WIDTHS);
  }

  lemma {:induction false} DiskComesBack(e: DiskEntry)
    requires ValidDisk(e)
    ensures DecodeDisk(EncodeDisk(e)) == e
  {
    RecordRead(e.name, 8, DiskFields(e), DISK_WIDTHS);
  }

  lemma {:induction false} LegacyDiskComesBack(e: DiskEntry)
    requires ValidLegacyDisk(e)
    ensures DecodeLegacyDisk(EncodeLegacyDisk(e)) == e
  {
    RecordRead(e.name, 8, DiskFields(e), LEGACY_DISK_WIDTHS);
  }

  lemma {:induction false} FsComesBack(e: FsEntry)
    requires ValidFs(e)
    ensures DecodeFs(EncodeFs(e)) == e
  {
    RecordRead(e.mount, 16, FsFields(e), FS_WIDTHS);
  }

  lemma {:induction false} LegacyFsComesBack(e: FsEntry)
    requires ValidLegacyFs(e)
    ensures DecodeLegacyFs(EncodeLegacyFs(e)) == e
  {
    RecordRead(e.mount, 16, FsFields(e), LEGACY_FS_WIDTHS);
  }

  lemma {:induction false} ProcComesBack(e: ProcGroup)
    requires ValidProc(e)
    ensures DecodeProc(EncodeProc(e)) == e
  {
    RecordRead(e.name, 16, ProcFields(e), PROC_WIDTHS);
  }

  lemma {:induction false} EntryComesBack(e: ThreadEntry)
    requires ValidEntry(e)
    ensures DecodeEntry(EncodeEntry(e)) == e
  {
    RecordRead(e.name, 16, EntryFields(e), ENTRY_WIDTHS);
  }

  // ---------------------------------------------------------------- lists of entries

  function EncodeAll<T>(es: seq<T>, enc: T -> seq<byte>): (bs: seq<byte>) {
    if es == [] then [] else enc(es[0]) + EncodeAll(es[1..], enc)
  }

  /** A count byte, then the entries. */
  function Counted<T>(es: seq<T>, enc: T -> seq<byte>): (bs: seq<byte>)
    ensures |es| < 256 ==> bs == [|es|] + EncodeAll(es, enc)
  {
    [|es| % 256] + EncodeAll(es, enc)
  }

  lemma {:induction false} EncodeAllLength<T>(es: seq<T>, enc: T -> seq<byte>, size: nat)
    requires forall e :: |enc(e)| == size
    ensures |EncodeAll(es, enc)| == |es| * size
  {
    if es != [] {
      EncodeAllLength(es[1..], enc, size);
    }
  }

  lemma {:induction false} EncodeAllSnoc<T>(es: seq<T>, e: T, enc: T -> seq<byte>)
    ensures EncodeAll(es + [e], enc) == EncodeAll(es, enc) + enc(e)
  {
    if es == [] {
      assert es + [e] == [e] && EncodeAll([e], enc) == enc(e) + EncodeAll([e][1..], enc);
    } else {
      assert (es + [e])[1..] == es[1..] + [e];
      EncodeAllSnoc(es[1..], e, enc);
    }
  }

  // ---------------------------------------------------------------- thread groups

  predicate ValidGroup(g: ThreadGroup) {
    && Ascii(g.name) && |g.name| < 16 && g.total < 0x1_0000
    && Fits(g.states, STATE_WIDTHS)
    && |g.top| <= MAX_TOP && forall i :: 0 <= i < |g.top| ==> ValidEntry(g.top[i])
  }

  function Flags(g: ThreadGroup): (b: byte) {
    (if g.includeTid then 1 else 0) + (if g.truncated then 2 else 0)
  }

  function GroupHead(g: ThreadGroup): (bs: seq<byte>)
    requires |g.states| == 7 && |g.top| < 256
    ensures |bs| == THREAD_HEADER
  {
    PadName(g.name, 16) + BE(g.total, 2) + [Flags(g)] + Pack(g.states, STATE_WIDTHS) + [|g.top|]
  }

  function EncodeGroup(g: ThreadGroup): (bs: seq<byte>)
    requires |g.states| == 7 && |g.top| < 256
  {
    GroupHead(g) + EncodeAll(g.top, EncodeEntry)
  }

  // ---------------------------------------------------------------- a whole sample

  /** `procs` is absent when no process prefix is configured, `threads` when thread collection is off. */
  datatype Sample = Sample(
    timestamp: nat, sequence: nat, hostLabel: seq<byte>, cpu: Cpu, mem: Mem, net: seq<NetEntry>,
    disks: seq<DiskEntry>, mounts: seq<FsEntry>, procEnabled: bool, procs: seq<ProcGroup>,
    threadEnabled: bool, threads: seq<ThreadGroup>)

  function CpuFields(c: Cpu): (v: seq<nat>) { [c.user, c.system, c.idle, c.iowait, c.irq] }
  function MemFields(m: Mem): (v: seq<nat>) { [m.total, m.free, m.available, m.load1, m.load5, m.load15] }

  predicate ValidSample(s: Sample) {
    && s.timestamp < Pow256(4) && s.sequence < Pow256(4)
    && Ascii(s.hostLabel) && |s.hostLabel| < HOST_LABEL_SIZE
    && Fits(CpuFields(s.cpu), CPU_WIDTHS) && Fits(MemFields(s.mem), MEM_WIDTHS)
    && |s.net| <= MAX_INTERFACES && (forall i :: 0 <= i < |s.net| ==> ValidNet(s.net[i]))
    && |s.disks| <= MAX_DISKS && (forall i :: 0 <= i < |s.disks| ==> ValidDisk(s.disks[i]))
    && |s.mounts| <= MAX_FS && (forall i :: 0 <= i < |s.mounts| ==> ValidFs(s.mounts[i]))
    && |s.procs| <= MAX_GROUPS && (forall i :: 0 <= i < |s.procs| ==> ValidProc(s.procs[i]))
    && |s.threads| <= MAX_GROUPS && (forall i :: 0 <= i < |s.threads| ==> ValidGroup(s.threads[i]))
  }

  // ---------------------------------------------------------------- what counts as valid

  /** Entries with the longest names and the largest values that their fields hold are valid. */
  lemma {:induction false} LargestEntriesAreValid(short: seq<byte>, name: seq<byte>)
    requires |short| == 7 && forall i :: 0 <= i < 7 ==> 1 <= short[i] <= 127
    requires |name| == 15 && forall i :: 0 <= i < 15 ==> 1 <= name[i] <= 127
    ensures ValidNet(NetEntry(short, 0xffff_ffff_ffff_ffff, 0xffff_ffff_ffff_ffff))
    ensures ValidFs(FsEntry(name, 0xffff_ffff_ffff_ffff, 0xffff))
    ensures ValidLegacyFs(FsEntry(name, 0xffff_ffff, 0xffff))
    ensures ValidProc(ProcGroup(name, 0xffff, 0xffff, 0xffff_ffff))
    ensures ValidEntry(ThreadEntry(name, 0xffff, 0xffff, 0xffff_ffff, 0xffff_ffff))
  {
    Powers();
  }

  lemma {:induction false} LargestDisksAreValid(short: seq<byte>)
    requires |short| == 7 && forall i :: 0 <= i < 7 ==> 1 <= short[i] <= 127
    ensures var n, m := 0xffff_ffff_ffff_ffff, 0xffff_ffff;
            && ValidDisk(DiskEntry(short, n, n, n, n, n, n, m, m, 0xffff))
            && ValidLegacyDisk(DiskEntry(short, m, m, m, m, m, m, m, m, 0xffff))
  {
    Powers();
  }

  lemma {:induction false} LargestGroupIsValid(name: seq<byte>, states: seq<nat>, top: seq<ThreadEntry>)
    requires Ascii(name) && |name| == 15 && |states| == 7 && (forall i :: 0 <= i < 7 ==> states[i] <= 0xffff)
    requires |top| == 7 && forall i :: 0 <= i < 7 ==> ValidEntry(top[i])
    ensures ValidGroup(ThreadGroup(name, 0xffff, true, true, states, top))
  {
    Powers();
  }

  /** And so is the sample that holds as many of them as the agent can. */
  lemma {:induction false} LargestSampleIsValid(s: Sample)
    requires s.timestamp == 0xffff_ffff == s.sequence && Ascii(s.hostLabel) && |s.hostLabel| == 63
    requires s.cpu == Cpu(0xffff, 0xffff, 0xffff, 0xffff, 0xffff)
    requires s.mem == Mem(0xffff_ffff, 0xffff_ffff, 0xffff_ffff, 0xffff, 0xffff, 0xffff)
    requires |s.net| == 4 && forall i :: 0 <= i < 4 ==> ValidNet(s.net[i])
    requires |s.disks| == 16 && forall i :: 0 <= i < 16 ==> ValidDisk(s.disks[i])
    requires |s.mounts| == 16 && forall i :: 0 <= i < 16 ==> ValidFs(s.mounts[i])
    requires |s.procs| == 8 && forall i :: 0 <= i < 8 ==> ValidProc(s.procs[i])
    requires |s.threads| == 8 && forall i :: 0 <= i < 8 ==> ValidGroup(s.threads[i])
    ensures ValidSample(s)
  {
    Powers();
  }
}
