/** The server's frame parser: a cursor over type-length-value entries, each decoded by its type. */
module Parser {
  import opened Options
  import opened Bytes
  import opened Wire

  datatype MemReport = MemReport(mem: Mem, usedKb: nat)

  /** What the parser's result dictionary may hold; an absent key is None, absent thread groups are []. */
  datatype Frame = Frame(
    timestamp: nat, sequence: nat, cpu: Option<Cpu>, mem: Option<MemReport>, hostLabel: Option<seq<byte>>,
    net: Option<seq<NetEntry>>, disks: Option<seq<DiskEntry>>, mounts: Option<seq<FsEntry>>,
    procs: Option<seq<ProcGroup>>, threads: seq<ThreadGroup>)

  // ---------------------------------------------------------------- lists of entries

  /** The decoder is only ever given a record of exactly its size. */
  ghost predicate Takes<T(!new)>(dec: seq<byte> --> T, size: nat) {
    size > 0 && forall bs :: |bs| == size ==> dec.requires(bs)
  }

  function ReadEntries<T(!new)>(val: seq<byte>, p: nat, count: nat, size: nat, dec: seq<byte> --> T): (r: seq<T>)
    requires Takes(dec, size)
    decreases count
  {
    if count == 0 || p + size > |val| then []
    else [dec(val[p..p + size])] + ReadEntries(val, p + size, count - 1, size, dec)
  }

  /** The two layouts of a list entry: the wide one when the average entry is long enough, else the old one. */
  datatype Layouts<!T> = Layouts(wide: nat, narrow: nat, decWide: seq<byte> --> T, decNarrow: seq<byte> --> T)

  ghost predicate Sound<T(!new)>(l: Layouts<T>) {
    Takes(l.decWide, l.wide) && Takes(l.decNarrow, l.narrow)
  }

  /** One entry and where the next one begins. */
  datatype Taken<+T> = Exhausted | Taken(entry: T, next: nat)

  function TakeEntry<T(!new)>(val: seq<byte>, p: nat, average: nat, l: Layouts<T>): (r: Taken<T>)
    requires Sound(l)
  {
    if average >= l.wide && p + l.wide <= |val| then Taken(l.decWide(val[p..p + l.wide]), p + l.wide)
    else if p + l.narrow <= |val| then Taken(l.decNarrow(val[p..p + l.narrow]), p + l.narrow)
    else Exhausted
  }

  function ReadGenerations<T(!new)>(val: seq<byte>, p: nat, count: nat, average: nat, l: Layouts<T>): (r: seq<T>)
    requires Sound(l)
    decreases count
  {
    if count == 0 then []
    else
      match TakeEntry(val, p, average, l)
      case Exhausted => []
      case Taken(entry, next) => [entry] + ReadGenerations(val, next, count - 1, average, l)
  }

  function Average(val: seq<byte>): (n: nat)
    requires val != []
  {
    if val[0] > 0 then (|val| - 1) / val[0] else 0
  }

  const DISK_LAYOUTS: Layouts<DiskEntry> := Layouts(66, 42, DecodeDisk, DecodeLegacyDisk)
  const FS_LAYOUTS: Layouts<FsEntry> := Layouts(26, 22, DecodeFs, DecodeLegacyFs)

  lemma {:induction false} ConsMoves<T>(r: seq<T>, x: T, rest: seq<T>)
    ensures r + ([x] + rest) == r + [x] + rest
  {
  }

  lemma {:induction false} EntryMoves<T(!new)>(
    r: seq<T>, val: seq<byte>, p: nat, count: nat, size: nat, dec: seq<byte> --> T)
    requires Takes(dec, size) && count > 0 && p + size <= |val|
    ensures r + ReadEntries(val, p, count, size, dec)
         == r + [dec(val[p..p + size])] + ReadEntries(val, p + size, count - 1, size, dec)
  {
    ConsMoves(r, dec(val[p..p + size]), ReadEntries(val, p + size, count - 1, size, dec));
  }

  method ReadEntryList<T(!new)>(val: seq<byte>, start: nat, count: nat, size: nat, dec: seq<byte> --> T)
    returns (r: seq<T>)
    requires Takes(dec, size)
    ensures r == ReadEntries(val, start, count, size, dec)
  {
    r := [];
    var p: nat := start;
    var k := 0;
    while k < count && p + size <= |val|
      invariant 0 <= k <= count
      invariant r + ReadEntries(val, p, count - k, size, dec) == ReadEntries(val, start, count, size, dec)
    {
      EntryMoves(r, val, p, count - k, size, dec);
      r := r + [dec(val[p..p + size])];
      p := p + size;
      k := k + 1;
    }
  }

  method ReadGenerationList<T(!new)>(val: seq<byte>, l: Layouts<T>) returns (r: seq<T>)
    requires val != [] && Sound(l)
    ensures r == ReadGenerations(val, 1, val[0], Average(val), l)
  {
    var count := val[0];
    var average := if count > 0 then (|val| - 1) / count else 0;
    r := ReadWithAverage(val, count, average, l);
  }

  method ReadWithAverage<T(!new)>(val: seq<byte>, count: nat, average: nat, l: Layouts<T>) returns (r: seq<T>)
    requires Sound(l)
    ensures r == ReadGenerations(val, 1, count, average, l)
  {
    r := [];
    var p: nat := 1;
    var k := 0;
    while k < count
      invariant 0 <= k <= count
      invariant r + ReadGenerations(val, p, count - k, average, l) == ReadGenerations(val, 1, count, average, l)
    {
      var e := TakeEntry(val, p, average, l);
      if e.Exhausted? {
        break;
      }
      ConsMoves(r, e.entry, ReadGenerations(val, e.next, count - k - 1, average, l));
      r := r + [e.entry];
      p := e.next;
      k := k + 1;
    }
  }

  function ReadDisks(val: seq<byte>): (r: seq<DiskEntry>)
    requires val != []
  {
    ReadGenerations(val, 1, val[0], Average(val), DISK_LAYOUTS)
  }

  function ReadMounts(val: seq<byte>): (r: seq<FsEntry>)
    requires val != []
  {
    ReadGenerations(val, 1, val[0], Average(val), FS_LAYOUTS)
  }

  method ReadDiskList(val: seq<byte>) returns (r: seq<DiskEntry>)
    requires val != []
    ensures r == ReadDisks(val)
  {
    r := ReadGenerationList(val, DISK_LAYOUTS);
  }

  method ReadMountList(val: seq<byte>) returns (r: seq<FsEntry>)
    requires val != []
    ensures r == ReadMounts(val)
  {
    r := ReadGenerationList(val, FS_LAYOUTS);
  }

  // ---------------------------------------------------------------- one entry

  function CpuOf(v: seq<nat>): (c: Cpu)
    requires |v| == 5
  {
    Cpu(v[0], v[1], v[2], v[3], v[4])
  }

  function MemOf(v: seq<nat>): (m: MemReport)
    requires |v| == 6
  {
    MemReport(Mem(v[0], v[1], v[2], v[3], v[4], v[5]), if v[0] >= v[1] then v[0] - v[1] else 0)
  }

  function GroupOf(val: seq<byte>, top: seq<ThreadEntry>): (g: ThreadGroup)
    requires |val| >= THREAD_HEADER
  {
    ThreadGroup(ReadName(val[..16]), FromBE(val[16..18]), val[18] % 2 == 1, val[18] / 2 % 2 == 1,
                Unpack(val[19..33], STATE_WIDTHS), top)
  }

  function ReadGroup(val: seq<byte>): (g: ThreadGroup)
    requires |val| >= THREAD_HEADER
  {
    GroupOf(val, ReadEntries(val, THREAD_HEADER, val[33], THREAD_ENTRY, DecodeEntry))
  }

  /** What one TLV says; a TLV of an unknown type or of the wrong length says nothing. */
  datatype Payload =
    | CpuSays(cpu: Cpu) | MemSays(mem: MemReport) | HostSays(host: seq<byte>) | NetSays(net: seq<NetEntry>)
    | DisksSay(disks: seq<DiskEntry>) | MountsSay(mounts: seq<FsEntry>) | ProcsSay(procs: seq<ProcGroup>)
    | ThreadsSay(group: ThreadGroup) | Nothing

  predicate IsScalar(t: byte, val: seq<byte>) {
    (t == T_CPU && |val| == 10) || (t == T_MEM && |val| == 18) || (t == T_HOST && |val| >= 1)
  }

  function DecodeScalar(t: byte, val: seq<byte>): (p: Payload)
    requires IsScalar(t, val)
  {
    if t == T_CPU then CpuSays(CpuOf(Unpack(val, CPU_WIDTHS)))
    else if t == T_MEM then MemSays(MemOf(Unpack(val, MEM_WIDTHS)))
    else HostSays(Strip(OnlyAscii(val)))
  }

  predicate IsResource(t: byte, val: seq<byte>) {
    (t == T_NET || t == T_DISK || t == T_FS) && |val| >= 1
  }

  function DecodeResource(t: byte, val: seq<byte>): (p: Payload)
    requires IsResource(t, val)
  {
    if t == T_NET then NetSays(ReadEntries(val, 1, val[0], 24, DecodeNet))
    else if t == T_DISK then DisksSay(ReadDisks(val))
    else MountsSay(ReadMounts(val))
  }

  function DecodeGroup(t: byte, val: seq<byte>): (p: Payload) {
    if t == T_PROC && |val| >= 1 then ProcsSay(ReadEntries(val, 1, val[0], 24, DecodeProc))
    else if t == T_THREAD && |val| >= THREAD_HEADER then ThreadsSay(ReadGroup(val))
    else Nothing
  }

  function Decode(t: byte, val: seq<byte>): (p: Payload) {
    if IsScalar(t, val) then DecodeScalar(t, val)
    else if IsResource(t, val) then DecodeResource(t, val)
    else DecodeGroup(t, val)
  }

  /** A later TLV of the same type replaces an earlier one, except that thread groups accumulate. */
  function Set(f: Frame, p: Payload): (r: Frame) {
    match p
    case CpuSays(cpu) => f.(cpu := Some(cpu))
    case MemSays(mem) => f.(mem := Some(mem))
    case HostSays(host) => f.(hostLabel := Some(host))
    case NetSays(net) => f.(net := Some(net))
    case DisksSay(disks) => f.(disks := Some(disks))
    case MountsSay(mounts) => f.(mounts := Some(mounts))
    case ProcsSay(procs) => f.(procs := Some(procs))
    case ThreadsSay(group) => f.(threads := f.threads + [group])
    case Nothing => f
  }

  method ApplyEntry(f: Frame, t: byte, val: seq<byte>) returns (r: Frame)
    ensures r == Set(f, Decode(t, val))
  {
    if IsScalar(t, val) {
      r := ApplyScalar(f, t, val);
    } else if IsResource(t, val) {
      r := ApplyResource(f, t, val);
    } else {
      r := ApplyGroup(f, t, val);
    }
  }

  method ApplyScalar(f: Frame, t: byte, val: seq<byte>) returns (r: Frame)
    requires IsScalar(t, val)
    ensures r == Set(f, DecodeScalar(t, val))
  {
    if t == T_CPU {
      r := f.(cpu := Some(CpuOf(Unpack(val, CPU_WIDTHS))));
    } else if t == T_MEM {
      r := f.(mem := Some(MemOf(Unpack(val, MEM_WIDTHS))));
    } else {
      r := f.(hostLabel := Some(Strip(OnlyAscii(val))));
    }
  }

  method ApplyResource(f: Frame, t: byte, val: seq<byte>) returns (r: Frame)
    requires IsResource(t, val)
    ensures r == Set(f, DecodeResource(t, val))
  {
    if t == T_NET {
      var ifaces := ReadEntryList(val, 1, val[0], 24, DecodeNet);
      r := f.(net := Some(ifaces));
    } else if t == T_DISK {
      var disks := ReadDiskList(val);
      r := f.(disks := Some(disks));
    } else {
      var mounts := ReadMountList(val);
      r := f.(mounts := Some(mounts));
    }
  }

  method ApplyGroup(f: Frame, t: byte, val: seq<byte>) returns (r: Frame)
    ensures r == Set(f, DecodeGroup(t, val))
  {
    r := f;
    if t == T_PROC && |val| >= 1 {
      var groups := ReadEntryList(val, 1, val[0], 24, DecodeProc);
      r := r.(procs := Some(groups));
    } else if t == T_THREAD && |val| >= THREAD_HEADER {
      var top := ReadEntryList(val, THREAD_HEADER, val[33], THREAD_ENTRY, DecodeEntry);
      r := r.(threads := r.threads + [GroupOf(val, top)]);
    }
  }

  // ---------------------------------------------------------------- the frame

  /** Type, length and value together. */
  function TlvSize(bs: seq<byte>): (n: nat)
    requires |bs| >= 2
    ensures n >= 2
  {
    var length: int := bs[1];
    length + 2
  }

  function ParseBody(f: Frame, bs: seq<byte>): (r: Frame)
    decreases |bs|
  {
    if |bs| < 2 || |bs| < TlvSize(bs) then f
    else ParseBody(Set(f, Decode(bs[0], bs[2..TlvSize(bs)])), bs[TlvSize(bs)..])
  }

  function EmptyFrame(timestamp: nat, sequence: nat): (f: Frame) {
    Frame(timestamp, sequence, None, None, None, None, None, None, None, [])
  }

  function Parse(bs: seq<byte>): (r: Option<Frame>) {
    if |bs| < HEADER || FromBE(bs[0..2]) != MAGIC || bs[2] != VERSION then None
    else Some(ParseBody(EmptyFrame(FromBE(bs[4..8]), FromBE(bs[8..12])), bs[HEADER..]))
  }

  /** No index is ever out of range, so the parser never raises: malformed input only ends the loop early. */
  method ParseFrame(payload: seq<byte>) returns (r: Option<Frame>)
    ensures r == Parse(payload)
  {
    if |payload| < HEADER {
      return None;
    }
    if FromBE(payload[0..2]) != MAGIC || payload[2] != VERSION {
      return None;
    }
    var result := EmptyFrame(FromBE(payload[4..8]), FromBE(payload[8..12]));
    ghost var start := result;
    var offset := HEADER;
    while offset + 2 <= |payload|
      invariant HEADER <= offset <= |payload|
      invariant ParseBody(result, payload[offset..]) == ParseBody(start, payload[HEADER..])
    {
      ghost var rest := payload[offset..];
      var t, length := payload[offset], payload[offset + 1];
      offset := offset + 2;
      if offset + length > |payload| {
        break;
      }
      var val := payload[offset..offset + length];
      assert rest[2..TlvSize(rest)] == val && rest[TlvSize(rest)..] == payload[offset + length..];
      offset := offset + length;
      result := ApplyEntry(result, t, val);
    }
    r := Some(result);
  }
}
