/** The agent's writer: payload buffers filled through a cursor, and the frame buffer they are copied into. */
module Writer {
  import opened Arith
  import opened Bytes
  import opened Wire
  import opened Encoder
  import opened Budget

  // ---------------------------------------------------------------- big-endian stores, byte by byte

  lemma {:induction false} BE2(v: nat)
    ensures BE(v, 2) == [v / 256 % 256, v % 256]
  {
    assert BE(v / 256, 1) == BE(v / 256 / 256, 0) + [v / 256 % 256];
  }

  lemma {:induction false} BE4(v: nat)
    ensures BE(v, 4) == [v / 0x100_0000 % 256, v / 0x1_0000 % 256, v / 256 % 256, v % 256]
  {
    assert BE(v, 4) == BE(v / 256, 3) + [v % 256];
    assert BE(v / 256, 3) == BE(v / 256 / 256, 2) + [v / 256 % 256];
    BE2(v / 256 / 256);
    FewerBytes(v);
  }

  lemma {:induction false} FewerBytes(v: nat)
    ensures v / 256 / 256 == v / 0x1_0000 && v / 0x1_0000 / 256 == v / 0x100_0000
  {
    DivTwice(v, 256, 256);
    DivTwice(v, 0x1_0000, 256);
  }

  lemma {:induction false} BE8(v: nat)
    ensures BE(v, 8) == BE(v / 0x1_0000_0000, 4) + BE(v, 4)
  {
    Powers();
    BESplit(v, 4, 4, v / 0x1_0000_0000);
  }

  /** A payload buffer and the cursor that fills it. What has been written is kept as `done`, followed by the
      big-endian fields of the record now being filled. */
  class Cursor {
    const buf: array<byte>
    var pos: nat
    ghost var done: seq<byte>
    ghost var vals: seq<nat>
    ghost var widths: seq<nat>

    ghost predicate Valid()
      reads this, buf
    {
      pos <= buf.Length && |vals| == |widths| && buf[..pos] == done + Pack(vals, widths)
    }

    constructor (size: nat)
      ensures Valid() && fresh(buf) && buf.Length == size && pos == 0 && done == [] && vals == [] && widths == []
    {
      buf := new byte[size](_ => 0);
      pos := 0;
      done, vals, widths := [], [], [];
    }

    /** No record is being filled. */
    ghost predicate Closed()
      reads this
    {
      vals == [] && widths == []
    }

    ghost method Close(v: seq<nat>, w: seq<nat>)
      requires Valid() && vals == v && widths == w
      modifies this`done, this`vals, this`widths
      ensures Valid() && Closed() && |v| == |w| && done == old(done) + Pack(v, w)
    {
      done, vals, widths := done + Pack(vals, widths), [], [];
    }

    method PutBytes(bs: seq<byte>)
      requires Valid() && Closed() && pos + |bs| <= buf.Length
      modifies this, buf
      ensures Valid() && Closed() && pos == old(pos) + |bs| && done == old(done) + bs
    {
      ghost var before := buf[..pos];
      var i := 0;
      while i < |bs|
        invariant 0 <= i <= |bs| && pos == old(pos) + i
        invariant buf[..pos] == before + bs[..i]
        invariant vals == [] && widths == [] && done == before
      {
        buf[pos] := bs[i];
        pos := pos + 1;
        i := i + 1;
      }
      done := before + bs;
    }

    method PutU8(v: byte)
      requires Valid() && Closed() && pos < buf.Length
      modifies this, buf
      ensures Valid() && Closed() && pos == old(pos) + 1 && done == old(done) + [v]
    {
      done := done + [v];
      buf[pos] := v;
      pos := pos + 1;
    }

    /** The next record field, its bytes already in place. */
    ghost method Extend(v: nat, w: nat, before: seq<byte>)
      requires pos <= buf.Length && |vals| == |widths| && before == done + Pack(vals, widths)
      requires buf[..pos] == before + BE(v, w)
      modifies this`vals, this`widths
      ensures Valid() && vals == old(vals) + [v] && widths == old(widths) + [w]
    {
      PackSnoc(vals, widths, v, w);
      vals, widths := vals + [v], widths + [w];
    }

    method PutU16(v: nat)
      requires Valid() && pos + 2 <= buf.Length
      modifies this, buf
      ensures Valid() && pos == old(pos) + 2 && done == old(done)
      ensures vals == old(vals) + [v] && widths == old(widths) + [2]
    {
      ghost var before := buf[..pos];
      BE2(v);
      buf[pos] := v / 256 % 256;
      buf[pos + 1] := v % 256;
      pos := pos + 2;
      assert buf[..pos] == before + BE(v, 2);
      Extend(v, 2, before);
    }

    method Store32(v: nat)
      requires pos + 4 <= buf.Length
      modifies this`pos, buf
      ensures pos == old(pos) + 4 && buf[..pos] == old(buf[..pos]) + BE(v, 4)
    {
      ghost var before := buf[..pos];
      BE4(v);
      buf[pos] := v / 0x100_0000 % 256;
      buf[pos + 1] := v / 0x1_0000 % 256;
      buf[pos + 2] := v / 256 % 256;
      buf[pos + 3] := v % 256;
      pos := pos + 4;
      assert buf[..pos] == before + BE(v, 4);
    }

    method PutU32(v: nat)
      requires Valid() && pos + 4 <= buf.Length
      modifies this, buf
      ensures Valid() && pos == old(pos) + 4 && done == old(done)
      ensures vals == old(vals) + [v] && widths == old(widths) + [4]
    {
      ghost var before := buf[..pos];
      Store32(v);
      Extend(v, 4, before);
    }

    method PutU64(v: nat)
      requires Valid() && pos + 8 <= buf.Length
      modifies this, buf
      ensures Valid() && pos == old(pos) + 8 && done == old(done)
      ensures vals == old(vals) + [v] && widths == old(widths) + [8]
    {
      ghost var before := buf[..pos];
      BE8(v);
      Store32(v / 0x1_0000_0000);
      Store32(v);
      Extend(v, 8, before);
    }
  }

  lemma {:induction false} HeaderIs(timestamp: nat, sequence: nat)
    ensures Header(timestamp, sequence) == [0x54, 0x46, 2, 0] + BE(timestamp, 4) + BE(sequence, 4)
  {
    BE2(MAGIC);
  }

  // ---------------------------------------------------------------- the frame buffer

  class TlvWriter {
    const buffer: array<byte>
    var len: nat

    ghost predicate Valid()
      reads this
    {
      len <= buffer.Length
    }

    ghost function Contents(): (s: seq<byte>)
      reads this, buffer
      requires Valid()
    {
      buffer[..len]
    }

    constructor (buf: array<byte>)
      ensures Valid() && buffer == buf && len == 0
    {
      buffer := buf;
      len := 0;
    }

    method PutByte(v: byte)
      requires Valid() && len < buffer.Length
      modifies this`len, buffer
      ensures Valid() && Contents() == old(Contents()) + [v]
    {
      buffer[len] := v;
      len := len + 1;
    }

    method PutBE16(v: nat)
      requires Valid() && len + 2 <= buffer.Length
      modifies this`len, buffer
      ensures Valid() && Contents() == old(Contents()) + BE(v, 2)
    {
      BE2(v);
      PutByte(v / 256 % 256);
      PutByte(v % 256);
    }

    method PutBE32(v: nat)
      requires Valid() && len + 4 <= buffer.Length
      modifies this`len, buffer
      ensures Valid() && Contents() == old(Contents()) + BE(v, 4)
    {
      BE4(v);
      PutByte(v / 0x100_0000 % 256);
      PutByte(v / 0x1_0000 % 256);
      PutByte(v / 256 % 256);
      PutByte(v % 256);
    }

    method Init(timestamp: nat, sequence: nat) returns (ok: bool)
      requires Valid()
      modifies this`len, buffer
      ensures Valid() && (ok <==> buffer.Length >= HEADER)
      ensures if ok then Contents() == Header(timestamp, sequence) else Contents() == old(Contents())
      ensures ok ==> Contents() == [0x54, 0x46, 2, 0] + BE(timestamp, 4) + BE(sequence, 4)
    {
      HeaderIs(timestamp, sequence);
      if buffer.Length < HEADER {
        return false;
      }
      len := 0;
      PutBE16(MAGIC);
      PutByte(VERSION);
      PutByte(0);
      PutBE32(timestamp);
      PutBE32(sequence);
      return true;
    }

    method Put(kind: byte, value: Value) returns (ok: bool)
      requires Valid()
      modifies this`len, buffer
      ensures Valid() && (ok <==> old(len) + 2 + |value| <= buffer.Length)
      ensures Contents() == if ok then old(Contents()) + TlvBytes(Tlv(kind, value)) else old(Contents())
    {
      if len + 2 + |value| > buffer.Length {
        return false;
      }
      PutByte(kind);
      PutByte(|value|);
      ghost var before := Contents();
      var i := 0;
      while i < |value|
        invariant 0 <= i <= |value|
        invariant Valid() && len + (|value| - i) <= buffer.Length && Contents() == before + value[..i]
      {
        PutByte(value[i]);
        i := i + 1;
      }
      return true;
    }
  }

  // ---------------------------------------------------------------- payloads

  method FillCpu(p: Cursor, c: Cpu)
    requires p.Valid() && p.Closed() && p.pos == 0 && p.buf.Length >= 10
    modifies p, p.buf
    ensures p.Valid() && p.Closed() && p.done == Pack(CpuFields(c), CPU_WIDTHS)
  {
    p.PutU16(c.user);
    p.PutU16(c.system);
    p.PutU16(c.idle);
    p.PutU16(c.iowait);
    p.PutU16(c.irq);
    p.Close(CpuFields(c), CPU_WIDTHS);
  }

  method FillMem(p: Cursor, m: Mem)
    requires p.Valid() && p.Closed() && p.pos == 0 && p.buf.Length >= 18
    modifies p, p.buf
    ensures p.Valid() && p.Closed() && p.done == Pack(MemFields(m), MEM_WIDTHS)
  {
    p.PutU32(m.total);
    p.PutU32(m.free);
    p.PutU32(m.available);
    p.PutU16(m.load1);
    p.PutU16(m.load5);
    p.PutU16(m.load15);
    p.Close(MemFields(m), MEM_WIDTHS);
  }

  lemma {:induction false} EncodeAllNext<T>(es: seq<T>, i: nat, enc: T -> seq<byte>)
    requires i < |es|
    ensures EncodeAll(es[..i + 1], enc) == EncodeAll(es[..i], enc) + enc(es[i])
  {
    assert es[..i + 1] == es[..i] + [es[i]];
    EncodeAllSnoc(es[..i], es[i], enc);
  }

  method PutNet(p: Cursor, e: NetEntry)
    requires p.Valid() && p.Closed() && p.pos + 24 <= p.buf.Length
    modifies p, p.buf
    ensures p.Valid() && p.Closed() && p.pos == old(p.pos) + 24 && p.done == old(p.done) + EncodeNet(e)
  {
    p.PutBytes(PadName(e.name, 8));
    p.PutU64(e.rx);
    p.PutU64(e.tx);
    p.Close(NetFields(e), NET_WIDTHS);
  }

  method PutNetAt(p: Cursor, es: seq<NetEntry>, i: nat)
    requires i < |es| < 256 && p.Valid() && p.Closed() && p.pos + 24 <= p.buf.Length
    requires p.done == [|es|] + EncodeAll(es[..i], EncodeNet)
    modifies p, p.buf
    ensures p.Valid() && p.Closed() && p.pos == old(p.pos) + 24
    ensures p.done == [|es|] + EncodeAll(es[..i + 1], EncodeNet)
  {
    PutNet(p, es[i]);
    EncodeAllNext(es, i, EncodeNet);
  }

  method FillNet(p: Cursor, es: seq<NetEntry>)
    requires |es| < 256 && p.Valid() && p.Closed() && p.pos == 0 && 1 + 24 * |es| <= p.buf.Length
    modifies p, p.buf
    ensures p.Valid() && p.Closed() && p.done == Wire.Counted(es, EncodeNet)
  {
    p.PutU8(|es|);
    var i := 0;
    while i < |es|
      invariant 0 <= i <= |es|
      invariant p.Valid() && p.Closed() && p.pos == 1 + 24 * i
      invariant p.done == [|es|] + EncodeAll(es[..i], EncodeNet)
    {
      PutNetAt(p, es, i);
      i := i + 1;
    }
    assert es[..|es|] == es;
  }

  method PutDiskCounters(p: Cursor, e: DiskEntry)
    requires p.Valid() && p.Closed() && p.pos + 48 <= p.buf.Length
    modifies p, p.buf
    ensures p.Valid() && p.pos == old(p.pos) + 48 && p.done == old(p.done)
    ensures p.vals == [e.readsDone, e.writesDone, e.sectorsRead, e.sectorsWritten, e.readMs, e.writeMs]
    ensures p.widths == [8, 8, 8, 8, 8, 8]
  {
    p.PutU64(e.readsDone);
    p.PutU64(e.writesDone);
    p.PutU64(e.sectorsRead);
    p.PutU64(e.sectorsWritten);
    p.PutU64(e.readMs);
    p.PutU64(e.writeMs);
  }

  method PutDisk(p: Cursor, e: DiskEntry)
    requires p.Valid() && p.Closed() && p.pos + 66 <= p.buf.Length
    modifies p, p.buf
    ensures p.Valid() && p.Closed() && p.pos == old(p.pos) + 66 && p.done == old(p.done) + EncodeDisk(e)
  {
    p.PutBytes(PadName(e.name, 8));
    PutDiskFields(p, e);
  }

  method PutDiskFields(p: Cursor, e: DiskEntry)
    requires p.Valid() && p.Closed() && p.pos + 58 <= p.buf.Length
    modifies p, p.buf
    ensures p.Valid() && p.Closed() && p.pos == old(p.pos) + 58
    ensures p.done == old(p.done) + Pack(DiskFields(e), DISK_WIDTHS)
  {
    PutDiskCounters(p, e);
    PutDiskDeltas(p, e);
    p.Close(DiskFields(e), DISK_WIDTHS);
  }

  method PutDiskDeltas(p: Cursor, e: DiskEntry)
    requires p.Valid() && p.pos + 10 <= p.buf.Length
    requires p.vals == [e.readsDone, e.writesDone, e.sectorsRead, e.sectorsWritten, e.readMs, e.writeMs]
    requires p.widths == [8, 8, 8, 8, 8, 8]
    modifies p, p.buf
    ensures p.Valid() && p.pos == old(p.pos) + 10 && p.done == old(p.done)
    ensures p.vals == DiskFields(e) && p.widths == DISK_WIDTHS
  {
    p.PutU32(e.readIops);
    p.PutU32(e.writeIops);
    p.PutU16(e.util);
  }

  method PutDiskAt(p: Cursor, es: seq<DiskEntry>, i: nat)
    requires i < |es| < 256 && p.Valid() && p.Closed() && p.pos + 66 <= p.buf.Length
    requires p.done == [|es|] + EncodeAll(es[..i], EncodeDisk)
    modifies p, p.buf
    ensures p.Valid() && p.Closed() && p.pos == old(p.pos) + 66
    ensures p.done == [|es|] + EncodeAll(es[..i + 1], EncodeDisk)
  {
    PutDisk(p, es[i]);
    EncodeAllNext(es, i, EncodeDisk);
  }

  method FillDisk(p: Cursor, es: seq<DiskEntry>)
    requires |es| < 256 && p.Valid() && p.Closed() && p.pos == 0 && 1 + 66 * |es| <= p.buf.Length
    modifies p, p.buf
    ensures p.Valid() && p.Closed() && p.done == Wire.Counted(es, EncodeDisk)
  {
    p.PutU8(|es|);
    FillDisks(p, es);
  }

  method FillDisks(p: Cursor, es: seq<DiskEntry>)
    requires |es| < 256 && p.Valid() && p.Closed() && p.pos == 1 && 1 + 66 * |es| <= p.buf.Length && p.done == [|es|]
    modifies p, p.buf
    ensures p.Valid() && p.Closed() && p.done == [|es|] + EncodeAll(es, EncodeDisk)
  {
    var i := 0;
    while i < |es|
      invariant 0 <= i <= |es|
      invariant p.Valid() && p.Closed() && p.pos == 1 + 66 * i
      invariant p.done == [|es|] + EncodeAll(es[..i], EncodeDisk)
    {
      PutDiskAt(p, es, i);
      i := i + 1;
    }
    assert es[..|es|] == es;
  }

  method PutMount(p: Cursor, e: FsEntry)
    requires p.Valid() && p.Closed() && p.pos + 26 <= p.buf.Length
    modifies p, p.buf
    ensures p.Valid() && p.Closed() && p.pos == old(p.pos) + 26 && p.done == old(p.done) + EncodeFs(e)
  {
    p.PutBytes(PadName(e.mount, 16));
    p.PutU64(e.totalKb);
    p.PutU16(e.used);
    p.Close(FsFields(e), FS_WIDTHS);
  }

  method PutMountAt(p: Cursor, es: seq<FsEntry>, i: nat)
    requires i < |es| < 256 && p.Valid() && p.Closed() && p.pos + 26 <= p.buf.Length
    requires p.done == [|es|] + EncodeAll(es[..i], EncodeFs)
    modifies p, p.buf
    ensures p.Valid() && p.Closed() && p.pos == old(p.pos) + 26
    ensures p.done == [|es|] + EncodeAll(es[..i + 1], EncodeFs)
  {
    PutMount(p, es[i]);
    EncodeAllNext(es, i, EncodeFs);
  }

  method FillFs(p: Cursor, es: seq<FsEntry>)
    requires |es| < 256 && p.Valid() && p.Closed() && p.pos == 0 && 1 + 26 * |es| <= p.buf.Length
    modifies p, p.buf
    ensures p.Valid() && p.Closed() && p.done == Wire.Counted(es, EncodeFs)
  {
    p.PutU8(|es|);
    var i := 0;
    while i < |es|
      invariant 0 <= i <= |es|
      invariant p.Valid() && p.Closed() && p.pos == 1 + 26 * i
      invariant p.done == [|es|] + EncodeAll(es[..i], EncodeFs)
    {
      PutMountAt(p, es, i);
      i := i + 1;
    }
    assert es[..|es|] == es;
  }

  method PutProc(p: Cursor, e: ProcGroup)
    requires p.Valid() && p.Closed() && p.pos + 24 <= p.buf.Length
    modifies p, p.buf
    ensures p.Valid() && p.Closed() && p.pos == old(p.pos) + 24 && p.done == old(p.done) + EncodeProc(e)
  {
    p.PutBytes(PadName(e.name, 16));
    p.PutU16(e.instances);
    p.PutU16(e.cpu);
    p.PutU32(e.rssKb);
    p.Close(ProcFields(e), PROC_WIDTHS);
  }

  method PutProcAt(p: Cursor, es: seq<ProcGroup>, i: nat)
    requires i < |es| < 256 && p.Valid() && p.Closed() && p.pos + 24 <= p.buf.Length
    requires p.done == [|es|] + EncodeAll(es[..i], EncodeProc)
    modifies p, p.buf
    ensures p.Valid() && p.Closed() && p.pos == old(p.pos) + 24
    ensures p.done == [|es|] + EncodeAll(es[..i + 1], EncodeProc)
  {
    PutProc(p, es[i]);
    EncodeAllNext(es, i, EncodeProc);
  }

  method FillProc(p: Cursor, es: seq<ProcGroup>)
    requires |es| < 256 && p.Valid() && p.Closed() && p.pos == 0 && 1 + 24 * |es| <= p.buf.Length
    modifies p, p.buf
    ensures p.Valid() && p.Closed() && p.done == Wire.Counted(es, EncodeProc)
  {
    p.PutU8(|es|);
    var i := 0;
    while i < |es|
      invariant 0 <= i <= |es|
      invariant p.Valid() && p.Closed() && p.pos == 1 + 24 * i
      invariant p.done == [|es|] + EncodeAll(es[..i], EncodeProc)
    {
      PutProcAt(p, es, i);
      i := i + 1;
    }
    assert es[..|es|] == es;
  }

  method PutEntry(p: Cursor, e: ThreadEntry)
    requires p.Valid() && p.Closed() && p.pos + 28 <= p.buf.Length
    modifies p, p.buf
    ensures p.Valid() && p.Closed() && p.pos == old(p.pos) + 28 && p.done == old(p.done) + EncodeEntry(e)
  {
    p.PutBytes(PadName(e.name, 16));
    PutEntryFields(p, e);
  }

  method PutEntryFields(p: Cursor, e: ThreadEntry)
    requires p.Valid() && p.Closed() && p.pos + 12 <= p.buf.Length
    modifies p, p.buf
    ensures p.Valid() && p.Closed() && p.pos == old(p.pos) + 12
    ensures p.done == old(p.done) + Pack(EntryFields(e), ENTRY_WIDTHS)
  {
    p.PutU16(e.instances);
    p.PutU16(e.cpu);
    p.PutU32(e.pid);
    p.PutU32(e.tid);
    p.Close(EntryFields(e), ENTRY_WIDTHS);
  }

  // ---------------------------------------------------------------- thread groups

  /** The emit_top_count loop: start from what was collected and give up threads until the group fits. */
  method ChooseCount(count: nat, remaining: nat) returns (k: nat)
    ensures k == EmitCount(count, remaining)
  {
    k := count;
    if k > MAX_TOP {
      k := MAX_TOP;
    }
    while k > 0 && GroupSize(k) > remaining
      invariant k <= count && k <= MAX_TOP
      invariant forall j :: k < j <= count && j <= MAX_TOP ==> GroupSize(j) > remaining
    {
      k := k - 1;
    }
  }

  method FillGroupHead(p: Cursor, g: ThreadGroup)
    requires Sendable(g) && p.Valid() && p.Closed() && p.pos == 0 && THREAD_HEADER <= p.buf.Length
    modifies p, p.buf
    ensures p.Valid() && p.Closed() && p.pos == THREAD_HEADER && p.done == GroupHead(g)
  {
    StartsEmpty(p);
    PutNameAndTotal(p, g.name, g.total);
    p.PutU8(Flags(g));
    PutStates(p, g.states);
    p.PutU8(|g.top|);
    HeadJoins(PadName(g.name, 16), BE(g.total, 2), Flags(g), Pack(g.states, STATE_WIDTHS), |g.top|);
  }

  lemma {:induction false} StartsEmpty(p: Cursor)
    requires p.Valid() && p.Closed() && p.pos == 0
    ensures p.done == []
  {
    assert |p.buf[..0]| == 0;
  }

  lemma {:induction false} HeadJoins(a: seq<byte>, b: seq<byte>, c: byte, d: seq<byte>, e: byte)
    ensures [] + (a + b) + [c] + d + [e] == a + b + [c] + d + [e]
  {
  }

  method PutNameAndTotal(p: Cursor, name: seq<byte>, total: nat)
    requires p.Valid() && p.Closed() && p.pos + 18 <= p.buf.Length
    modifies p, p.buf
    ensures p.Valid() && p.Closed() && p.pos == old(p.pos) + 18
    ensures p.done == old(p.done) + (PadName(name, 16) + BE(total, 2))
  {
    p.PutBytes(PadName(name, 16));
    PutTotal(p, total);
  }

  method PutTotal(p: Cursor, total: nat)
    requires p.Valid() && p.Closed() && p.pos + 2 <= p.buf.Length
    modifies p, p.buf
    ensures p.Valid() && p.Closed() && p.pos == old(p.pos) + 2 && p.done == old(p.done) + BE(total, 2)
  {
    p.PutU16(total);
    p.Close([total], [2]);
    assert Pack([total], [2]) == BE(total, 2) + Pack([total][1..], [2][1..]);
  }

  method PutStates(p: Cursor, states: seq<nat>)
    requires |states| == 7 && p.Valid() && p.Closed() && p.pos + 14 <= p.buf.Length
    modifies p, p.buf
    ensures p.Valid() && p.Closed() && p.pos == old(p.pos) + 14 && p.done == old(p.done) + Pack(states, STATE_WIDTHS)
  {
    var i := 0;
    while i < 7
      invariant 0 <= i <= 7
      invariant p.Valid() && p.pos == old(p.pos) + 2 * i && p.done == old(p.done)
      invariant p.vals == states[..i] && p.widths == STATE_WIDTHS[..i]
    {
      p.PutU16(states[i]);
      assert states[..i + 1] == states[..i] + [states[i]];
      assert STATE_WIDTHS[..i + 1] == STATE_WIDTHS[..i] + [2];
      i := i + 1;
    }
    p.Close(states, STATE_WIDTHS);
  }

  method PutEntryAt(p: Cursor, es: seq<ThreadEntry>, i: nat, ghost head: seq<byte>)
    requires i < |es| && p.Valid() && p.Closed() && p.pos + 28 <= p.buf.Length
    requires p.done == head + EncodeAll(es[..i], EncodeEntry)
    modifies p, p.buf
    ensures p.Valid() && p.Closed() && p.pos == old(p.pos) + 28
    ensures p.done == head + EncodeAll(es[..i + 1], EncodeEntry)
  {
    PutEntry(p, es[i]);
    EncodeAllNext(es, i, EncodeEntry);
  }

  method FillEntries(p: Cursor, es: seq<ThreadEntry>)
    requires p.Valid() && p.Closed() && p.pos + 28 * |es| <= p.buf.Length
    modifies p, p.buf
    ensures p.Valid() && p.Closed() && p.done == old(p.done) + EncodeAll(es, EncodeEntry)
  {
    var i := 0;
    while i < |es|
      invariant 0 <= i <= |es|
      invariant p.Valid() && p.Closed() && p.pos == old(p.pos) + 28 * i
      invariant p.done == old(p.done) + EncodeAll(es[..i], EncodeEntry)
    {
      PutEntryAt(p, es, i, old(p.done));
      i := i + 1;
    }
    assert es[..|es|] == es;
  }

  /** Builds the payload of one group with only its first k threads, as it goes out. */
  method GroupPayload(g: ThreadGroup, k: nat) returns (p: Cursor)
    requires |g.states| == 7 && k <= |g.top| && k <= MAX_TOP
    ensures fresh(p) && fresh(p.buf) && p.Valid() && p.Closed() && p.done == EncodeGroup(Shrunk(g, k))
  {
    var out := Shrunk(g, k);
    p := new Cursor(230);
    FillGroupHead(p, out);
    FillEntries(p, out.top);
  }

  // ---------------------------------------------------------------- pushes

  /** Hands a filled payload to the writer; the length it announces is the payload's, cast to one byte. */
  method Send(w: TlvWriter, kind: byte, p: Cursor) returns (ok: bool)
    requires w.Valid() && p.Valid() && p.Closed() && p.buf != w.buffer
    modifies w`len, w.buffer
    ensures w.Valid() && (ok <==> old(w.len) + |Concat([Tlv(kind, Clip(p.done))])| <= w.buffer.Length)
    ensures w.Contents() == old(w.Contents()) + if ok then Concat([Tlv(kind, Clip(p.done))]) else []
  {
    ConcatOne(Tlv(kind, Clip(p.done)));
    assert p.buf[..p.pos % 256] == Clip(p.done);
    ok := w.Put(kind, p.buf[..p.pos % 256]);
  }

  method PushHost(w: TlvWriter, hostLabel: seq<byte>) returns (ok: bool)
    requires w.Valid()
    modifies w`len, w.buffer
    ensures w.Valid() && (ok <==> old(w.len) + |Concat(HostTlvs(hostLabel))| <= w.buffer.Length)
    ensures w.Contents() == old(w.Contents()) + if ok then Concat(HostTlvs(hostLabel)) else []
  {
    ok := true;
    if hostLabel != [] {
      ConcatOne(Tlv(T_HOST, Clip(hostLabel)));
      ok := w.Put(T_HOST, Clip(hostLabel));
    }
  }

  method PushCpu(w: TlvWriter, c: Cpu) returns (ok: bool)
    requires w.Valid()
    modifies w`len, w.buffer
    ensures w.Valid() && (ok <==> old(w.len) + |Concat([CpuTlv(c)])| <= w.buffer.Length)
    ensures w.Contents() == old(w.Contents()) + if ok then Concat([CpuTlv(c)]) else []
  {
    var p := new Cursor(10);
    FillCpu(p, c);
    ok := Send(w, T_CPU, p);
  }

  method PushMem(w: TlvWriter, m: Mem) returns (ok: bool)
    requires w.Valid()
    modifies w`len, w.buffer
    ensures w.Valid() && (ok <==> old(w.len) + |Concat([MemTlv(m)])| <= w.buffer.Length)
    ensures w.Contents() == old(w.Contents()) + if ok then Concat([MemTlv(m)]) else []
  {
    var p := new Cursor(18);
    FillMem(p, m);
    ok := Send(w, T_MEM, p);
  }

  method PushNet(w: TlvWriter, es: seq<NetEntry>) returns (ok: bool)
    requires w.Valid() && |es| <= MAX_INTERFACES
    modifies w`len, w.buffer
    ensures w.Valid() && (ok <==> old(w.len) + |Concat(NetTlvs(es))| <= w.buffer.Length)
    ensures w.Contents() == old(w.Contents()) + if ok then Concat(NetTlvs(es)) else []
  {
    ok := true;
    if es != [] {
      var p := new Cursor(97);
      FillNet(p, es);
      ok := Send(w, T_NET, p);
    }
  }

  method PushDisk(w: TlvWriter, es: seq<DiskEntry>) returns (ok: bool)
    requires w.Valid() && |es| <= MAX_DISKS
    modifies w`len, w.buffer
    ensures w.Valid() && (ok <==> old(w.len) + |Concat(DiskTlvs(es))| <= w.buffer.Length)
    ensures w.Contents() == old(w.Contents()) + if ok then Concat(DiskTlvs(es)) else []
  {
    ok := true;
    if es != [] {
      var p := new Cursor(1057);
      FillDisk(p, es);
      ok := Send(w, T_DISK, p);
    }
  }

  method PushFs(w: TlvWriter, es: seq<FsEntry>) returns (ok: bool)
    requires w.Valid() && |es| <= MAX_FS
    modifies w`len, w.buffer
    ensures w.Valid() && (ok <==> old(w.len) + |Concat(FsTlvs(es))| <= w.buffer.Length)
    ensures w.Contents() == old(w.Contents()) + if ok then Concat(FsTlvs(es)) else []
  {
    ok := true;
    if es != [] {
      var p := new Cursor(417);
      FillFs(p, es);
      ok := Send(w, T_FS, p);
    }
  }

  /** The process groups alone; the caller goes on to the thread groups. */
  method PushProc(w: TlvWriter, enabled: bool, es: seq<ProcGroup>) returns (ok: bool)
    requires w.Valid() && |es| <= MAX_GROUPS
    modifies w`len, w.buffer
    ensures w.Valid() && (ok <==> old(w.len) + |Concat(ProcTlvs(enabled, es))| <= w.buffer.Length)
    ensures w.Contents() == old(w.Contents()) + if ok then Concat(ProcTlvs(enabled, es)) else []
  {
    ok := true;
    if enabled {
      var p := new Cursor(193);
      FillProc(p, es);
      ok := Send(w, T_PROC, p);
    }
  }

  lemma {:induction false} PlanNext(used: nat, counts: seq<nat>, k: nat)
    requires used + GroupSize(0) <= FRAME_CAP && counts != [] && k == EmitCount(counts[0], FRAME_CAP - used)
    ensures used + GroupSize(k) <= FRAME_CAP
    ensures Plan(used, counts) == [k] + Plan(used + GroupSize(k), counts[1..])
  {
  }

  lemma {:induction false} ShrinkAllNext(groups: seq<ThreadGroup>, k: nat, ks: seq<nat>)
    requires |ks| < |groups| && k <= |groups[0].top| && forall i :: 0 <= i < |ks| ==> ks[i] <= |groups[1..][i].top|
    ensures forall i :: 0 <= i < |[k] + ks| ==> ([k] + ks)[i] <= |groups[i].top|
    ensures ShrinkAll(groups, [k] + ks) == [Shrunk(groups[0], k)] + ShrinkAll(groups[1..], ks)
  {
  }

  lemma {:induction false} EmittedNext(used: nat, groups: seq<ThreadGroup>, k: nat, len: nat)
    requires used + GroupSize(0) <= FRAME_CAP && groups != []
    requires k == EmitCount(|groups[0].top|, FRAME_CAP - used) && len == used + GroupSize(k)
    ensures len <= FRAME_CAP && Emitted(used, groups) == [Shrunk(groups[0], k)] + Emitted(len, groups[1..])
  {
    var counts := TopCounts(groups);
    PlanNext(used, counts, k);
    assert counts[1..] == TopCounts(groups[1..]);
    ShrinkAllNext(groups, k, Plan(len, counts[1..]));
  }

  lemma {:induction false} EmittedStops(used: nat, groups: seq<ThreadGroup>)
    requires used <= FRAME_CAP && (groups == [] || used + GroupSize(0) > FRAME_CAP)
    ensures Emitted(used, groups) == []
  {
  }

  /** The bytes of the thread groups that go out, group by group. */
  function ThreadBytes(used: nat, groups: seq<ThreadGroup>): (bs: seq<byte>)
    requires used <= FRAME_CAP && StatesSeven(groups)
    decreases |groups|
  {
    if groups == [] || used + GroupSize(0) > FRAME_CAP then []
    else
      var k := EmitCount(|groups[0].top|, FRAME_CAP - used);
      TlvBytes(GroupTlv(Shrunk(groups[0], k))) + ThreadBytes(used + GroupSize(k), groups[1..])
  }

  lemma {:induction false} ThreadBytesHead(used: nat, groups: seq<ThreadGroup>, k: nat, len: nat)
    requires groups != [] && used + GroupSize(0) <= FRAME_CAP && StatesSeven(groups)
    requires k == EmitCount(|groups[0].top|, FRAME_CAP - used) && len == used + GroupSize(k)
    ensures len <= FRAME_CAP
    ensures ThreadBytes(used, groups) == TlvBytes(GroupTlv(Shrunk(groups[0], k))) + ThreadBytes(len, groups[1..])
  {
  }

  lemma {:induction false} Assoc(a: seq<byte>, b: seq<byte>, c: seq<byte>)
    ensures a + (b + c) == a + b + c
  {
  }

  lemma {:induction false} CountFits(count: nat, used: nat, k: nat)
    requires used + GroupSize(0) <= FRAME_CAP && k == EmitCount(count, FRAME_CAP - used)
    ensures k <= count && k <= MAX_TOP && used + GroupSize(k) <= FRAME_CAP
  {
  }

  /** Once group i has gone out, what remains of all the bytes are the groups after it. */
  lemma {:induction false} ThreadBytesMove(
    all: seq<byte>, before: seq<byte>, used: nat, after: seq<byte>, len: nat, groups: seq<ThreadGroup>, i: nat, k: nat)
    requires i < |groups| && used + GroupSize(0) <= FRAME_CAP && StatesSeven(groups)
    requires k == EmitCount(|groups[i].top|, FRAME_CAP - used) && all == before + ThreadBytes(used, groups[i..])
    requires after == before + TlvBytes(GroupTlv(Shrunk(groups[i], k))) && len == used + GroupSize(k)
    ensures len <= FRAME_CAP && all == after + ThreadBytes(len, groups[i + 1..])
  {
    assert groups[i..][1..] == groups[i + 1..];
    ThreadBytesHead(used, groups[i..], k, len);
    Assoc(before, TlvBytes(GroupTlv(Shrunk(groups[i], k))), ThreadBytes(len, groups[i + 1..]));
  }

  lemma {:induction false} ThreadBytesAre(used: nat, groups: seq<ThreadGroup>)
    requires used <= FRAME_CAP && StatesSeven(groups)
    ensures ThreadBytes(used, groups) == Concat(GroupTlvs(Emitted(used, groups)))
    decreases |groups|
  {
    if groups == [] || used + GroupSize(0) > FRAME_CAP {
      EmittedStops(used, groups);
    } else {
      var k := EmitCount(|groups[0].top|, FRAME_CAP - used);
      var len := used + GroupSize(k);
      ThreadBytesHead(used, groups, k, len);
      ThreadBytesAre(len, groups[1..]);
      EmittedNext(used, groups, k, len);
      GroupBytesCons(ThreadBytes(used, groups), Emitted(used, groups), Shrunk(groups[0], k), Emitted(len, groups[1..]),
                     ThreadBytes(len, groups[1..]));
    }
  }

  lemma {:induction false} GroupBytesCons(
    bs: seq<byte>, all: seq<ThreadGroup>, g: ThreadGroup, gs: seq<ThreadGroup>, rest: seq<byte>)
    requires Sendable(g) && (forall i :: 0 <= i < |gs| ==> Sendable(gs[i])) && all == [g] + gs
    requires bs == TlvBytes(GroupTlv(g)) + rest && rest == Concat(GroupTlvs(gs))
    ensures bs == Concat(GroupTlvs(all))
  {
    assert all[1..] == gs;
    ConcatAppend([GroupTlv(g)], GroupTlvs(gs));
    ConcatOne(GroupTlv(g));
  }

  method PushGroup(w: TlvWriter, g: ThreadGroup, k: nat) returns (ok: bool)
    requires w.Valid() && |g.states| == 7 && k <= |g.top| && k <= MAX_TOP
    modifies w`len, w.buffer
    ensures w.Valid() && (ok <==> old(w.len) + GroupSize(k) <= w.buffer.Length)
    ensures ok ==> w.len == old(w.len) + GroupSize(k)
    ensures w.Contents() == old(w.Contents()) + if ok then TlvBytes(GroupTlv(Shrunk(g, k))) else []
  {
    var p := GroupPayload(g, k);
    var t := GroupTlv(Shrunk(g, k));
    ok := w.Put(T_THREAD, p.buf[..p.pos]);
  }

  /** Sends group i, when there is room for its head. */
  method PushNext(w: TlvWriter, groups: seq<ThreadGroup>, i: nat, ghost all: seq<byte>)
    requires w.Valid() && w.buffer.Length == FRAME_CAP && StatesSeven(groups) && i < |groups|
    requires w.len + GroupSize(0) <= FRAME_CAP && all == w.Contents() + ThreadBytes(w.len, groups[i..])
    modifies w`len, w.buffer
    ensures w.Valid() && all == w.Contents() + ThreadBytes(w.len, groups[i + 1..])
  {
    var k := ChooseCount(|groups[i].top|, w.buffer.Length - w.len);
    ghost var before, used := w.Contents(), w.len;
    CountFits(|groups[i].top|, used, k);
    var ok := PushGroup(w, groups[i], k);
    ThreadBytesMove(all, before, used, w.Contents(), w.len, groups, i, k);
  }

  /** Thread groups, until one finds no room for its head. */
  method PushThreads(w: TlvWriter, groups: seq<ThreadGroup>)
    requires w.Valid() && w.buffer.Length == FRAME_CAP && StatesSeven(groups)
    modifies w`len, w.buffer
    ensures w.Valid() && w.Contents() == old(w.Contents()) + ThreadBytes(old(w.len), groups)
  {
    ghost var all := w.Contents() + ThreadBytes(w.len, groups);
    var i := 0;
    while i < |groups|
      invariant 0 <= i <= |groups| && w.Valid()
      invariant all == w.Contents() + ThreadBytes(w.len, groups[i..])
    {
      if GroupSize(0) > w.buffer.Length - w.len {
        break;
      }
      PushNext(w, groups, i, all);
      i := i + 1;
    }
  }
}
