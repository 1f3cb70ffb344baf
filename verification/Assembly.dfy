/** One frame of the agent's main loop: header, host label, then every collector's push, in order. */
module Assembly {
  import opened Bytes
  import opened Wire
  import opened Encoder
  import opened Budget
  import opened Writer

  function ScalarBytes(s: Sample): (bs: seq<byte>) {
    Concat(HostTlvs(s.hostLabel)) + Concat([CpuTlv(s.cpu)]) + Concat([MemTlv(s.mem)])
  }

  function ListBytes(s: Sample): (bs: seq<byte>) {
    Concat(NetTlvs(s.net)) + Concat(DiskTlvs(s.disks)) + Concat(FsTlvs(s.mounts))
        + Concat(ProcTlvs(s.procEnabled, s.procs))
  }

  lemma {:induction false} BaseIsScalarsAndLists(s: Sample)
    ensures BaseBytes(s) == Header(s.timestamp, s.sequence) + ScalarBytes(s) + ListBytes(s)
  {
    BaseParts(s);
    ConcatOne(CpuTlv(s.cpu));
    ConcatOne(MemTlv(s.mem));
    ScalarsFirst(Header(s.timestamp, s.sequence), ScalarBytes(s), Concat(NetTlvs(s.net)), Concat(DiskTlvs(s.disks)),
            Concat(FsTlvs(s.mounts)), Concat(ProcTlvs(s.procEnabled, s.procs)));
  }

  lemma {:induction false} ScalarsFirst(
    h: seq<byte>, a: seq<byte>, b: seq<byte>, c: seq<byte>, d: seq<byte>, e: seq<byte>)
    ensures h + (a + b + c + d + e) == h + a + (b + c + d + e)
  {
  }

  method PushScalars(w: TlvWriter, s: Sample) returns (errors: nat)
    requires w.Valid() && w.len + |ScalarBytes(s)| <= w.buffer.Length
    modifies w`len, w.buffer
    ensures w.Valid() && errors == 0 && w.Contents() == old(w.Contents()) + ScalarBytes(s)
  {
    ghost var a, b, c := Concat(HostTlvs(s.hostLabel)), Concat([CpuTlv(s.cpu)]), Concat([MemTlv(s.mem)]);
    Assoc(w.Contents(), a + b, c);
    Assoc(w.Contents(), a, b);
    var host := PushHost(w, s.hostLabel);
    var cpu := PushCpu(w, s.cpu);
    var mem := PushMem(w, s.mem);
    errors := Failed(cpu) + Failed(mem);
  }

  function Failed(ok: bool): (n: nat) {
    if ok then 0 else 1
  }

  method PushCounters(w: TlvWriter, s: Sample) returns (errors: nat)
    requires w.Valid() && w.len + |Concat(NetTlvs(s.net)) + Concat(DiskTlvs(s.disks))| <= w.buffer.Length
    requires |s.net| <= MAX_INTERFACES && |s.disks| <= MAX_DISKS
    modifies w`len, w.buffer
    ensures w.Valid() && errors == 0
    ensures w.Contents() == old(w.Contents()) + (Concat(NetTlvs(s.net)) + Concat(DiskTlvs(s.disks)))
  {
    Assoc(w.Contents(), Concat(NetTlvs(s.net)), Concat(DiskTlvs(s.disks)));
    var net := PushNet(w, s.net);
    var disk := PushDisk(w, s.disks);
    errors := Failed(net) + Failed(disk);
  }

  method PushUsage(w: TlvWriter, s: Sample) returns (errors: nat)
    requires w.Valid()
    requires w.len + |Concat(FsTlvs(s.mounts)) + Concat(ProcTlvs(s.procEnabled, s.procs))| <= w.buffer.Length
    requires |s.mounts| <= MAX_FS && |s.procs| <= MAX_GROUPS
    modifies w`len, w.buffer
    ensures w.Valid() && errors == 0
    ensures w.Contents() == old(w.Contents()) + (Concat(FsTlvs(s.mounts)) + Concat(ProcTlvs(s.procEnabled, s.procs)))
  {
    Assoc(w.Contents(), Concat(FsTlvs(s.mounts)), Concat(ProcTlvs(s.procEnabled, s.procs)));
    var fs := PushFs(w, s.mounts);
    var proc := PushProc(w, s.procEnabled, s.procs);
    errors := Failed(fs) + Failed(proc);
  }

  method PushLists(w: TlvWriter, s: Sample) returns (errors: nat)
    requires w.Valid() && w.len + |ListBytes(s)| <= w.buffer.Length
    requires |s.net| <= MAX_INTERFACES && |s.disks| <= MAX_DISKS && |s.mounts| <= MAX_FS && |s.procs| <= MAX_GROUPS
    modifies w`len, w.buffer
    ensures w.Valid() && errors == 0 && w.Contents() == old(w.Contents()) + ListBytes(s)
  {
    TwoByTwo(w.Contents(), Concat(NetTlvs(s.net)), Concat(DiskTlvs(s.disks)), Concat(FsTlvs(s.mounts)),
             Concat(ProcTlvs(s.procEnabled, s.procs)));
    errors := PushCounters(w, s);
    var more := PushUsage(w, s);
    errors := errors + more;
  }

  lemma {:induction false} TwoByTwo(h: seq<byte>, a: seq<byte>, b: seq<byte>, c: seq<byte>, d: seq<byte>)
    ensures h + (a + b + c + d) == h + (a + b) + (c + d)
  {
  }

  method PushBase(w: TlvWriter, s: Sample) returns (errors: nat)
    requires w.Valid() && w.buffer.Length >= |BaseBytes(s)|
    requires |s.net| <= MAX_INTERFACES && |s.disks| <= MAX_DISKS && |s.mounts| <= MAX_FS && |s.procs| <= MAX_GROUPS
    modifies w`len, w.buffer
    ensures w.Valid() && errors == 0 && w.Contents() == BaseBytes(s)
  {
    BaseIsScalarsAndLists(s);
    var ok := w.Init(s.timestamp, s.sequence);
    errors := PushScalars(w, s);
    var more := PushLists(w, s);
    errors := errors + more;
  }

  lemma {:induction false} FrameIs(s: Sample)
    requires |BaseBytes(s)| <= FRAME_CAP && StatesSeven(s.threads)
    ensures FrameBytes(s)
         == if s.procEnabled && s.threadEnabled then BaseBytes(s) + ThreadBytes(|BaseBytes(s)|, s.threads)
                             else BaseBytes(s)
  {
    ThreadBytesAre(|BaseBytes(s)|, s.threads);
  }

  lemma {:induction false} ValidSizes(s: Sample)
    requires ValidSample(s)
    ensures |s.net| <= MAX_INTERFACES && |s.disks| <= MAX_DISKS && |s.mounts| <= MAX_FS && |s.procs| <= MAX_GROUPS
    ensures |BaseBytes(s)| <= BASE_MAX && StatesSeven(s.threads)
  {
    BaseAlwaysFits(s);
  }

  /** Whatever the sample, no push fails and the buffer ends up holding exactly the sample's frame. */
  method AssembleFrame(w: TlvWriter, s: Sample) returns (errors: nat)
    requires w.Valid() && w.buffer.Length == FRAME_CAP && ValidSample(s)
    modifies w`len, w.buffer
    ensures |BaseBytes(s)| <= FRAME_CAP && StatesSeven(s.threads)
    ensures w.Valid() && errors == 0 && w.Contents() == FrameBytes(s)
  {
    ValidSizes(s);
    errors := PushFrame(w, s);
  }

  method PushFrame(w: TlvWriter, s: Sample) returns (errors: nat)
    requires w.Valid() && w.buffer.Length == FRAME_CAP && |BaseBytes(s)| <= FRAME_CAP && StatesSeven(s.threads)
    requires |s.net| <= MAX_INTERFACES && |s.disks| <= MAX_DISKS && |s.mounts| <= MAX_FS && |s.procs| <= MAX_GROUPS
    modifies w`len, w.buffer
    ensures w.Valid() && errors == 0 && w.Contents() == FrameBytes(s)
  {
    FrameIs(s);
    errors := PushBase(w, s);
    if s.procEnabled && s.threadEnabled {
      PushThreads(w, s.threads);
    }
  }

  // ---------------------------------------------------------------- the length of the frame

  lemma {:induction false} FrameLength(s: Sample)
    requires |BaseBytes(s)| <= FRAME_CAP && StatesSeven(s.threads) && s.procEnabled && s.threadEnabled
    ensures |FrameBytes(s)| == |BaseBytes(s)| + PlanSize(Plan(|BaseBytes(s)|, TopCounts(s.threads)))
  {
    GroupsSize(Emitted(|BaseBytes(s)|, s.threads));
    EmittedCounts(|BaseBytes(s)|, s.threads);
  }

  /** The frame never exceeds the 1400-byte buffer. */
  lemma {:induction false} FrameFits(s: Sample)
    requires ValidSample(s)
    ensures |BaseBytes(s)| <= BASE_MAX && StatesSeven(s.threads) && |FrameBytes(s)| <= FRAME_CAP
  {
    ValidSizes(s);
    if s.procEnabled && s.threadEnabled {
      FrameLength(s);
      PlanFits(|BaseBytes(s)|, TopCounts(s.threads));
    } else {
      FrameIs(s);
    }
  }

  /** But it can fill the buffer to the last byte: five whole groups of seven threads, and of a sixth only the head. The
      documentation's "always below 1400 bytes" is off by one. */
  lemma {:induction false} FrameCanFillTheBuffer(s: Sample, c: nat)
    requires ValidSample(s) && s.procEnabled && s.threadEnabled && 1 <= c <= MAX_TOP
    requires |s.hostLabel| == 35 && s.net == [] && s.disks == [] && s.mounts == [] && |s.procs| == 5
    requires TopCounts(s.threads) == [7, 7, 7, 7, 7, c]
    ensures |BaseBytes(s)| == 204 && StatesSeven(s.threads) && |FrameBytes(s)| == FRAME_CAP
  {
    SmallBase(s);
    ValidSizes(s);
    FrameLength(s);
    FiveAndAHead(c);
    FullPlan(204, [7, 7, 7, 7, 7, c]);
  }

  /** Exactly when the documented strict bound holds. */
  lemma {:induction false} FrameBelowCapUnlessFilled(s: Sample)
    requires ValidSample(s)
    ensures |BaseBytes(s)| <= FRAME_CAP && StatesSeven(s.threads)
    ensures |FrameBytes(s)| < FRAME_CAP
       <==> !(s.procEnabled && s.threadEnabled && Fills(|BaseBytes(s)|, TopCounts(s.threads)))
  {
    FrameFits(s);
    if s.procEnabled && s.threadEnabled {
      FrameLength(s);
      ShortLists(s);
      FullPlan(|BaseBytes(s)|, TopCounts(s.threads));
    } else {
      FrameIs(s);
    }
  }

  lemma {:induction false} ShortLists(s: Sample)
    requires ValidSample(s)
    ensures forall i :: 0 <= i < |TopCounts(s.threads)| ==> TopCounts(s.threads)[i] <= MAX_TOP
  {
  }

  lemma {:induction false} SmallBase(s: Sample)
    requires |s.hostLabel| == 35 && s.net == [] && s.disks == [] && s.mounts == [] && |s.procs| == 5 && s.procEnabled
    ensures |BaseBytes(s)| == 204
  {
    BaseIsScalarsAndLists(s);
    ConcatOne(HostTlvs(s.hostLabel)[0]);
    ConcatOne(CpuTlv(s.cpu));
    ConcatOne(MemTlv(s.mem));
    CountedLength(s.procs, EncodeProc, 24);
    ConcatOne(ProcTlvs(s.procEnabled, s.procs)[0]);
  }

  lemma {:induction false} FiveAndAHead(c: nat)
    requires 1 <= c <= MAX_TOP
    ensures Fills(204, [7, 7, 7, 7, 7, c])
  {
    assert [7, 7, 7, 7, 7, c][1..] == [7, 7, 7, 7, c] && [7, 7, 7, 7, c][1..] == [7, 7, 7, c];
    assert [7, 7, 7, c][1..] == [7, 7, c] && [7, 7, c][1..] == [7, c] && [7, c][1..] == [c];
    assert Fills(1364, [c]);
    assert Fills(900, [7, 7, c]);
  }
}
