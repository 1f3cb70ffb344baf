/** The frame budget: everything but the thread groups always fits, and thread groups are cut to what is left. */
module Budget {
  import opened Bytes
  import opened Wire
  import opened Encoder

  /** The largest frame without thread groups: the one-byte length caps the disk list at 223 bytes (15 disks) and
      the mount list at 235 (9 mounts). */
  const BASE_MAX: nat := 865

  lemma {:induction false} ConcatOne(t: Tlv)
    ensures Concat([t]) == TlvBytes(t)
  {
    assert [t][1..] == [];
  }

  lemma {:induction false} CountedLength<T>(es: seq<T>, enc: T -> seq<byte>, size: nat)
    requires forall e :: |enc(e)| == size
    ensures |Wire.Counted(es, enc)| == 1 + |es| * size
  {
    EncodeAllLength(es, enc, size);
  }

  lemma {:induction false} HostSize(s: Sample)
    requires |s.hostLabel| < HOST_LABEL_SIZE
    ensures |Concat(HostTlvs(s.hostLabel))| <= 65
  {
    if s.hostLabel != [] {
      ConcatOne(HostTlvs(s.hostLabel)[0]);
    }
  }

  lemma {:induction false} NetSize(s: Sample)
    requires |s.net| <= MAX_INTERFACES
    ensures |Concat(NetTlvs(s.net))| <= 99
  {
    if s.net != [] {
      CountedLength(s.net, EncodeNet, 24);
      ConcatOne(NetTlvs(s.net)[0]);
    }
  }

  lemma {:induction false} DisksLength(es: seq<DiskEntry>)
    ensures |Wire.Counted(es, EncodeDisk)| == 1 + |es| * 66
  {
    CountedLength(es, EncodeDisk, 66);
  }

  lemma {:induction false} MountsLength(es: seq<FsEntry>)
    ensures |Wire.Counted(es, EncodeFs)| == 1 + |es| * 26
  {
    CountedLength(es, EncodeFs, 26);
  }

  /** How much of the disk list survives the cast of its length to one byte. */
  lemma {:induction false} DiskClip(n: nat)
    requires n <= MAX_DISKS
    ensures 0 < (1 + n * 66) % 256 <= 223
  {
    if n <= 3 {
    } else if n <= 7 {
      assert 1 + n * 66 == 256 + (n * 66 - 255);
    } else if n <= 11 {
      assert 1 + n * 66 == 512 + (n * 66 - 511);
    } else if n <= 15 {
      assert 1 + n * 66 == 768 + (n * 66 - 767);
    }
  }

  lemma {:induction false} DiskSize(s: Sample)
    requires |s.disks| <= MAX_DISKS
    ensures |Concat(DiskTlvs(s.disks))| <= 225
  {
    if s.disks != [] {
      DisksLength(s.disks);
      DiskClip(|s.disks|);
      ConcatOne(DiskTlvs(s.disks)[0]);
    }
  }

  lemma {:induction false} FsClip(n: nat)
    requires n <= MAX_FS
    ensures 0 < (1 + n * 26) % 256 <= 235
  {
    if n > 9 {
      assert 1 + n * 26 == 256 + (n * 26 - 255);
    }
  }

  lemma {:induction false} FsSize(s: Sample)
    requires |s.mounts| <= MAX_FS
    ensures |Concat(FsTlvs(s.mounts))| <= 237
  {
    if s.mounts != [] {
      MountsLength(s.mounts);
      FsClip(|s.mounts|);
      ConcatOne(FsTlvs(s.mounts)[0]);
    }
  }

  lemma {:induction false} ProcSize(s: Sample)
    requires |s.procs| <= MAX_GROUPS
    ensures |Concat(ProcTlvs(s.procEnabled, s.procs))| <= 195
  {
    if s.procEnabled {
      CountedLength(s.procs, EncodeProc, 24);
      ConcatOne(ProcTlvs(s.procEnabled, s.procs)[0]);
    }
  }

  lemma {:induction false} BaseParts(s: Sample)
    ensures Concat(BaseTlvs(s)) ==
            Concat(HostTlvs(s.hostLabel)) + TlvBytes(CpuTlv(s.cpu)) + TlvBytes(MemTlv(s.mem))
                + Concat(NetTlvs(s.net)) + Concat(DiskTlvs(s.disks))
            + Concat(FsTlvs(s.mounts)) + Concat(ProcTlvs(s.procEnabled, s.procs))
  {
    var a := HostTlvs(s.hostLabel);
    var b := a + [CpuTlv(s.cpu)];
    var c := b + [MemTlv(s.mem)];
    var d := c + NetTlvs(s.net);
    var e := d + DiskTlvs(s.disks);
    var f := e + FsTlvs(s.mounts);
    ConcatAppend(a, [CpuTlv(s.cpu)]);
    ConcatAppend(b, [MemTlv(s.mem)]);
    ConcatAppend(c, NetTlvs(s.net));
    ConcatAppend(d, DiskTlvs(s.disks));
    ConcatAppend(e, FsTlvs(s.mounts));
    ConcatAppend(f, ProcTlvs(s.procEnabled, s.procs));
    ConcatOne(CpuTlv(s.cpu));
    ConcatOne(MemTlv(s.mem));
  }

  /** No push but that of the thread groups can ever run out of room. */
  lemma {:induction false} BaseAlwaysFits(s: Sample)
    requires ValidSample(s)
    ensures |BaseBytes(s)| <= BASE_MAX
  {
    BaseParts(s);
    HostSize(s);
    NetSize(s);
    DiskSize(s);
    FsSize(s);
    ProcSize(s);
  }

  // ---------------------------------------------------------------- thread groups

  function PlanSize(ks: seq<nat>): (n: nat) {
    if ks == [] then 0 else GroupSize(ks[0]) + PlanSize(ks[1..])
  }

  lemma {:induction false} PlanFits(used: nat, counts: seq<nat>)
    requires used <= FRAME_CAP
    ensures used + PlanSize(Plan(used, counts)) <= FRAME_CAP
    decreases |counts|
  {
    if counts != [] && GroupSize(0) <= FRAME_CAP - used {
      var k := EmitCount(counts[0], FRAME_CAP - used);
      PlanFits(used + GroupSize(k), counts[1..]);
      assert Plan(used, counts)[1..] == Plan(used + GroupSize(k), counts[1..]);
    }
  }

  /** Each group in turn carries as many of its threads as fit behind those before it, and the list of groups stops
      short only where not even the head of the next one fits. */
  predicate Maximal(used: nat, counts: seq<nat>, ks: seq<nat>)
    decreases |ks|
  {
    if ks == [] then counts == [] || used + GroupSize(0) > FRAME_CAP
    else
      && counts != [] && ks[0] <= counts[0] && used + GroupSize(ks[0]) <= FRAME_CAP
      && (ks[0] < counts[0] ==> used + GroupSize(ks[0] + 1) > FRAME_CAP)
      && Maximal(used + GroupSize(ks[0]), counts[1..], ks[1..])
  }

  lemma {:induction false} PlanIsMaximal(used: nat, counts: seq<nat>)
    requires used <= FRAME_CAP && forall i :: 0 <= i < |counts| ==> counts[i] <= MAX_TOP
    ensures Maximal(used, counts, Plan(used, counts))
    decreases |counts|
  {
    var ks := Plan(used, counts);
    if ks != [] {
      LargestCount(used, counts);
      assert ks[1..] == Plan(used + GroupSize(ks[0]), counts[1..]);
      PlanIsMaximal(used + GroupSize(ks[0]), counts[1..]);
    }
  }

  lemma {:induction false} LargestCount(used: nat, counts: seq<nat>)
    requires used <= FRAME_CAP && counts != [] && counts[0] <= MAX_TOP
    ensures var ks := Plan(used, counts);
            if ks == [] then GroupSize(0) > FRAME_CAP - used
            else
              && GroupSize(ks[0]) <= FRAME_CAP - used
              && (ks[0] < counts[0] ==> GroupSize(ks[0] + 1) > FRAME_CAP - used)
  {
  }

  lemma {:induction false} GroupsSize(gs: seq<ThreadGroup>)
    requires forall i :: 0 <= i < |gs| ==> Sendable(gs[i])
    ensures |Concat(GroupTlvs(gs))| == PlanSize(TopCounts(gs))
  {
    if gs != [] {
      GroupsSize(gs[1..]);
      assert TopCounts(gs)[1..] == TopCounts(gs[1..]);
      assert GroupTlvs(gs)[1..] == GroupTlvs(gs[1..]);
    }
  }

  lemma {:induction false} EmittedCounts(used: nat, groups: seq<ThreadGroup>)
    requires used <= FRAME_CAP
    ensures TopCounts(Emitted(used, groups)) == Plan(used, TopCounts(groups))
  {
  }

  /** The thread groups that go out: each with the longest prefix of its top threads that fits, and marked truncated
      exactly when threads were left out here or already at collection. They never overrun the frame. */
  lemma {:induction false} EmissionIsMaximal(used: nat, groups: seq<ThreadGroup>)
    requires used <= FRAME_CAP && StatesSeven(groups) && forall i :: 0 <= i < |groups| ==> |groups[i].top| <= MAX_TOP
    ensures var r := Emitted(used, groups);
            && Maximal(used, TopCounts(groups), TopCounts(r))
            && used + |Concat(GroupTlvs(r))| <= FRAME_CAP
            && forall i :: 0 <= i < |r| ==>
                 && r[i].top <= groups[i].top
                 && (r[i].truncated <==> groups[i].truncated || |r[i].top| < |groups[i].top|)
                 && r[i].(top := groups[i].top, truncated := groups[i].truncated) == groups[i]
  {
    EmittedCounts(used, groups);
    PlanIsMaximal(used, TopCounts(groups));
    PlanFits(used, TopCounts(groups));
    GroupsSize(Emitted(used, groups));
  }

  lemma {:induction false} PlanWhole(used: nat, counts: seq<nat>)
    requires counts != [] && counts[0] <= MAX_TOP && used + GroupSize(counts[0]) <= FRAME_CAP
    ensures Plan(used, counts) == [counts[0]] + Plan(used + GroupSize(counts[0]), counts[1..])
  {
    assert EmitCount(counts[0], FRAME_CAP - used) == counts[0];
  }

  /** When all groups fit, none is cut. */
  lemma {:induction false} NothingCut(used: nat, counts: seq<nat>)
    requires used + PlanSize(counts) <= FRAME_CAP && forall i :: 0 <= i < |counts| ==> counts[i] <= MAX_TOP
    ensures Plan(used, counts) == counts
    decreases |counts|
  {
    if counts != [] {
      PlanWhole(used, counts);
      NothingCut(used + GroupSize(counts[0]), counts[1..]);
    }
  }

  /** Whether the groups use up the frame to its last byte: they end there of themselves, or the first one that does not
      fit whole leaves no rest when the room after its head is divided among threads. */
  predicate Fills(used: nat, counts: seq<nat>)
    requires used <= FRAME_CAP
    decreases |counts|
  {
    var room := FRAME_CAP - used;
    if counts == [] || room < 36 then room == 0
    else if GroupSize(counts[0]) <= room then Fills(used + GroupSize(counts[0]), counts[1..])
    else (room - 36) % 28 == 0
  }

  lemma {:induction false} CutGroupIsLast(used: nat, counts: seq<nat>)
    requires used + 36 <= FRAME_CAP && counts != [] && counts[0] <= MAX_TOP && used + GroupSize(counts[0]) > FRAME_CAP
    ensures used + PlanSize(Plan(used, counts)) == FRAME_CAP - (FRAME_CAP - used - 36) % 28
  {
    var k := EmitCount(counts[0], FRAME_CAP - used);
    assert k == (FRAME_CAP - used - 36) / 28;
    var tail := Plan(used + GroupSize(k), counts[1..]);
    assert FRAME_CAP - (used + GroupSize(k)) == (FRAME_CAP - used - 36) % 28;
    assert tail == [] && ([k] + tail)[1..] == tail;
  }

  lemma {:induction false} FullPlan(used: nat, counts: seq<nat>)
    requires used <= FRAME_CAP && forall i :: 0 <= i < |counts| ==> counts[i] <= MAX_TOP
    ensures used + PlanSize(Plan(used, counts)) == FRAME_CAP <==> Fills(used, counts)
    decreases |counts|
  {
    if counts != [] && FRAME_CAP - used >= 36 {
      if used + GroupSize(counts[0]) <= FRAME_CAP {
        PlanWhole(used, counts);
        FullPlan(used + GroupSize(counts[0]), counts[1..]);
        assert Plan(used, counts)[1..] == Plan(used + GroupSize(counts[0]), counts[1..]);
      } else {
        CutGroupIsLast(used, counts);
      }
    }
  }

  lemma {:induction false} PlanStarts(used: nat, counts: seq<nat>)
    requires used <= BASE_MAX && forall i :: 0 <= i < |counts| ==> counts[i] <= MAX_TOP
    ensures var ks := Plan(used, counts);
            && (|counts| > 0 ==> |ks| > 0 && ks[0] == counts[0])
            && (|counts| > 1 ==> |ks| > 1 && ks[1] == counts[1])
            && (|counts| > 2 ==> |ks| > 2 && (counts[2] > 0 ==> ks[2] > 0))
  {
    if |counts| > 0 {
      var u1, c1 := used + GroupSize(counts[0]), counts[1..];
      PlanWhole(used, counts);
      if |counts| > 1 {
        var u2, c2 := u1 + GroupSize(c1[0]), c1[1..];
        PlanWhole(u1, c1);
        if |counts| > 2 {
          LargestCount(u2, c2);
          assert c2[0] == counts[2];
        }
      }
    }
  }

  /** Whatever else the sample holds, the first two thread groups always go out whole, and a third one always goes
      out with at least its first thread. */
  lemma {:induction false} FirstGroupsGoOut(used: nat, groups: seq<ThreadGroup>)
    requires used <= BASE_MAX && forall i :: 0 <= i < |groups| ==> |groups[i].top| <= MAX_TOP
    ensures var r := Emitted(used, groups);
            && (|groups| > 0 ==> |r| > 0 && r[0] == groups[0])
            && (|groups| > 1 ==> |r| > 1 && r[1] == groups[1])
            && (|groups| > 2 ==> |r| > 2 && (groups[2].top != [] ==> r[2].top != []))
  {
    PlanStarts(used, TopCounts(groups));
  }
}
