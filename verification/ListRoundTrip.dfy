/** Lists of disks and mounts as they come back through the parser, in both generations of their entries, and what
    the cast of a list's length to one byte leaves of it. */
module ListRoundTrip {
  import opened Arith
  import opened Bytes
  import opened Wire
  import opened Parser
  import opened Encoder
  import opened Budget

  // ---------------------------------------------------------------- lists of entries

  lemma {:induction false} EntriesComeBack<T(!new)>(
    prefix: seq<byte>, es: seq<T>, enc: T -> seq<byte>, dec: seq<byte> --> T, size: nat)
    requires Takes(dec, size) && forall e :: |enc(e)| == size
    requires forall i :: 0 <= i < |es| ==> dec(enc(es[i])) == es[i]
    ensures ReadEntries(prefix + EncodeAll(es, enc), |prefix|, |es|, size, dec) == es
    decreases |es|
  {
    if es != [] {
      var val := prefix + EncodeAll(es, enc);
      var prefix' := prefix + enc(es[0]);
      assert val == prefix' + EncodeAll(es[1..], enc);
      assert val[|prefix|..|prefix| + size] == enc(es[0]);
      EntriesComeBack(prefix', es[1..], enc, dec, size);
    }
  }

  lemma {:induction false} Peel(n: nat, w: nat)
    requires n > 0
    ensures n * w == w + (n - 1) * w && (n - 1) * w >= 0
  {
  }

  /** With the wide layout announced and every entry complete, only the wide decoder is used. */
  lemma {:induction false} WideOnly<T(!new)>(val: seq<byte>, p: nat, count: nat, average: nat, l: Layouts<T>)
    requires Sound(l) && average >= l.wide && p + count * l.wide <= |val|
    ensures ReadGenerations(val, p, count, average, l) == ReadEntries(val, p, count, l.wide, l.decWide)
    decreases count
  {
    if count > 0 {
      Peel(count, l.wide);
      WideOnly(val, p + l.wide, count - 1, average, l);
    }
  }

  /** With a smaller average entry only the narrow decoder is used. */
  lemma {:induction false} NarrowOnly<T(!new)>(val: seq<byte>, p: nat, count: nat, average: nat, l: Layouts<T>)
    requires Sound(l) && average < l.wide
    ensures ReadGenerations(val, p, count, average, l) == ReadEntries(val, p, count, l.narrow, l.decNarrow)
    decreases count
  {
    if count > 0 && p + l.narrow <= |val| {
      NarrowOnly(val, p + l.narrow, count - 1, average, l);
    }
  }

  lemma {:induction false} AverageIs<T>(es: seq<T>, enc: T -> seq<byte>, size: nat)
    requires 0 < |es| < 256 && forall e :: |enc(e)| == size
    ensures Wire.Counted(es, enc)[0] == |es| && Average(Wire.Counted(es, enc)) == size
    ensures |Wire.Counted(es, enc)| == 1 + |es| * size
  {
    CountedLength(es, enc, size);
    DivIs(|es| * size, |es|, size, 0);
  }

  lemma {:induction false} WideListComesBack<T(!new)>(es: seq<T>, enc: T -> seq<byte>, l: Layouts<T>)
    requires Sound(l) && 0 < |es| < 256 && forall e :: |enc(e)| == l.wide
    requires forall i :: 0 <= i < |es| ==> l.decWide(enc(es[i])) == es[i]
    ensures var val := Wire.Counted(es, enc);
            ReadGenerations(val, 1, val[0], Average(val), l) == es
  {
    AverageIs(es, enc, l.wide);
    WideOnly(Wire.Counted(es, enc), 1, |es|, l.wide, l);
    EntriesComeBack([|es|], es, enc, l.decWide, l.wide);
  }

  lemma {:induction false} NarrowListComesBack<T(!new)>(es: seq<T>, enc: T -> seq<byte>, l: Layouts<T>)
    requires Sound(l) && 0 < |es| < 256 && l.narrow < l.wide && forall e :: |enc(e)| == l.narrow
    requires forall i :: 0 <= i < |es| ==> l.decNarrow(enc(es[i])) == es[i]
    ensures var val := Wire.Counted(es, enc);
            ReadGenerations(val, 1, val[0], Average(val), l) == es
  {
    AverageIs(es, enc, l.narrow);
    NarrowOnly(Wire.Counted(es, enc), 1, |es|, l.narrow, l);
    EntriesComeBack([|es|], es, enc, l.decNarrow, l.narrow);
  }

  // ---------------------------------------------------------------- both generations of disks and mounts

  lemma {:induction false} DisksComeBack(es: seq<DiskEntry>)
    requires 0 < |es| < 256 && forall i :: 0 <= i < |es| ==> ValidDisk(es[i])
    ensures ReadDisks(Wire.Counted(es, EncodeDisk)) == es
  {
    forall i | 0 <= i < |es| ensures DecodeDisk(EncodeDisk(es[i])) == es[i] {
      DiskComesBack(es[i]);
    }
    WideListComesBack(es, EncodeDisk, DISK_LAYOUTS);
  }

  lemma {:induction false} LegacyDisksComeBack(es: seq<DiskEntry>)
    requires 0 < |es| < 256 && forall i :: 0 <= i < |es| ==> ValidLegacyDisk(es[i])
    ensures ReadDisks(Wire.Counted(es, EncodeLegacyDisk)) == es
  {
    forall i | 0 <= i < |es| ensures DecodeLegacyDisk(EncodeLegacyDisk(es[i])) == es[i] {
      LegacyDiskComesBack(es[i]);
    }
    NarrowListComesBack(es, EncodeLegacyDisk, DISK_LAYOUTS);
  }

  lemma {:induction false} MountsComeBack(es: seq<FsEntry>)
    requires 0 < |es| < 256 && forall i :: 0 <= i < |es| ==> ValidFs(es[i])
    ensures ReadMounts(Wire.Counted(es, EncodeFs)) == es
  {
    forall i | 0 <= i < |es| ensures DecodeFs(EncodeFs(es[i])) == es[i] {
      FsComesBack(es[i]);
    }
    WideListComesBack(es, EncodeFs, FS_LAYOUTS);
  }

  lemma {:induction false} LegacyMountsComeBack(es: seq<FsEntry>)
    requires 0 < |es| < 256 && forall i :: 0 <= i < |es| ==> ValidLegacyFs(es[i])
    ensures ReadMounts(Wire.Counted(es, EncodeLegacyFs)) == es
  {
    forall i | 0 <= i < |es| ensures DecodeLegacyFs(EncodeLegacyFs(es[i])) == es[i] {
      LegacyFsComesBack(es[i]);
    }
    NarrowListComesBack(es, EncodeLegacyFs, FS_LAYOUTS);
  }

  // ---------------------------------------------------------------- pieces of a list

  /** Everything after the count byte, cut into entries of one size; an incomplete last piece is dropped. */
  function Pieces<T(!new)>(val: seq<byte>, size: nat, dec: seq<byte> --> T): (r: seq<T>)
    requires val != [] && Takes(dec, size)
    ensures |r| == (|val| - 1) / size
  {
    seq((|val| - 1) / size, i requires 0 <= i < (|val| - 1) / size =>
      PieceFits(|val| - 1, size, i);
      dec(val[1 + i * size..1 + i * size + size]))
  }

  lemma {:induction false} PieceFits(x: nat, size: nat, i: nat)
    requires size > 0
    ensures i < x / size <==> i * size + size <= x
  {
    var q := x / size;
    assert x == size * q + x % size;
    MulSucc(size, i);
    MulSucc(size, q);
    if i < q {
      MulMono(size, i + 1, q);
    } else {
      MulMono(size, q + 1, i + 1);
    }
  }

  lemma {:induction false} EntriesArePieces<T(!new)>(
    val: seq<byte>, p: nat, k: nat, count: nat, size: nat, dec: seq<byte> --> T)
    requires val != [] && Takes(dec, size) && p == 1 + k * size && k <= (|val| - 1) / size <= k + count
    ensures ReadEntries(val, p, count, size, dec) == Pieces(val, size, dec)[k..]
    decreases count
  {
    PieceFits(|val| - 1, size, k);
    if k < (|val| - 1) / size {
      NextPiece(k, size);
      EntriesArePieces(val, p + size, k + 1, count - 1, size, dec);
      assert Pieces(val, size, dec)[k..] == [Pieces(val, size, dec)[k]] + Pieces(val, size, dec)[k + 1..];
    }
  }

  lemma {:induction false} NextPiece(k: nat, size: nat)
    ensures 1 + (k + 1) * size == 1 + k * size + size
  {
  }

  /** A list cut below the wide layout's average is read as pieces of the narrow one. */
  lemma {:induction false} ReadAsPieces<T(!new)>(val: seq<byte>, l: Layouts<T>)
    requires val != [] && Sound(l) && Average(val) < l.wide && (|val| - 1) / l.narrow <= val[0]
    ensures ReadGenerations(val, 1, val[0], Average(val), l) == Pieces(val, l.narrow, l.decNarrow)
  {
    NarrowOnly(val, 1, val[0], Average(val), l);
    QuotientAndRest(|val| - 1, l.narrow);
    EntriesArePieces(val, 1, 0, val[0], l.narrow, l.decNarrow);
    AllPieces(Pieces(val, l.narrow, l.decNarrow));
  }

  lemma {:induction false} AllPieces<T>(r: seq<T>)
    ensures r[0..] == r
  {
  }

  // ---------------------------------------------------------------- what arrives of a list whose length is cast

  lemma {:induction false} CountByteLeft<T>(es: seq<T>, enc: T -> seq<byte>)
    requires |es| < 256 && |Wire.Counted(es, enc)| % 256 > 0
    ensures Clip(Wire.Counted(es, enc))[0] == |es|
  {
    assert Wire.Counted(es, enc)[0] == |es|;
  }

  lemma {:induction false} ClippedDisks(es: seq<DiskEntry>)
    requires |es| <= MAX_DISKS
    ensures |Clip(Wire.Counted(es, EncodeDisk))| == 1 + 66 * |es| % 256 && Clip(Wire.Counted(es, EncodeDisk))[0] == |es|
  {
    DisksLength(es);
    DisksLeft(|Wire.Counted(es, EncodeDisk)|, |es|);
    CountByteLeft(es, EncodeDisk);
  }

  lemma {:induction false} DisksLeft(length: nat, n: nat)
    requires n <= MAX_DISKS && length == 1 + n * 66
    ensures length % 256 == 1 + 66 * n % 256 && length % 256 > 0
  {
    DiskRest(n);
  }

  lemma {:induction false} ClippedMounts(es: seq<FsEntry>)
    requires |es| <= MAX_FS
    ensures |Clip(Wire.Counted(es, EncodeFs))| == 1 + 26 * |es| % 256 && Clip(Wire.Counted(es, EncodeFs))[0] == |es|
  {
    MountsLength(es);
    FsRest(|es|);
    CountByteLeft(es, EncodeFs);
  }

  lemma {:induction false} BelowAverage(x: nat, n: nat, w: nat)
    requires n > 0 && x < w * n
    ensures x / n < w
  {
    if x / n >= w {
      MulMono(n, w, x / n);
    }
  }

  /** How many bytes of entries are left, how many narrow entries they make, and that these are fewer than were sent. */
  lemma {:induction false} DiskRest(n: nat)
    requires n <= MAX_DISKS
    ensures (1 + n * 66) % 256 == 1 + 66 * n % 256
    ensures n <= 3 ==> 66 * n % 256 == 66 * n
    ensures n > 3 ==> 66 * n % 256 / 42 < n && 66 * n % 256 < 66 * n && (n % 4 == 0 ==> 66 * n % 256 / 42 == 0)
  {
    var q := if n <= 3 then 0 else if n <= 7 then 1 else if n <= 11 then 2 else if n <= 15 then 3 else 4;
    var r := 66 * n - 256 * q;
    DivIs(66 * n, 256, q, r);
    DivIs(1 + n * 66, 256, q, 1 + r);
    if n > 3 {
      BelowAverage(r, 42, n);
    }
  }

  lemma {:induction false} FsRest(n: nat)
    requires n <= MAX_FS
    ensures (1 + n * 26) % 256 == 1 + 26 * n % 256
    ensures n <= 9 ==> 26 * n % 256 == 26 * n
    ensures n > 9 ==> 26 * n % 256 / 22 < n && 26 * n % 256 < 26 * n
  {
    var q := if n <= 9 then 0 else 1;
    var r := 26 * n - 256 * q;
    DivIs(26 * n, 256, q, r);
    DivIs(1 + n * 26, 256, q, 1 + r);
    if n > 9 {
      BelowAverage(r, 22, n);
    }
  }

  /** The disk list as it arrives: up to three disks whole, and of more only what the cast of the length leaves, read in
      the layout of 42 bytes. */
  function ArrivingDisks(es: seq<DiskEntry>): (r: seq<DiskEntry>)
    requires |es| <= MAX_DISKS
  {
    if |es| <= 3 then es
    else
      ClippedDisks(es);
      Pieces(Clip(Wire.Counted(es, EncodeDisk)), 42, DecodeLegacyDisk)
  }

  /** The mount list: up to nine mounts whole, and of more what is left, read in the layout of 22 bytes. */
  function ArrivingMounts(es: seq<FsEntry>): (r: seq<FsEntry>)
    requires |es| <= MAX_FS
  {
    if |es| <= 9 then es
    else
      ClippedMounts(es);
      Pieces(Clip(Wire.Counted(es, EncodeFs)), 22, DecodeLegacyFs)
  }

  /** After the cast of its length to one byte, the disk list comes back if and only if it has at most three entries;
      of a longer one as many arrive as 42-byte entries fit in what is left, none at all of 4, 8, 12 or 16. */
  lemma {:induction false} DisksComeBackUpToThree(es: seq<DiskEntry>)
    requires 0 < |es| <= MAX_DISKS && forall i :: 0 <= i < |es| ==> ValidDisk(es[i])
    ensures Clip(Wire.Counted(es, EncodeDisk)) != []
    ensures ReadDisks(Clip(Wire.Counted(es, EncodeDisk))) == ArrivingDisks(es)
    ensures ArrivingDisks(es) == es <==> |es| <= 3
    ensures |es| > 3 ==> |ArrivingDisks(es)| == 66 * |es| % 256 / 42
    ensures |es| % 4 == 0 ==> ArrivingDisks(es) == []
  {
    ClippedDisks(es);
    DisksLength(es);
    DisksArrive(es, Clip(Wire.Counted(es, EncodeDisk)));
    HowManyDisksArrive(es);
  }

  lemma {:induction false} DisksArrive(es: seq<DiskEntry>, val: seq<byte>)
    requires 0 < |es| <= MAX_DISKS && val == Clip(Wire.Counted(es, EncodeDisk))
    requires |val| == 1 + 66 * |es| % 256 && val[0] == |es| && |Wire.Counted(es, EncodeDisk)| == 1 + |es| * 66
    requires forall i :: 0 <= i < |es| ==> ValidDisk(es[i])
    ensures ReadDisks(val) == ArrivingDisks(es)
  {
    if |es| <= 3 {
      WholeDisks(es, val);
    } else {
      CutDisks(es, val);
    }
  }

  lemma {:induction false} HowManyDisksArrive(es: seq<DiskEntry>)
    requires 0 < |es| <= MAX_DISKS
    ensures ArrivingDisks(es) == es <==> |es| <= 3
    ensures |es| > 3 ==> |ArrivingDisks(es)| == 66 * |es| % 256 / 42
    ensures |es| % 4 == 0 ==> ArrivingDisks(es) == []
  {
    if |es| > 3 {
      ClippedDisks(es);
      CutDisks(es, Clip(Wire.Counted(es, EncodeDisk)));
    }
  }

  lemma {:induction false} WholeDisks(es: seq<DiskEntry>, val: seq<byte>)
    requires 0 < |es| <= 3 && val == Wire.Counted(es, EncodeDisk) && forall i :: 0 <= i < |es| ==> ValidDisk(es[i])
    ensures val != [] && ReadDisks(val) == es
  {
    DisksComeBack(es);
  }

  lemma {:induction false} CutDisks(es: seq<DiskEntry>, val: seq<byte>)
    requires 3 < |es| <= MAX_DISKS && val == Clip(Wire.Counted(es, EncodeDisk))
    requires |val| == 1 + 66 * |es| % 256 && val[0] == |es|
    ensures ReadDisks(val) == ArrivingDisks(es) && ArrivingDisks(es) != es
    ensures |ArrivingDisks(es)| == 66 * |es| % 256 / 42 && (|es| % 4 == 0 ==> ArrivingDisks(es) == [])
  {
    DiskRest(|es|);
    BelowAverage(66 * |es| % 256, |es|, 66);
    ReadAsPieces(val, DISK_LAYOUTS);
  }

  /** And the mount list if and only if it has at most nine; of a longer one what fits in 22-byte entries. */
  lemma {:induction false} MountsComeBackUpToNine(es: seq<FsEntry>)
    requires 0 < |es| <= MAX_FS && forall i :: 0 <= i < |es| ==> ValidFs(es[i])
    ensures Clip(Wire.Counted(es, EncodeFs)) != []
    ensures ReadMounts(Clip(Wire.Counted(es, EncodeFs))) == ArrivingMounts(es)
    ensures ArrivingMounts(es) == es <==> |es| <= 9
    ensures |es| > 9 ==> |ArrivingMounts(es)| == 26 * |es| % 256 / 22
  {
    ClippedMounts(es);
    if |es| <= 9 {
      MountsLength(es);
      WholeMounts(es, Clip(Wire.Counted(es, EncodeFs)));
    } else {
      CutMounts(es, Clip(Wire.Counted(es, EncodeFs)));
    }
  }

  lemma {:induction false} WholeMounts(es: seq<FsEntry>, val: seq<byte>)
    requires 0 < |es| <= 9 && val == Wire.Counted(es, EncodeFs) && forall i :: 0 <= i < |es| ==> ValidFs(es[i])
    ensures val != [] && ReadMounts(val) == es
  {
    MountsComeBack(es);
  }

  lemma {:induction false} CutMounts(es: seq<FsEntry>, val: seq<byte>)
    requires 9 < |es| <= MAX_FS && val == Clip(Wire.Counted(es, EncodeFs))
    requires |val| == 1 + 26 * |es| % 256 && val[0] == |es|
    ensures ReadMounts(val) == ArrivingMounts(es) && ArrivingMounts(es) != es
    ensures |ArrivingMounts(es)| == 26 * |es| % 256 / 22
  {
    FsRest(|es|);
    BelowAverage(26 * |es| % 256, |es|, 26);
    ReadAsPieces(val, FS_LAYOUTS);
  }

  // ---------------------------------------------------------------- the first entry of a list cut short

  function High(v: nat): (n: nat) { v / 0x1_0000_0000 }
  function Low(v: nat): (n: nat) { v % 0x1_0000_0000 }

  /** A wide disk entry read in the narrow layout: the name is right, but the 64-bit counters come apart. */
  function MisreadDisk(e: DiskEntry): (r: DiskEntry) {
    DiskEntry(e.name, High(e.readsDone), Low(e.readsDone), High(e.writesDone), Low(e.writesDone),
              High(e.sectorsRead), Low(e.sectorsRead), High(e.sectorsWritten), Low(e.sectorsWritten),
              e.readMs / 0x1_0000_0000_0000)
  }

  function MisreadMount(e: FsEntry): (r: FsEntry) {
    FsEntry(e.mount, High(e.totalKb), e.totalKb / 0x1_0000 % 0x1_0000)
  }

  lemma {:induction false} HalvesRead(v: nat, tail: seq<byte>, widths: seq<nat>)
    requires v < Pow256(8) && |tail| == Width(widths)
    ensures Width([4, 4] + widths) == 8 + |tail|
    ensures Unpack(BE(v, 8) + tail, [4, 4] + widths) == [High(v), Low(v)] + Unpack(tail, widths)
  {
    var all, high, low := [4, 4] + widths, BE(High(v), 4), BE(v, 4);
    Powers();
    BESplit(v, 4, 4, High(v));
    BELow(v, 4);
    FromBEOfBE(High(v), 4);
    assert all[1..] == [4] + widths && ([4] + widths)[1..] == widths;
    assert BE(v, 8) + tail == high + (low + tail);
    UnpackHead(high, low + tail, all);
    UnpackHead(low, tail, [4] + widths);
  }

  lemma {:induction false} TopBytesRead(v: nat)
    requires v < Pow256(8)
    ensures BE(v, 8)[..2] == BE(v / 0x1_0000_0000_0000, 2)
    ensures Unpack(BE(v, 8)[..2], [2]) == [v / 0x1_0000_0000_0000]
  {
    var q, two := v / 0x1_0000_0000_0000, [2];
    Powers();
    BESplit(v, 2, 6, q);
    FromBEOfBE(q, 2);
    assert two[1..] == [];
    UnpackHead(BE(q, 2), [], two);
    assert BE(q, 2) + [] == BE(q, 2);
  }

  lemma {:induction false} TwoHalvesRead(a: nat, b: nat, tail: seq<byte>, widths: seq<nat>, more: seq<nat>)
    requires a < Pow256(8) && b < Pow256(8) && |tail| == Width(widths) && more == [4, 4] + ([4, 4] + widths)
    ensures Width(more) == 16 + |tail|
    ensures Unpack(BE(a, 8) + (BE(b, 8) + tail), more) == [High(a), Low(a), High(b), Low(b)] + Unpack(tail, widths)
  {
    HalvesRead(b, tail, widths);
    HalvesRead(a, BE(b, 8) + tail, [4, 4] + widths);
    PairsJoin(High(a), Low(a), High(b), Low(b), Unpack(tail, widths));
  }

  lemma {:induction false} PairsJoin(a: nat, b: nat, c: nat, d: nat, rest: seq<nat>)
    ensures [a, b] + ([c, d] + rest) == [a, b, c, d] + rest
  {
  }

  lemma {:induction false} FourHalvesRead(a: nat, b: nat, c: nat, d: nat, tail: seq<byte>)
    requires a < Pow256(8) && b < Pow256(8) && c < Pow256(8) && d < Pow256(8) && |tail| == 2
    ensures Width(LEGACY_DISK_WIDTHS) == 34
    ensures Unpack(BE(a, 8) + (BE(b, 8) + (BE(c, 8) + (BE(d, 8) + tail))), LEGACY_DISK_WIDTHS)
         == [High(a), Low(a), High(b), Low(b), High(c), Low(c), High(d), Low(d)] + Unpack(tail, [2])
  {
    var widths := [4, 4] + ([4, 4] + [2]);
    assert [2][1..] == [];
    LegacyWidths();
    TwoHalvesRead(c, d, tail, [2], widths);
    TwoHalvesRead(a, b, BE(c, 8) + (BE(d, 8) + tail), widths, LEGACY_DISK_WIDTHS);
  }

  lemma {:induction false} LegacyWidths()
    ensures LEGACY_DISK_WIDTHS == [4, 4] + ([4, 4] + ([4, 4] + ([4, 4] + [2])))
  {
  }

  lemma {:induction false} PackFirst(vals: seq<nat>, widths: seq<nat>)
    requires |vals| == |widths| > 0
    ensures Pack(vals, widths) == BE(vals[0], widths[0]) + Pack(vals[1..], widths[1..])
  {
  }

  lemma {:induction false} DiskFieldsCut(e: DiskEntry)
    ensures Pack(DiskFields(e), DISK_WIDTHS)[..34]
         == BE(e.readsDone, 8) + (BE(e.writesDone, 8) + (BE(e.sectorsRead, 8) + (BE(e.sectorsWritten, 8)
            + BE(e.readMs, 8)[..2])))
  {
    var v0, w0 := DiskFields(e), DISK_WIDTHS;
    var v1, w1 := v0[1..], w0[1..];
    var v2, w2 := v1[1..], w1[1..];
    var v3, w3 := v2[1..], w2[1..];
    var v4, w4 := v3[1..], w3[1..];
    PackFirst(v0, w0);
    PackFirst(v1, w1);
    PackFirst(v2, w2);
    PackFirst(v3, w3);
    PackFirst(v4, w4);
  }

  lemma {:induction false} DiskMisread(e: DiskEntry)
    requires ValidDisk(e)
    ensures DecodeLegacyDisk(EncodeDisk(e)[..42]) == MisreadDisk(e)
  {
    RecordCut(PadName(e.name, 8), Pack(DiskFields(e), DISK_WIDTHS));
    ReadPadded(e.name, 8);
    DiskFieldsMisread(e);
  }

  lemma {:induction false} RecordCut(name: seq<byte>, fields: seq<byte>)
    requires |name| == 8 && |fields| == 58
    ensures (name + fields)[..42][..8] == name && (name + fields)[..42][8..] == fields[..34]
  {
  }

  lemma {:induction false} DiskFieldsMisread(e: DiskEntry)
    requires Fits(DiskFields(e), DISK_WIDTHS)
    ensures Width(LEGACY_DISK_WIDTHS) == 34
    ensures Unpack(Pack(DiskFields(e), DISK_WIDTHS)[..34], LEGACY_DISK_WIDTHS) == DiskFields(MisreadDisk(e))
  {
    DiskFieldsCut(e);
    FitsEight(e);
    FourHalvesRead(e.readsDone, e.writesDone, e.sectorsRead, e.sectorsWritten, BE(e.readMs, 8)[..2]);
    TopBytesRead(e.readMs);
  }

  lemma {:induction false} FitsEight(e: DiskEntry)
    requires Fits(DiskFields(e), DISK_WIDTHS)
    ensures e.readsDone < Pow256(8) && e.writesDone < Pow256(8) && e.sectorsRead < Pow256(8)
    ensures e.sectorsWritten < Pow256(8) && e.readMs < Pow256(8)
  {
    var v, w := DiskFields(e), DISK_WIDTHS;
    assert forall i :: 0 <= i < 5 ==> w[i] == 8 && v[i] < Pow256(w[i]);
    assert v[0] < Pow256(8) && v[1] < Pow256(8) && v[2] < Pow256(8) && v[3] < Pow256(8) && v[4] < Pow256(8);
  }

  lemma {:induction false} MountMisread(e: FsEntry)
    requires ValidFs(e)
    ensures DecodeLegacyFs(EncodeFs(e)[..22]) == MisreadMount(e)
  {
    MountCut(e);
    ReadPadded(e.mount, 16);
    assert FsFields(e)[0] < Pow256(FS_WIDTHS[0]);
    MountFieldsMisread(e.totalKb);
  }

  lemma {:induction false} MountCut(e: FsEntry)
    ensures EncodeFs(e)[..22][..16] == PadName(e.mount, 16) && EncodeFs(e)[..22][16..] == BE(e.totalKb, 8)[..6]
  {
    PackFirst(FsFields(e), FS_WIDTHS);
  }

  lemma {:induction false} MountFieldsMisread(v: nat)
    requires v < Pow256(8)
    ensures Unpack(BE(v, 8)[..6], LEGACY_FS_WIDTHS) == [High(v), v / 0x1_0000 % 0x1_0000]
  {
    var q, widths := v / 0x1_0000, LEGACY_FS_WIDTHS;
    Powers();
    BESplit(v, 6, 2, q);
    BESplit(q, 4, 2, High(v));
    BELow(q, 2);
    FromBEOfBE(High(v), 4);
    UnpackHead(BE(High(v), 4), BE(q, 2), widths);
    UnpackHead(BE(q, 2), [], widths[1..]);
    assert BE(q, 2) + [] == BE(q, 2);
  }

  /** The bytes of the first entry, as far as they are left. */
  lemma {:induction false} FirstEntryLeft<T>(es: seq<T>, enc: T -> seq<byte>, size: nat)
    requires 0 < |es| < 256 && size <= |enc(es[0])| && 1 + size <= |Clip(Wire.Counted(es, enc))|
    ensures Clip(Wire.Counted(es, enc))[1..1 + size] == enc(es[0])[..size]
  {
    var all := Wire.Counted(es, enc);
    assert all == [|es|] + (enc(es[0]) + EncodeAll(es[1..], enc));
    assert all[1..1 + size] == enc(es[0])[..size];
  }

  /** What arrives first of a disk list cut short has the first disk's name, and halves of its counters for numbers. */
  lemma {:induction false} FirstDiskIsMisread(es: seq<DiskEntry>)
    requires 3 < |es| <= MAX_DISKS && ValidDisk(es[0]) && ArrivingDisks(es) != []
    ensures ArrivingDisks(es)[0] == MisreadDisk(es[0])
  {
    ClippedDisks(es);
    FirstEntryLeft(es, EncodeDisk, 42);
    DiskMisread(es[0]);
  }

  lemma {:induction false} FirstMountIsMisread(es: seq<FsEntry>)
    requires 9 < |es| <= MAX_FS && ValidFs(es[0]) && ArrivingMounts(es) != []
    ensures ArrivingMounts(es)[0] == MisreadMount(es[0])
  {
    ClippedMounts(es);
    FirstEntryLeft(es, EncodeFs, 22);
    MountMisread(es[0]);
  }
}
