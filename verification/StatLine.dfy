/** Reading the single line of /proc/<pid>/stat, whose second field is a command name in parentheses that may itself
    contain parentheses and spaces. */
module StatLine {
  import opened Options
  import opened Arith
  import opened Bytes

  const LINE_MAX: nat := 511
  const COMM_MAX: nat := 15
  const LONG_MAX: int := 0x7fff_ffff_ffff_ffff

  datatype TaskStat = TaskStat(id: int, comm: seq<byte>, state: byte, ticks: nat, starttime: nat)
  datatype Times = Times(utime: nat, stime: nat, starttime: nat)

  // ---------------------------------------------------------------- the C library's part

  predicate IsSpace(c: byte) { c == 32 || 9 <= c <= 13 }
  predicate Digit(c: byte) { 48 <= c <= 57 }

  /** At most n characters, up to and including the first newline. */
  function Fgets(file: seq<byte>, n: nat): (r: seq<byte>)
    ensures r <= file
    decreases |file|
  {
    if file == [] || n == 0 then [] else if file[0] == 10 then [file[0]] else [file[0]] + Fgets(file[1..], n - 1)
  }

  /** What the string functions see: everything before the first NUL. */
  function CString(s: seq<byte>): (r: seq<byte>)
    ensures r <= s && forall i :: 0 <= i < |r| ==> r[i] != 0
  {
    if s == [] || s[0] == 0 then [] else [s[0]] + CString(s[1..])
  }

  function SkipBlanks(s: seq<byte>): (r: seq<byte>)
    ensures |r| <= |s|
  {
    if s != [] && IsSpace(s[0]) then SkipBlanks(s[1..]) else s
  }

  function SkipWord(s: seq<byte>): (r: seq<byte>)
    ensures |r| <= |s|
  {
    if s != [] && !IsSpace(s[0]) then SkipWord(s[1..]) else s
  }

  predicate AllDigits(s: seq<byte>) {
    forall i :: 0 <= i < |s| ==> Digit(s[i])
  }

  function Digits(s: seq<byte>): (r: seq<byte>)
    ensures AllDigits(r)
  {
    if s != [] && Digit(s[0]) then [s[0]] + Digits(s[1..]) else []
  }

  function DigitOf(c: byte): (n: nat)
    requires Digit(c)
  {
    var n: int := c;
    n - 48
  }

  function Value(ds: seq<byte>): (n: nat)
    requires AllDigits(ds)
  {
    if ds == [] then 0 else Value(ds[..|ds| - 1]) * 10 + DigitOf(ds[|ds| - 1])
  }

  predicate Signed(s: seq<byte>) { s != [] && (s[0] == 43 || s[0] == 45) }
  predicate Negative(s: seq<byte>) { s != [] && s[0] == 45 }
  function Unsigned(s: seq<byte>): (r: seq<byte>) { if Signed(s) then s[1..] else s }

  /** scanf of a long: out-of-range values are clamped. */
  function ScanLong(s: seq<byte>): (r: Option<int>) {
    var t := SkipBlanks(s);
    var ds := Digits(Unsigned(t));
    var n: int := Value(ds);
    if ds == [] then None
    else if Negative(t) then Some(if n > LONG_MAX then -LONG_MAX - 1 else -n)
    else Some(if n > LONG_MAX then LONG_MAX else n)
  }

  /** strtoull at a non-blank character: None when there is no number or it does not fit. */
  function Strtoull(s: seq<byte>): (r: Option<nat>) {
    var ds := Digits(Unsigned(s));
    if ds == [] || Value(ds) >= U64 then None
    else if Negative(s) then Some((U64 - Value(ds)) % U64)
    else Some(Value(ds))
  }

  /** strchr from index `from` on; |s| when the character is not there. */
  function FirstOf(s: seq<byte>, c: byte, from: nat): (i: nat)
    requires from <= |s|
    ensures from <= i <= |s| && (i < |s| ==> s[i] == c) && forall j :: from <= j < i ==> s[j] != c
    decreases |s| - from
  {
    if from == |s| || s[from] == c then from else FirstOf(s, c, from + 1)
  }

  /** strrchr before index `to`; -1 when the character is not there. */
  function LastOf(s: seq<byte>, c: byte, to: nat): (i: int)
    requires to <= |s|
    ensures -1 <= i < to && (i >= 0 ==> s[i] == c) && forall j :: i < j < to ==> s[j] != c
  {
    if to == 0 || s[to - 1] == c then to - 1 else LastOf(s, c, to - 1)
  }

  // ---------------------------------------------------------------- the parser

  predicate Timed(field: nat) { field == 14 || field == 15 || field == 22 }

  function Store(times: Times, field: nat, value: nat): (r: Times) {
    if field == 14 then times.(utime := value) else if field == 15 then times.(stime := value)
    else times.(starttime := value)
  }

  /** Fields `field` to 22, from the text after the field before. */
  function ReadFields(s: seq<byte>, field: nat, times: Times): (r: Option<Times>)
    requires field <= 23
    decreases 23 - field, |s|
  {
    if field == 23 then Some(times)
    else
      var t := SkipBlanks(s);
      if t == [] then None
      else if Timed(field) then
        match Strtoull(t)
        case None => None
        case Some(v) => ReadFields(SkipWord(t), field + 1, Store(times, field, v))
      else ReadFields(SkipWord(t), field + 1, times)
  }

  function CutComm(comm: seq<byte>): (r: seq<byte>) {
    if |comm| > COMM_MAX then comm[..COMM_MAX] else comm
  }

  /** What follows the closing parenthesis: the state and the fields. */
  function Finish(id: int, comm: seq<byte>, s: seq<byte>): (r: Option<TaskStat>) {
    var t := SkipBlanks(s);
    if t == [] then None
    else
      match ReadFields(t[1..], 4, Times(0, 0, 0))
      case None => None
      case Some(x) => Some(TaskStat(id, comm, t[0], (x.utime + x.stime) % U64, x.starttime))
  }

  datatype Named = Unnamed | Named(comm: seq<byte>, rest: seq<byte>)

  /** What stands between the first opening and the last closing parenthesis, and what follows. */
  function Bracketed(buf: seq<byte>): (r: Named) {
    var left, right := FirstOf(buf, 40, 0), LastOf(buf, 41, |buf|);
    if right <= left then Unnamed else Named(buf[left + 1..right], buf[right + 1..])
  }

  function ParseBuffer(buf: seq<byte>): (r: Option<TaskStat>) {
    var id := ScanLong(buf).GetOr(0);
    if id <= 0 then None
    else
      match Bracketed(buf)
      case Unnamed => None
      case Named(comm, rest) => Finish(id, CutComm(comm), rest)
  }

  function Parse(file: seq<byte>): (r: Option<TaskStat>) {
    if file == [] then None else ParseBuffer(CString(Fgets(file, LINE_MAX)))
  }

  method ParseTaskStat(file: seq<byte>) returns (r: Option<TaskStat>)
    ensures r == Parse(file)
  {
    if file == [] {
      return None;
    }
    r := ParseLine(CString(Fgets(file, LINE_MAX)));
  }

  method ParseLine(buf: seq<byte>) returns (r: Option<TaskStat>)
    ensures r == ParseBuffer(buf)
  {
    var id := ScanLong(buf).GetOr(0);
    if id <= 0 {
      return None;
    }
    var found, comm, start := FindName(buf);
    if !found {
      return None;
    }
    r := FinishLine(buf, id, comm, start);
  }

  method FindName(buf: seq<byte>) returns (found: bool, comm: seq<byte>, start: nat)
    ensures found <==> Bracketed(buf).Named?
    ensures found ==> start <= |buf| && Bracketed(buf).rest == buf[start..] && comm == CutComm(Bracketed(buf).comm)
  {
    var left, right := FirstOf(buf, 40, 0), LastOf(buf, 41, |buf|);
    if left == |buf| || right < 0 || right <= left {
      return false, [], 0;
    }
    comm := CopyComm(buf, left, right);
    return true, comm, right + 1;
  }

  method CopyComm(buf: seq<byte>, left: nat, right: nat) returns (comm: seq<byte>)
    requires left < right < |buf|
    ensures comm == CutComm(buf[left + 1..right])
  {
    var commLen := right - left - 1;
    if commLen > COMM_MAX {
      commLen := COMM_MAX;
    }
    comm := buf[left + 1..left + 1 + commLen];
  }

  method FinishLine(buf: seq<byte>, id: int, comm: seq<byte>, start: nat) returns (r: Option<TaskStat>)
    requires start <= |buf|
    ensures r == Finish(id, comm, buf[start..])
  {
    var cursor := PassBlanks(buf, start);
    if cursor == |buf| {
      return None;
    }
    var state := buf[cursor];
    assert buf[cursor..][1..] == buf[cursor + 1..];
    var times := ReadTimes(buf, cursor + 1);
    if times.None? {
      return None;
    }
    return Some(TaskStat(id, comm, state, (times.value.utime + times.value.stime) % U64, times.value.starttime));
  }

  method ReadTimes(buf: seq<byte>, start: nat) returns (r: Option<Times>)
    requires start <= |buf|
    ensures r == ReadFields(buf[start..], 4, Times(0, 0, 0))
  {
    var times, cursor, field := Times(0, 0, 0), start, 4;
    while field <= 22
      invariant 4 <= field <= 23 && 0 <= cursor <= |buf|
      invariant ReadFields(buf[start..], 4, Times(0, 0, 0)) == ReadFields(buf[cursor..], field, times)
    {
      cursor := PassBlanks(buf, cursor);
      if cursor == |buf| {
        return None;
      }
      if field == 14 || field == 15 || field == 22 {
        var value := Strtoull(buf[cursor..]);
        if value.None? {
          return None;
        }
        times := Store(times, field, value.value);
      }
      cursor := PassWord(buf, cursor);
      field := field + 1;
    }
    return Some(times);
  }

  method PassBlanks(buf: seq<byte>, start: nat) returns (cursor: nat)
    requires start <= |buf|
    ensures start <= cursor <= |buf| && buf[cursor..] == SkipBlanks(buf[start..])
  {
    cursor := start;
    while cursor < |buf| && IsSpace(buf[cursor])
      invariant start <= cursor <= |buf| && SkipBlanks(buf[start..]) == SkipBlanks(buf[cursor..])
    {
      cursor := cursor + 1;
    }
  }

  method PassWord(buf: seq<byte>, start: nat) returns (cursor: nat)
    requires start <= |buf|
    ensures start <= cursor <= |buf| && buf[cursor..] == SkipWord(buf[start..])
  {
    cursor := start;
    while cursor < |buf| && !IsSpace(buf[cursor])
      invariant start <= cursor <= |buf| && SkipWord(buf[start..]) == SkipWord(buf[cursor..])
    {
      cursor := cursor + 1;
    }
  }

  // ---------------------------------------------------------------- the kernel's layout

  function Decimal(n: nat): (r: seq<byte>)
    ensures r != [] && forall i :: 0 <= i < |r| ==> Digit(r[i])
  {
    if n < 10 then [48 + n] else Decimal(n / 10) + [48 + n % 10]
  }

  function Text(v: int): (r: seq<byte>)
    ensures r != [] && forall i :: 0 <= i < |r| ==> Digit(r[i]) || r[i] == 45
  {
    if v >= 0 then Decimal(v) else [45] + Decimal(-v)
  }

  function FieldText(vs: seq<int>): (r: seq<byte>)
    ensures forall i :: 0 <= i < |r| ==> Digit(r[i]) || r[i] == 45 || r[i] == 32
    ensures vs != [] ==> r != [] && r[0] == 32
  {
    if vs == [] then [] else [32] + Text(vs[0]) + FieldText(vs[1..])
  }

  /** Fields 1 to 22 of the line, as proc(5) lays them out; vs are fields 4 to 22. */
  function LineText(id: nat, comm: seq<byte>, state: byte, vs: seq<int>): (r: seq<byte>) {
    Decimal(id) + [32, 40] + comm + [41, 32, state] + FieldText(vs)
  }

  lemma {:induction false} ValueOfDecimal(n: nat)
    ensures Value(Decimal(n)) == n
  {
    if n >= 10 {
      ValueOfDecimal(n / 10);
      assert Decimal(n)[..|Decimal(n)| - 1] == Decimal(n / 10);
    }
  }

  function Pow10(k: nat): (n: nat) { if k == 0 then 1 else 10 * Pow10(k - 1) }

  lemma {:induction false} DecimalLength(n: nat, k: nat)
    requires k > 0 && n < Pow10(k)
    ensures |Decimal(n)| <= k
  {
    if n >= 10 {
      DecimalLength(n / 10, k - 1);
    }
  }

  predicate Fits64(v: int) { -0x8000_0000_0000_0000 <= v < U64 }

  lemma {:induction false} TextLength(v: int)
    requires Fits64(v)
    ensures |Text(v)| <= 20
  {
    assert Pow10(5) == 100_000;
    assert Pow10(10) == 10_000_000_000;
    assert Pow10(15) == 1_000_000_000_000_000;
    assert Pow10(19) == 10_000_000_000_000_000_000;
    assert Pow10(20) == 100_000_000_000_000_000_000;
    if v >= 0 {
      DecimalLength(v, 20);
    } else {
      DecimalLength(-v, 19);
    }
  }

  lemma {:induction false} FieldTextLength(vs: seq<int>)
    requires forall i :: 0 <= i < |vs| ==> Fits64(vs[i])
    ensures |FieldText(vs)| <= 21 * |vs|
  {
    if vs != [] {
      TextLength(vs[0]);
      FieldTextLength(vs[1..]);
    }
  }

  // ---------------------------------------------------------------- the round trip

  predicate AfterWord(s: seq<byte>) { s == [] || IsSpace(s[0]) }

  lemma {:induction false} DigitsStop(a: seq<byte>, b: seq<byte>)
    requires (forall i :: 0 <= i < |a| ==> Digit(a[i])) && (b == [] || !Digit(b[0]))
    ensures Digits(a + b) == a
  {
    if a == [] {
      assert a + b == b;
    } else {
      assert (a + b)[1..] == a[1..] + b;
      DigitsStop(a[1..], b);
    }
  }

  lemma {:induction false} WordStops(a: seq<byte>, b: seq<byte>)
    requires (forall i :: 0 <= i < |a| ==> !IsSpace(a[i])) && AfterWord(b)
    ensures SkipWord(a + b) == b
  {
    if a == [] {
      assert a + b == b;
    } else {
      assert (a + b)[1..] == a[1..] + b;
      WordStops(a[1..], b);
    }
  }

  lemma {:induction false} NumberReads(n: nat, b: seq<byte>)
    requires AfterWord(b)
    ensures n < U64 ==> Strtoull(Decimal(n) + b) == Some(n)
    ensures n <= LONG_MAX ==> ScanLong(Decimal(n) + b) == Some(n)
  {
    var s := Decimal(n) + b;
    assert s[0] == Decimal(n)[0];
    DigitsStop(Decimal(n), b);
    ValueOfDecimal(n);
  }

  /** Fields `from` to 22 hold 64-bit values, and those that are times are not negative. */
  predicate ValidFields(vs: seq<int>, from: nat) {
    && from + |vs| == 23 && (forall i :: 0 <= i < |vs| ==> Fits64(vs[i]))
    && (from <= 14 ==> vs[14 - from] >= 0) && (from <= 15 ==> vs[15 - from] >= 0) && (from <= 22 ==> vs[22 - from] >= 0)
  }

  /** The times among fields `from` to 22, and those already read. */
  function TimesOf(vs: seq<int>, from: nat, times: Times): (r: Times)
    requires ValidFields(vs, from)
  {
    Times(if from <= 14 then vs[14 - from] else times.utime, if from <= 15 then vs[15 - from] else times.stime,
          if from <= 22 then vs[22 - from] else times.starttime)
  }

  lemma {:induction false} FieldPassed(v: int, more: seq<byte>)
    requires AfterWord(more)
    ensures SkipBlanks([32] + Text(v) + more) == Text(v) + more
    ensures SkipWord(Text(v) + more) == more
  {
    var s := [32] + Text(v) + more;
    assert s[1..] == Text(v) + more;
    assert (Text(v) + more)[0] == Text(v)[0];
    WordStops(Text(v), more);
  }

  lemma {:induction false} FieldReads(
    v: int, more: seq<byte>, s: seq<byte>, field: nat, times: Times, times': Times)
    requires AfterWord(more) && s == [32] + Text(v) + more && field < 23 && v < U64 && (Timed(field) ==> v >= 0)
    requires times' == if Timed(field) then Store(times, field, v) else times
    ensures ReadFields(s, field, times) == ReadFields(more, field + 1, times')
  {
    FieldPassed(v, more);
    assert Text(v) + more != [];
    if Timed(field) {
      NumberReads(v, more);
    }
  }

  lemma {:induction false} TimesStep(vs: seq<int>, from: nat, times: Times, times': Times)
    requires vs != [] && ValidFields(vs, from)
    requires times' == if Timed(from) then Store(times, from, vs[0]) else times
    ensures ValidFields(vs[1..], from + 1) && TimesOf(vs[1..], from + 1, times') == TimesOf(vs, from, times)
  {
  }

  lemma {:induction false} FirstField(vs: seq<int>, tail: seq<byte>, s: seq<byte>, more: seq<byte>)
    requires vs != [] && AfterWord(tail) && s == FieldText(vs) + tail && more == FieldText(vs[1..]) + tail
    ensures s == [32] + Text(vs[0]) + more && AfterWord(more)
  {
    TailMoves([32] + Text(vs[0]), FieldText(vs[1..]), tail);
    TextThenTail(FieldText(vs[1..]), tail);
  }

  lemma {:induction false} TailMoves(a: seq<byte>, b: seq<byte>, c: seq<byte>)
    ensures a + b + c == a + (b + c)
  {
  }

  lemma {:induction false} TextThenTail(fields: seq<byte>, tail: seq<byte>)
    requires AfterWord(fields) && AfterWord(tail)
    ensures AfterWord(fields + tail)
  {
    if fields == [] {
      assert fields + tail == tail;
    }
  }

  lemma {:induction false} FieldsRead(vs: seq<int>, from: nat, times: Times, tail: seq<byte>, s: seq<byte>)
    requires ValidFields(vs, from) && AfterWord(tail) && s == FieldText(vs) + tail
    ensures ReadFields(s, from, times) == Some(TimesOf(vs, from, times))
    decreases |vs|
  {
    if vs != [] {
      var more, times' := FieldText(vs[1..]) + tail, if Timed(from) then Store(times, from, vs[0]) else times;
      FirstField(vs, tail, s, more);
      TimesStep(vs, from, times, times');
      FirstIsRead(vs, from, times, more, s, times');
      FieldsRead(vs[1..], from + 1, times', tail, more);
    }
  }

  lemma {:induction false} FirstIsRead(
    vs: seq<int>, from: nat, times: Times, more: seq<byte>, s: seq<byte>, times': Times)
    requires vs != [] && ValidFields(vs, from) && AfterWord(more) && s == [32] + Text(vs[0]) + more
    requires times' == if Timed(from) then Store(times, from, vs[0]) else times
    ensures ReadFields(s, from, times) == ReadFields(more, from + 1, times')
  {
    FieldReads(vs[0], more, s, from, times, times');
  }

  lemma {:induction false} FieldsComeBack(vs: seq<int>, from: nat, times: Times, tail: seq<byte>)
    requires ValidFields(vs, from) && AfterWord(tail)
    ensures ReadFields(FieldText(vs) + tail, from, times) == Some(TimesOf(vs, from, times))
  {
    FieldsRead(vs, from, times, tail, FieldText(vs) + tail);
  }

  lemma {:induction false} FgetsTakes(file: seq<byte>, n: nat)
    requires file != [] && n > 0 && file[0] != 10
    ensures Fgets(file, n) == [file[0]] + Fgets(file[1..], n - 1)
  {
  }

  lemma {:induction false} HeadBack(a: seq<byte>, b: seq<byte>)
    requires a != []
    ensures [a[0]] + (a[1..] + b) == a + b
  {
  }

  lemma {:induction false} FgetsKeeps(a: seq<byte>, b: seq<byte>, s: seq<byte>, n: nat, line: seq<byte>)
    requires |a| <= n && 10 !in a && s == a + b && line == Fgets(b, n - |a|)
    ensures Fgets(s, n) == a + line
  {
    if a == [] {
      assert s == b;
    } else {
      assert s[1..] == a[1..] + b;
      FgetsTakes(s, n);
      FgetsKeeps(a[1..], b, s[1..], n - 1, line);
      HeadBack(a, line);
    }
  }

  lemma {:induction false} CStringKeeps(a: seq<byte>, b: seq<byte>)
    requires 0 !in a
    ensures CString(a + b) == a + CString(b)
  {
    if a == [] {
      assert a + b == b;
    } else {
      assert (a + b)[1..] == a[1..] + b;
      CStringKeeps(a[1..], b);
    }
  }

  lemma {:induction false} LeftBracket(buf: seq<byte>, a: seq<byte>)
    requires |a| < |buf| && buf[..|a|] == a && buf[|a|] == 40 && 40 !in a
    ensures FirstOf(buf, 40, 0) == |a|
  {
    assert forall j :: 0 <= j < |a| ==> buf[j] == buf[..|a|][j];
  }

  lemma {:induction false} RightBracket(buf: seq<byte>, right: nat, b: seq<byte>)
    requires right < |buf| && buf[right] == 41 && buf[right + 1..] == b && 41 !in b
    ensures LastOf(buf, 41, |buf|) == right
  {
    assert forall j :: right < j < |buf| ==> buf[j] == buf[right + 1..][j - right - 1];
  }

  lemma {:induction false} Brackets(a: seq<byte>, comm: seq<byte>, b: seq<byte>)
    requires 40 !in a && 41 !in b
    ensures var buf := a + [40] + comm + [41] + b;
      && FirstOf(buf, 40, 0) == |a| && LastOf(buf, 41, |buf|) == |a| + 1 + |comm|
      && buf[|a| + 1..|a| + 1 + |comm|] == comm && buf[|a| + 1 + |comm| + 1..] == b
  {
    var buf, right := a + [40] + comm + [41] + b, |a| + 1 + |comm|;
    assert buf[..|a|] == a && buf[|a|] == 40;
    assert buf[right] == 41 && buf[right + 1..] == b;
    assert buf[|a| + 1..right] == comm;
    LeftBracket(buf, a);
    RightBracket(buf, right, b);
  }

  lemma {:induction false} StateReads(state: byte, after: seq<byte>)
    requires !IsSpace(state)
    ensures SkipBlanks([32, state] + after) == [state] + after
    ensures ([state] + after)[1..] == after
  {
    assert ([32, state] + after)[1..] == [state] + after;
    assert SkipBlanks([state] + after) == [state] + after;
  }

  lemma {:induction false} FinishComesBack(id: int, comm: seq<byte>, state: byte, vs: seq<int>, tail: seq<byte>)
    requires !IsSpace(state) && ValidFields(vs, 4) && AfterWord(tail)
    ensures Finish(id, comm, [32, state] + (FieldText(vs) + tail))
         == Some(TaskStat(id, comm, state, (vs[10] + vs[11]) % U64, vs[18]))
  {
    var after := FieldText(vs) + tail;
    StateReads(state, after);
    FieldsComeBack(vs, 4, Times(0, 0, 0), tail);
  }

  lemma {:induction false} NameComesBack(a: seq<byte>, comm: seq<byte>, b: seq<byte>)
    requires 40 !in a && 41 !in b
    ensures Bracketed(a + [40] + comm + [41] + b) == Named(comm, b)
  {
    Brackets(a, comm, b);
  }

  lemma {:induction false} LineRegrouped(d: seq<byte>, comm: seq<byte>, state: byte, f: seq<byte>, tail: seq<byte>)
    ensures var b := [32, state] + (f + tail);
      && d + [32, 40] + comm + [41, 32, state] + f + tail == d + [32] + [40] + comm + [41] + b
      && d + [32] + [40] + comm + [41] + b == d + ([32, 40] + comm + [41] + b)
  {
  }

  lemma {:induction false} BufferParsed(buf: seq<byte>, id: int, comm: seq<byte>, rest: seq<byte>)
    requires ScanLong(buf) == Some(id) && id > 0 && Bracketed(buf) == Named(comm, rest)
    ensures ParseBuffer(buf) == Finish(id, CutComm(comm), rest)
  {
  }

  lemma {:induction false} TextComesBack(id: nat, comm: seq<byte>, state: byte, vs: seq<int>, tail: seq<byte>)
    requires 0 < id <= LONG_MAX && !IsSpace(state) && state != 41
    requires ValidFields(vs, 4) && AfterWord(tail) && 41 !in tail
    ensures ParseBuffer(LineText(id, comm, state, vs) + tail)
         == Some(TaskStat(id, CutComm(comm), state, (vs[10] + vs[11]) % U64, vs[18]))
  {
    var b := [32, state] + (FieldText(vs) + tail);
    LineRegrouped(Decimal(id), comm, state, FieldText(vs), tail);
    HeadParsed(id, comm, b, LineText(id, comm, state, vs) + tail);
    FinishComesBack(id, CutComm(comm), state, vs, tail);
  }

  lemma {:induction false} HeadParsed(id: nat, comm: seq<byte>, b: seq<byte>, buf: seq<byte>)
    requires 0 < id <= LONG_MAX && 41 !in b && buf == Decimal(id) + [32] + [40] + comm + [41] + b
    requires buf == Decimal(id) + ([32, 40] + comm + [41] + b)
    ensures ParseBuffer(buf) == Finish(id, CutComm(comm), b)
  {
    IdReads(id, [32, 40] + comm + [41] + b);
    NameComesBack(Decimal(id) + [32], comm, b);
    BufferParsed(buf, id, comm, b);
  }

  lemma {:induction false} IdReads(id: nat, b: seq<byte>)
    requires id <= LONG_MAX && AfterWord(b)
    ensures ScanLong(Decimal(id) + b) == Some(id)
  {
    NumberReads(id, b);
  }

  lemma {:induction false} PartsAvoid(d: seq<byte>, comm: seq<byte>, state: byte, f: seq<byte>, c: byte)
    requires c !in d && c !in comm && c !in f && c !in [32, 40, 41, state]
    ensures c !in d + [32, 40] + comm + [41, 32, state] + f
  {
  }

  lemma {:induction false} LineTextClean(id: nat, comm: seq<byte>, state: byte, vs: seq<int>)
    requires id <= LONG_MAX && |comm| <= 64 && 0 !in comm && 10 !in comm
    requires !IsSpace(state) && state != 0 && ValidFields(vs, 4)
    ensures |LineText(id, comm, state, vs)| <= LINE_MAX
    ensures 0 !in LineText(id, comm, state, vs) && 10 !in LineText(id, comm, state, vs)
  {
    TextLength(id);
    FieldTextLength(vs);
    PartsAvoid(Decimal(id), comm, state, FieldText(vs), 0);
    PartsAvoid(Decimal(id), comm, state, FieldText(vs), 10);
  }

  /** The buffer holds the whole text and what fits of the rest. */
  lemma {:induction false} LineKept(text: seq<byte>, rest: seq<byte>)
    requires |text| <= LINE_MAX && 0 !in text && 10 !in text
    ensures CString(Fgets(text + rest, LINE_MAX)) == text + CString(Fgets(rest, LINE_MAX - |text|))
  {
    var line := Fgets(rest, LINE_MAX - |text|);
    FgetsKeeps(text, rest, text + rest, LINE_MAX, line);
    CStringKeeps(text, line);
  }

  lemma {:induction false} TailKept(rest: seq<byte>, n: nat)
    requires AfterWord(rest) && 41 !in rest
    ensures AfterWord(CString(Fgets(rest, n))) && 41 !in CString(Fgets(rest, n))
  {
    var line := Fgets(rest, n);
    PrefixAvoids(line, rest, 41);
    PrefixAvoids(CString(line), line, 41);
  }

  lemma {:induction false} PrefixAvoids(a: seq<byte>, b: seq<byte>, c: byte)
    requires a <= b && c !in b
    ensures c !in a && (AfterWord(b) ==> AfterWord(a))
  {
    assert forall i :: 0 <= i < |a| ==> a[i] == b[i];
  }

  lemma {:induction false} BufferDecides(file: seq<byte>, buf: seq<byte>)
    requires CString(Fgets(file, LINE_MAX)) == buf
    ensures Parse(file) == ParseBuffer(buf)
  {
  }

  lemma {:induction false} CommIsCut(comm: seq<byte>)
    ensures CutComm(comm) == if |comm| <= 15 then comm else comm[..15]
  {
  }

  /** Whatever the name contains, and whatever follows field 22, the line gives back what the kernel put in: the id, the
      name's first 15 bytes, the state, and the times. */
  lemma {:induction false} LineComesBack(id: nat, comm: seq<byte>, state: byte, vs: seq<int>, rest: seq<byte>)
    requires 0 < id <= LONG_MAX && |comm| <= 64 && 0 !in comm && 10 !in comm
    requires !IsSpace(state) && state != 0 && state != 41
    requires ValidFields(vs, 4) && AfterWord(rest) && 41 !in rest
    ensures Parse(LineText(id, comm, state, vs) + rest)
         == Some(TaskStat(id, if |comm| <= 15 then comm else comm[..15], state,
                          (vs[10] + vs[11]) % 0x1_0000_0000_0000_0000, vs[18]))
  {
    CommIsCut(comm);
    var text := LineText(id, comm, state, vs);
    LineTextClean(id, comm, state, vs);
    var tail := CString(Fgets(rest, LINE_MAX - |text|));
    LineKept(text, rest);
    TailKept(rest, LINE_MAX - |text|);
    TextComesBack(id, comm, state, vs, tail);
    BufferDecides(text + rest, text + tail);
  }
}
