/** What reading /proc/<pid>/stat means for any file, told without the cursor: the line is cut into its parts, and the
    fields after the state are words. */
module StatWords {
  import opened Options
  import opened Bytes
  import opened StatLine

  // ---------------------------------------------------------------- the C library

  lemma {:induction false} SpacesAre(c: byte)
    ensures IsSpace(c) <==> c in {9, 10, 11, 12, 13, 32}
  {
  }

  /** fgets reads up to n bytes, and no further than a newline or the end of the file. */
  lemma {:induction false} FgetsIs(file: seq<byte>, n: nat)
    ensures var line := Fgets(file, n);
            && line <= file && |line| <= n
            && (forall i :: 0 <= i < |line| - 1 ==> line[i] != 10)
            && (|line| == n || line == file || line[|line| - 1] == 10)
  {
    if file != [] && n > 0 && file[0] != 10 {
      FgetsIs(file[1..], n - 1);
    }
  }

  /** A string ends at the first NUL. */
  lemma {:induction false} CStringIs(s: seq<byte>)
    ensures CString(s) <= s && 0 !in CString(s)
    ensures CString(s) == s || s[|CString(s)|] == 0
  {
    if s != [] && s[0] != 0 {
      CStringIs(s[1..]);
    }
  }

  // ---------------------------------------------------------------- words

  predicate AllSpaces(s: seq<byte>) {
    forall i :: 0 <= i < |s| ==> IsSpace(s[i])
  }

  predicate NoSpaces(s: seq<byte>) {
    forall i :: 0 <= i < |s| ==> !IsSpace(s[i])
  }

  /** The stretches without a space. */
  function Words(s: seq<byte>): (ws: seq<seq<byte>>)
    ensures s != [] && !IsSpace(s[0]) ==> ws != []
  {
    if s == [] then []
    else if IsSpace(s[0]) then Words(s[1..])
    else if |s| == 1 || IsSpace(s[1]) then [[s[0]]] + Words(s[1..])
    else
      var ws := Words(s[1..]);
      [[s[0]] + ws[0]] + ws[1..]
  }

  lemma {:induction false} BlanksSkipped(s: seq<byte>)
    ensures Words(SkipBlanks(s)) == Words(s)
    ensures SkipBlanks(s) == [] || !IsSpace(SkipBlanks(s)[0])
  {
    if s != [] && IsSpace(s[0]) {
      BlanksSkipped(s[1..]);
    }
  }

  lemma {:induction false} WordSkipped(s: seq<byte>)
    requires s != [] && !IsSpace(s[0])
    ensures Words(s)[1..] == Words(SkipWord(s)) && s == Words(s)[0] + SkipWord(s)
    ensures Words(s)[0] != [] && NoSpaces(Words(s)[0]) && AfterWord(SkipWord(s))
  {
    if |s| == 1 {
      assert s[1..] == [] && SkipWord(s) == [];
    } else if IsSpace(s[1]) {
      assert SkipWord(s) == s[1..];
    } else {
      WordSkipped(s[1..]);
      assert s == [s[0]] + s[1..];
    }
  }

  // ---------------------------------------------------------------- numbers

  /** A sign or none, at least one digit, and then anything but a digit. */
  predicate Numeral(sign: seq<byte>, digits: seq<byte>, rest: seq<byte>) {
    (sign == [] || sign == [43] || sign == [45]) && digits != [] && AllDigits(digits) && (rest == [] || !Digit(rest[0]))
  }

  lemma {:induction false} NumeralSplits(sign: seq<byte>, digits: seq<byte>, rest: seq<byte>)
    requires Numeral(sign, digits, rest)
    ensures var s := sign + digits + rest;
            && Digits(Unsigned(s)) == digits && (Negative(s) <==> sign == [45]) && !IsSpace(s[0])
  {
    var s := sign + digits + rest;
    assert s[0] == if sign == [] then digits[0] else sign[0];
    assert Digit(digits[0]);
    if sign == [] {
      assert s == digits + rest;
    } else {
      assert s[1..] == digits + rest;
    }
    DigitsStop(digits, rest);
  }

  /** strtoull takes a numeral, with its sign modulo 2^64, unless it does not fit 64 bits. */
  lemma {:induction false} NumeralsConvert(sign: seq<byte>, digits: seq<byte>, rest: seq<byte>)
    requires Numeral(sign, digits, rest)
    ensures var n, r := Value(digits), Strtoull(sign + digits + rest);
            if n >= 0x1_0000_0000_0000_0000 then r.None?
            else r == Some(if sign == [45] && n > 0 then 0x1_0000_0000_0000_0000 - n else n)
  {
    NumeralSplits(sign, digits, rest);
  }

  /** And nothing else. */
  lemma {:induction false} OnlyNumeralsConvert(s: seq<byte>)
    ensures Strtoull(s).Some? ==> exists sign, digits, rest :: Numeral(sign, digits, rest) && s == sign + digits + rest
  {
    if Digits(Unsigned(s)) != [] {
      var sign, digits, rest := NumeralOf(s);
    }
  }

  lemma {:induction false} NumeralOf(s: seq<byte>) returns (sign: seq<byte>, digits: seq<byte>, rest: seq<byte>)
    requires Digits(Unsigned(s)) != []
    ensures Numeral(sign, digits, rest) && s == sign + digits + rest
  {
    var t := Unsigned(s);
    sign, digits := if Signed(s) then s[..1] else [], Digits(t);
    DigitsAreFirst(t);
    rest := t[|digits|..];
    SignSplits(s, sign, t);
    Joined(sign, digits, rest, t);
  }

  lemma {:induction false} SignSplits(s: seq<byte>, sign: seq<byte>, t: seq<byte>)
    requires t == Unsigned(s) && sign == if Signed(s) then s[..1] else []
    ensures s == sign + t && (sign == [] || sign == [43] || sign == [45])
  {
  }

  lemma {:induction false} Joined(sign: seq<byte>, digits: seq<byte>, rest: seq<byte>, t: seq<byte>)
    requires digits <= t && rest == t[|digits|..]
    ensures sign + t == sign + digits + rest
  {
  }

  lemma {:induction false} DigitsAreFirst(s: seq<byte>)
    ensures Digits(s) <= s && (|Digits(s)| < |s| ==> !Digit(s[|Digits(s)|]))
  {
    if s != [] && Digit(s[0]) {
      DigitsAreFirst(s[1..]);
    }
  }

  /** scanf skips spaces and clamps the numeral to a long. */
  lemma {:induction false} NumeralsScan(blanks: seq<byte>, sign: seq<byte>, digits: seq<byte>, rest: seq<byte>)
    requires AllSpaces(blanks) && Numeral(sign, digits, rest)
    ensures var n: int := Value(digits);
            ScanLong(blanks + (sign + digits + rest)) ==
            Some(if sign == [45] then (if n <= 0x7fff_ffff_ffff_ffff then -n else -0x8000_0000_0000_0000)
                 else if n <= 0x7fff_ffff_ffff_ffff then n else 0x7fff_ffff_ffff_ffff)
  {
    var s := sign + digits + rest;
    NumeralSplits(sign, digits, rest);
    SpacesSkipped(blanks, s);
    assert SkipBlanks(s) == s;
  }

  lemma {:induction false} OnlyNumeralsScan(s: seq<byte>)
    ensures ScanLong(s).Some? ==>
              exists sign, digits, rest :: Numeral(sign, digits, rest) && SkipBlanks(s) == sign + digits + rest
  {
    if Digits(Unsigned(SkipBlanks(s))) != [] {
      var sign, digits, rest := NumeralOf(SkipBlanks(s));
    }
  }

  lemma {:induction false} SpacesSkipped(blanks: seq<byte>, s: seq<byte>)
    requires AllSpaces(blanks)
    ensures SkipBlanks(blanks + s) == SkipBlanks(s)
  {
    if blanks == [] {
      assert blanks + s == s;
    } else {
      assert (blanks + s)[1..] == blanks[1..] + s;
      SpacesSkipped(blanks[1..], s);
    }
  }

  /** Only the word itself counts for its number. */
  lemma {:induction false} WordDecides(w: seq<byte>, more: seq<byte>)
    requires w != [] && NoSpaces(w) && AfterWord(more)
    ensures Strtoull(w + more) == Strtoull(w)
  {
    var s := w + more;
    assert s[0] == w[0];
    if Signed(w) {
      assert s[1..] == w[1..] + more;
      DigitsOfWord(w[1..], more);
    } else {
      DigitsOfWord(w, more);
    }
  }

  lemma {:induction false} DigitsOfWord(w: seq<byte>, more: seq<byte>)
    requires AfterWord(more)
    ensures Digits(w + more) == Digits(w)
  {
    if w == [] {
      assert w + more == more;
    } else {
      assert (w + more)[1..] == w[1..] + more;
      DigitsOfWord(w[1..], more);
    }
  }

  // ---------------------------------------------------------------- fields

  /** The words taken one by one as fields `field` to 22. */
  function TakeWords(ws: seq<seq<byte>>, field: nat, times: Times): (r: Option<Times>)
    requires field <= 23
    decreases 23 - field
  {
    if field == 23 then Some(times)
    else if ws == [] then None
    else if field == 14 || field == 15 || field == 22 then
      match Strtoull(ws[0])
      case None => None
      case Some(v) =>
        TakeWords(ws[1..], field + 1,
                  if field == 14 then times.(utime := v) else if field == 15 then times.(stime := v)
                  else times.(starttime := v))
    else TakeWords(ws[1..], field + 1, times)
  }

  lemma {:induction false} FieldsAreWords(s: seq<byte>, field: nat, times: Times)
    requires field <= 23
    ensures ReadFields(s, field, times) == TakeWords(Words(s), field, times)
    decreases 23 - field
  {
    if field < 23 {
      var t := SkipBlanks(s);
      BlanksSkipped(s);
      if t != [] {
        WordSkipped(t);
        WordDecides(Words(t)[0], SkipWord(t));
        var v := Strtoull(t);
        FieldsAreWords(SkipWord(t), field + 1, if Timed(field) && v.Some? then Store(times, field, v.value) else times);
      }
    }
  }

  predicate HaveTimes(ws: seq<seq<byte>>) {
    |ws| >= 19 && Strtoull(ws[10]).Some? && Strtoull(ws[11]).Some? && Strtoull(ws[18]).Some?
  }

  lemma {:induction false} SkipToTimes(ws: seq<seq<byte>>, field: nat, n: nat, times: Times)
    requires (field + n <= 14 || 16 <= field) && field + n <= 22
    ensures TakeWords(ws, field, times) == if |ws| < n then None else TakeWords(ws[n..], field + n, times)
    decreases n
  {
    if n == 0 {
      assert ws[0..] == ws;
    } else if ws != [] {
      SkipToTimes(ws[1..], field + 1, n - 1, times);
      assert |ws| >= n ==> ws[1..][n - 1..] == ws[n..];
    }
  }

  /** Of the words after the state, the eleventh, twelfth and nineteenth are the times. */
  lemma {:induction false} TimesAreWords(ws: seq<seq<byte>>)
    ensures TakeWords(ws, 4, Times(0, 0, 0)) ==
            if HaveTimes(ws) then Some(Times(Strtoull(ws[10]).value, Strtoull(ws[11]).value, Strtoull(ws[18]).value))
            else None
  {
    SkipToTimes(ws, 4, 10, Times(0, 0, 0));
    if |ws| >= 12 && Strtoull(ws[10]).Some? && Strtoull(ws[11]).Some? {
      var times := Times(Strtoull(ws[10]).value, Strtoull(ws[11]).value, 0);
      var more := ws[12..];
      assert ws[10..][1..] == ws[11..] && ws[11..][1..] == more;
      SkipToTimes(more, 16, 6, times);
      assert |more| >= 6 ==> more[6..] == ws[18..];
    } else if |ws| >= 11 {
      assert ws[10..][1..] == ws[11..];
    }
  }

  // ---------------------------------------------------------------- the whole line

  /** The first opening parenthesis and the last closing one, in this order. */
  predicate Brackets(buf: seq<byte>, left: nat, right: nat) {
    && left < right < |buf| && buf[left] == 40 && buf[right] == 41
    && 40 !in buf[..left] && 41 !in buf[right + 1..]
  }

  lemma {:induction false} BracketsAre(buf: seq<byte>, left: nat, right: nat)
    requires Brackets(buf, left, right)
    ensures Bracketed(buf) == StatLine.Named(buf[left + 1..right], buf[right + 1..])
  {
    LeftBracket(buf, buf[..left]);
    RightBracket(buf, right, buf[right + 1..]);
  }

  lemma {:induction false} NoBrackets(buf: seq<byte>)
    requires Bracketed(buf).Named?
    ensures exists left: nat, right: nat :: Brackets(buf, left, right)
  {
    var left, right := FirstOf(buf, 40, 0), LastOf(buf, 41, |buf|);
    assert forall i :: 0 <= i < left ==> buf[..left][i] == buf[i];
    var rest := buf[right + 1..];
    assert forall i :: 0 <= i < |rest| ==> rest[i] == buf[right + 1 + i];
    assert Brackets(buf, left, right);
  }

  /** What stands before, between and after the parentheses. */
  function Meaning(id: int, name: seq<byte>, after: seq<byte>): (r: Option<TaskStat>) {
    if after == [] then None
    else
      var ws := Words(after[1..]);
      if HaveTimes(ws) then
        Some(TaskStat(id, if |name| <= 15 then name else name[..15], after[0],
                      (Strtoull(ws[10]).value + Strtoull(ws[11]).value) % 0x1_0000_0000_0000_0000,
                      Strtoull(ws[18]).value))
      else None
  }

  lemma {:induction false} FinishMeans(id: int, name: seq<byte>, rest: seq<byte>)
    ensures Finish(id, CutComm(name), rest) == Meaning(id, name, SkipBlanks(rest))
  {
    var after := SkipBlanks(rest);
    CommIsCut(name);
    if after != [] {
      FieldsAreWords(after[1..], 4, Times(0, 0, 0));
      TimesAreWords(Words(after[1..]));
    }
  }

  /** For any file: its first line, as far as 511 bytes and up to a NUL, must begin with a positive number and have a
      pair of parentheses. The name is what stands between them, cut to 15 bytes; the state is the first character after
      them that is no space; and the eleventh, twelfth and nineteenth words after it must be numbers, the times. */
  lemma {:induction false} ParseMeans(file: seq<byte>, buf: seq<byte>, left: nat, right: nat)
    requires buf == CString(Fgets(file, 511)) && Brackets(buf, left, right)
    ensures Parse(file) ==
            match ScanLong(buf) {
              case Some(id) =>
                if id > 0 then Meaning(id, buf[left + 1..right], SkipBlanks(buf[right + 1..])) else None
              case None => None
            }
  {
    BracketsAre(buf, left, right);
    FinishMeans(ScanLong(buf).GetOr(0), buf[left + 1..right], buf[right + 1..]);
  }

  /** Without such a pair there is no result. */
  lemma {:induction false} ParseNeedsBrackets(file: seq<byte>)
    requires Parse(file).Some?
    ensures exists left: nat, right: nat :: Brackets(CString(Fgets(file, 511)), left, right)
  {
    NoBrackets(CString(Fgets(file, 511)));
  }
}
