/** The forwarder's text: one line per metric, with label values escaped so that a reader of the Prometheus text format
    gets back exactly what was emitted. */
module Exposition {
  import opened Options

  datatype Label = Label(key: string, value: string)
  datatype Metric = Metric(name: string, labels: seq<Label>, value: string, timestamp: string)

  // ---------------------------------------------------------------- escaping

  /** str.replace for a single character. */
  function Replace(s: string, c: char, to: string): (r: string) {
    if s == "" then "" else (if s[0] == c then to else [s[0]]) + Replace(s[1..], c, to)
  }

  /** The three replacements, in the order in which they are made. */
  function Escape(s: string): (r: string) {
    Replace(Replace(Replace(s, '\\', "\\\\"), '\"', "\\\""), '\n', "\\n")
  }

  function EscapeChar(c: char): (r: string) {
    if c == '\\' then "\\\\" else if c == '\"' then "\\\"" else if c == '\n' then "\\n" else [c]
  }

  function EscapeEach(s: string): (r: string) {
    if s == "" then "" else EscapeChar(s[0]) + EscapeEach(s[1..])
  }

  lemma {:induction false} ReplaceConcat(a: string, b: string, c: char, to: string)
    ensures Replace(a + b, c, to) == Replace(a, c, to) + Replace(b, c, to)
  {
    if a == "" {
      assert a + b == b;
    } else {
      assert (a + b)[1..] == a[1..] + b;
      ReplaceConcat(a[1..], b, c, to);
    }
  }

  lemma {:induction false} ReplaceOne(x: char, c: char, to: string)
    ensures Replace([x], c, to) == if x == c then to else [x]
  {
    assert Replace([x][1..], c, to) == "";
  }

  lemma {:induction false} ReplaceTwo(x: char, y: char, c: char, to: string)
    ensures Replace([x, y], c, to) == (if x == c then to else [x]) + (if y == c then to else [y])
  {
    assert [x, y][1..] == [y];
    ReplaceOne(y, c, to);
  }

  lemma {:induction false} EscapeOne(c: char)
    ensures Escape([c]) == EscapeChar(c)
  {
    ReplaceOne(c, '\\', "\\\\");
    ReplaceTwo('\\', '\\', '\"', "\\\"");
    ReplaceTwo('\\', '\\', '\n', "\\n");
    ReplaceOne(c, '\"', "\\\"");
    ReplaceTwo('\\', '\"', '\n', "\\n");
    ReplaceOne(c, '\n', "\\n");
  }

  /** Doing the replacements one after another never escapes an escape: it is the same as mapping each character. */
  lemma {:induction false} EscapeIsOnePass(s: string)
    ensures Escape(s) == EscapeEach(s)
  {
    if s != "" {
      var x, t := [s[0]], s[1..];
      assert s == x + t;
      var x1, t1 := Replace(x, '\\', "\\\\"), Replace(t, '\\', "\\\\");
      ReplaceConcat(x, t, '\\', "\\\\");
      ReplaceConcat(x1, t1, '\"', "\\\"");
      ReplaceConcat(Replace(x1, '\"', "\\\""), Replace(t1, '\"', "\\\""), '\n', "\\n");
      EscapeOne(s[0]);
      EscapeIsOnePass(t);
    }
  }

  // ---------------------------------------------------------------- a reader of the format

  datatype Read<+T> = Bad | Got(value: T, rest: string)

  function UnescapeChar(c: char): (r: Option<char>) {
    if c == '\\' then Some('\\') else if c == '\"' then Some('\"') else if c == 'n' then Some('\n') else None
  }

  /** A label value, from after its opening quote to its closing quote. */
  function ReadValue(s: string): (r: Read<string>)
    ensures r.Got? ==> |r.rest| < |s|
  {
    if s == "" || s[0] == '\n' then Bad
    else if s[0] == '\"' then Got("", s[1..])
    else if s[0] != '\\' then
      match ReadValue(s[1..])
      case Bad => Bad
      case Got(v, rest) => Got([s[0]] + v, rest)
    else if |s| < 2 || UnescapeChar(s[1]).None? then Bad
    else
      match ReadValue(s[2..])
      case Bad => Bad
      case Got(v, rest) => Got([UnescapeChar(s[1]).value] + v, rest)
  }

  /** Everything before the first occurrence of a character, and what comes after it. */
  function Before(s: string, c: char): (r: Read<string>)
    ensures r.Got? ==> |r.rest| < |s|
  {
    if s == "" then Bad
    else if s[0] == c then Got("", s[1..])
    else
      match Before(s[1..], c)
      case Bad => Bad
      case Got(v, rest) => Got([s[0]] + v, rest)
  }

  /** One or more labels, up to the closing brace. */
  function ReadLabels(s: string): (r: Read<seq<Label>>)
    decreases |s|
  {
    match Before(s, '=')
    case Bad => Bad
    case Got(key, quoted) =>
      if quoted == "" || quoted[0] != '\"' then Bad
      else
        match ReadValue(quoted[1..])
        case Bad => Bad
        case Got(value, more) =>
          if more == "" then Bad
          else if more[0] == '}' then Got([Label(key, value)], more[1..])
          else if more[0] != ',' then Bad
          else
            match ReadLabels(more[1..])
            case Bad => Bad
            case Got(labels, rest) => Got([Label(key, value)] + labels, rest)
  }

  function ReadBlock(s: string): (r: Read<seq<Label>>) {
    if s != "" && s[0] == '}' then Got([], s[1..]) else ReadLabels(s)
  }

  function ReadMetric(line: string): (r: Option<Metric>) {
    match Before(line, '{')
    case Bad => None
    case Got(name, block) =>
      match ReadBlock(block)
      case Bad => None
      case Got(labels, more) =>
        if more == "" || more[0] != ' ' then None
        else
          match Before(more[1..], ' ')
          case Bad => None
          case Got(value, timestamp) => Some(Metric(name, labels, value, timestamp))
  }

  /** The lines of a text, each ended by a newline. */
  function Lines(body: string): (r: seq<string>)
    decreases |body|
  {
    match Before(body, '\n')
    case Bad => if body == "" then [] else [body]
    case Got(line, rest) => [line] + Lines(rest)
  }

  // ---------------------------------------------------------------- what the forwarder writes

  function Join(parts: seq<string>, sep: string): (r: string) {
    if parts == [] then "" else if |parts| == 1 then parts[0] else parts[0] + sep + Join(parts[1..], sep)
  }

  function LabelText(l: Label): (r: string) {
    l.key + "=\"" + Escape(l.value) + "\""
  }

  function LabelTexts(ls: seq<Label>): (r: seq<string>)
    ensures |r| == |ls|
  {
    seq(|ls|, i requires 0 <= i < |ls| => LabelText(ls[i]))
  }

  function MetricText(m: Metric): (r: string) {
    m.name + "{" + Join(LabelTexts(m.labels), ",") + "} " + m.value + " " + m.timestamp
  }

  function MetricTexts(ms: seq<Metric>): (r: seq<string>)
    ensures |r| == |ms|
  {
    seq(|ms|, i requires 0 <= i < |ms| => MetricText(ms[i]))
  }

  /** Names and keys come from the program and numbers have no blanks; label values are arbitrary. */
  predicate Word(s: string) {
    forall i :: 0 <= i < |s| ==> s[i] !in "\n {}=,\""
  }

  predicate ValidMetric(m: Metric) {
    && Word(m.name) && Word(m.value) && Word(m.timestamp)
    && forall i :: 0 <= i < |m.labels| ==> m.labels[i].key != "" && Word(m.labels[i].key)
  }

  predicate AllValid(ms: seq<Metric>) {
    forall i :: 0 <= i < |ms| ==> ValidMetric(ms[i])
  }

  /** The text splits into exactly one line per metric, and each line reads as its metric. */
  predicate ReadsBack(body: string, ms: seq<Metric>) {
    var lines := Lines(body);
    |lines| == |ms| && forall i :: 0 <= i < |ms| ==> ReadMetric(lines[i]) == Some(ms[i])
  }

  /** The list of lines that grows with every emit. */
  class Renderer {
    var lines: seq<string>
    ghost var emitted: seq<Metric>

    ghost predicate Valid()
      reads this
    {
      lines == MetricTexts(emitted)
    }

    constructor ()
      ensures Valid() && emitted == []
    {
      lines, emitted := [], [];
    }

    method Emit(m: Metric)
      requires Valid()
      modifies this
      ensures Valid() && emitted == old(emitted) + [m]
    {
      lines := lines + [m.name + "{" + Join(LabelTexts(m.labels), ",") + "} " + m.value + " " + m.timestamp];
      emitted := emitted + [m];
      assert lines == MetricTexts(emitted);
    }

    /** One line per emit, each of which reads back as what was emitted; at least the two metrics that say the host is
        up have been. */
    method Body() returns (body: string)
      requires Valid()
      ensures body == BodyText(emitted)
      ensures emitted != [] && AllValid(emitted) ==> ReadsBack(body, emitted)
    {
      body := Join(lines, "\n") + "\n";
      if emitted != [] && AllValid(emitted) {
        BodyComesBack(emitted);
      }
    }
  }

  function BodyText(ms: seq<Metric>): (r: string) {
    Join(MetricTexts(ms), "\n") + "\n"
  }

  // ---------------------------------------------------------------- the round trip

  /** The exact inverse of escaping: up to the closing quote, every value comes back. */
  lemma {:induction false} ValueComesBack(v: string, rest: string)
    ensures ReadValue(Escape(v) + "\"" + rest) == Got(v, rest)
  {
    EscapeIsOnePass(v);
    EachComesBack(v, rest);
  }

  lemma {:induction false} CharComesBack(c: char, t: string, v: string, rest: string)
    requires ReadValue(t) == Got(v, rest)
    ensures ReadValue(EscapeChar(c) + t) == Got([c] + v, rest)
  {
    var s := EscapeChar(c) + t;
    if c == '\\' || c == '\"' || c == '\n' {
      assert s[0] == '\\' && UnescapeChar(s[1]) == Some(c);
      assert s[2..] == t;
    } else {
      assert s[1..] == t;
    }
  }

  lemma {:induction false} EachComesBack(v: string, rest: string)
    ensures ReadValue(EscapeEach(v) + "\"" + rest) == Got(v, rest)
  {
    var s := EscapeEach(v) + "\"" + rest;
    if v == "" {
      assert s[1..] == rest;
    } else {
      var t := EscapeEach(v[1..]) + "\"" + rest;
      EachComesBack(v[1..], rest);
      assert s == EscapeChar(v[0]) + t;
      CharComesBack(v[0], t, v[1..], rest);
      assert v == [v[0]] + v[1..];
    }
  }

  lemma {:induction false} BeforeStops(a: string, c: char, rest: string)
    requires c !in a
    ensures Before(a + [c] + rest, c) == Got(a, rest)
  {
    var s := a + [c] + rest;
    if a == "" {
      assert s[1..] == rest;
    } else {
      assert s[1..] == a[1..] + [c] + rest;
      BeforeStops(a[1..], c, rest);
      assert a == [a[0]] + a[1..];
    }
  }

  lemma {:induction false} NoNewline(v: string)
    ensures '\n' !in EscapeEach(v)
  {
    if v != "" {
      NoNewline(v[1..]);
    }
  }

  lemma {:induction false} LabelComesBack(l: Label, more: string)
    requires Word(l.key)
    ensures Before(LabelText(l) + more, '=') == Got(l.key, "\"" + Escape(l.value) + "\"" + more)
    ensures ReadValue(("\"" + Escape(l.value) + "\"" + more)[1..]) == Got(l.value, more)
  {
    var quoted := "\"" + Escape(l.value) + "\"" + more;
    assert LabelText(l) + more == l.key + ['='] + quoted;
    BeforeStops(l.key, '=', quoted);
    assert quoted[1..] == Escape(l.value) + "\"" + more;
    ValueComesBack(l.value, more);
  }

  lemma {:induction false} LastLabelReads(l: Label, rest: string)
    requires Word(l.key)
    ensures ReadLabels(LabelText(l) + ("}" + rest)) == Got([l], rest)
  {
    var more := "}" + rest;
    LabelComesBack(l, more);
    assert more[1..] == rest;
  }

  lemma {:induction false} NextLabelReads(l: Label, tail: string, ls: seq<Label>, rest: string)
    requires Word(l.key) && ReadLabels(tail) == Got(ls, rest)
    ensures ReadLabels(LabelText(l) + ("," + tail)) == Got([l] + ls, rest)
  {
    var more := "," + tail;
    LabelComesBack(l, more);
    assert more[1..] == tail;
  }

  lemma {:induction false} LabelsComeBack(ls: seq<Label>, rest: string)
    requires ls != [] && forall i :: 0 <= i < |ls| ==> Word(ls[i].key)
    ensures ReadLabels(Join(LabelTexts(ls), ",") + "}" + rest) == Got(ls, rest)
  {
    var s := Join(LabelTexts(ls), ",") + "}" + rest;
    assert LabelTexts(ls)[0] == LabelText(ls[0]) && LabelTexts(ls)[1..] == LabelTexts(ls[1..]);
    if |ls| == 1 {
      assert s == LabelText(ls[0]) + ("}" + rest) && ls == [ls[0]];
      LastLabelReads(ls[0], rest);
    } else {
      var tail := Join(LabelTexts(ls[1..]), ",") + "}" + rest;
      assert s == LabelText(ls[0]) + ("," + tail) && ls == [ls[0]] + ls[1..];
      LabelsComeBack(ls[1..], rest);
      NextLabelReads(ls[0], tail, ls[1..], rest);
    }
  }

  lemma {:induction false} MetricComesBack(m: Metric)
    requires ValidMetric(m)
    ensures ReadMetric(MetricText(m)) == Some(m)
  {
    var more := " " + m.value + " " + m.timestamp;
    var block := Join(LabelTexts(m.labels), ",") + "}" + more;
    MetricTextIs(m.name, Join(LabelTexts(m.labels), ","), m.value, m.timestamp);
    BeforeStops(m.name, '{', block);
    BlockComesBack(m.labels, more);
    NumbersComeBack(m.value, m.timestamp);
  }

  lemma {:induction false} MetricTextIs(name: string, labels: string, value: string, timestamp: string)
    ensures name + "{" + labels + "} " + value + " " + timestamp
         == name + ['{'] + (labels + "}" + (" " + value + " " + timestamp))
  {
  }

  lemma {:induction false} NumbersComeBack(value: string, timestamp: string)
    requires ' ' !in value
    ensures Before((" " + value + " " + timestamp)[1..], ' ') == Got(value, timestamp)
  {
    assert (" " + value + " " + timestamp)[1..] == value + [' '] + timestamp;
    BeforeStops(value, ' ', timestamp);
  }

  lemma {:induction false} BlockComesBack(ls: seq<Label>, more: string)
    requires forall i :: 0 <= i < |ls| ==> ls[i].key != "" && Word(ls[i].key)
    ensures ReadBlock(Join(LabelTexts(ls), ",") + "}" + more) == Got(ls, more)
  {
    var block := Join(LabelTexts(ls), ",") + "}" + more;
    if ls == [] {
      assert block[1..] == more;
    } else {
      assert block[0] == LabelTexts(ls)[0][0] == ls[0].key[0];
      LabelsComeBack(ls, more);
    }
  }

  lemma {:induction false} LabelsHaveNoNewline(ls: seq<Label>)
    requires forall i :: 0 <= i < |ls| ==> Word(ls[i].key)
    ensures '\n' !in Join(LabelTexts(ls), ",")
  {
    if ls != [] {
      assert LabelTexts(ls)[0] == LabelText(ls[0]) && LabelTexts(ls)[1..] == LabelTexts(ls[1..]);
      EscapeIsOnePass(ls[0].value);
      NoNewline(ls[0].value);
      assert '\n' !in LabelText(ls[0]);
      LabelsHaveNoNewline(ls[1..]);
    }
  }

  lemma {:induction false} LinesComeBack(lines: seq<string>)
    requires lines != [] && forall i :: 0 <= i < |lines| ==> '\n' !in lines[i]
    ensures Lines(Join(lines, "\n") + "\n") == lines
  {
    var body := Join(lines, "\n") + "\n";
    if |lines| == 1 {
      assert body == lines[0] + ['\n'] + "";
      BeforeStops(lines[0], '\n', "");
      assert lines == [lines[0]];
    } else {
      var tail := Join(lines[1..], "\n") + "\n";
      assert body == lines[0] + ['\n'] + tail;
      BeforeStops(lines[0], '\n', tail);
      LinesComeBack(lines[1..]);
      assert lines == [lines[0]] + lines[1..];
    }
  }

  /** A body splits into exactly one line per emit, and each line gives back the metric emitted, whatever its label
      values. The forwarder always emits at least the two metrics that say the host is up. */
  lemma {:induction false} BodyComesBack(ms: seq<Metric>)
    requires ms != [] && AllValid(ms)
    ensures ReadsBack(BodyText(ms), ms)
  {
    var lines := MetricTexts(ms);
    forall i | 0 <= i < |ms| ensures '\n' !in lines[i] && ReadMetric(lines[i]) == Some(ms[i]) {
      LabelsHaveNoNewline(ms[i].labels);
      MetricComesBack(ms[i]);
    }
    LinesComeBack(lines);
  }
}
