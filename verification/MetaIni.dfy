// meta.ini: the state of a download task on the client's disk, written line by line and
// read back by prefix.
module MetaIni {
  import opened Text
  import opened Limits

  const MAX_SOURCES: nat := 8
  const LINE_BUFFER: nat := 255
  const NAME_BUFFER: nat := 256
  const HASH_BUFFER: nat := 65

  datatype PartInfo = PartInfo(index: int, start: int, end: int, finished: int, ip: string, port: string)

  // `parts` is the fixed array of MAX_SOURCES entries, of which the first partCount are in use.
  datatype TaskMeta = TaskMeta(fileName: string, fileHash: string, fileSize: int, partCount: int, parts: seq<PartInfo>)

  const ZERO_PART := PartInfo(0, 0, 0, 0, "", "")

  // memset(meta, 0, ...)
  const ZERO_META := TaskMeta("", "", 0, 0, [ZERO_PART, ZERO_PART, ZERO_PART, ZERO_PART,
                                        ZERO_PART, ZERO_PART, ZERO_PART, ZERO_PART])

  // ---------------------------------------------------------------- writing

  function PartKey(i: nat, field: string): string
  {
    "part_" + Decimal(i) + "_" + field + "="
  }

  function PartText(i: nat, p: PartInfo): string
  {
    PartKey(i, "start") + Decimal(p.start) + "\n" +
    (PartKey(i, "end") + Decimal(p.end) + "\n" +
     (PartKey(i, "finished") + Decimal(p.finished) + "\n" +
      (PartKey(i, "ip") + p.ip + "\n" +
       (PartKey(i, "port") + p.port + "\n"))))
  }

  function PartsText(parts: seq<PartInfo>, i: nat, n: nat): string
    requires n <= |parts|
    decreases n - i
  {
    if i >= n then "" else PartText(i, parts[i]) + PartsText(parts, i + 1, n)
  }

  function MetaText(m: TaskMeta): string
    requires 0 <= m.partCount <= |m.parts|
  {
    "file_name=" + m.fileName + "\n" +
    ("file_hash=" + m.fileHash + "\n" +
     ("file_size=" + Decimal(m.fileSize) + "\n" +
      ("part_count=" + Decimal(m.partCount) + "\n" +
       PartsText(m.parts, 0, m.partCount))))
  }

  // ---------------------------------------------------------------- reading

  predicate IsEol(c: char)
  {
    c == '\n' || c == '\r'
  }

  // output[strcspn(output, "\r\n")] = 0
  function CutAtEol(s: string): (r: string)
    ensures |r| <= |s|
  {
    if s == "" || IsEol(s[0]) then "" else [s[0]] + CutAtEol(s[1..])
  }

  // parse_meta_string_line: the new value, and whether the line counts as read. A value that
  // fills the buffer is written before the call reports failure.
  function ParseString(line: string, prefix: string, size: nat, current: string): (string, bool)
    requires size > 0
  {
    if !(prefix <= line) then (current, false)
    else
      var v := line[|prefix|..];
      if |v| >= size then (Truncated(v, size), false) else (CutAtEol(v), true)
  }

  function WithPart(m: TaskMeta, i: nat, p: PartInfo): TaskMeta
    requires i < |m.parts|
  {
    m.(parts := m.parts[i := p])
  }

  // One turn of the loop over the part numbers; the flag says whether the line was consumed.
  function PartStep(m: TaskMeta, line: string, i: nat): (r: (TaskMeta, bool))
    requires i < |m.parts|
    ensures |r.0.parts| == |m.parts| && r.0.fileName == m.fileName
  {
    var p := m.parts[i];
    if PartKey(i, "start") <= line then
      (WithPart(m, i, p.(start := Atoll(line[|PartKey(i, "start")|..]), index := i)), true)
    else if PartKey(i, "end") <= line then
      (WithPart(m, i, p.(end := Atoll(line[|PartKey(i, "end")|..]), index := i)), true)
    else if PartKey(i, "finished") <= line then
      (WithPart(m, i, p.(finished := Atoll(line[|PartKey(i, "finished")|..]), index := i)), true)
    else
      var (ip, ipOk) := ParseString(line, PartKey(i, "ip"), IP_BUFFER, p.ip);
      if ipOk then (WithPart(m, i, p.(ip := ip, index := i)), true)
      else
        var (port, portOk) := ParseString(line, PartKey(i, "port"), PORT_BUFFER, p.port);
        (WithPart(m, i, p.(ip := ip, port := port, index := if portOk then i else p.index)), portOk)
  }

  function ApplyPartLine(m: TaskMeta, line: string, i: nat): (r: TaskMeta)
    requires |m.parts| == MAX_SOURCES && i <= MAX_SOURCES
    ensures |r.parts| == MAX_SOURCES && r.fileName == m.fileName
    decreases MAX_SOURCES - i
  {
    if i == MAX_SOURCES then m
    else
      var (m', consumed) := PartStep(m, line, i);
      if consumed then m' else ApplyPartLine(m', line, i + 1)
  }

  function ApplyLine(m: TaskMeta, line: string): (r: TaskMeta)
    requires |m.parts| == MAX_SOURCES
    ensures |r.parts| == MAX_SOURCES
  {
    var (name, nameOk) := ParseString(line, "file_name=", NAME_BUFFER, m.fileName);
    if nameOk then m.(fileName := name)
    else
      var (hash, hashOk) := ParseString(line, "file_hash=", HASH_BUFFER, m.fileHash);
      var m1 := m.(fileName := name, fileHash := hash);
      if hashOk then m1
      else if "file_size=" <= line then m1.(fileSize := Atoll(line[|"file_size="|..]))
      else if "part_count=" <= line then m1.(partCount := Atoll(line[|"part_count="|..]))
      else ApplyPartLine(m1, line, 0)
  }

  // The fgets loop.
  function LoadText(m: TaskMeta, text: string): (r: TaskMeta)
    requires |m.parts| == MAX_SOURCES
    ensures |r.parts| == MAX_SOURCES
    decreases |text|
  {
    if text == "" then m
    else
      var n := LineLength(text, LINE_BUFFER);
      LoadText(ApplyLine(m, text[..n]), text[n..])
  }

  // ---------------------------------------------------------------- one line at a time

  predicate Clean(s: string)
  {
    forall i :: 0 <= i < |s| ==> !IsEol(s[i])
  }

  lemma {:induction false} CutClean(v: string)
    requires Clean(v)
    ensures CutAtEol(v + "\n") == v
    decreases |v|
  {
    if v != "" {
      assert (v + "\n")[1..] == v[1..] + "\n";
      CutClean(v[1..]);
    }
  }

  // A value that fits is restored, even the one whose line end does not fit any more: that
  // line counts as unread, but its value is already in place.
  lemma ParseRestores(prefix: string, v: string, size: nat, current: string)
    requires Clean(v) && |v| < size
    ensures ParseString(prefix + v + "\n", prefix, size, current) == (v, |v| + 1 < size)
  {
    var line := prefix + v + "\n";
    assert line[|prefix|..] == v + "\n";
    CutClean(v);
  }

  lemma LoadLine(m: TaskMeta, body: string, rest: string)
    requires |m.parts| == MAX_SOURCES && Clean(body) && |body| < LINE_BUFFER
    ensures LoadText(m, body + "\n" + rest) == LoadText(ApplyLine(m, body + "\n"), rest)
  {
    WholeLine(body, rest, LINE_BUFFER);
    var text := body + "\n" + rest;
    assert text[..|body| + 1] == body + "\n" && text[|body| + 1..] == rest;
  }

  lemma LoadName(m: TaskMeta, v: string)
    requires |m.parts| == MAX_SOURCES && Clean(v) && |v| + 1 < NAME_BUFFER
    ensures ApplyLine(m, "file_name=" + v + "\n") == m.(fileName := v)
  {
    ParseRestores("file_name=", v, NAME_BUFFER, m.fileName);
  }

  lemma NoPartLine(m: TaskMeta, line: string, i: nat)
    requires |m.parts| == MAX_SOURCES && i <= MAX_SOURCES
    requires line == "" || line[0] != 'p'
    ensures ApplyPartLine(m, line, i) == m
    decreases MAX_SOURCES - i
  {
    if i < MAX_SOURCES {
      NoPartStep(m, line, i);
      NoPartLine(m, line, i + 1);
    }
  }

  lemma NoPartStep(m: TaskMeta, line: string, i: nat)
    requires i < |m.parts| == MAX_SOURCES
    requires !(PartKey(i, "start") <= line) && !(PartKey(i, "end") <= line) && !(PartKey(i, "finished") <= line)
    requires !(PartKey(i, "ip") <= line) && !(PartKey(i, "port") <= line)
    ensures PartStep(m, line, i) == (m, false)
  {
    assert WithPart(m, i, m.parts[i]) == m;
  }

  // The 64-character hash fills its buffer: the line is reported as unread and offered to
  // every other field, none of which takes it.
  lemma LoadHash(m: TaskMeta, v: string)
    requires |m.parts| == MAX_SOURCES && Clean(v) && |v| < HASH_BUFFER
    ensures ApplyLine(m, "file_hash=" + v + "\n") == m.(fileHash := v)
  {
    var line := "file_hash=" + v + "\n";
    assert line[5] == 'h';
    ParseRestores("file_hash=", v, HASH_BUFFER, m.fileHash);
    NoPartLine(m.(fileHash := v), line, 0);
  }

  lemma LoadSize(m: TaskMeta, n: int)
    requires |m.parts| == MAX_SOURCES
    ensures ApplyLine(m, "file_size=" + Decimal(n) + "\n") == m.(fileSize := n)
  {
    var line := "file_size=" + Decimal(n) + "\n";
    assert line[5] == 's';
    assert line[|"file_size="|..] == Decimal(n) + "\n";
    AtollOfDecimal(n, "\n");
  }

  lemma LoadCount(m: TaskMeta, n: int)
    requires |m.parts| == MAX_SOURCES
    ensures ApplyLine(m, "part_count=" + Decimal(n) + "\n") == m.(partCount := n)
  {
    var line := "part_count=" + Decimal(n) + "\n";
    assert line[0] == 'p';
    assert line[|"part_count="|..] == Decimal(n) + "\n";
    AtollOfDecimal(n, "\n");
  }

  // Part numbers have one digit, so the key of a part line names its part in place 5 and its
  // field by the letter in place 7.
  lemma PartKeyShape(i: nat, field: string)
    requires i < MAX_SOURCES && field != ""
    ensures var k := PartKey(i, field);
            && |k| == 8 + |field| && k[..5] == "part_" && k[0] == 'p'
            && k[5] == DigitChar(i) && k[6] == '_' && k[7] == field[0]
  {
  }

  lemma OtherPart(m: TaskMeta, line: string, i: nat, j: nat)
    requires |m.parts| == MAX_SOURCES && i < MAX_SOURCES && j < MAX_SOURCES && i != j
    requires |line| > 7 && line[5] == DigitChar(i)
    ensures PartStep(m, line, j) == (m, false)
  {
    hide PartStep;
    PartKeyShape(j, "start");
    PartKeyShape(j, "end");
    PartKeyShape(j, "finished");
    PartKeyShape(j, "ip");
    PartKeyShape(j, "port");
    assert DigitValue(DigitChar(i)) != DigitValue(DigitChar(j));
    NoPartStep(m, line, j);
  }

  lemma SkipParts(m: TaskMeta, line: string, i: nat, j: nat)
    requires |m.parts| == MAX_SOURCES && i < MAX_SOURCES && j <= MAX_SOURCES
    requires |line| > 7 && line[5] == DigitChar(i)
    ensures j <= i ==> ApplyPartLine(m, line, j) == ApplyPartLine(m, line, i)
    ensures j > i ==> ApplyPartLine(m, line, j) == m
    decreases MAX_SOURCES - j
  {
    if j < MAX_SOURCES && j != i {
      OtherPart(m, line, i, j);
      SkipParts(m, line, i, j + 1);
    }
  }

  // A part line, whole or cut off behind its key, is taken by its own part, or by none.
  lemma KeyedLine(m: TaskMeta, i: nat, field: string, tail: string)
    requires |m.parts| == MAX_SOURCES && i < MAX_SOURCES && field != ""
    ensures var line := PartKey(i, field) + tail;
            ApplyLine(m, line) == PartStep(m, line, i).0
  {
    hide PartStep;
    var line := PartKey(i, field) + tail;
    PartKeyShape(i, field);
    assert line[0] == 'p' && line[5] == DigitChar(i);
    assert IsDigit(line[5]) && "part_count="[5] == 'c';
    SkipParts(m, line, i, 0);
    SkipParts(PartStep(m, line, i).0, line, i, i + 1);
  }

  lemma LoadPartLine(m: TaskMeta, i: nat, field: string, v: string)
    requires |m.parts| == MAX_SOURCES && i < MAX_SOURCES && field != ""
    ensures var line := PartKey(i, field) + v + "\n";
            ApplyLine(m, line) == PartStep(m, line, i).0
  {
    hide PartStep, ApplyLine;
    KeyedLine(m, i, field, v + "\n");
    assert PartKey(i, field) + v + "\n" == PartKey(i, field) + (v + "\n");
  }

  lemma FieldKeys(i: nat, field: string, v: string, other: string)
    requires i < MAX_SOURCES && field != "" && other != "" && field[0] != other[0]
    ensures !(PartKey(i, other) <= PartKey(i, field) + v + "\n")
  {
    PartKeyShape(i, field);
    PartKeyShape(i, other);
    var line := PartKey(i, field) + v + "\n";
    assert line[7] == field[0] && PartKey(i, other)[7] == other[0];
  }

  lemma NumberAfterKey(key: string, n: int)
    ensures Atoll((key + Decimal(n) + "\n")[|key|..]) == n
  {
    assert (key + Decimal(n) + "\n")[|key|..] == Decimal(n) + "\n";
    AtollOfDecimal(n, "\n");
  }

  lemma LoadStart(m: TaskMeta, i: nat, n: int)
    requires |m.parts| == MAX_SOURCES && i < MAX_SOURCES
    ensures ApplyLine(m, PartKey(i, "start") + Decimal(n) + "\n") ==
            WithPart(m, i, m.parts[i].(start := n, index := i))
  {
    hide PartKey, ApplyLine;
    LoadPartLine(m, i, "start", Decimal(n));
    NumberAfterKey(PartKey(i, "start"), n);
  }

  lemma LoadEnd(m: TaskMeta, i: nat, n: int)
    requires |m.parts| == MAX_SOURCES && i < MAX_SOURCES
    ensures ApplyLine(m, PartKey(i, "end") + Decimal(n) + "\n") ==
            WithPart(m, i, m.parts[i].(end := n, index := i))
  {
    hide PartKey, ApplyLine;
    LoadPartLine(m, i, "end", Decimal(n));
    FieldKeys(i, "end", Decimal(n), "start");
    NumberAfterKey(PartKey(i, "end"), n);
  }

  lemma LoadFinished(m: TaskMeta, i: nat, n: int)
    requires |m.parts| == MAX_SOURCES && i < MAX_SOURCES
    ensures ApplyLine(m, PartKey(i, "finished") + Decimal(n) + "\n") ==
            WithPart(m, i, m.parts[i].(finished := n, index := i))
  {
    hide PartKey, ApplyLine;
    LoadPartLine(m, i, "finished", Decimal(n));
    FieldKeys(i, "finished", Decimal(n), "start");
    FieldKeys(i, "finished", Decimal(n), "end");
    NumberAfterKey(PartKey(i, "finished"), n);
  }

  lemma LoadIp(m: TaskMeta, i: nat, v: string)
    requires |m.parts| == MAX_SOURCES && i < MAX_SOURCES && m.parts[i].index == i
    requires Clean(v) && |v| < IP_BUFFER
    ensures ApplyLine(m, PartKey(i, "ip") + v + "\n") == WithPart(m, i, m.parts[i].(ip := v))
  {
    hide PartKey, ApplyLine;
    LoadPartLine(m, i, "ip", v);
    FieldKeys(i, "ip", v, "start");
    FieldKeys(i, "ip", v, "end");
    FieldKeys(i, "ip", v, "finished");
    FieldKeys(i, "ip", v, "port");
    ParseRestores(PartKey(i, "ip"), v, IP_BUFFER, m.parts[i].ip);
  }

  lemma LoadPort(m: TaskMeta, i: nat, v: string)
    requires |m.parts| == MAX_SOURCES && i < MAX_SOURCES && m.parts[i].index == i
    requires Clean(v) && |v| < PORT_BUFFER
    ensures ApplyLine(m, PartKey(i, "port") + v + "\n") == WithPart(m, i, m.parts[i].(port := v))
  {
    hide PartKey, ApplyLine;
    LoadPartLine(m, i, "port", v);
    FieldKeys(i, "port", v, "start");
    FieldKeys(i, "port", v, "end");
    FieldKeys(i, "port", v, "finished");
    FieldKeys(i, "port", v, "ip");
    ParseRestores(PartKey(i, "port"), v, PORT_BUFFER, m.parts[i].port);
  }

  // ---------------------------------------------------------------- the whole file

  // off_t is a signed 64-bit integer.
  predicate IsOffT(n: int)
  {
    -0x8000_0000_0000_0000 <= n < 0x8000_0000_0000_0000
  }

  lemma {:induction false} DigitsAreFew(n: nat, k: nat)
    requires k > 0 && n < PowerOfTen(k)
    ensures |Digits(n)| <= k
    decreases k
  {
    if n >= 10 {
      assert PowerOfTen(k) == 10 * PowerOfTen(k - 1) && PowerOfTen(0) == 1 && PowerOfTen(1) == 10;
      DigitsAreFew(n / 10, k - 1);
    }
  }

  lemma DecimalFits(n: int)
    requires IsOffT(n)
    ensures Clean(Decimal(n)) && |Decimal(n)| <= 21
  {
    var a := if n < 0 then -n else n;
    TwentyDigits();
    DigitsAreFew(a, 20);
  }

  lemma TwentyDigits()
    ensures PowerOfTen(20) == 100_000_000_000_000_000_000
  {
    assert PowerOfTen(5) == 100_000;
    assert PowerOfTen(10) == 100_000 * PowerOfTen(5);
    assert PowerOfTen(15) == 100_000 * PowerOfTen(10);
    assert PowerOfTen(20) == 100_000 * PowerOfTen(15);
  }

  predicate PartFits(p: PartInfo, i: nat)
  {
    && p.index == i && IsOffT(p.start) && IsOffT(p.end) && IsOffT(p.finished)
    && Clean(p.ip) && |p.ip| < IP_BUFFER && Clean(p.port) && |p.port| < PORT_BUFFER
  }

  // What the C struct can hold: buffers, off_t, and no line ends inside the strings.
  predicate MetaFits(m: TaskMeta)
  {
    && |m.parts| == MAX_SOURCES && 0 <= m.partCount <= MAX_SOURCES && IsOffT(m.fileSize)
    && Clean(m.fileName) && |m.fileName| < NAME_BUFFER && Clean(m.fileHash) && |m.fileHash| < HASH_BUFFER
    && forall i :: 0 <= i < m.partCount ==> PartFits(m.parts[i], i)
  }

  // The fields that meta.ini keeps.
  predicate SameSaved(a: TaskMeta, b: TaskMeta)
  {
    && a.fileName == b.fileName && a.fileHash == b.fileHash && a.fileSize == b.fileSize
    && a.partCount == b.partCount && 0 <= b.partCount <= |a.parts| == |b.parts|
    && forall i :: 0 <= i < b.partCount ==> a.parts[i] == b.parts[i]
  }

  lemma PartLineFits(i: nat, field: string, v: string)
    requires i < MAX_SOURCES && field in ["start", "end", "finished", "ip", "port"] && Clean(v) && |v| < 100
    ensures Clean(PartKey(i, field) + v) && |PartKey(i, field) + v| < LINE_BUFFER
  {
  }

  // Lines as they are read: each ended by '\n', each changing what was read before.
  function Glue(lines: seq<string>): string
  {
    if lines == [] then "" else lines[0] + "\n" + Glue(lines[1..])
  }

  function AfterLines(l: TaskMeta, lines: seq<string>): (r: TaskMeta)
    requires |l.parts| == MAX_SOURCES
    ensures |r.parts| == MAX_SOURCES
    decreases |lines|
  {
    if lines == [] then l else AfterLines(ApplyLine(l, lines[0] + "\n"), lines[1..])
  }

  predicate LinesFit(lines: seq<string>)
  {
    forall j :: 0 <= j < |lines| ==> Clean(lines[j]) && |lines[j]| < LINE_BUFFER
  }

  lemma OneLine(l: TaskMeta, line: string, below: seq<string>)
    requires |l.parts| == MAX_SOURCES
    ensures Glue([line] + below) == line + "\n" + Glue(below)
    ensures AfterLines(l, [line] + below) == AfterLines(ApplyLine(l, line + "\n"), below)
  {
    assert ([line] + below)[1..] == below;
  }

  lemma NoLines(l: TaskMeta)
    requires |l.parts| == MAX_SOURCES
    ensures Glue([]) == "" && AfterLines(l, []) == l
  {
  }

  lemma {:induction false} GlueAppend(a: seq<string>, b: seq<string>)
    ensures Glue(a + b) == Glue(a) + Glue(b)
    decreases |a|
  {
    if a == [] {
      assert a + b == b;
    } else {
      assert (a + b)[1..] == a[1..] + b;
      GlueAppend(a[1..], b);
    }
  }

  lemma {:induction false} AfterAppend(l: TaskMeta, a: seq<string>, b: seq<string>)
    requires |l.parts| == MAX_SOURCES
    ensures AfterLines(l, a + b) == AfterLines(AfterLines(l, a), b)
    decreases |a|
  {
    hide ApplyLine;
    if a == [] {
      assert a + b == b;
    } else {
      assert (a + b)[1..] == a[1..] + b;
      AfterAppend(ApplyLine(l, a[0] + "\n"), a[1..], b);
    }
  }

  lemma {:induction false} GlueLoads(l: TaskMeta, lines: seq<string>)
    requires |l.parts| == MAX_SOURCES && LinesFit(lines)
    ensures LoadText(l, Glue(lines)) == AfterLines(l, lines)
    decreases |lines|
  {
    hide ApplyLine, Clean;
    if lines != [] {
      LoadLine(l, lines[0], Glue(lines[1..]));
      GlueLoads(ApplyLine(l, lines[0] + "\n"), lines[1..]);
    }
  }

  // The lines of one part, and the first four of them.
  function HeadLines(i: nat, p: PartInfo): seq<string>
  {
    [PartKey(i, "start") + Decimal(p.start), PartKey(i, "end") + Decimal(p.end),
     PartKey(i, "finished") + Decimal(p.finished), PartKey(i, "ip") + p.ip]
  }

  function PartLines(i: nat, p: PartInfo): seq<string>
  {
    HeadLines(i, p) + [PartKey(i, "port") + p.port]
  }

  function PartsLines(parts: seq<PartInfo>, i: nat, n: nat): seq<string>
    requires n <= |parts|
    decreases n - i
  {
    if i >= n then [] else PartLines(i, parts[i]) + PartsLines(parts, i + 1, n)
  }

  function TopLines(m: TaskMeta): seq<string>
  {
    ["file_hash=" + m.fileHash, "file_size=" + Decimal(m.fileSize), "part_count=" + Decimal(m.partCount)]
  }

  lemma PartIsLines(i: nat, p: PartInfo)
    ensures PartText(i, p) == Glue(PartLines(i, p))
  {
    hide PartKey, Decimal, Glue;
    var lines := PartLines(i, p);
    var e: seq<string> := [];
    var d := [lines[4]] + e;
    var c := [lines[3]] + d;
    var b := [lines[2]] + c;
    var a := [lines[1]] + b;
    assert lines == [lines[0]] + a;
    NoLines(ZERO_META);
    OneLine(ZERO_META, lines[4], e);
    OneLine(ZERO_META, lines[3], d);
    OneLine(ZERO_META, lines[2], c);
    OneLine(ZERO_META, lines[1], b);
    OneLine(ZERO_META, lines[0], a);
  }

  lemma {:induction false} PartsAreLines(parts: seq<PartInfo>, i: nat, n: nat)
    requires n <= |parts|
    ensures PartsText(parts, i, n) == Glue(PartsLines(parts, i, n))
    decreases n - i
  {
    hide PartText, PartLines;
    if i < n {
      PartIsLines(i, parts[i]);
      PartsAreLines(parts, i + 1, n);
      GlueAppend(PartLines(i, parts[i]), PartsLines(parts, i + 1, n));
    }
  }

  lemma AfterHead(l: TaskMeta, i: nat, p: PartInfo)
    requires |l.parts| == MAX_SOURCES && i < MAX_SOURCES && PartFits(p, i)
    ensures LinesFit(HeadLines(i, p))
    ensures AfterLines(l, HeadLines(i, p)) == WithPart(l, i, p.(port := l.parts[i].port))
  {
    hide PartKey, ApplyLine, Decimal, AfterLines;
    DecimalFits(p.start);
    DecimalFits(p.end);
    DecimalFits(p.finished);
    PartLineFits(i, "start", Decimal(p.start));
    PartLineFits(i, "end", Decimal(p.end));
    PartLineFits(i, "finished", Decimal(p.finished));
    PartLineFits(i, "ip", p.ip);
    var lines := HeadLines(i, p);
    var l1 := WithPart(l, i, l.parts[i].(start := p.start, index := i));
    var l2 := WithPart(l1, i, l1.parts[i].(end := p.end));
    var l3 := WithPart(l2, i, l2.parts[i].(finished := p.finished));
    LoadStart(l, i, p.start);
    LoadEnd(l1, i, p.end);
    LoadFinished(l2, i, p.finished);
    LoadIp(l3, i, p.ip);
    NoLines(WithPart(l3, i, l3.parts[i].(ip := p.ip)));
    OneLine(l3, lines[3], []);
    OneLine(l2, lines[2], [lines[3]] + []);
    OneLine(l1, lines[1], [lines[2]] + ([lines[3]] + []));
    OneLine(l, lines[0], [lines[1]] + ([lines[2]] + ([lines[3]] + [])));
    assert lines == [lines[0]] + ([lines[1]] + ([lines[2]] + ([lines[3]] + [])));
    assert WithPart(l3, i, l3.parts[i].(ip := p.ip)).parts == l.parts[i := p.(port := l.parts[i].port)];
  }

  lemma AfterPart(l: TaskMeta, i: nat, p: PartInfo)
    requires |l.parts| == MAX_SOURCES && i < MAX_SOURCES && PartFits(p, i)
    ensures LinesFit(PartLines(i, p)) && AfterLines(l, PartLines(i, p)) == WithPart(l, i, p)
  {
    hide PartKey, ApplyLine, HeadLines;
    var l4 := WithPart(l, i, p.(port := l.parts[i].port));
    var last := [PartKey(i, "port") + p.port];
    AfterHead(l, i, p);
    LoadPort(l4, i, p.port);
    PartLineFits(i, "port", p.port);
    AfterAppend(l, HeadLines(i, p), last);
    assert last[1..] == [] && WithPart(l4, i, p) == WithPart(l, i, p);
  }

  lemma Splice<T>(before: seq<T>, saved: seq<T>, i: nat, n: nat)
    requires |before| == |saved| && i < n <= |before|
    ensures var mid := before[i := saved[i]];
            mid[..i + 1] + saved[i + 1..n] + mid[n..] == before[..i] + saved[i..n] + before[n..]
  {
  }

  // Whatever the loaded state was before, after the part lines it has the saved parts.
  lemma {:induction false} LoadParts(l: TaskMeta, parts: seq<PartInfo>, i: nat, n: nat)
    requires |l.parts| == |parts| == MAX_SOURCES && i <= n <= MAX_SOURCES
    requires forall j :: i <= j < n ==> PartFits(parts[j], j)
    ensures LinesFit(PartsLines(parts, i, n))
    ensures AfterLines(l, PartsLines(parts, i, n)) == l.(parts := l.parts[..i] + parts[i..n] + l.parts[n..])
    decreases n - i
  {
    if i == n {
      assert l.parts == l.parts[..i] + parts[i..n] + l.parts[n..];
    } else {
      hide ApplyLine, PartLines, PartFits;
      AfterPart(l, i, parts[i]);
      LoadParts(WithPart(l, i, parts[i]), parts, i + 1, n);
      AfterAppend(l, PartLines(i, parts[i]), PartsLines(parts, i + 1, n));
      Splice(l.parts, parts, i, n);
    }
  }

  lemma AfterTop(l: TaskMeta, m: TaskMeta)
    requires |l.parts| == MAX_SOURCES && MetaFits(m)
    ensures LinesFit(TopLines(m))
    ensures AfterLines(l, TopLines(m)) == l.(fileHash := m.fileHash, fileSize := m.fileSize, partCount := m.partCount)
  {
    hide ApplyLine, Decimal, AfterLines;
    DecimalFits(m.fileSize);
    DecimalFits(m.partCount);
    var lines := TopLines(m);
    var l1 := l.(fileHash := m.fileHash);
    LoadHash(l, m.fileHash);
    LoadSize(l1, m.fileSize);
    LoadCount(l1.(fileSize := m.fileSize), m.partCount);
    NoLines(l1.(fileSize := m.fileSize, partCount := m.partCount));
    OneLine(l1.(fileSize := m.fileSize), lines[2], []);
    OneLine(l1, lines[1], [lines[2]] + []);
    OneLine(l, lines[0], [lines[1]] + ([lines[2]] + []));
    assert lines == [lines[0]] + ([lines[1]] + ([lines[2]] + []));
  }

  // Everything after the name line.
  function TailText(m: TaskMeta): string
    requires 0 <= m.partCount <= |m.parts|
  {
    "file_hash=" + m.fileHash + "\n" +
    ("file_size=" + Decimal(m.fileSize) + "\n" +
     ("part_count=" + Decimal(m.partCount) + "\n" +
      PartsText(m.parts, 0, m.partCount)))
  }

  lemma TailIsLines(m: TaskMeta)
    requires 0 <= m.partCount <= |m.parts|
    ensures TailText(m) == Glue(TopLines(m) + PartsLines(m.parts, 0, m.partCount))
  {
    hide Decimal, PartsText, PartsLines, Glue;
    var top, below := TopLines(m), PartsLines(m.parts, 0, m.partCount);
    PartsAreLines(m.parts, 0, m.partCount);
    OneLine(ZERO_META, top[2], below);
    OneLine(ZERO_META, top[1], [top[2]] + below);
    OneLine(ZERO_META, top[0], [top[1]] + ([top[2]] + below));
    assert top + below == [top[0]] + ([top[1]] + ([top[2]] + below));
  }

  lemma LoadTail(l: TaskMeta, m: TaskMeta)
    requires |l.parts| == MAX_SOURCES && MetaFits(m)
    ensures LoadText(l, TailText(m)) ==
            TaskMeta(l.fileName, m.fileHash, m.fileSize, m.partCount, m.parts[..m.partCount] + l.parts[m.partCount..])
  {
    hide LoadText, ApplyLine, TailText, TopLines, PartsLines;
    var l3 := l.(fileHash := m.fileHash, fileSize := m.fileSize, partCount := m.partCount);
    TailIsLines(m);
    AfterTop(l, m);
    LoadParts(l3, m.parts, 0, m.partCount);
    AfterAppend(l, TopLines(m), PartsLines(m.parts, 0, m.partCount));
    GlueLoads(l, TopLines(m) + PartsLines(m.parts, 0, m.partCount));
    assert l3.parts[..0] + m.parts[0..m.partCount] + l3.parts[m.partCount..] ==
           m.parts[..m.partCount] + l.parts[m.partCount..];
  }

  // The longest file name whose line fits one fgets buffer, its line end apart.
  const LONGEST_NAME: nat := 245

  lemma {:induction false} CutNothing(v: string)
    requires Clean(v)
    ensures CutAtEol(v) == v
    decreases |v|
  {
    if v != "" {
      CutNothing(v[1..]);
    }
  }

  // A short leftover of a name line can spoil the name, but never make it long.
  lemma LeftoverName(l: TaskMeta, body: string)
    requires |l.parts| == MAX_SOURCES && |body| <= 10
    ensures |ApplyLine(l, body + "\n").parts| == MAX_SOURCES
    ensures ApplyLine(l, body + "\n").fileName == l.fileName || |ApplyLine(l, body + "\n").fileName| <= 1
    ensures body == "" ==> ApplyLine(l, body + "\n") == l
  {
    hide PartStep, ApplyPartLine, CutAtEol, Atoll;
    var line := body + "\n";
    if body == "" {
      assert |line| == 1 && line[0] == '\n';
      NoPartLine(l, line, 0);
    }
    if "file_name=" <= line {
      assert |line[|"file_name="|..]| <= 1;
    }
  }

  lemma LoadLongName(m: TaskMeta)
    requires MetaFits(m) && |m.fileName| >= LONGEST_NAME
    ensures var l := ZERO_META.(fileName := m.fileName[..LONGEST_NAME]);
            LoadText(ZERO_META, MetaText(m)) ==
            LoadText(ApplyLine(l, m.fileName[LONGEST_NAME..] + "\n"), TailText(m))
  {
    hide PartsText, PartStep, ApplyPartLine;
    var head, left := "file_name=" + m.fileName[..LONGEST_NAME], m.fileName[LONGEST_NAME..];
    var rest := left + "\n" + TailText(m);
    var text := MetaText(m);
    assert text == head + rest;
    CutLine(head, rest, LINE_BUFFER);
    assert text[..LINE_BUFFER] == head && text[LINE_BUFFER..] == rest;
    assert head[|"file_name="|..] == m.fileName[..LONGEST_NAME];
    CutNothing(m.fileName[..LONGEST_NAME]);
    LoadLine(ZERO_META.(fileName := m.fileName[..LONGEST_NAME]), left, TailText(m));
  }

  // Reading meta.ini back: hash, size and parts always come back as they were saved; the
  // file name does if, and only if, it has at most 245 characters.
  lemma SaveThenLoad(m: TaskMeta)
    requires MetaFits(m)
    ensures var l := LoadText(ZERO_META, MetaText(m));
            && SameSaved(l.(fileName := m.fileName), m)
            && (l.fileName == m.fileName <==> |m.fileName| <= LONGEST_NAME)
  {
    hide LoadText, ApplyLine, PartsText;
    if |m.fileName| < LONGEST_NAME {
      assert MetaText(m) == "file_name=" + m.fileName + "\n" + TailText(m);
      LoadLine(ZERO_META, "file_name=" + m.fileName, TailText(m));
      LoadName(ZERO_META, m.fileName);
      LoadTail(ZERO_META.(fileName := m.fileName), m);
    } else {
      var l := ZERO_META.(fileName := m.fileName[..LONGEST_NAME]);
      var left := m.fileName[LONGEST_NAME..];
      LoadLongName(m);
      LeftoverName(l, left);
      LoadTail(ApplyLine(l, left + "\n"), m);
    }
  }
}
