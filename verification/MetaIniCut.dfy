// meta.ini as a client leaves it that is killed while it saves: any beginning of the text.
module MetaIniCut {
  import opened Text
  import opened Limits
  import opened MetaIni

  // Reading has not come to the value of the last port, that of part k.
  predicate Waiting(l: TaskMeta, k: nat)
  {
    |l.parts| == MAX_SOURCES && k < MAX_SOURCES && l.parts[k].port == "" && l.partCount in {0, k + 1}
  }

  // A line, whole or cut off, that gives no value to that port, and no wrong one to the count.
  predicate Harmless(line: string, k: nat)
  {
    && !(PartKey(k, "port") < line)
    && ("part_count=" <= line ==> Atoll(line[|"part_count="|..]) in {0, k + 1})
  }

  lemma HarmlessKeepsWaiting(l: TaskMeta, line: string, k: nat)
    requires Waiting(l, k) && Harmless(line, k)
    ensures Waiting(ApplyLine(l, line), k)
  {
    hide PartKey, PartStep, Atoll;
    var name := ParseString(line, "file_name=", NAME_BUFFER, l.fileName).0;
    var hash := ParseString(line, "file_hash=", HASH_BUFFER, l.fileHash).0;
    PartLineNeedsKey(l.(fileName := name, fileHash := hash), line, 0, k);
  }

  lemma PartLineNeedsKey(l: TaskMeta, line: string, i: nat, k: nat)
    requires |l.parts| == MAX_SOURCES && i <= MAX_SOURCES && k < MAX_SOURCES && !(PartKey(k, "port") < line)
    ensures l.parts[k].port == "" ==> ApplyPartLine(l, line, i).parts[k].port == ""
    ensures ApplyPartLine(l, line, i).partCount == l.partCount
    decreases MAX_SOURCES - i
  {
    hide PartKey, Atoll;
    if i < MAX_SOURCES {
      PartLineNeedsKey(PartStep(l, line, i).0, line, i + 1, k);
    }
  }

  lemma CutInFirst(l: TaskMeta, text: string)
    requires |l.parts| == MAX_SOURCES && Clean(text) && |text| < LINE_BUFFER
    ensures LoadText(l, text) == if text == "" then l else ApplyLine(l, text)
  {
    OpenLine(text, LINE_BUFFER);
    if text != "" {
      assert text[..|text|] == text && LoadText(ApplyLine(l, text), text[|text|..]) == ApplyLine(l, text);
    }
  }

  // A whole line that is harmless however much of it is there.
  predicate Passes(body: string, k: nat)
  {
    !(PartKey(k, "port") <= body) && ("part_count=" <= body ==> body == "part_count=" + Decimal(k + 1))
  }

  lemma PassesUpToACut(body: string, k: nat, line: string)
    requires k < MAX_SOURCES && Passes(body, k) && line <= body + "\n"
    ensures Harmless(line, k)
  {
    PartKeyShape(k, "port");
    PortKeyEnds(k);
    var key := "part_count=";
    if key <= line {
      assert Digits(k + 1) == [DigitChar(k + 1)];
      var number := line[|key|..];
      EndsBehind(key, body, line);
      assert body == key + Decimal(k + 1);
      assert number <= Decimal(k + 1) + "\n";
      if number != "" {
        AtollOfDecimal(k + 1, "");
        AtollOfDecimal(k + 1, "\n");
        assert number == Decimal(k + 1) + "" || number == Decimal(k + 1) + "\n";
      }
    }
    hide PartKey;
    if PartKey(k, "port") < line {
      EndsBehind(PartKey(k, "port"), body, line);
    }
  }

  lemma PortKeyEnds(k: nat)
    requires k < MAX_SOURCES
    ensures var key := PartKey(k, "port"); key != "" && key[|key| - 1] == '='
  {
  }

  lemma EndsBehind(key: string, body: string, line: string)
    requires key != "" && key[|key| - 1] == '=' && key <= line <= body + "\n"
    ensures key <= body
  {
    assert (body + "\n")[|key| - 1] == '=';
    assert key == (body + "\n")[..|key|] == body[..|key|];
  }

  // Up to a cut, a file is read like the whole one: the cut comes within this line, and the
  // last port has no value yet, or reading goes on behind it.
  lemma CutWithin(l: TaskMeta, body: string, rest: string, text: string, k: nat)
    requires Waiting(l, k) && Passes(body, k)
    requires Clean(body) && |body| < LINE_BUFFER && text <= body + "\n" + rest
    ensures var l' := ApplyLine(l, body + "\n");
            if |text| <= |body| then Waiting(LoadText(l, text), k)
            else text[|body| + 1..] <= rest && LoadText(l, text) == LoadText(l', text[|body| + 1..]) && Waiting(l', k)
  {
    hide ApplyLine, LoadText, PartKey, LineLength, Passes, Harmless;
    CutBehind(body + "\n", rest, text);
    if |text| <= |body| {
      assert text == body[..|text|];
      CutInFirst(l, text);
      PassesUpToACut(body, k, text);
      HarmlessKeepsWaiting(l, text, k);
    } else {
      LoadLine(l, body, text[|body| + 1..]);
      PassesUpToACut(body, k, body + "\n");
      HarmlessKeepsWaiting(l, body + "\n", k);
    }
  }

  lemma CutBehind(line: string, rest: string, text: string)
    requires text <= line + rest
    ensures |text| >= |line| ==> text == line + text[|line|..] && text[|line|..] <= rest
    ensures |text| <= |line| ==> text == line[..|text|]
  {
  }

  ghost predicate AllPass(lines: seq<string>, k: nat)
  {
    forall j :: 0 <= j < |lines| ==> Passes(lines[j], k)
  }

  lemma {:induction false} CutAmong(l: TaskMeta, lines: seq<string>, rest: string, text: string, k: nat)
    requires Waiting(l, k) && LinesFit(lines) && AllPass(lines, k) && text <= Glue(lines) + rest
    ensures var n := |Glue(lines)|;
            Waiting(LoadText(l, text), k)
            || (n <= |text| && text[n..] <= rest && LoadText(l, text) == LoadText(AfterLines(l, lines), text[n..])
                && Waiting(AfterLines(l, lines), k))
    decreases |lines|
  {
    hide Passes, PartKey, ApplyLine, LoadText, Clean;
    if lines == [] {
      assert Glue(lines) + rest == rest && text[0..] == text;
    } else {
      var below := Glue(lines[1..]);
      assert Glue(lines) + rest == lines[0] + "\n" + (below + rest);
      CutWithin(l, lines[0], below + rest, text, k);
      if |text| > |lines[0]| {
        var left := text[|lines[0]| + 1..];
        CutAmong(ApplyLine(l, lines[0] + "\n"), lines[1..], rest, left, k);
        assert |left| >= |below| ==> left[|below|..] == text[|Glue(lines)|..];
      }
    }
  }

  lemma PartLinePasses(i: nat, field: string, v: string, k: nat)
    requires i < MAX_SOURCES && k < MAX_SOURCES && field != "" && (i != k || field[0] != 'p')
    ensures Passes(PartKey(i, field) + v, k)
  {
    PartKeyShape(i, field);
    PartKeyShape(k, "port");
    var line := PartKey(i, field) + v;
    assert line[5] == DigitChar(i) && line[7] == field[0];
    assert IsDigit(line[5]) && "part_count="[5] == 'c';
    assert i != k ==> DigitValue(DigitChar(i)) != DigitValue(DigitChar(k));
  }

  lemma HeadPasses(i: nat, p: PartInfo, k: nat)
    requires i < MAX_SOURCES && k < MAX_SOURCES
    ensures AllPass(HeadLines(i, p), k)
    ensures i != k ==> AllPass(PartLines(i, p), k)
  {
    hide PartKey, Decimal, Passes;
    PartLinePasses(i, "start", Decimal(p.start), k);
    PartLinePasses(i, "end", Decimal(p.end), k);
    PartLinePasses(i, "finished", Decimal(p.finished), k);
    PartLinePasses(i, "ip", p.ip, k);
    if i != k {
      PartLinePasses(i, "port", p.port, k);
    }
  }

  lemma BothPass(a: seq<string>, b: seq<string>, k: nat)
    ensures AllPass(a, k) && AllPass(b, k) ==> AllPass(a + b, k)
  {
  }

  lemma {:induction false} PartsPass(parts: seq<PartInfo>, i: nat, k: nat)
    requires i <= k < |parts| == MAX_SOURCES
    ensures AllPass(PartsLines(parts, i, k), k)
    decreases k - i
  {
    hide PartLines;
    if i < k {
      hide AllPass;
      HeadPasses(i, parts[i], k);
      PartsPass(parts, i + 1, k);
      BothPass(PartLines(i, parts[i]), PartsLines(parts, i + 1, k), k);
    }
  }

  lemma {:induction false} LastPartLines(parts: seq<PartInfo>, i: nat, k: nat)
    requires i <= k < |parts|
    ensures PartsLines(parts, i, k + 1) == PartsLines(parts, i, k) + PartLines(k, parts[k])
    decreases k - i
  {
    hide PartLines;
    if i < k {
      LastPartLines(parts, i + 1, k);
      var a, b, c := PartLines(i, parts[i]), PartsLines(parts, i + 1, k), PartLines(k, parts[k]);
      assert a + (b + c) == a + b + c;
    } else {
      assert PartsLines(parts, k + 1, k + 1) == [] && PartLines(k, parts[k]) + [] == [] + PartLines(k, parts[k]);
    }
  }

  lemma TopPasses(m: TaskMeta)
    requires 0 < m.partCount <= MAX_SOURCES
    ensures AllPass(TopLines(m), m.partCount - 1)
  {
    var k := m.partCount - 1;
    PartKeyShape(k, "port");
    assert PartKey(k, "port")[0] == 'p' && IsDigit(PartKey(k, "port")[5]);
    assert TopLines(m)[2][5] == 'c' && TopLines(m)[0][0] == TopLines(m)[1][0] == 'f' && "part_count="[0] == 'p';
  }

  // However much of the last line is there, it changes nothing but the port.
  lemma CutPortLine(l: TaskMeta, k: nat, port: string, text: string)
    requires Waiting(l, k) && l.parts[k].index == k
    requires Clean(port) && |port| < PORT_BUFFER && text <= PartKey(k, "port") + port + "\n"
    ensures var r := LoadText(l, text);
            Waiting(r, k) || r == WithPart(l, k, l.parts[k].(port := r.parts[k].port))
  {
    hide PartKey, ApplyLine, LoadText, WithPart;
    var key := PartKey(k, "port");
    PartKeyShape(k, "port");
    if text != "" {
      CutPortLineIsOne(l, k, port, text);
      if key < text {
        ApplyPortLine(l, k, text[|key|..]);
        assert text == key + text[|key|..];
      } else {
        assert text <= key && IsDigit(key[5]) && "part_count="[5] == 'c';
        HarmlessKeepsWaiting(l, text, k);
      }
    } else {
      CutInFirst(l, text);
    }
  }

  lemma CutPortLineIsOne(l: TaskMeta, k: nat, port: string, text: string)
    requires |l.parts| == MAX_SOURCES && k < MAX_SOURCES && text != ""
    requires Clean(port) && |port| < PORT_BUFFER && text <= PartKey(k, "port") + port + "\n"
    ensures LoadText(l, text) == ApplyLine(l, text)
  {
    hide PartKey, ApplyLine;
    var line := PartKey(k, "port") + port;
    PartLineFits(k, "port", port);
    CutBehind(line + "\n", "", text);
    if |text| <= |line| {
      assert text == line[..|text|];
      CutInFirst(l, text);
    } else {
      LoadLine(l, line, "");
      assert text == line + "\n" == line + "\n" + "";
    }
  }

  lemma ApplyPortLine(l: TaskMeta, k: nat, tail: string)
    requires |l.parts| == MAX_SOURCES && k < MAX_SOURCES && l.parts[k].index == k
    ensures var r := ApplyLine(l, PartKey(k, "port") + tail);
            r == WithPart(l, k, l.parts[k].(port := r.parts[k].port))
  {
    hide PartKey, ApplyLine;
    var line := PartKey(k, "port") + tail;
    KeyedLine(l, k, "port", tail);
    PartKeyShape(k, "port");
    PartKeyShape(k, "start");
    PartKeyShape(k, "end");
    PartKeyShape(k, "finished");
    PartKeyShape(k, "ip");
    assert line[7] == 'p' && PartKey(k, "ip")[7] == 'i';
  }

  // What a file that was cut off still has of `m`: everything but the end of the last port.
  predicate SameButLastPort(l: TaskMeta, m: TaskMeta)
    requires 0 < m.partCount <= |m.parts|
  {
    var k := m.partCount - 1;
    && l.fileHash == m.fileHash && l.fileSize == m.fileSize && l.partCount == m.partCount
    && |l.parts| == |m.parts| && l.parts[..k] == m.parts[..k]
    && l.parts[k] == m.parts[k].(port := l.parts[k].port)
  }

  lemma CutTail(l: TaskMeta, m: TaskMeta, text: string)
    requires MetaFits(m) && m.partCount > 0 && text <= TailText(m) && Waiting(l, m.partCount - 1)
    ensures var r := LoadText(l, text);
            Waiting(r, m.partCount - 1) || SameButLastPort(r, m)
  {
    hide ApplyLine, LoadText, TailText, TopLines, PartsLines, HeadLines, PartKey;
    var k := m.partCount - 1;
    var p := m.parts[k];
    var top, parts := TopLines(m), PartsLines(m.parts, 0, k);
    var last := PartKey(k, "port") + p.port;
    var before := top + parts + HeadLines(k, p);
    TailIsLines(m);
    PartsPass(m.parts, 0, k);
    LastPartLines(m.parts, 0, k);
    HeadPasses(k, p, k);
    TopPasses(m);
    BothPass(top, parts, k);
    BothPass(top + parts, HeadLines(k, p), k);
    assert top + (parts + (HeadLines(k, p) + [last])) == before + [last];
    GlueAppend(before, [last]);
    OneLine(l, last, []);
    NoLines(l);
    assert [last] + [] == [last];
    var l1 := l.(fileHash := m.fileHash, fileSize := m.fileSize, partCount := m.partCount);
    AfterTop(l, m);
    LoadParts(l1, m.parts, 0, k);
    var l2 := AfterLines(l1, parts);
    AfterHead(l2, k, p);
    AfterAppend(l, top, parts);
    AfterAppend(l, top + parts, HeadLines(k, p));
    CutAmong(l, before, last + "\n", text, k);
    var n := |Glue(before)|;
    if n <= |text| && text[n..] <= last + "\n" {
      CutPortLine(AfterLines(l, before), k, p.port, text[n..]);
    }
  }

  lemma NameThenTail(m: TaskMeta)
    requires 0 <= m.partCount <= |m.parts|
    ensures MetaText(m) == "file_name=" + m.fileName + "\n" + TailText(m)
  {
    hide Decimal, PartsText;
  }

  lemma NameLineIsHarmless(line: string, k: nat)
    requires k < MAX_SOURCES && (line == "" || line[0] == 'f')
    ensures Harmless(line, k) && Passes(line, k)
  {
    PartKeyShape(k, "port");
    hide PartKey;
    assert "part_count="[0] == 'p';
  }

  lemma ShortLinePasses(line: string, k: nat)
    requires k < MAX_SOURCES && |line| <= 10
    ensures Passes(line, k)
  {
    PartKeyShape(k, "port");
    hide PartKey;
    assert |"part_count="| == 11;
  }

  lemma CutShortName(m: TaskMeta, text: string)
    requires MetaFits(m) && m.partCount > 0 && text <= MetaText(m) && |m.fileName| < LONGEST_NAME
    ensures var r := LoadText(ZERO_META, text);
            Waiting(r, m.partCount - 1) || SameButLastPort(r, m)
  {
    hide ApplyLine, LoadText, TailText, MetaText, Passes, Harmless, SameButLastPort;
    var k := m.partCount - 1;
    var body := "file_name=" + m.fileName;
    NameLineIsHarmless(body, k);
    NameThenTail(m);
    CutWithin(ZERO_META, body, TailText(m), text, k);
    if |text| > |body| {
      CutTail(ApplyLine(ZERO_META, body + "\n"), m, text[|body| + 1..]);
    }
  }

  lemma CutLongName(m: TaskMeta, text: string)
    requires MetaFits(m) && m.partCount > 0 && text <= MetaText(m) && |m.fileName| >= LONGEST_NAME
    ensures var r := LoadText(ZERO_META, text);
            Waiting(r, m.partCount - 1) || SameButLastPort(r, m)
  {
    hide ApplyLine, LoadText, TailText, MetaText, Passes, Harmless, SameButLastPort;
    var k := m.partCount - 1;
    var head, left := "file_name=" + m.fileName[..LONGEST_NAME], m.fileName[LONGEST_NAME..];
    NameLineIsHarmless(head, k);
    ShortLinePasses(left, k);
    NameThenTail(m);
    assert MetaText(m) == head + (left + "\n" + TailText(m));
    if |text| < LINE_BUFFER {
      assert text == head[..|text|];
      NameLineIsHarmless(text, k);
      CutInFirst(ZERO_META, text);
      HarmlessKeepsWaiting(ZERO_META, text, k);
    } else {
      assert text[..LINE_BUFFER] == head;
      var l, rest := ApplyLine(ZERO_META, head), text[LINE_BUFFER..];
      CutFirst(ZERO_META, head, text);
      HarmlessKeepsWaiting(ZERO_META, head, k);
      CutWithin(l, left, TailText(m), rest, k);
      if |rest| > |left| {
        CutTail(ApplyLine(l, left + "\n"), m, rest[|left| + 1..]);
      }
    }
  }

  // A client that is killed while it saves leaves the beginning of a meta.ini. Reading it
  // gives the whole task but for the end of its last port, or leaves that port empty.
  lemma CutFile(m: TaskMeta, text: string)
    requires MetaFits(m) && m.partCount > 0 && text <= MetaText(m)
    ensures var r := LoadText(ZERO_META, text);
            Waiting(r, m.partCount - 1) || SameButLastPort(r, m)
  {
    if |m.fileName| < LONGEST_NAME {
      CutShortName(m, text);
    } else {
      CutLongName(m, text);
    }
  }

  lemma CutFirst(l: TaskMeta, head: string, text: string)
    requires |l.parts| == MAX_SOURCES && Clean(head) && |head| == LINE_BUFFER && head <= text
    ensures LoadText(l, text) == LoadText(ApplyLine(l, head), text[LINE_BUFFER..])
  {
    CutLine(head, text[LINE_BUFFER..], LINE_BUFFER);
    assert text == head + text[LINE_BUFFER..];
  }
}
