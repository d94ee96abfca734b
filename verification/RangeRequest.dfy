// The request for a range ticket: one string with '|' between its five fields, built by the
// client and taken apart by the server.
module RangeRequest {
  import opened Wrappers
  import opened Text
  import opened Limits

  const REQUEST_BUFFER: nat := 256

  datatype Request = Request(fileName: string, start: int, end: int, ip: string, port: string)

  function Joined(r: Request): string
  {
    r.fileName + "|" + (Decimal(r.start) + "|" + (Decimal(r.end) + "|" + (r.ip + "|" + r.port)))
  }

  // build_gets_range_ticket_request
  function Build(r: Request): Option<string>
  {
    if |Joined(r)| < REQUEST_BUFFER then Some(Joined(r)) else None
  }

  // strtok skips every delimiter in front of a token.
  function SkipBars(s: string): string
  {
    if s != "" && s[0] == '|' then SkipBars(s[1..]) else s
  }

  function TokenLength(s: string): (n: nat)
    ensures n <= |s|
    ensures '|' !in s[..n] && (n < |s| ==> s[n] == '|')
  {
    if s == "" || s[0] == '|' then 0
    else
      var n := TokenLength(s[1..]);
      assert s[..n + 1] == [s[0]] + s[1..][..n];
      n + 1
  }

  // One strtok call: the token, and the text the next call starts from.
  function NextToken(s: string): Option<(string, string)>
  {
    var t := SkipBars(s);
    if t == "" then None
    else
      var n := TokenLength(t);
      Some((t[..n], if n < |t| then t[n + 1..] else ""))
  }

  // parse_gets_range_ticket_request
  function Parse(text: string): Option<Request>
  {
    if |text| >= REQUEST_BUFFER then None
    else match NextToken(text)
      case None => None
      case Some((name, r1)) =>
        if |name| >= FILE_NAME_BUFFER then None
        else match NextToken(r1)
          case None => None
          case Some((start, r2)) =>
            match NextToken(r2)
            case None => None
            case Some((end, r3)) =>
              match NextToken(r3)
              case None => None
              case Some((ip, r4)) =>
                if |ip| >= IP_BUFFER then None
                else match NextToken(r4)
                  case None => None
                  case Some((port, _)) =>
                    if |port| >= PORT_BUFFER || Atoll(start) < 0 || Atoll(end) < Atoll(start) then None
                    else Some(Request(name, Atoll(start), Atoll(end), ip, port))
  }

  predicate IsField(s: string)
  {
    s != "" && '|' !in s
  }

  lemma {:induction false} SkipsToField(s: string)
    ensures SkipBars(s) == "" || SkipBars(s)[0] != '|'
    decreases |s|
  {
    if s != "" && s[0] == '|' {
      SkipsToField(s[1..]);
    }
  }

  lemma TokensAreFields(s: string)
    ensures NextToken(s).Some? ==> IsField(NextToken(s).value.0)
  {
    SkipsToField(s);
  }

  lemma {:induction false} LengthOfField(f: string, rest: string)
    requires '|' !in f && (rest == "" || rest[0] == '|')
    ensures TokenLength(f + rest) == |f|
    decreases |f|
  {
    if f != "" {
      assert (f + rest)[1..] == f[1..] + rest;
      LengthOfField(f[1..], rest);
    } else {
      assert f + rest == rest;
    }
  }

  lemma FieldComesOff(f: string, rest: string)
    requires IsField(f)
    ensures NextToken(f + "|" + rest) == Some((f, rest))
    ensures NextToken(f) == Some((f, ""))
  {
    LengthOfField(f, "|" + rest);
    assert f + ("|" + rest) == f + "|" + rest;
    LengthOfField(f, "");
    assert f + "" == f;
  }

  lemma DecimalIsField(n: int)
    ensures IsField(Decimal(n))
  {
  }

  lemma NumberReadsBack(n: int)
    ensures Atoll(Decimal(n)) == n
  {
    AtollOfDecimal(n, "");
    assert Decimal(n) + "" == Decimal(n);
  }

  predicate Sendable(r: Request)
  {
    && IsField(r.fileName) && IsField(r.ip) && IsField(r.port) && 0 <= r.start <= r.end
    && |Joined(r)| < REQUEST_BUFFER && |r.ip| < IP_BUFFER && |r.port| < PORT_BUFFER
  }

  lemma SendableReadsBack(r: Request)
    requires Sendable(r)
    ensures Parse(Joined(r)) == Some(r)
  {
    hide Decimal, Atoll, NextToken, IsField;
    DecimalIsField(r.start);
    DecimalIsField(r.end);
    NumberReadsBack(r.start);
    NumberReadsBack(r.end);
    var t4 := r.ip + "|" + r.port;
    var t3 := Decimal(r.end) + "|" + t4;
    var t2 := Decimal(r.start) + "|" + t3;
    FieldComesOff(r.fileName, t2);
    FieldComesOff(Decimal(r.start), t3);
    FieldComesOff(Decimal(r.end), t4);
    FieldComesOff(r.ip, r.port);
    FieldComesOff(r.port, "");
  }

  lemma ParsedIsSendable(text: string)
    ensures var p := Parse(text);
            p.Some? ==> IsField(p.value.fileName) && IsField(p.value.ip) && IsField(p.value.port)
                        && 0 <= p.value.start <= p.value.end && |p.value.ip| < IP_BUFFER && |p.value.port| < PORT_BUFFER
  {
    hide NextToken, IsField;
    forall s
      ensures NextToken(s).Some? ==> IsField(NextToken(s).value.0)
    {
      TokensAreFields(s);
    }
  }

  // The server reads back what the client asked for if, and only if, the three strings are
  // non-empty and free of '|', the range is in order, and everything fits its buffer.
  lemma RequestReadsBackIff(r: Request)
    ensures Build(r).Some? && Parse(Build(r).value) == Some(r) <==>
            && r.fileName != "" && '|' !in r.fileName && r.ip != "" && '|' !in r.ip && r.port != "" && '|' !in r.port
            && 0 <= r.start <= r.end && |r.ip| < 64 && |r.port| < 16
            && |r.fileName| + |Decimal(r.start)| + |Decimal(r.end)| + |r.ip| + |r.port| + 4 < 256
  {
    if Sendable(r) {
      SendableReadsBack(r);
    }
    if Build(r).Some? {
      ParsedIsSendable(Joined(r));
    }
  }

  // ---------------------------------------------------------------- the server's cursor

  lemma SkipStep(buf: string, pos: nat)
    requires pos <= |buf|
    ensures pos < |buf| && buf[pos] == '|' ==> SkipBars(buf[pos..]) == SkipBars(buf[pos + 1..])
    ensures !(pos < |buf| && buf[pos] == '|') ==> SkipBars(buf[pos..]) == buf[pos..]
  {
  }

  // strtok_r: `pos` is where the previous call stopped.
  method Strtok(buf: string, pos: nat) returns (token: Option<string>, next: nat)
    requires pos <= |buf|
    ensures pos <= next <= |buf|
    ensures match NextToken(buf[pos..])
            case None => token == None
            case Some((t, rest)) => token == Some(t) && buf[next..] == rest
  {
    hide SkipBars, TokenLength;
    var from := pos;
    while from < |buf| && buf[from] == '|'
      invariant pos <= from <= |buf| && SkipBars(buf[from..]) == SkipBars(buf[pos..])
    {
      SkipStep(buf, from);
      from := from + 1;
    }
    SkipStep(buf, from);
    if from == |buf| {
      return None, from;
    }
    var to := from;
    while to < |buf| && buf[to] != '|'
      invariant from <= to <= |buf| && forall i :: from <= i < to ==> buf[i] != '|'
    {
      to := to + 1;
    }
    TokenAt(buf, from, to);
    token := Some(buf[from..to]);
    next := if to < |buf| then to + 1 else to;
  }

  lemma TokenAt(buf: string, from: nat, to: nat)
    requires from <= to <= |buf| && (to < |buf| ==> buf[to] == '|')
    requires forall i :: from <= i < to ==> buf[i] != '|'
    ensures TokenLength(buf[from..]) == to - from && buf[from..][..to - from] == buf[from..to]
    ensures to < |buf| ==> buf[from..][to - from + 1..] == buf[to + 1..]
  {
  }

  method ParseGetsRangeTicketRequest(text: string) returns (r: Option<Request>)
    ensures r == Parse(text)
  {
    hide NextToken, Atoll;
    if |text| >= REQUEST_BUFFER {
      return None;
    }
    var name, pos := Strtok(text, 0);
    assert text[0..] == text;
    if name == None || |name.value| >= FILE_NAME_BUFFER {
      return None;
    }
    var token;
    token, pos := Strtok(text, pos);
    if token == None {
      return None;
    }
    var start := Atoll(token.value);
    token, pos := Strtok(text, pos);
    if token == None {
      return None;
    }
    var end := Atoll(token.value);
    var ip, port;
    ip, pos := Strtok(text, pos);
    if ip == None || |ip.value| >= IP_BUFFER {
      return None;
    }
    port, pos := Strtok(text, pos);
    if port == None || |port.value| >= PORT_BUFFER {
      return None;
    }
    if start < 0 || end < start {
      return None;
    }
    return Some(Request(name.value, start, end, ip.value, port.value));
  }
}
