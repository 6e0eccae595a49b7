/**
 The RN2483 driver: polled lines in, text commands out.

 The environment is what each turn of the polling loop meets: the deadline has passed
 (Late), no byte is waiting (Empty), or one is (Got).
 */
module Rn2483 {
  import opened Text
  import opened Hexadecimal
  import Decimal

  const RESP_BUF: nat := 64
  const MAX_PAYLOAD: nat := 64
  const CONFIG_BUF: nat := 48
  const CMD_BUF: nat := 2 * MAX_PAYLOAD + 16
  const ETIMEDOUT := 116
  const EIO := 5
  const EINVAL := 22

  /** An int or unsigned int of 32 bits. */
  type Word = n: int | -0x8000_0000 <= n < 0x1_0000_0000

  datatype Tick = Late | Empty | Got(c: char)

  /** The bytes the UART delivers. */
  function Bytes(ticks: seq<Tick>): string {
    if ticks == [] then []
    else (if ticks[0].Got? then [ticks[0].c] else []) + Bytes(ticks[1..])
  }

  /** The bytes before the next newline, if it comes before the deadline. */
  function Line(ticks: seq<Tick>): Option<string> {
    if ticks == [] || ticks[0].Late? then None
    else if ticks[0].Empty? then Line(ticks[1..])
    else if ticks[0].c == '\n' then Some("")
    else Prepend([ticks[0].c], Line(ticks[1..]))
  }

  function Prepend(s: string, o: Option<string>): Option<string> {
    match o
    case Some(l) => Some(s + l)
    case None => None
  }

  lemma PrependTwice(s: string, c: char, o: Option<string>)
    ensures Prepend(s, Prepend([c], o)) == Prepend(s + [c], o)
    ensures Prepend("", o) == o
    ensures Prepend(s, Some("")) == Some(s)
  {
    if o.Some? {
      assert s + ([c] + o.value) == s + [c] + o.value && "" + o.value == o.value;
    }
    assert s + "" == s;
  }

  /** What is left for the next reader. */
  function After(ticks: seq<Tick>): seq<Tick> {
    if ticks == [] then []
    else if ticks[0].Late? || ticks[0] == Got('\n') then ticks[1..]
    else After(ticks[1..])
  }

  function Strip(s: string): string {
    if s == [] then [] else (if s[0] == '\r' then [] else [s[0]]) + Strip(s[1..])
  }

  /** What resp_buf keeps of a line. */
  function Reply(line: string): string {
    Truncated(Strip(line), RESP_BUF - 1)
  }

  /** The next line comes in time and reads as literal. */
  predicate Says(ticks: seq<Tick>, literal: string) {
    match Line(ticks)
    case Some(l) => CString(Reply(l)) == literal
    case None => false
  }

  predicate Ok(ticks: seq<Tick>) {
    Says(ticks, "ok")
  }

  predicate Confirmed(ticks: seq<Tick>) {
    Says(ticks, "radio_tx_ok")
  }

  lemma ReadsAs(s: string, literal: string)
    requires '\0' !in literal
    ensures s == literal || literal + ['\0'] <= s ==> CString(s) == literal
    ensures CString(s) == literal ==> s == literal || literal + ['\0'] <= s
  {
    assert literal + [] == literal;
    IndexAfter(literal, [], '\0');
    if literal + ['\0'] <= s {
      TerminatedReads(s, literal);
    }
    if CString(s) == literal && |s| > |literal| {
      assert literal + ['\0'] == s[..|literal|] + [s[|literal|]] == s[..|literal| + 1];
    }
  }

  /** A line says a literal when, but for '\r', it is that text or has it before a zero byte; the cut never shows. */
  lemma SaysExactly(ticks: seq<Tick>, literal: string, line: string)
    requires Line(ticks) == Some(line) && '\0' !in literal && |literal| < 63
    ensures Says(ticks, literal) <==> Strip(line) == literal || literal + ['\0'] <= Strip(line)
  {
    CStringCut(Strip(line), 63);
    ReadsAs(Strip(line), literal);
    CutStillSays(CString(Strip(line)), literal, 63);
  }

  lemma CutStillSays(s: string, literal: string, n: nat)
    requires |literal| < n
    ensures Truncated(s, n) == literal <==> s == literal
  {
  }

  /** A line comes in time exactly when a newline is delivered before the deadline. */
  lemma {:induction false} LineComes(ticks: seq<Tick>)
    ensures Line(ticks).Some? <==>
              exists k :: 0 <= k < |ticks| && ticks[k] == Got('\n') && forall j :: 0 <= j < k ==> ticks[j] != Late
  {
    if ticks != [] {
      var rest := ticks[1..];
      LineComes(rest);
      if k :| 0 <= k < |rest| && rest[k] == Got('\n') && forall j :: 0 <= j < k ==> rest[j] != Late {
        assert ticks[k + 1] == Got('\n');
        assert forall j :: 0 <= j < k ==> ticks[j + 1] == rest[j];
      }
      if k :| 0 <= k < |ticks| && ticks[k] == Got('\n') && (forall j :: 0 <= j < k ==> ticks[j] != Late) && k > 0 {
        assert rest[k - 1] == Got('\n');
        assert forall j :: 0 <= j < k - 1 ==> rest[j] == ticks[j + 1];
      }
    }
  }

  /** A read ends behind the first newline, or at the deadline if that comes first; what follows is left. */
  lemma {:induction false} ReadEnds(ticks: seq<Tick>, k: nat)
    requires forall j :: 0 <= j < k && j < |ticks| ==> ticks[j] != Late && ticks[j] != Got('\n')
    ensures k < |ticks| && (ticks[k] == Late || ticks[k] == Got('\n')) ==>
              After(ticks) == ticks[k + 1..] && (Line(ticks).Some? <==> ticks[k] != Late)
    ensures k >= |ticks| ==> After(ticks) == [] && Line(ticks) == None
  {
    if ticks != [] && k > 0 {
      assert ticks[0] != Late && ticks[0] != Got('\n');
      ReadEnds(ticks[1..], k - 1);
    }
  }

  /** A terminated buffer reads as what is in front of the terminator. */
  lemma TerminatedReads(buffer: string, reply: string)
    requires reply + ['\0'] <= buffer
    ensures CString(buffer) == CString(reply) && '\0' in buffer
  {
    var n := IndexOf(reply, '\0');
    assert buffer[|reply|] == (reply + ['\0'])[|reply|] == '\0';
    if n < |reply| {
      assert buffer[..n] == reply[..n] && buffer[n] == '\0';
      IndexUnique(buffer, n, '\0');
    } else {
      assert buffer[..n] == reply;
      IndexUnique(buffer, n, '\0');
    }
  }

  /** One more byte in front of a line. */
  lemma LineGrows(c: char, line: string, rest: string)
    requires '\n' !in line && c != '\n'
    ensures '\n' !in [c] + line && [c] + (line + ['\n'] + rest) == [c] + line + ['\n'] + rest
  {
  }

  predicate Consumed(bytes: string, line: Option<string>, rest: string) {
    line.Some? && '\n' !in line.value && bytes == line.value + ['\n'] + rest
  }

  lemma EmptyTick(ticks: seq<Tick>, rest: seq<Tick>)
    requires ticks != [] && ticks[0].Empty? && rest == ticks[1..]
    ensures Bytes(ticks) == Bytes(rest) && Line(ticks) == Line(rest) && After(ticks) == After(rest)
  {
    assert Bytes(ticks) == [] + Bytes(rest);
  }

  lemma ByteTick(ticks: seq<Tick>, c: char, rest: seq<Tick>)
    requires ticks != [] && ticks[0] == Got(c) && c != '\n' && rest == ticks[1..]
    ensures Bytes(ticks) == [c] + Bytes(rest) && After(ticks) == After(rest)
    ensures Line(ticks) == Prepend([c], Line(rest))
  {
  }

  lemma NewlineTick(ticks: seq<Tick>)
    requires ticks != [] && ticks[0] == Got('\n')
    ensures Consumed(Bytes(ticks), Line(ticks), Bytes(After(ticks)))
  {
    assert [] + ['\n'] == ['\n'];
  }

  /** Everything up to the newline is consumed, and nothing behind it. */
  lemma {:induction false} ConsumesOneLine(ticks: seq<Tick>)
    requires Line(ticks).Some?
    ensures Consumed(Bytes(ticks), Line(ticks), Bytes(After(ticks)))
  {
    if ticks[0].Empty? {
      EmptyTick(ticks, ticks[1..]);
      ConsumesOneLine(ticks[1..]);
    } else if ticks[0] == Got('\n') {
      NewlineTick(ticks);
    } else {
      var c := ticks[0].c;
      ByteTick(ticks, c, ticks[1..]);
      ConsumesOneLine(ticks[1..]);
      LineGrows(c, Line(ticks[1..]).value, Bytes(After(ticks)));
    }
  }

  function Joined(lines: seq<string>): string {
    if lines == [] then [] else lines[0] + ['\n'] + Joined(lines[1..])
  }

  lemma {:induction false} FirstLine(ticks: seq<Tick>, line: string, rest: string)
    requires Late !in ticks && '\n' !in line && Bytes(ticks) == line + ['\n'] + rest
    ensures Line(ticks) == Some(line) && Bytes(After(ticks)) == rest && Late !in After(ticks)
    decreases ticks
  {
    assert ticks != [];
    var more := ticks[1..];
    if ticks[0].Empty? {
      FirstLine(more, line, rest);
    } else if line == [] {
      assert Bytes(ticks)[0] == '\n';
      assert Bytes(ticks)[1..] == Bytes(more);
    } else {
      assert Bytes(ticks)[0] == line[0] && Bytes(ticks)[1..] == line[1..] + ['\n'] + rest;
      FirstLine(more, line[1..], rest);
      assert [line[0]] + line[1..] == line;
    }
  }

  function AfterMany(ticks: seq<Tick>, n: nat): seq<Tick>
    decreases n
  {
    if n == 0 then ticks else AfterMany(After(ticks), n - 1)
  }

  /** When every line arrives in time, the n-th read gets the n-th line, whatever the polling pattern. */
  lemma {:induction false} ReadsStayAligned(ticks: seq<Tick>, lines: seq<string>, n: nat)
    requires Late !in ticks && Bytes(ticks) == Joined(lines) && n < |lines|
    requires forall l :: l in lines ==> '\n' !in l
    ensures Line(AfterMany(ticks, n)) == Some(lines[n])
    ensures Bytes(AfterMany(ticks, n + 1)) == Joined(lines[n + 1..])
    decreases n
  {
    FirstLine(ticks, lines[0], Joined(lines[1..]));
    if n > 0 {
      ReadsStayAligned(After(ticks), lines[1..], n - 1);
      assert lines[1..][n..] == lines[n + 1..];
    }
  }

  class Driver {
    const respBuf: array<char>
    var input: seq<Tick>
    var sent: seq<string>

    ghost predicate Valid()
      reads this
    {
      respBuf.Length == RESP_BUF
    }

    constructor (ticks: seq<Tick>)
      ensures Valid() && fresh(respBuf) && input == ticks && sent == []
    {
      respBuf := new char[RESP_BUF];
      input, sent := ticks, [];
    }

    /** A byte other than newline: dropped if it is '\r' or the buffer is full. */
    method Keep(pos: nat, c: char, ghost seen: string) returns (next: nat)
      requires Valid() && pos < RESP_BUF && respBuf[..pos] == Reply(seen)
      modifies respBuf
      ensures next < RESP_BUF && respBuf[..next] == Reply(seen + [c])
    {
      StripSnoc(seen, c);
      next := pos;
      if c != '\r' && pos < RESP_BUF - 1 {
        respBuf[pos] := c;
        next := pos + 1;
      }
    }

    /** rn2483_read_line */
    method ReadLine() returns (ret: int)
      requires Valid()
      modifies respBuf, `input
      ensures input == After(old(input))
      ensures ret == (match Line(old(input)) case Some(l) => |Truncated(Strip(l), 63)| case None => -ETIMEDOUT)
      ensures ret >= 0 ==> ret < RESP_BUF && respBuf[ret] == '\0'
                           && respBuf[..ret] == Truncated(Strip(Line(old(input)).value), 63)
    {
      var pos := 0;
      ghost var seen := "";
      PrependTwice("", 'x', Line(input));
      while input != [] && !input[0].Late?
        invariant 0 <= pos < RESP_BUF && respBuf[..pos] == Reply(seen)
        invariant After(input) == After(old(input))
        invariant Line(old(input)) == Prepend(seen, Line(input))
        decreases |input|
      {
        var tick := input[0];
        input := input[1..];
        if tick.Got? {
          if tick.c == '\n' {
            PrependTwice(seen, tick.c, None);
            respBuf[pos] := '\0';
            return pos;
          }
          PrependTwice(seen, tick.c, Line(input));
          pos := Keep(pos, tick.c, seen);
          seen := seen + [tick.c];
        }
      }
      if input != [] {
        input := input[1..];
      }
      return -ETIMEDOUT;
    }

    /** strcmp(resp_buf, literal) == 0 */
    method RespIs(literal: string) returns (same: bool)
      requires Valid() && '\0' !in literal && '\0' in respBuf[..]
      ensures same <==> CString(respBuf[..]) == literal
    {
      var n := 0;
      while respBuf[n] != '\0'
        invariant n <= IndexOf(respBuf[..], '\0') < RESP_BUF
        invariant '\0' !in respBuf[..n]
        decreases RESP_BUF - n
      {
        assert respBuf[..][n] != '\0';
        n := n + 1;
      }
      same := respBuf[..n] == literal;
    }

    /** Reads a line and compares it. */
    method ReadAndCompare(literal: string) returns (ret: int)
      requires Valid() && '\0' !in literal
      modifies respBuf, `input
      ensures input == After(old(input))
      ensures ret == if Line(old(input)).None? then -ETIMEDOUT else if Says(old(input), literal) then 0 else -EIO
    {
      ret := ReadLine();
      if ret >= 0 {
        assert Reply(Line(old(input)).value) + ['\0'] <= respBuf[..];
        TerminatedReads(respBuf[..], Reply(Line(old(input)).value));
        var same := RespIs(literal);
        ret := if same then 0 else -EIO;
      }
    }

    /** rn2483_cmd_expect_ok: one command out, one line back. */
    method CmdExpectOk(cmd: string) returns (ret: int)
      requires Valid()
      modifies respBuf, `input, `sent
      ensures sent == old(sent) + [cmd] && input == After(old(input))
      ensures ret == if Line(old(input)).None? then -ETIMEDOUT else if Ok(old(input)) then 0 else -EIO
    {
      sent := sent + [cmd];
      ret := ReadAndCompare("ok");
    }

    /** rn2483_config: frequency, power, spreading factor and bandwidth, one command each. */
    method Config(frequency: Word, power: Word, datarate: Word, bandwidthKhz: Word) returns (ret: int)
      requires Valid()
      modifies respBuf, `input, `sent
      ensures Series(old(input), ConfigCommands(frequency, power, datarate, bandwidthKhz), old(sent), input, sent, ret)
    {
      ret := ConfigWith(ConfigCommands(frequency, power, datarate, bandwidthKhz));
    }

    /** The body of rn2483_config over the four command texts. */
    method ConfigWith(cmds: seq<string>) returns (ret: int)
      requires Valid() && |cmds| == 4
      modifies respBuf, `input, `sent
      ensures Series(old(input), cmds, old(sent), input, sent, ret)
    {
      SeriesUnrolls(input);
      SentPrefixes(sent, cmds);
      ret := CmdExpectOk(cmds[0]);
      if ret != 0 {
        return;
      }
      ret := CmdExpectOk(cmds[1]);
      if ret != 0 {
        return;
      }
      ret := CmdExpectOk(cmds[2]);
      if ret != 0 {
        return;
      }
      ret := CmdExpectOk(cmds[3]);
    }

    /** snprintf of "%02x" at pos: two digits and a terminator that the next write covers. */
    static method PutHex(cmd: array<char>, pos: nat, x: Byte)
      requires pos + 3 <= cmd.Length
      modifies cmd
      ensures cmd[..pos + 2] == old(cmd[..pos]) + Hex2(x)
    {
      cmd[pos] := HexDigit(x / 16);
      cmd[pos + 1] := HexDigit(x % 16);
      cmd[pos + 2] := '\0';
    }

    /** snprintf of a literal at pos, which must fit with its terminator. */
    static method PutText(cmd: array<char>, pos: nat, text: string)
      requires pos + |text| < cmd.Length
      modifies cmd
      ensures cmd[..pos + |text|] == old(cmd[..pos]) + text
    {
      forall k | 0 <= k < |text| {
        cmd[pos + k] := text[k];
      }
      cmd[pos + |text|] := '\0';
    }

    /** The command of rn2483_send in its buffer of 144 bytes; nothing is ever cut. */
    method BuildTx(payload: seq<Byte>) returns (cmd: array<char>, pos: nat)
      requires |payload| <= MAX_PAYLOAD
      ensures fresh(cmd) && pos < cmd.Length == CMD_BUF && cmd[..pos] == TxCommand(payload)
    {
      cmd := new char[CMD_BUF];
      PutText(cmd, 0, TX);
      pos := |TX|;
      for i := 0 to |payload|
        invariant pos == |TX| + 2 * i
        invariant cmd[..pos] == TX + Hex(payload[..i])
      {
        HexSnoc(payload[..i], payload[i]);
        assert payload[..i + 1] == payload[..i] + [payload[i]];
        PutHex(cmd, pos, payload[i]);
        pos := pos + 2;
      }
      assert payload[..|payload|] == payload;
      PutText(cmd, pos, CRLF);
      pos := pos + |CRLF|;
    }

    /** The second half of rn2483_send: ok at once, radio_tx_ok when the packet is out. */
    method Transmit(cmd: string) returns (ret: int)
      requires Valid()
      modifies respBuf, `input, `sent
      ensures sent == old(sent) + [cmd]
      ensures input == (if Ok(old(input)) then After(After(old(input))) else After(old(input)))
      ensures ret == 0 <==> Ok(old(input)) && Confirmed(After(old(input)))
    {
      ret := CmdExpectOk(cmd);
      if ret == 0 {
        ret := ReadAndCompare("radio_tx_ok");
      }
    }

    /** rn2483_send */
    method Send(payload: seq<Byte>) returns (ret: int)
      requires Valid()
      modifies respBuf, `input, `sent
      ensures |payload| > MAX_PAYLOAD ==> ret == -EINVAL && sent == old(sent) && input == old(input)
      ensures |payload| <= MAX_PAYLOAD ==>
                && sent == old(sent) + ["radio tx " + Hex(payload) + "\r\n"]
                && input == (if Says(old(input), "ok") then After(After(old(input))) else After(old(input)))
                && (ret == 0 <==> Says(old(input), "ok") && Says(After(old(input)), "radio_tx_ok"))
    {
      if |payload| > MAX_PAYLOAD {
        return -EINVAL;
      }
      var cmd, pos := BuildTx(payload);
      ret := Transmit(cmd[..pos]);
    }
  }

  const TX := "radio tx "
  const CRLF := "\r\n"

  function TxCommand(payload: seq<Byte>): string {
    TX + Hex(payload) + CRLF
  }

  /** What the module reads between "radio tx " and the line end. */
  function ReadTx(cmd: string): Option<seq<int>> {
    if TX <= cmd && |cmd| >= |TX| + 2 && cmd[|cmd| - 2..] == CRLF then Unhex(cmd[|TX|..|cmd| - 2]) else None
  }

  /** The module decodes exactly the payload. */
  lemma TxRoundTrip(payload: seq<Byte>)
    ensures ReadTx(TxCommand(payload)) == Some(payload)
  {
    var cmd := TxCommand(payload);
    UnhexHex(payload);
    assert cmd[|TX|..|cmd| - 2] == Hex(payload) && cmd[|cmd| - 2..] == CRLF;
  }

  lemma SentPrefixes(out: seq<string>, cmds: seq<string>)
    requires |cmds| == 4
    ensures out + [cmds[0]] == out + cmds[..1]
    ensures out + [cmds[0]] + [cmds[1]] == out + cmds[..2]
    ensures out + [cmds[0]] + [cmds[1]] + [cmds[2]] == out + cmds[..3]
    ensures out + [cmds[0]] + [cmds[1]] + [cmds[2]] + [cmds[3]] == out + cmds[..4]
  {
  }

  lemma SeriesUnrolls(t: seq<Tick>)
    ensures var t1 := After(t); var t2 := After(t1); var t3 := After(t2);
            && AfterMany(t, 1) == t1 && AfterMany(t, 2) == t2 && AfterMany(t, 3) == t3 && AfterMany(t, 4) == After(t3)
            && Commands(t, 4) == (if !Ok(t) then 1 else if !Ok(t1) then 2 else if !Ok(t2) then 3 else 4)
            && (AllOk(t, 4) <==> Ok(t) && Ok(t1) && Ok(t2) && Ok(t3))
  {
    var t1 := After(t);
    var t2 := After(t1);
    var t3 := After(t2);
    assert AfterMany(t3, 1) == After(t3) && Commands(t3, 1) == 1 && AllOk(t3, 1) == Ok(t3);
    assert AfterMany(t2, 1) == t3 && AfterMany(t2, 2) == After(t3) && AllOk(t2, 2) == (Ok(t2) && Ok(t3));
    assert AfterMany(t1, 1) == t2 && AfterMany(t1, 2) == t3 && AfterMany(t1, 3) == After(t3);
    assert Commands(t2, 2) == if Ok(t2) then 2 else 1;
    assert Commands(t1, 3) == if !Ok(t1) then 1 else if !Ok(t2) then 2 else 3;
  }

  /** A series sends as many commands as it reads replies, and succeeds exactly when all are answered ok. */
  predicate Series(before: seq<Tick>, cmds: seq<string>, out: seq<string>, after: seq<Tick>, out': seq<string>,
      ret: int)
  {
    var n := Commands(before, |cmds|);
    && out' == out + cmds[..n]
    && after == AfterMany(before, n)
    && (ret == 0 <==> AllOk(before, |cmds|))
  }

  predicate AllOk(ticks: seq<Tick>, n: nat)
    decreases n
  {
    n == 0 || (Ok(ticks) && AllOk(After(ticks), n - 1))
  }

  /** snprintf of a command with one number into cmd[48]. */
  function ConfigCommand(prefix: string, n: Word): string {
    Truncated(prefix + Decimal.Print(n) + CRLF, CONFIG_BUF - 1)
  }

  /** It is never cut. */
  lemma ConfigCommandWhole(prefix: string, n: Word)
    requires |prefix| <= 16
    ensures ConfigCommand(prefix, n) == prefix + Decimal.Print(n) + CRLF
  {
    Decimal.WordLength(n);
  }

  function ConfigCommands(frequency: Word, power: Word, datarate: Word, bandwidthKhz: Word): (cmds: seq<string>)
    ensures |cmds| == 4
  {
    [ ConfigCommand("radio set freq ", frequency), ConfigCommand("radio set pwr ", power),
      ConfigCommand("radio set sf sf", datarate), ConfigCommand("radio set bw ", bandwidthKhz) ]
  }

  /** The four command texts arrive whole. */
  lemma ConfigCommandsWhole(frequency: Word, power: Word, datarate: Word, bandwidthKhz: Word)
    ensures ConfigCommands(frequency, power, datarate, bandwidthKhz) ==
              [ "radio set freq " + Decimal.Print(frequency) + "\r\n", "radio set pwr " + Decimal.Print(power) + "\r\n",
                "radio set sf sf" + Decimal.Print(datarate) + "\r\n",
                "radio set bw " + Decimal.Print(bandwidthKhz) + "\r\n" ]
  {
    ConfigCommandWhole("radio set freq ", frequency);
    ConfigCommandWhole("radio set pwr ", power);
    ConfigCommandWhole("radio set sf sf", datarate);
    ConfigCommandWhole("radio set bw ", bandwidthKhz);
  }

  /** How many commands of a series of n go out: up to the first that is not answered ok. */
  function Commands(ticks: seq<Tick>, n: nat): (r: nat)
    ensures r <= n
    decreases n
  {
    if n == 0 then 0 else if Ok(ticks) then 1 + Commands(After(ticks), n - 1) else 1
  }

  /** The first k replies all say ok. */
  predicate OkUpTo(ticks: seq<Tick>, k: nat) {
    forall j :: 0 <= j < k ==> Says(AfterMany(ticks, j), "ok")
  }

  lemma OkUpToStep(ticks: seq<Tick>, rest: seq<Tick>, k: nat)
    requires rest == After(ticks) && k > 0
    ensures OkUpTo(ticks, k) <==> Ok(ticks) && OkUpTo(rest, k - 1)
  {
    assert AfterMany(ticks, 0) == ticks;
    if OkUpTo(ticks, k) {
      forall j | 0 <= j < k - 1
        ensures Says(AfterMany(rest, j), "ok")
      {
        assert AfterMany(ticks, j + 1) == AfterMany(rest, j);
      }
    }
    if Ok(ticks) && OkUpTo(rest, k - 1) {
      forall j | 0 <= j < k
        ensures Says(AfterMany(ticks, j), "ok")
      {
        assert j > 0 ==> AfterMany(ticks, j) == AfterMany(rest, j - 1);
      }
    }
  }

  /**
   Command number k of a series of n goes out exactly when all before it were answered with ok, each reply being
   the line after its command; all n succeed exactly when all were.
   */
  lemma {:induction false} CommandsExactly(ticks: seq<Tick>, n: nat, k: nat)
    ensures k < Commands(ticks, n) <==> k < n && OkUpTo(ticks, k)
    ensures AllOk(ticks, n) <==> OkUpTo(ticks, n)
    decreases n
  {
    if n > 0 {
      OkUpToStep(ticks, After(ticks), n);
      if k > 0 {
        OkUpToStep(ticks, After(ticks), k);
      }
      CommandsExactly(After(ticks), n - 1, if k > 0 then k - 1 else 0);
    }
  }

  lemma Regroup(a: string, b: string, c: string)
    ensures a + (b + c) == a + b + c
  {
  }

  lemma {:induction false} StripSnoc(s: string, c: char)
    ensures Strip(s + [c]) == Strip(s) + if c == '\r' then [] else [c]
  {
    if s == [] {
      assert [c][1..] == [];
      assert s + [c] == [c];
    } else {
      assert (s + [c])[1..] == s[1..] + [c] && (s + [c])[0] == s[0];
      StripSnoc(s[1..], c);
      Regroup(if s[0] == '\r' then [] else [s[0]], Strip(s[1..]), if c == '\r' then [] else [c]);
    }
  }
}
