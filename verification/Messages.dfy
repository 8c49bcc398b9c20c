/** The stream of messages from an action's child process to its window (action.c): four
    hexadecimal digits of length, then the message. */
module Messages {

  type Bytes = seq<char>

  // ----- the sending side

  function HexDigit(n: nat): (c: char)
    requires n < 16
  {
    "0123456789abcdef"[n]
  }

  /** "%04x" of a number below 0x10000 */
  function Header(n: nat): (h: Bytes)
    requires n < 0x1_0000
    ensures |h| == 4
  {
    [HexDigit(n / 0x1000), HexDigit(n / 0x100 % 16), HexDigit(n / 0x10 % 16), HexDigit(n % 16)]
  }

  predicate TooLong(msg: Bytes) {
    |msg| >= 0xffff
  }

  /** What the messages put on the wire: one that is too long puts nothing there. */
  function Wire(msgs: seq<Bytes>): Bytes {
    if msgs == [] then []
    else (if TooLong(msgs[0]) then [] else Header(|msgs[0]|) + msgs[0]) + Wire(msgs[1..])
  }

  /** The child's end of the pipe; `sent` is history: all messages it has been given. */
  class Sender {
    var toParent: Bytes
    ghost var sent: seq<Bytes>

    ghost predicate Valid()
      reads this
    {
      toParent == Wire(sent)
    }

    constructor ()
      ensures Valid() && sent == [] && toParent == []
    {
      toParent, sent := [], [];
    }

    /** send_msg */
    method SendMsg(message: Bytes) returns (ok: bool)
      requires Valid()
      modifies this
      ensures Valid() && sent == old(sent) + [message]
      ensures ok <==> |message| <= 65534
      ensures toParent == old(toParent) + if TooLong(message) then [] else Header(|message|) + message
    {
      WireSplits(sent, [message]);
      assert Wire([message]) == (if TooLong(message) then [] else Header(|message|) + message) + Wire([message][1..]);
      sent := sent + [message];
      if |message| >= 0xffff { return false; }
      toParent := toParent + Header(|message|);
      toParent := toParent + message;
      return true;
    }
  }

  lemma {:induction false} WireSplits(a: seq<Bytes>, b: seq<Bytes>)
    ensures Wire(a + b) == Wire(a) + Wire(b)
  {
    if a == [] {
      assert a + b == b;
    } else {
      assert (a + b)[1..] == a[1..] + b;
      WireSplits(a[1..], b);
    }
  }

  // ----- strtol(s, NULL, 16)

  function HexValue(c: char): (v: int) {
    if '0' <= c <= '9' then c as int - '0' as int
    else if 'a' <= c <= 'f' then c as int - 'a' as int + 10
    else if 'A' <= c <= 'F' then c as int - 'A' as int + 10
    else -1
  }

  function Digits(s: Bytes, acc: int): int {
    if s == [] || HexValue(s[0]) < 0 then acc else Digits(s[1..], 16 * acc + HexValue(s[0]))
  }

  predicate Space(c: char) {
    c == ' ' || '\t' <= c <= '\r'
  }

  function SkipSpace(s: Bytes): Bytes {
    if s != [] && Space(s[0]) then SkipSpace(s[1..]) else s
  }

  function Unsigned(s: Bytes): int {
    if |s| >= 3 && s[0] == '0' && (s[1] == 'x' || s[1] == 'X') && HexValue(s[2]) >= 0 then Digits(s[2..], 0)
    else Digits(s, 0)
  }

  function Strtol16(s: Bytes): int {
    var t := SkipSpace(s);
    if t != [] && t[0] == '-' then -Unsigned(t[1..])
    else if t != [] && t[0] == '+' then Unsigned(t[1..])
    else Unsigned(t)
  }

  lemma HexDigitValue(n: nat)
    requires n < 16
    ensures HexValue(HexDigit(n)) == n && !Space(HexDigit(n)) && HexDigit(n) !in {'-', '+', 'x', 'X'}
  {
  }

  lemma FourDigits(a: char, b: char, c: char, d: char)
    requires HexValue(a) >= 0 && HexValue(b) >= 0 && HexValue(c) >= 0 && HexValue(d) >= 0
    ensures Digits([a, b, c, d], 0) == ((HexValue(a) * 16 + HexValue(b)) * 16 + HexValue(c)) * 16 + HexValue(d)
  {
    assert [a, b, c, d][1..] == [b, c, d] && [b, c, d][1..] == [c, d] && [c, d][1..] == [d] && [d][1..] == [];
    var ab := HexValue(a) * 16 + HexValue(b);
    assert Digits([d], ab * 16 + HexValue(c)) == (ab * 16 + HexValue(c)) * 16 + HexValue(d);
    assert Digits([c, d], ab) == Digits([d], ab * 16 + HexValue(c));
    assert Digits([b, c, d], HexValue(a)) == Digits([c, d], HexValue(a) * 16 + HexValue(b));
  }

  lemma PlainDigits(a: char, b: char, c: char, d: char)
    requires !Space(a) && a !in {'-', '+'} && b !in {'x', 'X'}
    ensures Strtol16([a, b, c, d]) == Digits([a, b, c, d], 0)
  {
  }

  lemma Hexadecimal(n: nat)
    requires n < 0x1_0000
    ensures n == ((n / 0x1000 * 16 + n / 0x100 % 16) * 16 + n / 0x10 % 16) * 16 + n % 16
  {
  }

  /** The receiver reads back the length that was sent. */
  lemma HeaderRoundTrip(n: nat)
    requires n < 0x1_0000
    ensures Strtol16(Header(n)) == n
  {
    hide Digits, Strtol16, HexDigit;
    var a, b, c, d := n / 0x1000, n / 0x100 % 16, n / 0x10 % 16, n % 16;
    HexDigitValue(a);
    HexDigitValue(b);
    HexDigitValue(c);
    HexDigitValue(d);
    PlainDigits(HexDigit(a), HexDigit(b), HexDigit(c), HexDigit(d));
    FourDigits(HexDigit(a), HexDigit(b), HexDigit(c), HexDigit(d));
    Hexadecimal(n);
  }

  // ----- other things that strtol reads

  /** Leading white space and a plus sign do not count; a minus sign changes the sign. */
  lemma StrtolSign(c: char, s: Bytes)
    ensures c == ' ' || 9 <= c as int <= 13 ==> Strtol16([c] + s) == Strtol16(s)
    ensures Strtol16(['-'] + s) == -Strtol16(['+'] + s)
    ensures s != [] && !Space(s[0]) && s[0] !in {'+', '-'} ==> Strtol16(['+'] + s) == Strtol16(s)
  {
    assert ([c] + s)[1..] == s && (['-'] + s)[1..] == s && (['+'] + s)[1..] == s;
  }

  /** Nor does the prefix 0x before a digit. */
  lemma StrtolPrefix(x: char, c: char, s: Bytes)
    requires (x == 'x' || x == 'X') && HexValue(c) >= 0 && (s != [] ==> s[0] !in {'x', 'X'})
    ensures Strtol16(['0', x, c] + s) == Strtol16([c] + s)
  {
    var t := ['0', x, c] + s;
    assert t[2..] == [c] + s;
    if c == '0' && |s| > 0 { assert ([c] + s)[1] == s[0]; }
  }

  function UpperDigit(n: nat): char
    requires n < 16
  {
    "0123456789ABCDEF"[n]
  }

  /** Capital digits count as small ones do. */
  lemma UpperRoundTrip(n: nat)
    requires n < 0x1_0000
    ensures var (a, b, c, d) := (n / 0x1000, n / 0x100 % 16, n / 0x10 % 16, n % 16);
      Strtol16([UpperDigit(a), UpperDigit(b), UpperDigit(c), UpperDigit(d)]) == n
  {
    hide Digits, Strtol16, UpperDigit;
    var a, b, c, d := n / 0x1000, n / 0x100 % 16, n / 0x10 % 16, n % 16;
    UpperDigitValue(a);
    UpperDigitValue(b);
    UpperDigitValue(c);
    UpperDigitValue(d);
    PlainDigits(UpperDigit(a), UpperDigit(b), UpperDigit(c), UpperDigit(d));
    FourDigits(UpperDigit(a), UpperDigit(b), UpperDigit(c), UpperDigit(d));
    Hexadecimal(n);
  }

  lemma UpperDigitValue(n: nat)
    requires n < 16
    ensures HexValue(UpperDigit(n)) == n && !Space(UpperDigit(n)) && UpperDigit(n) !in {'-', '+', 'x', 'X'}
  {
  }

  // ----- the receiving side

  /** The message ends the action: the explicit 'D', or an empty one, which the receiver takes
      for the death of the child. */
  predicate Ends(msg: Bytes) {
    msg == [] || msg[0] == 'D'
  }

  /** The messages that are acted on: those that were sent before the first that ends the
      action. */
  function Handled(msgs: seq<Bytes>): seq<Bytes> {
    if msgs == [] then []
    else if TooLong(msgs[0]) then Handled(msgs[1..])
    else if Ends(msgs[0]) then []
    else [msgs[0]] + Handled(msgs[1..])
  }

  datatype Received = End | Message(msg: Bytes, rest: Bytes)

  /** What the bytes in the pipe amount to, whatever they are. */
  function Receive(pipe: Bytes): (r: Received)
    ensures r.Message? ==> |r.rest| < |pipe|
  {
    if |pipe| < 4 then End
    else
      var len := Strtol16(pipe[..4]);
      if len <= 0 || |pipe| - 4 < len || pipe[4] == 'D' then End
      else Message(pipe[4..][..len], pipe[4..][len..])
  }

  /** One message as it was sent: the receiver gets it and nothing of what follows. */
  lemma ReceiveSent(msg: Bytes, rest: Bytes)
    requires !TooLong(msg)
    ensures Receive(Header(|msg|) + msg + rest) == if Ends(msg) then End else Message(msg, rest)
  {
    hide Strtol16, Header;
    var pipe := Header(|msg|) + msg + rest;
    HeaderRoundTrip(|msg|);
    assert pipe[..4] == Header(|msg|) && pipe[4..] == msg + rest;
    assert pipe[4..][..|msg|] == msg && pipe[4..][|msg|..] == rest;
    assert msg != [] ==> pipe[4] == pipe[4..][0] == msg[0];
  }

  class GuiSide {
    var pipe: Bytes           // what the child has written or will write, not read yet
    var finishing: bool
    var completions: nat      // how often the body of finish_action has run
    var log: seq<Bytes>       // messages acted on
    var fromChildOpen: bool   // from_child and its input watch

    constructor (pipe: Bytes)
      ensures this.pipe == pipe && !finishing && completions == 0 && log == [] && fromChildOpen
    {
      this.pipe, finishing, completions, log, fromChildOpen := pipe, false, 0, [], true;
    }

    /** read(2): some of what is there, nothing at the end of the stream. */
    method Read(len: nat) returns (chunk: Bytes)
      requires len > 0
      modifies `pipe
      ensures |chunk| <= len && old(pipe) == chunk + pipe
      ensures chunk == [] <==> old(pipe) == []
    {
      if pipe == [] { return []; }
      var got :| 1 <= got <= len && got <= |pipe|;
      chunk := pipe[..got];
      pipe := pipe[got..];
    }

    /** read_exact, however the bytes arrive. */
    method ReadExact(len: nat) returns (ok: bool, buffer: Bytes)
      modifies `pipe
      ensures ok <==> len <= |old(pipe)|
      ensures ok ==> buffer == old(pipe)[..len] && pipe == old(pipe)[len..]
      ensures !ok ==> pipe == []
    {
      buffer := [];
      while |buffer| < len
        invariant |buffer| <= len && old(pipe) == buffer + pipe
        decreases len - |buffer|
      {
        var got := Read(len - |buffer|);
        if got == [] { return false, buffer; }
        buffer := buffer + got;
      }
      ok := true;
    }

    /** finish_action */
    method FinishAction()
      modifies this
      ensures finishing && pipe == old(pipe) && log == old(log)
      ensures old(finishing) ==> completions == old(completions) && fromChildOpen == old(fromChildOpen)
      ensures !old(finishing) ==> completions == old(completions) + 1 && !fromChildOpen
    {
      if finishing { return; }
      finishing := true;
      fromChildOpen := false;
      completions := completions + 1;
    }

    /** message_from_child: one message, or the end of the action. */
    method MessageFromChild()
      requires !finishing
      modifies this
      ensures match Receive(old(pipe))
        case Message(msg, rest) =>
          !finishing && pipe == rest && log == old(log) + [msg]
          && completions == old(completions) && fromChildOpen == old(fromChildOpen)
        case End =>
          finishing && !fromChildOpen && log == old(log) && completions == old(completions) + 1
    {
      var ok, head := ReadExact(4);
      if ok {
        var len := Strtol16(head);
        if len > 0 {
          var whole, buffer := ReadExact(len);
          if whole {
            if buffer[0] == 'D' { FinishAction(); } else { log := log + [buffer]; }
            return;
          }
        }
      }
      FinishAction();
    }

    /** The main loop while the watch is installed, on what the child has sent before it
        ended. */
    method Pump(ghost child: Sender)
      requires !finishing && child.Valid() && pipe == child.toParent
      modifies this
      ensures finishing && !fromChildOpen
      ensures log == old(log) + Handled(child.sent)
      ensures completions == old(completions) + 1
    {
      hide Receive, Header;
      ghost var msgs := child.sent;
      ghost var rest := Next(msgs);
      while !finishing
        invariant !finishing ==> pipe == Wire(rest) && (rest != [] ==> !TooLong(rest[0]))
        invariant !finishing ==> completions == old(completions) && old(log) + Handled(msgs) == log + Handled(rest)
        invariant finishing ==> completions == old(completions) + 1 && log == old(log) + Handled(msgs) && !fromChildOpen
        decreases !finishing, |pipe|
      {
        ReceiveFirst(rest);
        MessageFromChild();
        if rest != [] { rest := Next(rest[1..]); }
      }
    }
  }

  lemma ReceiveFirst(msgs: seq<Bytes>)
    requires msgs != [] ==> !TooLong(msgs[0])
    ensures Receive(Wire(msgs)) == if msgs == [] || Ends(msgs[0]) then End else Message(msgs[0], Wire(msgs[1..]))
    ensures Receive(Wire(msgs)).Message? ==> |Wire(msgs[1..])| < |Wire(msgs)|
  {
    hide Receive, Header;
    if msgs == [] {
      ReceiveNothing();
    } else {
      ReceiveSent(msgs[0], Wire(msgs[1..]));
    }
  }

  lemma ReceiveNothing()
    ensures Receive([]) == End
  {
  }

  /** Skip the messages that were not put on the wire. */
  ghost function Next(msgs: seq<Bytes>): (rest: seq<Bytes>)
    ensures Wire(rest) == Wire(msgs) && Handled(rest) == Handled(msgs)
    ensures rest != [] ==> !TooLong(rest[0])
  {
    if msgs != [] && TooLong(msgs[0]) then Next(msgs[1..]) else msgs
  }

  /** The messages of at most 65534 bytes. */
  function Short(msgs: seq<Bytes>): seq<Bytes> {
    if msgs == [] then [] else (if |msgs[0]| <= 65534 then [msgs[0]] else []) + Short(msgs[1..])
  }

  /** A window that is sent messages that are not empty and do not begin with 'D', and then one
      that is empty or does (such as the child's own 'D'), or nothing, acts on all of the former
      but those of more than 65534 bytes, in order, and on nothing that follows. */
  lemma {:induction false} AllHandled(msgs: seq<Bytes>, end: seq<Bytes>)
    requires forall i :: 0 <= i < |msgs| ==> msgs[i] != [] && msgs[i][0] != 'D'
    requires end == [] || (|end[0]| <= 65534 && (end[0] == [] || end[0][0] == 'D'))
    ensures Handled(msgs + end) == Short(msgs)
  {
    if msgs == [] {
      assert msgs + end == end;
    } else {
      assert (msgs + end)[1..] == msgs[1..] + end && (msgs + end)[0] == msgs[0];
      AllHandled(msgs[1..], end);
    }
  }
}
