/**
 * The line protocol between the two kernels (lib/request.c): reading a request from a
 * stream (kmorphd/main.c) and sending the network identity (kmorph/watch.c).
 */
module Requests {
  import opened Errno
  import opened Bytes
  import opened Options
  import opened Scan

  const RETURN: Byte := 13
  const LINE_MAX: int := 64
  const TEXT_MAX: int := 16384
  const NETWORK_MAX: int := 0x10_0000

  const STATUS: seq<Byte> := [115, 116, 97, 116, 117, 115]
  const HANDOVER: seq<Byte> := [104, 97, 110, 100, 111, 118, 101, 114]
  const NETWORK: seq<Byte> := [110, 101, 116, 119, 111, 114, 107]

  datatype Kind = Status | Handover | Network

  // ---------------------------------------------------------------- one line

  /** The length of the first `n` bytes without trailing line ends. */
  function Trimmed(line: seq<Byte>, n: nat): (r: nat)
    requires n <= |line|
    ensures r <= n && (r > 0 ==> line[r - 1] != NEWLINE && line[r - 1] != RETURN)
    ensures forall i :: r <= i < n ==> line[i] == NEWLINE || line[i] == RETURN
  {
    if n > 0 && (line[n - 1] == NEWLINE || line[n - 1] == RETURN) then Trimmed(line, n - 1) else n
  }

  method LineLen(line: seq<Byte>) returns (n: nat)
    ensures n == Trimmed(line, |line|)
  {
    n := |line|;
    while n > 0 && (line[n - 1] == NEWLINE || line[n - 1] == RETURN)
      invariant n <= |line| && Trimmed(line, n) == Trimmed(line, |line|)
    {
      n := n - 1;
    }
  }

  /** `sscanf(line, "network %lu%n")`: the number and where it ends. */
  function ScanNetwork(line: seq<Byte>): Option<(Word64, nat)> {
    if !(NETWORK <= line) then None
    else
      match Number(line[|NETWORK|..], 10)
      case None => None
      case Some((v, rest)) => if |rest| <= |line| then Some((v, |line| - |rest|)) else None
  }

  /** `request_parse` on a line that may hold a NUL: the kind and the length of the payload. */
  function Parse(head: seq<Byte>): Option<(Kind, nat)> {
    var line := head[..NulAt(head, 0)];
    var n := Trimmed(line, |line|);
    if line[..n] == STATUS then Some((Status, 0))
    else if line[..n] == HANDOVER then Some((Handover, 0))
    else
      match ScanNetwork(line)
      case None => None
      case Some((payload, end)) => if end == n && payload <= NETWORK_MAX then Some((Network, payload)) else None
  }

  method RequestParse(head: seq<Byte>) returns (ret: int, kind: Kind, len: nat)
    ensures ret in {0, -EINVAL}
    ensures Parse(head) == if ret == 0 then Some((kind, len)) else None
  {
    hide NulAt, Number;
    var line := head[..NulAt(head, 0)];
    var n := LineLen(line);
    ret, kind, len := 0, Status, 0;
    if n == 6 && line[..6] == STATUS {
      kind := Status;
    } else if n == 8 && line[..8] == HANDOVER {
      kind := Handover;
    } else {
      var scanned := ScanNetwork(line);
      if scanned.Some? && scanned.value.1 == n && scanned.value.0 <= NETWORK_MAX {
        kind, len := Network, scanned.value.0;
      } else {
        ret := -EINVAL;
      }
    }
  }

  // ---------------------------------------------------------------- a request from a stream

  datatype Answer = Failed(err: int) | Ready(kind: Kind, line: nat, payload: nat)

  /** What is known once a line of `line` bytes is complete. */
  function Framed(head: seq<Byte>, cap: nat): Answer {
    if |head| > LINE_MAX then Failed(-EINVAL)
    else
      match Parse(head)
      case None => Failed(-EINVAL)
      case Some((kind, payload)) => if |head| + payload >= cap then Failed(-E2BIG) else Ready(kind, |head|, payload)
  }

  /**
   * The request at the start of a stream that ends, or fails, with `ending`; `cap` is the
   * size of the buffer, one byte of which is for the terminator.
   */
  function RequestOf(stream: seq<Byte>, ending: int, cap: nat): Answer
    requires cap > 0
  {
    var nl := NewlineAt(stream, Room(stream, cap));
    if nl == Room(stream, cap) then Failed(if |stream| < cap - 1 then ending else -ECONNRESET)
    else
      match Framed(stream[..nl + 1], cap)
      case Failed(err) => Failed(err)
      case Ready(kind, line, payload) =>
        if |stream| >= line + payload then Ready(kind, line, payload) else Failed(ending)
  }

  /** The first `got` bytes are neither a whole request nor one that can be refused yet. */
  predicate Undecided(stream: seq<Byte>, cap: nat, got: nat) {
    && got <= |stream|
    && var nl := NewlineAt(stream, got);
       nl < got ==>
         match Framed(stream[..nl + 1], cap)
         case Failed(_) => false
         case Ready(_, line, payload) => got < line + payload
  }

  /** A deadline or failed receive that comes in time and before anything is decided. */
  predicate Cuts(stream: seq<Byte>, cap: nat, cutAt: Option<(nat, int)>)
    requires cap > 0
  {
    cutAt.Some? && cutAt.value.0 <= Room(stream, cap) && Undecided(stream, cap, cutAt.value.0)
  }

  /**
   * `read_request`. Each receive delivers as much as it likes of what is left of the stream,
   * and the outcome is that of the stream alone. `cutAt` says after how many bytes the
   * deadline passes or a receive fails, if it does, and with which error: it ends the
   * request with that error exactly when what arrived by then decides nothing.
   */
  method ReadRequest(stream: seq<Byte>, ending: int, cutAt: Option<(nat, int)>, buf: array<Byte>) returns (r: Answer)
    requires buf.Length > 0 && ending < 0
    modifies buf
    ensures r == if Cuts(stream, buf.Length, cutAt) then Failed(cutAt.value.1)
                 else RequestOf(stream, ending, buf.Length)
    ensures r.Ready? ==>
              && r.line + r.payload < buf.Length && r.line + r.payload <= |stream|
              && buf[..r.line + r.payload] == stream[..r.line + r.payload] && buf[r.line + r.payload] == 0
  {
    hide Framed, NewlineAt, RequestOf;
    var cap := buf.Length;
    var got, known := 0, false;
    r := Failed(0);
    var stop := if cutAt.Some? && cutAt.value.0 <= Room(stream, cap) then cutAt.value.0 else Room(stream, cap);
    NothingYet(stream);
    while true
      invariant got <= stop <= Room(stream, cap) && buf[..got] == stream[..got]
      invariant !known ==> NewlineAt(stream, got) == got
      invariant known ==> Waiting(stream, cap, got, r)
      decreases stop - got
    {
      if cutAt.Some? && got == cutAt.value.0 {
        NotYet(stream, cap, got, known, r);
        return Failed(cutAt.value.1);
      }
      if got == cap - 1 || got == |stream| {
        r := Failed(if got == cap - 1 then -ECONNRESET else ending);
        CutShort(stream, ending, cap, got);
        return;
      }
      got := Receive(stream, buf, got, stop);
      if !known {
        var nl := NewlineAt(stream, got);
        if nl == got {
          continue;
        }
        ShorterPrefix(buf[..], stream, got, nl + 1);
        r := FrameLine(buf[..nl + 1], cap);
        LineComplete(stream, ending, cap, got);
        StaysDecided(stream, cap, got, stop);
        if r.Failed? {
          return;
        }
        known := true;
      }
      if got >= r.line + r.payload {
        Complete(stream, ending, cap, r);
        KnownDecided(stream, cap, got, stop, r);
        ShorterPrefix(buf[..], stream, got, r.line + r.payload);
        buf[r.line + r.payload] := 0;
        return;
      }
    }
  }

  lemma ShorterPrefix(s: seq<Byte>, t: seq<Byte>, n: nat, m: nat)
    requires m <= n <= |s| && n <= |t| && s[..n] == t[..n]
    ensures s[..m] == t[..m]
  {
    assert s[..m] == s[..n][..m] && t[..m] == t[..n][..m];
  }

  /** What a complete line asks for. */
  method FrameLine(head: seq<Byte>, cap: nat) returns (r: Answer)
    ensures r == Framed(head, cap)
  {
    hide Parse;
    if |head| > LINE_MAX {
      return Failed(-EINVAL);
    }
    var ret, kind, payload := RequestParse(head);
    if ret != 0 {
      return Failed(-EINVAL);
    }
    if |head| + payload >= cap {
      return Failed(-E2BIG);
    }
    return Ready(kind, |head|, payload);
  }

  function Room(stream: seq<Byte>, cap: nat): (n: nat)
    requires cap > 0
    ensures n <= |stream| && n < cap && (n == |stream| || n == cap - 1)
  {
    if |stream| < cap - 1 then |stream| else cap - 1
  }

  /** One receive: at least a byte, at most what comes before `stop`. */
  method Receive(stream: seq<Byte>, buf: array<Byte>, got: nat, stop: nat) returns (now: nat)
    requires buf.Length > 0 && got < stop <= Room(stream, buf.Length) && buf[..got] == stream[..got]
    modifies buf
    ensures got < now <= stop && buf[..now] == stream[..now] && buf[now] == 0
  {
    var n :| 1 <= n <= stop - got;
    Put(buf, got, stream[got..got + n]);
    now := got + n;
    buf[now] := 0;
    assert buf[..got] == buf[..][..got] && buf[got..now] == stream[got..now];
    assert buf[..now] == buf[..got] + buf[got..now];
  }

  // ---------------------------------------------------------------- what is known along the way

  /** A complete line was parsed as `r`. */
  predicate LineKnown(stream: seq<Byte>, cap: nat, r: Answer)
    requires cap > 0
  {
    var nl := NewlineAt(stream, Room(stream, cap));
    nl < Room(stream, cap) && r == Framed(stream[..nl + 1], cap)
  }

  lemma NothingYet(stream: seq<Byte>)
    ensures NewlineAt(stream, 0) == 0
  {
  }

  lemma LineComplete(stream: seq<Byte>, ending: int, cap: nat, got: nat)
    requires cap > 0 && got <= Room(stream, cap) && NewlineAt(stream, got) < got
    ensures var r := Framed(stream[..NewlineAt(stream, got) + 1], cap);
            if r.Failed? then r == RequestOf(stream, ending, cap)
            else LineKnown(stream, cap, r) && r.line + r.payload < cap
  {
    hide Parse, NewlineAt;
    NewlineStays(stream, got, Room(stream, cap));
  }

  lemma CutShort(stream: seq<Byte>, ending: int, cap: nat, got: nat)
    requires cap > 0 && got == Room(stream, cap)
    requires NewlineAt(stream, got) == got || exists r: Answer :: Waiting(stream, cap, got, r)
    ensures RequestOf(stream, ending, cap) == Failed(if got == cap - 1 then -ECONNRESET else ending)
  {
    hide Framed;
  }

  predicate Waiting(stream: seq<Byte>, cap: nat, got: nat, r: Answer)
    requires cap > 0
  {
    r.Ready? && LineKnown(stream, cap, r) && got < r.line + r.payload < cap
  }

  lemma NotYet(stream: seq<Byte>, cap: nat, got: nat, known: bool, r: Answer)
    requires cap > 0 && got <= Room(stream, cap)
    requires if known then Waiting(stream, cap, got, r) else NewlineAt(stream, got) == got
    ensures Undecided(stream, cap, got)
  {
    hide Framed, NewlineAt;
    if NewlineAt(stream, got) < got { NewlineStays(stream, got, Room(stream, cap)); }
  }

  /** What a line decides stays decided as more arrives. */
  lemma StaysDecided(stream: seq<Byte>, cap: nat, got: nat, stop: nat)
    requires got <= stop <= |stream| && NewlineAt(stream, got) < got
    ensures Framed(stream[..NewlineAt(stream, got) + 1], cap).Failed? ==> !Undecided(stream, cap, stop)
  {
    hide Framed, NewlineAt;
    NewlineStays(stream, got, stop);
  }

  lemma KnownDecided(stream: seq<Byte>, cap: nat, got: nat, stop: nat, r: Answer)
    requires cap > 0 && got <= stop <= Room(stream, cap)
    requires LineKnown(stream, cap, r) && r.Ready? && r.line + r.payload <= got
    ensures !Undecided(stream, cap, stop)
  {
    hide NewlineAt, Parse;
    FirstNewline(stream, Room(stream, cap), stop);
  }

  /** The first newline is found among any bytes that reach it. */
  lemma FirstNewline(s: seq<Byte>, n: nat, m: nat)
    requires m <= n <= |s| && NewlineAt(s, n) < m
    ensures NewlineAt(s, m) == NewlineAt(s, n)
  {
    hide NewlineAt;
    if NewlineAt(s, m) < m { NewlineStays(s, m, n); }
  }

  lemma Complete(stream: seq<Byte>, ending: int, cap: nat, r: Answer)
    requires cap > 0 && r.Ready? && LineKnown(stream, cap, r) && |stream| >= r.line + r.payload
    ensures r == RequestOf(stream, ending, cap)
  {
    hide Framed;
  }

  // ---------------------------------------------------------------- the sender

  /** `request_format_network`. */
  function NetworkLine(len: nat): seq<Byte> {
    NETWORK + ([SPACE] + (Numeral(len, 10) + [NEWLINE]))
  }

  /** `send_text`: the whole request, or nothing if it does not fit its buffer. */
  function Sent(text: seq<Byte>): Option<seq<Byte>> {
    var line := NetworkLine(|text|);
    if |line| + |text| >= LINE_MAX + TEXT_MAX then None else Some(line + text)
  }

  lemma NetworkLineReads(len: nat)
    requires len <= NETWORK_MAX
    ensures Parse(NetworkLine(len)) == Some((Network, len))
  {
    hide Numeral, Number, NulAt;
    var digits, line := Numeral(len, 10), NetworkLine(len);
    LineSolid(len);
    assert line[..|line|] == line;
    assert line[|NETWORK|..] == [SPACE] + (digits + [NEWLINE]);
    NumeralRead([SPACE], len, [NEWLINE], 10);
    assert line[..|line| - 1][0] == 110;
  }

  /** The line holds no NUL and one newline, its last byte, right behind a digit. */
  lemma LineSolid(len: nat)
    ensures var line := NetworkLine(len);
            && NulAt(line, 0) == |line| && Trimmed(line, |line|) == |line| - 1
            && NewlineAt(line, |line|) == |line| - 1
  {
    hide Numeral, NulAt, NewlineAt, Trimmed;
    NumeralDigits(len, 10);
    var line, digits := NetworkLine(len), Numeral(len, 10);
    assert line == NETWORK + [SPACE] + digits + [NEWLINE];
    var n := |line| - 1;
    forall i | 0 <= i < n ensures line[i] != 0 && line[i] != NEWLINE {
      if i >= 8 { assert line[i] == digits[i - 8]; }
    }
    assert line[n] == NEWLINE && line[n - 1] == digits[|digits| - 1];
    TrimmedOnce(line);
  }

  lemma TrimmedOnce(line: seq<Byte>)
    requires |line| > 1 && line[|line| - 1] == NEWLINE
    requires line[|line| - 2] != NEWLINE && line[|line| - 2] != RETURN
    ensures Trimmed(line, |line|) == |line| - 1
  {
  }

  /** Any text the sender has room for is sent, and arrives unchanged however it is split, whatever follows it. */
  lemma SentIsReceived(text: seq<Byte>, more: seq<Byte>, ending: int)
    requires |text| < TEXT_MAX
    ensures Sent(text).Some?
    ensures var stream := Sent(text).value + more;
            var r := RequestOf(stream, ending, LINE_MAX + TEXT_MAX);
            && r == Ready(Network, |NetworkLine(|text|)|, |text|)
            && stream[r.line..r.line + r.payload] == text
  {
    hide Numeral, Parse, NewlineAt, NulAt;
    var line := NetworkLine(|text|);
    assert Pow10(5) == 100000;
    NumeralLength(|text|, 5);
    LineSolid(|text|);
    NetworkLineReads(|text|);
    var stream := line + text + more;
    assert stream[..|line|] == line && stream[|line|..|line| + |text|] == text;
    SameNewline(line, text + more, Room(stream, LINE_MAX + TEXT_MAX));
    ConcatAssoc(line, text, more);
  }
}
