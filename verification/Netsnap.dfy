/**
 * The network identity handed from one kernel to the next (lib/netsnap.c): its text form,
 * and the order routes are restored in.
 */
module Netsnaps {
  import opened Errno
  import opened Bytes
  import opened Options
  import opened Scan
  import Requests

  const MAX_LINKS: int := 8
  const MAX_ADDRS: int := 16
  const MAX_ROUTES: int := 32
  const LINE_SIZE: int := 256

  const LINK: seq<Byte> := [108, 105, 110, 107]
  const ADDR: seq<Byte> := [97, 100, 100, 114]
  const ROUTE: seq<Byte> := [114, 111, 117, 116, 101]
  const FOREVER: seq<Byte> := [102, 111, 114, 101, 118, 101, 114]
  const DASH: seq<Byte> := [45]
  const SLASH: Byte := 47
  const COLON: Byte := 58

  /** The addresses of a family, the IPv6 one if `v6`. Lifetimes are wall-clock seconds, zero for ever. */
  datatype Addr = Addr(v6: bool, addr: seq<Byte>, prefix: nat, brd: Option<seq<Byte>>, valid: int, preferred: int)
  datatype Route = Route(v6: bool, dst: seq<Byte>, dstLen: nat, gw: Option<seq<Byte>>, metric: Word32,
                         protocol: Byte, scope: Byte)
  datatype Link = Link(pci: seq<Byte>, name: seq<Byte>, mac: seq<Byte>, mtu: Word32, addrs: seq<Addr>,
                       routes: seq<Route>)

  function AddrLen(v6: bool): nat { if v6 then 16 else 4 }

  // ---------------------------------------------------------------- addresses as text

  type Ntop = (bool, seq<Byte>) -> seq<Byte>
  type Pton = (bool, seq<Byte>) -> Option<seq<Byte>>

  /** Neither white space nor a NUL. */
  predicate Visible(s: seq<Byte>) {
    forall i :: 0 <= i < |s| ==> !IsSpace(s[i]) && s[i] != 0
  }

  /** What `inet_ntop` prints for an address. */
  predicate Printed(t: seq<Byte>, v6: bool) {
    t != [] && |t| <= 45 && Visible(t) && SLASH !in t && (COLON in t <==> v6) && t != DASH
  }

  /** `inet_pton` reads back what `inet_ntop` prints. */
  ghost predicate Inverse(ntop: Ntop, pton: Pton) {
    forall v6: bool, a: seq<Byte> {:trigger ntop(v6, a)} :: |a| == AddrLen(v6) ==>
      Printed(ntop(v6, a), v6) && pton(v6, ntop(v6, a)) == Some(a)
  }

  function GetIp(pton: Pton, text: seq<Byte>): Option<(bool, seq<Byte>)> {
    var v6 := COLON in text;
    match pton(v6, text)
    case None => None
    case Some(a) => Some((v6, a))
  }

  function SlashAt(s: seq<Byte>): (i: nat)
    ensures i <= |s| && (i < |s| ==> s[i] == SLASH) && forall j :: 0 <= j < i ==> s[j] != SLASH
  {
    if s == [] || s[0] == SLASH then 0 else 1 + SlashAt(s[1..])
  }

  /** `strtoul` of a whole string: nothing at all is zero. */
  function Whole(s: seq<Byte>): Option<Word64> {
    if s == [] then Some(0)
    else
      match Number(s, 10)
      case Some((v, rest)) => if rest == [] then Some(v) else None
      case None => None
  }

  /** An address and its prefix length. */
  function GetPrefix(pton: Pton, text: seq<Byte>): Option<(bool, seq<Byte>, nat)> {
    var i := SlashAt(text);
    if i == |text| then None
    else
      match (Whole(text[i + 1..]), GetIp(pton, text[..i]))
      case (Some(n), Some((v6, a))) => if n > AddrLen(v6) * 8 then None else Some((v6, a, n))
      case _ => None
  }

  /** An optional address of the given family. */
  function GetOther(pton: Pton, text: seq<Byte>, v6: bool): Option<Option<seq<Byte>>> {
    if text == DASH then Some(None)
    else
      match GetIp(pton, text)
      case Some((f, a)) => if f == v6 then Some(Some(a)) else None
      case None => None
  }

  function PutUntil(until: int): seq<Byte> {
    if until == 0 then FOREVER else (if until < 0 then DASH else []) + Numeral(if until < 0 then -until else until, 10)
  }

  function GetUntil(text: seq<Byte>): Option<int> {
    if text == FOREVER then Some(0)
    else
      match Signed(text)
      case Some((v, rest)) => if rest != [] || v <= 0 then None else Some(v)
      case None => None
  }

  // ---------------------------------------------------------------- lines

  function MacText(m: seq<Byte>): seq<Byte>
    requires m != []
  {
    if |m| == 1 then HexFixed(m[0], 2) else HexFixed(m[0], 2) + ([COLON] + MacText(m[1..]))
  }

  function Spaced(w: seq<Byte>, rest: seq<Byte>): seq<Byte> { w + ([SPACE] + rest) }

  function PrefixText(ntop: Ntop, v6: bool, a: seq<Byte>, n: nat): seq<Byte> {
    ntop(v6, a) + ([SLASH] + Numeral(n, 10))
  }

  function OtherText(ntop: Ntop, v6: bool, o: Option<seq<Byte>>): seq<Byte> {
    match o case None => DASH case Some(a) => ntop(v6, a)
  }

  function LinkRest(l: Link): seq<Byte>
    requires |l.mac| == 6
  {
    Spaced(l.name, Spaced(MacText(l.mac), Numeral(l.mtu, 10)))
  }

  function AddrRest(ntop: Ntop, a: Addr): seq<Byte> {
    Spaced(PrefixText(ntop, a.v6, a.addr, a.prefix),
           Spaced(OtherText(ntop, a.v6, a.brd), Spaced(PutUntil(a.valid), PutUntil(a.preferred))))
  }

  function RouteRest(ntop: Ntop, r: Route): seq<Byte> {
    Spaced(PrefixText(ntop, r.v6, r.dst, r.dstLen),
           Spaced(OtherText(ntop, r.v6, r.gw),
                  Spaced(Numeral(r.metric, 10), Spaced(Numeral(r.protocol, 10), Numeral(r.scope, 10)))))
  }

  function LineText(kind: seq<Byte>, pci: seq<Byte>, rest: seq<Byte>): seq<Byte> { Spaced(kind, Spaced(pci, rest)) }

  function AddrLines(ntop: Ntop, pci: seq<Byte>, addrs: seq<Addr>): (s: seq<seq<Byte>>)
    ensures |s| == |addrs|
  {
    seq(|addrs|, i requires 0 <= i < |addrs| => LineText(ADDR, pci, AddrRest(ntop, addrs[i])))
  }

  function RouteLines(ntop: Ntop, pci: seq<Byte>, routes: seq<Route>): (s: seq<seq<Byte>>)
    ensures |s| == |routes|
  {
    seq(|routes|, i requires 0 <= i < |routes| => LineText(ROUTE, pci, RouteRest(ntop, routes[i])))
  }

  function LinkLines(ntop: Ntop, l: Link): seq<seq<Byte>>
    requires |l.mac| == 6
  {
    [LineText(LINK, l.pci, LinkRest(l))] + AddrLines(ntop, l.pci, l.addrs) + RouteLines(ntop, l.pci, l.routes)
  }

  predicate Macs(links: seq<Link>) {
    forall i :: 0 <= i < |links| ==> |links[i].mac| == 6
  }

  function Lines(ntop: Ntop, links: seq<Link>): seq<seq<Byte>>
    requires Macs(links)
  {
    if links == [] then [] else Lines(ntop, links[..|links| - 1]) + LinkLines(ntop, links[|links| - 1])
  }

  function Join(lines: seq<seq<Byte>>): seq<Byte> {
    if lines == [] then [] else (lines[0] + [NEWLINE]) + Join(lines[1..])
  }

  // ---------------------------------------------------------------- parsing

  function ScanMac(s: seq<Byte>, k: nat): Option<(seq<Byte>, seq<Byte>)>
    requires k > 0
    decreases k
  {
    match Number(s, 16)
    case None => None
    case Some((v, rest)) =>
      if k == 1 then Some(([v % 256], rest))
      else if rest == [] || rest[0] != COLON then None
      else
        match ScanMac(rest[1..], k - 1)
        case None => None
        case Some((m, rest')) => Some(([v % 256] + m, rest'))
  }

  /** `%u`. */
  function Unsigned(s: seq<Byte>): Option<(Word32, seq<Byte>)> {
    match Number(s, 10)
    case None => None
    case Some((v, rest)) => Some((v % 0x1_0000_0000, rest))
  }

  function ByPci(links: seq<Link>, pci: seq<Byte>): (i: nat)
    ensures i <= |links| && (i < |links| ==> links[i].pci == pci) && forall j :: 0 <= j < i ==> links[j].pci != pci
  {
    if links == [] || links[0].pci == pci then 0 else 1 + ByPci(links[1..], pci)
  }

  function ParseLink(links: seq<Link>, pci: seq<Byte>, rest: seq<Byte>): Option<seq<Link>> {
    if |links| == MAX_LINKS || ByPci(links, pci) < |links| || |pci| >= 16 then None
    else
      match Word(rest, 15)
      case None => None
      case Some((name, r1)) =>
        match ScanMac(r1, 6)
        case None => None
        case Some((mac, r2)) =>
          match Unsigned(r2)
          case None => None
          case Some((mtu, _)) => Some(links + [Link(pci, name, mac, mtu, [], [])])
  }

  /** Two words of 63 bytes: an address with its prefix, and an optional other one. */
  function ParseTwo(pton: Pton, rest: seq<Byte>): Option<(bool, seq<Byte>, nat, Option<seq<Byte>>, seq<Byte>)> {
    match Word(rest, 63)
    case None => None
    case Some((first, r1)) =>
      match Word(r1, 63)
      case None => None
      case Some((second, r2)) =>
        match GetPrefix(pton, first)
        case None => None
        case Some((v6, a, n)) =>
          match GetOther(pton, second, v6)
          case None => None
          case Some(o) => Some((v6, a, n, o, r2))
  }

  function ParseAddr(pton: Pton, l: Link, rest: seq<Byte>): Option<Link> {
    if |l.addrs| == MAX_ADDRS then None
    else
      match ParseTwo(pton, rest)
      case None => None
      case Some((v6, a, n, brd, r1)) =>
        match Word(r1, 23)
        case None => None
        case Some((valid, r2)) =>
          match Word(r2, 23)
          case None => None
          case Some((pref, _)) =>
            match (GetUntil(valid), GetUntil(pref))
            case (Some(v), Some(p)) => Some(l.(addrs := l.addrs + [Addr(v6, a, n, brd, v, p)]))
            case _ => None
  }

  function ParseRoute(pton: Pton, l: Link, rest: seq<Byte>): Option<Link> {
    if |l.routes| == MAX_ROUTES then None
    else
      match ParseTwo(pton, rest)
      case None => None
      case Some((v6, dst, n, gw, r1)) =>
        match Unsigned(r1)
        case None => None
        case Some((metric, r2)) =>
          match Unsigned(r2)
          case None => None
          case Some((protocol, r3)) =>
            match Unsigned(r3)
            case None => None
            case Some((scope, _)) =>
              if protocol > 255 || scope > 255 then None
              else Some(l.(routes := l.routes + [Route(v6, dst, n, gw, metric, protocol, scope)]))
  }

  /** One line that is not empty: its kind and function, then the rest. */
  function ParseLine(pton: Pton, links: seq<Link>, line: seq<Byte>): Option<seq<Link>> {
    match Word(line, 7)
    case None => None
    case Some((kind, r1)) =>
      match Word(r1, 31)
      case None => None
      case Some((pci, r2)) => Record(pton, links, kind, pci, SkipSpaces(r2))
  }

  function Record(pton: Pton, links: seq<Link>, kind: seq<Byte>, pci: seq<Byte>, rest: seq<Byte>): Option<seq<Link>> {
    if kind == LINK then ParseLink(links, pci, rest)
    else
      var i := ByPci(links, pci);
      if i == |links| then None
      else
        var parsed := if kind == ADDR then ParseAddr(pton, links[i], rest)
                      else if kind == ROUTE then ParseRoute(pton, links[i], rest)
                      else None;
        if parsed.None? then None else Some(links[i := parsed.value])
  }

  /** The first line, cut to what the line buffer holds, and where the next one starts. */
  function Cut(text: seq<Byte>): (r: (seq<Byte>, seq<Byte>))
    ensures text != [] ==> |r.1| < |text|
  {
    var n := NewlineAt(text, |text|);
    (text[..if n < LINE_SIZE then n else LINE_SIZE - 1], text[if n < |text| then n + 1 else n..])
  }

  function ParseFrom(pton: Pton, links: seq<Link>, text: seq<Byte>): Option<seq<Link>>
    decreases |text|
  {
    if text == [] then Some(links)
    else
      var (line, rest) := Cut(text);
      if line == [] then ParseFrom(pton, links, rest)
      else
        match ParseLine(pton, links, line)
        case None => None
        case Some(now) => ParseFrom(pton, now, rest)
  }

  /** A text ends at its first NUL. */
  function ParseText(pton: Pton, text: seq<Byte>): Option<seq<Link>> {
    ParseFrom(pton, [], text[..NulAt(text, 0)])
  }

  /** `netsnap_parse`. */
  method Parse(pton: Pton, text: seq<Byte>) returns (ret: int, links: seq<Link>)
    ensures ret in {0, -EINVAL}
    ensures ParseText(pton, text) == if ret == 0 then Some(links) else None
  {
    hide ParseLine, NulAt;
    ret, links := 0, [];
    var p := text[..NulAt(text, 0)];
    while p != []
      invariant ParseText(pton, text) == ParseFrom(pton, links, p)
      decreases |p|
    {
      var (line, rest) := Cut(p);
      p := rest;
      if line == [] {
        continue;
      }
      var parsed := ParseLine(pton, links, line);
      if parsed.None? {
        return -EINVAL, links;
      }
      links := parsed.value;
    }
  }

  // ---------------------------------------------------------------- snapshots within the limits

  const TOP: int := 0x8000_0000_0000_0000

  predicate GoodWord(w: seq<Byte>, max: nat) {
    w != [] && Visible(w) && |w| <= max
  }

  predicate GoodOther(o: Option<seq<Byte>>, v6: bool) {
    o.Some? ==> |o.value| == AddrLen(v6)
  }

  predicate GoodAddr(a: Addr) {
    |a.addr| == AddrLen(a.v6) && a.prefix <= 8 * |a.addr| && GoodOther(a.brd, a.v6) && 0 <= a.valid < TOP &&
    0 <= a.preferred < TOP
  }

  predicate GoodRoute(r: Route) {
    |r.dst| == AddrLen(r.v6) && r.dstLen <= 8 * |r.dst| && GoodOther(r.gw, r.v6)
  }

  predicate GoodLink(l: Link) {
    && GoodWord(l.pci, 15) && GoodWord(l.name, 15) && |l.mac| == 6
    && |l.addrs| <= MAX_ADDRS && (forall i :: 0 <= i < |l.addrs| ==> GoodAddr(l.addrs[i]))
    && |l.routes| <= MAX_ROUTES && (forall i :: 0 <= i < |l.routes| ==> GoodRoute(l.routes[i]))
  }

  predicate Good(links: seq<Link>) {
    && |links| <= MAX_LINKS && (forall i :: 0 <= i < |links| ==> GoodLink(links[i]))
    && forall i, j :: 0 <= i < j < |links| ==> links[i].pci != links[j].pci
  }

  // ---------------------------------------------------------------- words and numbers of a line

  lemma VisibleWord(w: seq<Byte>)
    requires Visible(w)
    ensures NoSpace(w)
  {
  }

  lemma WordFirst(w: seq<Byte>, rest: seq<Byte>, max: nat)
    requires GoodWord(w, max)
    ensures Word(Spaced(w, rest), max) == Some((w, [SPACE] + rest))
  {
    VisibleWord(w);
    hide Word, Visible, NoSpace;
    WordRead([], w, [SPACE] + rest, max);
    assert [] + Spaced(w, rest) == Spaced(w, rest);
  }

  lemma WordNext(w: seq<Byte>, rest: seq<Byte>, max: nat)
    requires GoodWord(w, max)
    ensures Word([SPACE] + Spaced(w, rest), max) == Some((w, [SPACE] + rest))
  {
    VisibleWord(w);
    hide Word, Visible, NoSpace;
    WordRead([SPACE], w, [SPACE] + rest, max);
  }

  lemma WordLast(w: seq<Byte>, max: nat)
    requires GoodWord(w, max)
    ensures Word([SPACE] + w, max) == Some((w, []))
  {
    VisibleWord(w);
    hide Word, Visible, NoSpace;
    WordRead([SPACE], w, [], max);
    assert w + [] == w;
  }

  lemma UnsignedNext(n: Word32, rest: seq<Byte>)
    ensures Unsigned([SPACE] + Spaced(Numeral(n, 10), rest)) == Some((n, [SPACE] + rest))
  {
    hide Number, Numeral;
    NumeralRead([SPACE], n, [SPACE] + rest, 10);
  }

  lemma UnsignedLast(n: Word32)
    ensures Unsigned([SPACE] + Numeral(n, 10)) == Some((n, []))
  {
    hide Number, Numeral;
    NumeralRead([SPACE], n, [], 10);
    assert Numeral(n, 10) + [] == Numeral(n, 10);
  }

  lemma HexPair(b: Byte)
    ensures var d := HexFixed(b, 2); AllDigits(d, 16) && ValueOf(d, 16) == b
  {
    assert Pow16(1) == 16 && Pow16(2) == 256;
    HexFixedValue(b, 2);
  }

  lemma {:induction false} MacRead(lead: seq<Byte>, m: seq<Byte>, rest: seq<Byte>)
    requires (lead == [] || lead == [SPACE]) && m != [] && Ends(rest, 16)
    ensures ScanMac(lead + (MacText(m) + rest), |m|) == Some((m, rest))
    decreases |m|
  {
    hide Number, HexFixed, ValueOf;
    var h := HexFixed(m[0], 2);
    HexPair(m[0]);
    if |m| == 1 {
      NumberRead(lead, h, rest, 16);
      assert m == [m[0]];
    } else {
      var t := MacText(m[1..]);
      MacRead([], m[1..], rest);
      assert [] + (t + rest) == t + rest;
      MacTail(h, t, rest);
      NumberRead(lead, h, [COLON] + (t + rest), 16);
      assert m == [m[0]] + m[1..];
    }
  }

  lemma MacTail(h: seq<Byte>, t: seq<Byte>, rest: seq<Byte>)
    ensures (h + ([COLON] + t)) + rest == h + ([COLON] + (t + rest)) && ([COLON] + (t + rest))[1..] == t + rest
  {
  }

  // ---------------------------------------------------------------- addresses of a line

  lemma NumeralWord(n: nat, k: nat)
    requires k > 0 && n < Pow10(k)
    ensures GoodWord(Numeral(n, 10), k)
  {
    hide Numeral;
    NumeralLength(n, k);
    NumeralDigits(n, 10);
  }

  lemma WordConcat(a: seq<Byte>, b: seq<Byte>, m: nat, n: nat)
    requires GoodWord(a, m) && Visible(b) && |b| <= n
    ensures GoodWord(a + b, m + n)
  {
  }

  lemma PrefixRead(ntop: Ntop, pton: Pton, v6: bool, a: seq<Byte>, n: nat)
    requires Inverse(ntop, pton) && |a| == AddrLen(v6) && n <= 8 * |a|
    ensures GoodWord(PrefixText(ntop, v6, a, n), 63)
    ensures GetPrefix(pton, PrefixText(ntop, v6, a, n)) == Some((v6, a, n))
  {
    hide Numeral, Number, SlashAt, Visible;
    var host, digits := ntop(v6, a), Numeral(n, 10);
    var text := host + ([SLASH] + digits);
    assert Pow10(3) == 1000;
    NumeralWord(n, 3);
    SlashWord(digits);
    WordConcat(host, [SLASH] + digits, 45, 4);
    SlashFound(host, digits);
    assert text[..|host|] == host && text[|host| + 1..] == digits;
    NumeralRead([], n, [], 10);
    assert [] + (digits + []) == digits;
  }

  lemma SlashWord(w: seq<Byte>)
    requires Visible(w)
    ensures Visible([SLASH] + w)
  {
  }

  lemma SlashFound(host: seq<Byte>, rest: seq<Byte>)
    requires SLASH !in host
    ensures SlashAt(host + ([SLASH] + rest)) == |host|
  {
    hide SlashAt;
    var s := host + ([SLASH] + rest);
    assert forall j :: 0 <= j < |host| ==> s[j] == host[j] && host[j] in host;
    assert s[|host|] == SLASH;
  }

  lemma OtherRead(ntop: Ntop, pton: Pton, v6: bool, o: Option<seq<Byte>>)
    requires Inverse(ntop, pton) && GoodOther(o, v6)
    ensures GoodWord(OtherText(ntop, v6, o), 63) && GetOther(pton, OtherText(ntop, v6, o), v6) == Some(o)
  {
    if o.Some? { assert Printed(ntop(v6, o.value), v6); }
  }

  lemma UntilRead(u: int)
    requires 0 <= u < TOP
    ensures GoodWord(PutUntil(u), 23) && GetUntil(PutUntil(u)) == Some(u)
  {
    hide Numeral, Digits, Visible;
    if u == 0 {
      assert Visible(FOREVER) by { ForeverWord(); }
    } else {
      var d := Numeral(u, 10);
      assert PutUntil(u) == d;
      Pow10Nineteen();
      NumeralWord(u, 19);
      NumeralDigits(u, 10);
      assert IsDigit(d[0], 10) && FOREVER[0] == 102;
      NumeralValue(u, 10);
      DigitsRead(d, [], 10);
      assert d + [] == d;
      SkipLead([], d);
      assert [] + d == d;
    }
  }

  lemma ForeverWord()
    ensures Visible(FOREVER)
  {
  }

  lemma Pow10Nineteen()
    ensures Pow10(19) > TOP
  {
    assert Pow10(4) == 10000;
    assert Pow10(8) == 100000000;
    assert Pow10(12) == 1000000000000;
    assert Pow10(16) == 10000000000000000;
  }

  // ---------------------------------------------------------------- one record

  lemma LinkRead(links: seq<Link>, l: Link)
    requires GoodLink(l) && |links| < MAX_LINKS && ByPci(links, l.pci) == |links|
    ensures ParseLink(links, l.pci, LinkRest(l)) == Some(links + [l.(addrs := [], routes := [])])
  {
    hide Word, ScanMac, Unsigned, Numeral, MacText, ByPci, Visible;
    var mtu := Numeral(l.mtu, 10);
    WordFirst(l.name, Spaced(MacText(l.mac), mtu), 15);
    MacRead([SPACE], l.mac, [SPACE] + mtu);
    UnsignedLast(l.mtu);
  }

  lemma TwoRead(ntop: Ntop, pton: Pton, v6: bool, a: seq<Byte>, n: nat, o: Option<seq<Byte>>, rest: seq<Byte>)
    requires Inverse(ntop, pton) && |a| == AddrLen(v6) && n <= 8 * |a| && GoodOther(o, v6)
    ensures ParseTwo(pton, Spaced(PrefixText(ntop, v6, a, n), Spaced(OtherText(ntop, v6, o), rest))) ==
            Some((v6, a, n, o, [SPACE] + rest))
  {
    hide Word, GetPrefix, GetOther, PrefixText, OtherText, Inverse, GoodWord, Spaced;
    PrefixRead(ntop, pton, v6, a, n);
    OtherRead(ntop, pton, v6, o);
    WordFirst(PrefixText(ntop, v6, a, n), Spaced(OtherText(ntop, v6, o), rest), 63);
    WordNext(OtherText(ntop, v6, o), rest, 63);
  }

  lemma AddrRead(ntop: Ntop, pton: Pton, l: Link, a: Addr)
    requires Inverse(ntop, pton) && GoodAddr(a) && |l.addrs| < MAX_ADDRS
    ensures ParseAddr(pton, l, AddrRest(ntop, a)) == Some(l.(addrs := l.addrs + [a]))
  {
    hide Word, ParseTwo, GetUntil, PutUntil, PrefixText, OtherText, Inverse, GoodWord, Spaced;
    var valid, pref := PutUntil(a.valid), PutUntil(a.preferred);
    TwoRead(ntop, pton, a.v6, a.addr, a.prefix, a.brd, Spaced(valid, pref));
    UntilRead(a.valid);
    UntilRead(a.preferred);
    WordNext(valid, pref, 23);
    WordLast(pref, 23);
  }

  lemma RouteRead(ntop: Ntop, pton: Pton, l: Link, r: Route)
    requires Inverse(ntop, pton) && GoodRoute(r) && |l.routes| < MAX_ROUTES
    ensures ParseRoute(pton, l, RouteRest(ntop, r)) == Some(l.(routes := l.routes + [r]))
  {
    hide Unsigned, ParseTwo, PrefixText, OtherText, Inverse, Spaced, Numeral;
    var metric, protocol, scope := Numeral(r.metric, 10), Numeral(r.protocol, 10), Numeral(r.scope, 10);
    TwoRead(ntop, pton, r.v6, r.dst, r.dstLen, r.gw, Spaced(metric, Spaced(protocol, scope)));
    UnsignedNext(r.metric, Spaced(protocol, scope));
    UnsignedNext(r.protocol, scope);
    UnsignedLast(r.scope);
  }

  // ---------------------------------------------------------------- one line

  /** Kind and function are split off, and the rest starts where the record does. */
  lemma LineWords(pton: Pton, links: seq<Link>, kind: seq<Byte>, pci: seq<Byte>, rest: seq<Byte>)
    requires GoodWord(kind, 7) && GoodWord(pci, 15) && rest != [] && !IsSpace(rest[0])
    ensures ParseLine(pton, links, LineText(kind, pci, rest)) == Record(pton, links, kind, pci, rest)
  {
    hide Word, SkipSpaces, Record;
    WordFirst(kind, Spaced(pci, rest), 7);
    WordNext(pci, rest, 31);
    SkipLead([SPACE], rest);
  }

  /** A word and what follows it start with the word's first byte. */
  lemma StartsSolid(w: seq<Byte>, rest: seq<Byte>, max: nat)
    requires GoodWord(w, max)
    ensures Spaced(w, rest) != [] && !IsSpace(Spaced(w, rest)[0])
  {
    VisibleWord(w);
    FirstSolid(w);
  }

  lemma Kinds()
    ensures GoodWord(LINK, 7) && GoodWord(ADDR, 7) && GoodWord(ROUTE, 7)
    ensures LINK != ADDR && LINK != ROUTE && ADDR != ROUTE
  {
    assert LINK[0] == 108 && ADDR[0] == 97 && ROUTE[0] == 114;
  }

  lemma LinkLineRead(ntop: Ntop, pton: Pton, links: seq<Link>, l: Link)
    requires GoodLink(l) && |links| < MAX_LINKS && ByPci(links, l.pci) == |links|
    ensures ParseLine(pton, links, LineText(LINK, l.pci, LinkRest(l))) == Some(links + [l.(addrs := [], routes := [])])
  {
    Kinds();
    StartsSolid(l.name, Spaced(MacText(l.mac), Numeral(l.mtu, 10)), 15);
    hide ParseLine, LineText, ByPci, ParseLink, ParseAddr, ParseRoute;
    LineWords(pton, links, LINK, l.pci, LinkRest(l));
    LinkRead(links, l);
  }

  lemma AddrLineRead(ntop: Ntop, pton: Pton, before: seq<Link>, l: Link, a: Addr)
    requires Inverse(ntop, pton) && GoodAddr(a) && |l.addrs| < MAX_ADDRS && GoodWord(l.pci, 15)
    requires ByPci(before + [l], l.pci) == |before|
    ensures ParseLine(pton, before + [l], LineText(ADDR, l.pci, AddrRest(ntop, a))) ==
            Some(before + [l.(addrs := l.addrs + [a])])
  {
    hide ParseLine, LineText, ByPci, ParseLink, ParseAddr, ParseRoute, Inverse, PrefixText, AddrRest, RouteRest,
      GoodWord;
    Kinds();
    PrefixRead(ntop, pton, a.v6, a.addr, a.prefix);
    AddrStarts(ntop, a);
    LineWords(pton, before + [l], ADDR, l.pci, AddrRest(ntop, a));
    AddrRead(ntop, pton, l, a);
    ReplaceLast(before, l, l.(addrs := l.addrs + [a]));
  }

  lemma AddrStarts(ntop: Ntop, a: Addr)
    requires GoodWord(PrefixText(ntop, a.v6, a.addr, a.prefix), 63)
    ensures AddrRest(ntop, a) != [] && !IsSpace(AddrRest(ntop, a)[0])
  {
    hide PrefixText, PutUntil, OtherText;
    StartsSolid(PrefixText(ntop, a.v6, a.addr, a.prefix),
                Spaced(OtherText(ntop, a.v6, a.brd), Spaced(PutUntil(a.valid), PutUntil(a.preferred))), 63);
  }

  lemma RouteStarts(ntop: Ntop, r: Route)
    requires GoodWord(PrefixText(ntop, r.v6, r.dst, r.dstLen), 63)
    ensures RouteRest(ntop, r) != [] && !IsSpace(RouteRest(ntop, r)[0])
  {
    hide PrefixText, OtherText, Numeral;
    StartsSolid(PrefixText(ntop, r.v6, r.dst, r.dstLen),
                Spaced(OtherText(ntop, r.v6, r.gw),
                       Spaced(Numeral(r.metric, 10), Spaced(Numeral(r.protocol, 10), Numeral(r.scope, 10)))), 63);
  }

  lemma ReplaceLast<T>(before: seq<T>, x: T, y: T)
    ensures (before + [x])[|before|] == x && (before + [x])[|before| := y] == before + [y]
  {
  }

  lemma RouteLineRead(ntop: Ntop, pton: Pton, before: seq<Link>, l: Link, r: Route)
    requires Inverse(ntop, pton) && GoodRoute(r) && |l.routes| < MAX_ROUTES && GoodWord(l.pci, 15)
    requires ByPci(before + [l], l.pci) == |before|
    ensures ParseLine(pton, before + [l], LineText(ROUTE, l.pci, RouteRest(ntop, r))) ==
            Some(before + [l.(routes := l.routes + [r])])
  {
    hide ParseLine, LineText, ByPci, ParseLink, ParseAddr, ParseRoute, Inverse, PrefixText, AddrRest, RouteRest,
      GoodWord;
    Kinds();
    PrefixRead(ntop, pton, r.v6, r.dst, r.dstLen);
    RouteStarts(ntop, r);
    LineWords(pton, before + [l], ROUTE, l.pci, RouteRest(ntop, r));
    RouteRead(ntop, pton, l, r);
    ReplaceLast(before, l, l.(routes := l.routes + [r]));
  }

  // ---------------------------------------------------------------- lines fit the line buffer

  predicate Clean(s: seq<Byte>, max: nat) {
    |s| <= max && forall i :: 0 <= i < |s| ==> s[i] != NEWLINE && s[i] != 0
  }

  lemma CleanWord(w: seq<Byte>, max: nat)
    requires GoodWord(w, max)
    ensures Clean(w, max)
  {
  }

  lemma CleanSpaced(w: seq<Byte>, rest: seq<Byte>, m: nat, n: nat)
    requires GoodWord(w, m) && Clean(rest, n)
    ensures Clean(Spaced(w, rest), m + 1 + n)
  {
  }

  lemma NumberClean(n: Word32)
    ensures GoodWord(Numeral(n, 10), 10)
  {
    assert Pow10(5) == 100000;
    assert Pow10(10) == 10000000000;
    NumeralWord(n, 10);
  }

  lemma {:induction false} MacWord(m: seq<Byte>)
    requires m != []
    ensures GoodWord(MacText(m), 3 * |m|)
    decreases |m|
  {
    hide HexFixed;
    if |m| > 1 { MacWord(m[1..]); }
  }

  lemma LinkClean(l: Link)
    requires GoodLink(l)
    ensures Clean(LineText(LINK, l.pci, LinkRest(l)), 255)
  {
    hide Clean, MacText, Numeral, Visible, Spaced;
    var mtu := Numeral(l.mtu, 10);
    Kinds();
    NumberClean(l.mtu);
    CleanWord(mtu, 10);
    MacWord(l.mac);
    CleanSpaced(MacText(l.mac), mtu, 18, 10);
    CleanSpaced(l.name, Spaced(MacText(l.mac), mtu), 15, 29);
    LineClean(LINK, l.pci, LinkRest(l));
  }

  lemma LineClean(kind: seq<Byte>, pci: seq<Byte>, rest: seq<Byte>)
    requires GoodWord(kind, 7) && GoodWord(pci, 15) && Clean(rest, 200)
    ensures Clean(LineText(kind, pci, rest), 255)
  {
    CleanSpaced(pci, rest, 15, 200);
    CleanSpaced(kind, Spaced(pci, rest), 7, 216);
  }

  lemma AddrClean(ntop: Ntop, pton: Pton, pci: seq<Byte>, a: Addr)
    requires Inverse(ntop, pton) && GoodAddr(a) && GoodWord(pci, 15)
    ensures Clean(LineText(ADDR, pci, AddrRest(ntop, a)), 255)
  {
    hide Clean, PrefixText, OtherText, PutUntil, Visible, Inverse, GetPrefix, GetOther, GetUntil, LineText;
    var valid, pref := PutUntil(a.valid), PutUntil(a.preferred);
    var other := OtherText(ntop, a.v6, a.brd);
    Kinds();
    PrefixRead(ntop, pton, a.v6, a.addr, a.prefix);
    OtherRead(ntop, pton, a.v6, a.brd);
    UntilRead(a.valid);
    UntilRead(a.preferred);
    CleanWord(pref, 23);
    CleanSpaced(valid, pref, 23, 23);
    CleanSpaced(other, Spaced(valid, pref), 63, 47);
    CleanSpaced(PrefixText(ntop, a.v6, a.addr, a.prefix), Spaced(other, Spaced(valid, pref)), 63, 111);
    Looser(AddrRest(ntop, a), 175, 200);
    LineClean(ADDR, pci, AddrRest(ntop, a));
  }

  lemma RouteClean(ntop: Ntop, pton: Pton, pci: seq<Byte>, r: Route)
    requires Inverse(ntop, pton) && GoodRoute(r) && GoodWord(pci, 15)
    ensures Clean(LineText(ROUTE, pci, RouteRest(ntop, r)), 255)
  {
    hide Clean, PrefixText, OtherText, Visible, Inverse, GetPrefix, GetOther, LineText, Numeral;
    var metric, protocol, scope := Numeral(r.metric, 10), Numeral(r.protocol, 10), Numeral(r.scope, 10);
    var other := OtherText(ntop, r.v6, r.gw);
    Kinds();
    PrefixRead(ntop, pton, r.v6, r.dst, r.dstLen);
    OtherRead(ntop, pton, r.v6, r.gw);
    NumberClean(r.metric);
    NumberClean(r.protocol);
    NumberClean(r.scope);
    CleanWord(scope, 10);
    CleanSpaced(protocol, scope, 10, 10);
    CleanSpaced(metric, Spaced(protocol, scope), 10, 21);
    CleanSpaced(other, Spaced(metric, Spaced(protocol, scope)), 63, 32);
    CleanSpaced(PrefixText(ntop, r.v6, r.dst, r.dstLen),
                Spaced(other, Spaced(metric, Spaced(protocol, scope))), 63, 96);
    Looser(RouteRest(ntop, r), 160, 200);
    LineClean(ROUTE, pci, RouteRest(ntop, r));
  }

  lemma Looser(s: seq<Byte>, m: nat, n: nat)
    requires Clean(s, m) && m <= n
    ensures Clean(s, n)
  {
  }

  // ---------------------------------------------------------------- all lines

  function ParseLines(pton: Pton, links: seq<Link>, lines: seq<seq<Byte>>): Option<seq<Link>>
    decreases |lines|
  {
    if lines == [] then Some(links)
    else
      match ParseLine(pton, links, lines[0])
      case None => None
      case Some(now) => ParseLines(pton, now, lines[1..])
  }

  predicate Cleans(lines: seq<seq<Byte>>) {
    forall i :: 0 <= i < |lines| ==> lines[i] != [] && Clean(lines[i], 255)
  }

  lemma CutJoin(line: seq<Byte>, rest: seq<Byte>)
    requires Clean(line, 255)
    ensures Cut(line + [NEWLINE] + rest) == (line, rest)
  {
    hide NewlineAt;
    var text := line + [NEWLINE] + rest;
    assert forall j :: 0 <= j < |line| ==> text[j] == line[j];
    assert text[|line|] == NEWLINE;
    assert text[..|line|] == line && text[|line| + 1..] == rest;
  }

  /** Parsing joined lines is parsing them one by one. */
  lemma {:induction false} JoinParses(pton: Pton, links: seq<Link>, lines: seq<seq<Byte>>)
    requires Cleans(lines)
    ensures ParseFrom(pton, links, Join(lines)) == ParseLines(pton, links, lines)
    decreases |lines|
  {
    hide ParseLine, Cut, Clean;
    if lines != [] {
      CutJoin(lines[0], Join(lines[1..]));
      assert lines[0] != [];
      match ParseLine(pton, links, lines[0]) {
        case None =>
        case Some(now) => JoinParses(pton, now, lines[1..]);
      }
    }
  }

  lemma {:induction false} ParseConcat(pton: Pton, links: seq<Link>, s: seq<seq<Byte>>, t: seq<seq<Byte>>)
    requires ParseLines(pton, links, s).Some?
    ensures ParseLines(pton, links, s + t) == ParseLines(pton, ParseLines(pton, links, s).value, t)
    decreases |s|
  {
    hide ParseLine;
    if s == [] {
      assert s + t == t;
    } else {
      assert (s + t)[1..] == s[1..] + t;
      ParseConcat(pton, ParseLine(pton, links, s[0]).value, s[1..], t);
    }
  }

  lemma NewPci(before: seq<Link>, l: Link, pci: seq<Byte>)
    requires (forall j :: 0 <= j < |before| ==> before[j].pci != pci) && l.pci == pci
    ensures ByPci(before, pci) == |before| && ByPci(before + [l], pci) == |before|
  {
    hide ByPci;
    assert (before + [l])[|before|].pci == pci;
    assert forall j :: 0 <= j < |before| ==> (before + [l])[j] == before[j];
  }

  predicate Fresh(before: seq<Link>, pci: seq<Byte>) {
    forall j :: 0 <= j < |before| ==> before[j].pci != pci
  }

  lemma {:induction false} AddrsRead(ntop: Ntop, pton: Pton, before: seq<Link>, l: Link, ads: seq<Addr>)
    requires Inverse(ntop, pton) && Fresh(before, l.pci) && GoodWord(l.pci, 15)
    requires |l.addrs| + |ads| <= MAX_ADDRS && forall i :: 0 <= i < |ads| ==> GoodAddr(ads[i])
    ensures ParseLines(pton, before + [l], AddrLines(ntop, l.pci, ads)) == Some(before + [l.(addrs := l.addrs + ads)])
    decreases |ads|
  {
    hide ParseLine, Inverse, LineText, AddrRest, GoodAddr, GoodWord;
    if ads == [] {
      assert l.addrs + ads == l.addrs;
    } else {
      NewPci(before, l, l.pci);
      AddrLineRead(ntop, pton, before, l, ads[0]);
      var n := l.(addrs := l.addrs + [ads[0]]);
      AddrsRead(ntop, pton, before, n, ads[1..]);
      assert AddrLines(ntop, l.pci, ads)[1..] == AddrLines(ntop, l.pci, ads[1..]);
      assert n.addrs + ads[1..] == l.addrs + ads;
    }
  }

  lemma {:induction false} RoutesRead(ntop: Ntop, pton: Pton, before: seq<Link>, l: Link, rs: seq<Route>)
    requires Inverse(ntop, pton) && Fresh(before, l.pci) && GoodWord(l.pci, 15)
    requires |l.routes| + |rs| <= MAX_ROUTES && forall i :: 0 <= i < |rs| ==> GoodRoute(rs[i])
    ensures ParseLines(pton, before + [l], RouteLines(ntop, l.pci, rs)) == Some(before + [l.(routes := l.routes + rs)])
    decreases |rs|
  {
    hide ParseLine, Inverse, LineText, RouteRest, GoodRoute, GoodWord;
    if rs == [] {
      assert l.routes + rs == l.routes;
    } else {
      NewPci(before, l, l.pci);
      RouteLineRead(ntop, pton, before, l, rs[0]);
      var n := l.(routes := l.routes + [rs[0]]);
      RoutesRead(ntop, pton, before, n, rs[1..]);
      assert RouteLines(ntop, l.pci, rs)[1..] == RouteLines(ntop, l.pci, rs[1..]);
      assert n.routes + rs[1..] == l.routes + rs;
    }
  }

  lemma LinkLinesRead(ntop: Ntop, pton: Pton, before: seq<Link>, l: Link)
    requires Inverse(ntop, pton) && GoodLink(l) && Fresh(before, l.pci) && |before| < MAX_LINKS
    ensures ParseLines(pton, before, LinkLines(ntop, l)) == Some(before + [l])
  {
    hide ParseLine, Inverse, LineText, LinkRest, GoodAddr, GoodRoute, GoodWord, AddrLines, RouteLines;
    var first := [LineText(LINK, l.pci, LinkRest(l))];
    var ads, rs := AddrLines(ntop, l.pci, l.addrs), RouteLines(ntop, l.pci, l.routes);
    var bare := l.(addrs := [], routes := []);
    NewPci(before, l, l.pci);
    LinkLineRead(ntop, pton, before, l);
    assert first[1..] == [];
    ParseConcat(pton, before, first, ads);
    AddrsRead(ntop, pton, before, bare, l.addrs);
    assert [] + l.addrs == l.addrs && [] + l.routes == l.routes;
    ParseConcat(pton, before, first + ads, rs);
    RoutesRead(ntop, pton, before, l.(routes := []), l.routes);
  }

  lemma {:induction false} LinesRead(ntop: Ntop, pton: Pton, links: seq<Link>)
    requires Inverse(ntop, pton) && Good(links)
    ensures Macs(links) && ParseLines(pton, [], Lines(ntop, links)) == Some(links)
    decreases |links|
  {
    hide ParseLines, Inverse, GoodLink, LinkLines;
    assert Macs(links) by { GoodMacs(links); }
    if links != [] {
      var before, l := links[..|links| - 1], links[|links| - 1];
      LinesRead(ntop, pton, before);
      assert Fresh(before, l.pci);
      LinkLinesRead(ntop, pton, before, l);
      ParseConcat(pton, [], Lines(ntop, before), LinkLines(ntop, l));
      assert links == before + [l];
    } else {
      NoLines(pton);
    }
  }

  lemma NoLines(pton: Pton)
    ensures ParseLines(pton, [], []) == Some([])
  {
  }

  lemma GoodMacs(links: seq<Link>)
    requires Good(links)
    ensures Macs(links)
  {
  }

  lemma LinkLinesClean(ntop: Ntop, pton: Pton, l: Link)
    requires Inverse(ntop, pton) && GoodLink(l)
    ensures Cleans(LinkLines(ntop, l))
  {
    hide Inverse, LineText, LinkRest, AddrRest, RouteRest, Clean;
    LinkClean(l);
    LineThere(LINK, l.pci, LinkRest(l));
    forall i | 0 <= i < |l.addrs|
      ensures AddrLines(ntop, l.pci, l.addrs)[i] != [] && Clean(AddrLines(ntop, l.pci, l.addrs)[i], 255)
    {
      AddrClean(ntop, pton, l.pci, l.addrs[i]);
      LineThere(ADDR, l.pci, AddrRest(ntop, l.addrs[i]));
    }
    forall i | 0 <= i < |l.routes|
      ensures RouteLines(ntop, l.pci, l.routes)[i] != [] && Clean(RouteLines(ntop, l.pci, l.routes)[i], 255)
    {
      RouteClean(ntop, pton, l.pci, l.routes[i]);
      LineThere(ROUTE, l.pci, RouteRest(ntop, l.routes[i]));
    }
  }

  lemma LineThere(kind: seq<Byte>, pci: seq<Byte>, rest: seq<Byte>)
    ensures LineText(kind, pci, rest) != []
  {
  }

  lemma {:induction false} LinesClean(ntop: Ntop, pton: Pton, links: seq<Link>)
    requires Inverse(ntop, pton) && Good(links)
    ensures Macs(links) && Cleans(Lines(ntop, links))
    decreases |links|
  {
    hide Inverse, GoodLink, LinkLines, Clean;
    GoodMacs(links);
    if links != [] {
      LinesClean(ntop, pton, links[..|links| - 1]);
      LinkLinesClean(ntop, pton, links[|links| - 1]);
    }
  }

  /** Parsing what was formatted restores every link with its addresses, lifetimes and routes, in order. */
  lemma TextRoundTrip(ntop: Ntop, pton: Pton, links: seq<Link>)
    requires Inverse(ntop, pton) && Good(links)
    ensures Macs(links) && ParseText(pton, Join(Lines(ntop, links))) == Some(links)
  {
    hide Inverse, Good, Lines, Cleans, ParseFrom, ParseLines, Join, NulAt, NoNul;
    LinesClean(ntop, pton, links);
    LinesRead(ntop, pton, links);
    JoinParses(pton, [], Lines(ntop, links));
    var text := Join(Lines(ntop, links));
    JoinClean(Lines(ntop, links));
    NulAtEnd(text);
    assert text[..|text|] == text;
  }

  lemma {:induction false} JoinClean(lines: seq<seq<Byte>>)
    requires Cleans(lines)
    ensures NoNul(Join(lines))
    decreases |lines|
  {
    if lines != [] {
      JoinClean(lines[1..]);
      assert Clean(lines[0], 255);
    }
  }

  lemma NulAtEnd(s: seq<Byte>)
    requires NoNul(s)
    ensures NulAt(s, 0) == |s|
  {
  }

  // ---------------------------------------------------------------- formatting into a buffer

  lemma {:induction false} JoinConcat(s: seq<seq<Byte>>, t: seq<seq<Byte>>)
    ensures Join(s + t) == Join(s) + Join(t)
    decreases |s|
  {
    if s == [] {
      assert s + t == t;
    } else {
      assert (s + t)[1..] == s[1..] + t;
      JoinConcat(s[1..], t);
      ConcatAssoc(s[0] + [NEWLINE], Join(s[1..]), Join(t));
    }
  }

  lemma JoinOne(line: seq<Byte>)
    ensures Join([line]) == line + [NEWLINE]
  {
    assert [line][1..] == [];
    assert line + [NEWLINE] + [] == line + [NEWLINE];
  }

  /** `append`: a line that does not fit with its terminator is refused. */
  method Append(buf: array<Byte>, off: nat, line: seq<Byte>) returns (ret: int, now: nat)
    requires off <= buf.Length
    modifies buf
    ensures ret in {0, -ENOSPC} && now == (if ret == 0 then off + |line| + 1 else off)
    ensures ret == 0 <==> off + |line| + 1 < buf.Length
    ensures ret == 0 ==> buf[..now] == old(buf[..off]) + (line + [NEWLINE]) && buf[now] == 0
    ensures ret != 0 ==> buf[..off] == old(buf[..off])
  {
    if |line| + 1 >= buf.Length - off {
      return -ENOSPC, off;
    }
    Put(buf, off, line + [NEWLINE]);
    now := off + |line| + 1;
    buf[now] := 0;
    assert buf[..now] == buf[..][..now];
    return 0, now;
  }

  method FormatLines(buf: array<Byte>, off: nat, lines: seq<seq<Byte>>) returns (ret: int, now: nat)
    requires off <= buf.Length && (off > 0 ==> off < buf.Length && buf[off] == 0)
    modifies buf
    ensures ret in {0, -ENOSPC} && now <= buf.Length
    ensures ret == 0 ==> buf[..now] == old(buf[..off]) + Join(lines) && now == off + |Join(lines)|
    ensures ret == 0 && now > 0 ==> now < buf.Length && buf[now] == 0
    ensures ret != 0 ==> off + |Join(lines)| >= buf.Length
  {
    hide Join;
    ret, now := 0, off;
    var i := 0;
    JoinStart(lines);
    while i < |lines| && ret == 0
      invariant i <= |lines| && now <= buf.Length && ret in {0, -ENOSPC}
      invariant ret == 0 ==> buf[..now] == old(buf[..off]) + Join(lines[..i]) && now == off + |Join(lines[..i])|
      invariant ret == 0 && now > 0 ==> now < buf.Length && buf[now] == 0
      invariant ret != 0 ==> off + |Join(lines[..i])| >= buf.Length
    {
      JoinStep(lines, i);
      ret, now := Append(buf, now, lines[i]);
      i := i + 1;
    }
    JoinBound(lines, i);
    assert lines[..|lines|] == lines;
  }

  lemma JoinStart(lines: seq<seq<Byte>>)
    ensures Join(lines[..0]) == []
  {
  }

  lemma JoinStep(lines: seq<seq<Byte>>, i: nat)
    requires i < |lines|
    ensures Join(lines[..i + 1]) == Join(lines[..i]) + (lines[i] + [NEWLINE])
  {
    hide Join;
    assert lines[..i + 1] == lines[..i] + [lines[i]];
    JoinConcat(lines[..i], [lines[i]]);
    JoinOne(lines[i]);
  }

  lemma JoinBound(lines: seq<seq<Byte>>, i: nat)
    requires i <= |lines|
    ensures |Join(lines[..i])| <= |Join(lines)|
  {
    hide Join;
    assert lines == lines[..i] + lines[i..];
    JoinConcat(lines[..i], lines[i..]);
  }

  /** `netsnap_format`: the text, or `-ENOSPC` exactly when it does not fit with its terminator. */
  method Format(ntop: Ntop, links: seq<Link>, buf: array<Byte>) returns (ret: int)
    requires Macs(links)
    modifies buf
    ensures ret >= 0 ==> ret == |Join(Lines(ntop, links))| <= buf.Length && buf[..ret] == Join(Lines(ntop, links))
    ensures ret >= 0 && buf.Length > 0 ==> ret < buf.Length && buf[ret] == 0
    ensures ret < 0 ==> ret == -ENOSPC && |Join(Lines(ntop, links))| >= buf.Length
  {
    hide Join, Lines, LinkLines;
    if buf.Length > 0 {
      buf[0] := 0;
    }
    var i: nat, off: nat := 0, 0;
    ret := 0;
    NoText(ntop);
    while i < |links| && ret == 0
      invariant i <= |links| && off <= buf.Length && ret in {0, -ENOSPC}
      invariant ret == 0 ==> buf[..off] == Join(Lines(ntop, links[..i])) && off == |Join(Lines(ntop, links[..i]))|
      invariant ret == 0 && buf.Length > 0 ==> off < buf.Length && buf[off] == 0
      invariant ret != 0 ==> |Join(Lines(ntop, links[..i]))| >= buf.Length
    {
      LinesStep(ntop, links, i);
      ret, off := FormatLink(ntop, links[i], buf, off);
      i := i + 1;
    }
    LinesMonotone(ntop, links, i);
    assert links[..|links|] == links;
    if ret == 0 {
      ret := off;
    }
  }

  /** The lines of one link, its addresses and its routes. */
  method FormatLink(ntop: Ntop, l: Link, buf: array<Byte>, off: nat) returns (ret: int, now: nat)
    requires |l.mac| == 6 && off <= buf.Length && (buf.Length > 0 ==> off < buf.Length && buf[off] == 0)
    modifies buf
    ensures ret in {0, -ENOSPC} && now <= buf.Length
    ensures ret == 0 ==>
              buf[..now] == old(buf[..off]) + Join(LinkLines(ntop, l)) && now == off + |Join(LinkLines(ntop, l))|
    ensures ret == 0 && buf.Length > 0 ==> now < buf.Length && buf[now] == 0
    ensures ret != 0 ==> off + |Join(LinkLines(ntop, l))| >= buf.Length
  {
    hide Join, AddrLines, RouteLines, LinkRest, LineText;
    ghost var before := buf[..off];
    var first := LineText(LINK, l.pci, LinkRest(l));
    var ads, rs := AddrLines(ntop, l.pci, l.addrs), RouteLines(ntop, l.pci, l.routes);
    JoinOne(first);
    JoinConcat([first], ads);
    JoinConcat([first] + ads, rs);
    ret, now := Append(buf, off, first);
    if ret == 0 {
      ret, now := FormatLines(buf, now, ads);
      ConcatAssoc(before, Join([first]), Join(ads));
      if ret == 0 {
        ret, now := FormatLines(buf, now, rs);
        ConcatAssoc(before, Join([first]) + Join(ads), Join(rs));
      }
    }
  }

  lemma NoText(ntop: Ntop)
    ensures Join(Lines(ntop, [])) == []
  {
  }

  lemma LinesStep(ntop: Ntop, links: seq<Link>, i: nat)
    requires Macs(links) && i < |links|
    ensures Join(Lines(ntop, links[..i + 1])) == Join(Lines(ntop, links[..i])) + Join(LinkLines(ntop, links[i]))
  {
    hide Join, LinkLines;
    assert links[..i + 1][..i] == links[..i];
    JoinConcat(Lines(ntop, links[..i]), LinkLines(ntop, links[i]));
  }

  lemma {:induction false} LinesMonotone(ntop: Ntop, links: seq<Link>, i: nat)
    requires Macs(links) && i <= |links|
    ensures |Join(Lines(ntop, links[..i]))| <= |Join(Lines(ntop, links[..|links|]))|
    decreases |links| - i
  {
    hide Join, Lines;
    if i < |links| {
      LinesStep(ntop, links, i);
      LinesMonotone(ntop, links, i + 1);
    }
  }

  /**
   * Between the kernels: any identity within the limits whose text fits the sender's buffer
   * arrives as one network request, and parses as the identity that was sent.
   */
  lemma IdentityDelivered(ntop: Ntop, pton: Pton, links: seq<Link>, more: seq<Byte>, ending: int)
    requires Inverse(ntop, pton) && Good(links) && Macs(links) && |Join(Lines(ntop, links))| < Requests.TEXT_MAX
    ensures Requests.Sent(Join(Lines(ntop, links))).Some?
    ensures var stream := Requests.Sent(Join(Lines(ntop, links))).value + more;
            var r := Requests.RequestOf(stream, ending, Requests.LINE_MAX + Requests.TEXT_MAX);
            && r.Ready? && r.kind == Requests.Network && r.line + r.payload <= |stream|
            && ParseText(pton, stream[r.line..r.line + r.payload]) == Some(links)
  {
    hide Inverse, Good, Lines, Join, ParseText, Requests.RequestOf;
    Requests.SentIsReceived(Join(Lines(ntop, links)), more, ending);
    TextRoundTrip(ntop, pton, links);
  }

  // ---------------------------------------------------------------- the order routes are restored in

  /** The first `n` routes that have a gateway, or those that have none, by index. */
  function Picks(routes: seq<Route>, gateway: bool, n: nat): seq<nat>
    requires n <= |routes|
  {
    if n == 0 then []
    else Picks(routes, gateway, n - 1) + if routes[n - 1].gw.Some? == gateway then [n - 1] else []
  }

  predicate Ascending(p: seq<nat>, n: nat) {
    (forall k :: 0 <= k < |p| ==> p[k] < n) && forall k, m :: 0 <= k < m < |p| ==> p[k] < p[m]
  }

  lemma {:induction false} PicksAscend(routes: seq<Route>, gateway: bool, n: nat)
    requires n <= |routes|
    ensures Ascending(Picks(routes, gateway, n), n)
  {
    if n > 0 { PicksAscend(routes, gateway, n - 1); }
  }

  lemma {:induction false} PicksMatch(routes: seq<Route>, gateway: bool, n: nat, i: nat)
    requires n <= |routes|
    ensures i in Picks(routes, gateway, n) <==> i < n && routes[i].gw.Some? == gateway
  {
    if n > 0 { PicksMatch(routes, gateway, n - 1, i); }
  }

  lemma PicksAre(routes: seq<Route>, gateway: bool, n: nat)
    requires n <= |routes|
    ensures var p := Picks(routes, gateway, n);
            && (forall k :: 0 <= k < |p| ==> p[k] < n && routes[p[k]].gw.Some? == gateway)
            && (forall i :: 0 <= i < n && routes[i].gw.Some? == gateway ==> i in p)
            && (forall k, m :: 0 <= k < m < |p| ==> p[k] < p[m])
  {
    hide Picks;
    var p := Picks(routes, gateway, n);
    PicksAscend(routes, gateway, n);
    forall k | 0 <= k < |p| ensures p[k] < n && routes[p[k]].gw.Some? == gateway {
      PicksMatch(routes, gateway, n, p[k]);
    }
    forall i | 0 <= i < n && routes[i].gw.Some? == gateway ensures i in p { PicksMatch(routes, gateway, n, i); }
  }

  function Restored(routes: seq<Route>): seq<nat> {
    Picks(routes, false, |routes|) + Picks(routes, true, |routes|)
  }

  /** `restore_routes`: two passes; a route that cannot be restored does not stop the others. */
  method RestoreRoutes(routes: seq<Route>) returns (issued: seq<nat>)
    ensures issued == Restored(routes)
  {
    issued := [];
    var pass := 0;
    while pass < 2
      invariant 0 <= pass <= 2
      invariant issued == (if pass > 0 then Picks(routes, false, |routes|) else []) +
                          if pass > 1 then Picks(routes, true, |routes|) else []
    {
      ghost var before := issued;
      var i := 0;
      while i < |routes|
        invariant i <= |routes| && issued == before + Picks(routes, pass == 1, i)
      {
        if routes[i].gw.Some? == (pass == 1) {
          issued := issued + [i];
        }
        i := i + 1;
      }
      pass := pass + 1;
    }
  }

  /** Every route is restored exactly once, those without a gateway first, and otherwise in order. */
  lemma RestoredOrder(routes: seq<Route>)
    ensures var o := Restored(routes);
            && (forall k :: 0 <= k < |o| ==> o[k] < |routes|)
            && (forall i :: 0 <= i < |routes| ==> i in o)
            && (forall k, m :: 0 <= k < m < |o| ==> o[k] != o[m])
            && (forall k, m :: 0 <= k < m < |o| && routes[o[k]].gw.Some? ==> routes[o[m]].gw.Some?)
            && (forall k, m :: 0 <= k < m < |o| && routes[o[k]].gw.Some? == routes[o[m]].gw.Some? ==> o[k] < o[m])
  {
    hide Picks;
    PicksAre(routes, false, |routes|);
    PicksAre(routes, true, |routes|);
    var o, first := Restored(routes), Picks(routes, false, |routes|);
    forall k | 0 <= k < |o| ensures o[k] < |routes| && routes[o[k]].gw.Some? == (k >= |first|) {
      RestoredAt(routes, k);
    }
    forall k, m | 0 <= k < m < |o| && routes[o[k]].gw.Some? == routes[o[m]].gw.Some? ensures o[k] < o[m] {
      RestoredAt(routes, k);
      RestoredAt(routes, m);
    }
  }

  lemma RestoredAt(routes: seq<Route>, k: nat)
    requires k < |Restored(routes)|
    ensures var o, first, second := Restored(routes), Picks(routes, false, |routes|), Picks(routes, true, |routes|);
            && o[k] == (if k < |first| then first[k] else second[k - |first|])
            && o[k] < |routes| && routes[o[k]].gw.Some? == (k >= |first|)
  {
    hide Picks;
    PicksAre(routes, false, |routes|);
    PicksAre(routes, true, |routes|);
  }
}
