/**
 * The newc archive writer (lib/cpio.c) and the reader its layout is checked with
 * (tests/cpio_helpers.h).
 */
module Cpio {
  import opened Errno
  import opened Bytes

  const SLASH: Byte := 47
  const DIRECTORY: Word32 := 16877  // S_IFDIR | 0755
  const REGULAR: Word32 := 32768    // S_IFREG
  const MAGIC: seq<Byte> := [48, 55, 48, 55, 48, 49]  // 070701
  const TRAILER: seq<Byte> := [84, 82, 65, 73, 76, 69, 82, 33, 33, 33]  // TRAILER!!!

  // ---------------------------------------------------------------- one entry

  /** What an archive holds. */
  datatype Entry = Entry(name: seq<Byte>, mode: Word32, body: seq<Byte>)

  predicate Writable(e: Entry) {
    NoNul(e.name) && |e.name| < U32 - 1 && |e.body| < U32
  }

  /** Eight hexadecimal digits per field. */
  function Fields(f: seq<Word32>): (s: seq<Byte>)
    ensures |s| == 8 * |f|
  {
    if f == [] then [] else HexFixed(f[0], 8) + Fields(f[1..])
  }

  function FieldsOf(ino: Word32, e: Entry): (f: seq<Word32>)
    requires Writable(e)
    ensures |f| == 13
  {
    [ino, e.mode, 0, 0, 1, 0, |e.body|, 0, 0, 0, 0, |e.name| + 1, 0]
  }

  /** Header and name, up to where the body starts. */
  function Front(ino: Word32, e: Entry): (s: seq<Byte>)
    requires Writable(e)
    ensures |s| == Align4(110 + |e.name| + 1)
  {
    Padded(MAGIC + Fields(FieldsOf(ino, e)) + (e.name + [0]), 110 + |e.name| + 1)
  }

  function EntryBytes(ino: Word32, e: Entry): (s: seq<Byte>)
    requires Writable(e)
    ensures |s| % 4 == 0 && |s| > 0
  {
    Front(ino, e) + Padded(e.body, |e.body|)
  }

  predicate AllWritable(es: seq<Entry>) {
    forall i :: 0 <= i < |es| ==> Writable(es[i])
  }

  /** The inode numbers count up from one and wrap. */
  function Archive(es: seq<Entry>): seq<Byte>
    requires AllWritable(es)
  {
    if es == [] then [] else Archive(es[..|es| - 1]) + EntryBytes(|es| % U32, es[|es| - 1])
  }

  /** Every entry starts at a multiple of four. */
  lemma {:induction false} ArchiveAligned(es: seq<Entry>)
    requires AllWritable(es)
    ensures |Archive(es)| % 4 == 0
    decreases |es|
  {
    hide EntryBytes;
    if es != [] {
      ArchiveAligned(es[..|es| - 1]);
      SumOfFours(|Archive(es[..|es| - 1])|, |EntryBytes(|es| % U32, es[|es| - 1])|);
    }
  }

  lemma ArchiveGrows(es: seq<Entry>, e: Entry)
    requires AllWritable(es) && Writable(e)
    ensures AllWritable(es + [e]) && Archive(es + [e]) == Archive(es) + EntryBytes((|es| + 1) % U32, e)
  {
    hide EntryBytes, Writable;
    var all := es + [e];
    assert all[..|all| - 1] == es && all[|all| - 1] == e;
  }

  // ---------------------------------------------------------------- ancestors

  /** The prefixes of `path` that end before a slash at or after `from`, in order. */
  function Ancestors(path: seq<Byte>, from: nat): seq<seq<Byte>>
    requires from <= |path|
    decreases |path| - from
  {
    if from == |path| then []
    else if path[from] == SLASH then [path[..from]] + Ancestors(path, from + 1)
    else Ancestors(path, from + 1)
  }

  function Directories(names: seq<seq<Byte>>): (es: seq<Entry>)
    ensures |es| == |names|
  {
    seq(|names|, i requires 0 <= i < |names| => Entry(names[i], DIRECTORY, []))
  }

  function Strip(path: seq<Byte>): (r: seq<Byte>)
    ensures |r| <= |path| && (r != [] ==> r[0] != SLASH)
  {
    if path != [] && path[0] == SLASH then Strip(path[1..]) else path
  }

  /** What adding a file appends: every ancestor, then the file. */
  function Added(path: seq<Byte>, mode: Word32, body: seq<Byte>): seq<Entry> {
    var p := Strip(path);
    Directories(Ancestors(p, 0)) + [Entry(p, REGULAR + mode % 4096, body)]
  }

  /** Exactly the prefixes before a slash are ancestors, shorter ones first: a directory comes after its own parents. */
  lemma {:induction false} AncestorsComplete(path: seq<Byte>, from: nat)
    requires from <= |path|
    ensures forall k :: from <= k < |path| && path[k] == SLASH ==> path[..k] in Ancestors(path, from)
    ensures forall i :: 0 <= i < |Ancestors(path, from)| ==>
                          var k := |Ancestors(path, from)[i]|;
                          from <= k < |path| && path[k] == SLASH && Ancestors(path, from)[i] == path[..k]
    ensures forall i, j :: 0 <= i < j < |Ancestors(path, from)| ==>
                             |Ancestors(path, from)[i]| < |Ancestors(path, from)[j]|
    decreases |path| - from
  {
    if from < |path| { AncestorsComplete(path, from + 1); }
  }

  // ---------------------------------------------------------------- the writer

  /** Behind an aligned start, padding the whole is padding the part. */
  lemma PadShift(pre: seq<Byte>, s: seq<Byte>)
    requires |pre| % 4 == 0
    ensures Align4(|pre| + |s|) == |pre| + Align4(|s|)
    ensures Padded(pre + s, |pre| + |s|) == pre + Padded(s, |s|)
  {
    AlignedSum(|pre|, |s|);
    ConcatAssoc(pre, s, Zeros(Align4(|s|) - |s|));
  }

  lemma EntryParts(pre: seq<Byte>, ino: Word32, e: Entry)
    requires Writable(e)
    ensures pre + Front(ino, e) + Padded(e.body, |e.body|) == pre + EntryBytes(ino, e)
  {
    hide Front, Padded;
    ConcatAssoc(pre, Front(ino, e), Padded(e.body, |e.body|));
  }

  class Writer {
    var data: array<Byte>
    var len: nat
    var cap: nat
    var ino: Word32
    ghost var entries: seq<Entry>

    /** The recorded capacity is the buffer's, and the buffer holds the archive of what was added. */
    ghost predicate Valid()
      reads this, data
    {
      && cap == data.Length && len <= cap
      && AllWritable(entries) && ino == (|entries| + 1) % U32 && data[..len] == Archive(entries)
    }

    constructor ()
      ensures Valid() && entries == [] && fresh(data)
    {
      data := new Byte[0];
      len, cap, ino, entries := 0, 0, 1, [];
    }

    /**
     * Room for `more` bytes. When memory runs out the recorded capacity is no longer the buffer's,
     * and from then on a grant is backed by the buffer exactly when the buffer had the room
     * already or was regrown in that call.
     */
    method Reserve(more: nat) returns (ret: int)
      requires len <= data.Length <= cap
      modifies this`data, this`cap
      ensures ret in {0, -ENOMEM} && len <= data.Length <= cap && data[..len] == old(data[..len])
      ensures data == old(data) || fresh(data)
      ensures ret == 0 <==> old(len + more <= cap) || fresh(data)
      ensures old(len + more <= cap) ==> data == old(data)
      ensures ret == 0 ==> (len + more <= data.Length <==> old(len + more <= data.Length) || fresh(data))
      ensures ret == 0 ==> len + more <= cap && if fresh(data) then cap == data.Length else cap == old(cap)
      ensures ret != 0 ==> data.Length < len + more <= cap
    {
      var need := len + more;
      if need <= cap {
        return 0;
      }
      while cap < need
        invariant data == old(data) && data[..len] == old(data[..len]) && cap >= old(cap)
        decreases need - cap
      {
        cap := if cap != 0 then 2 * cap else 4096;
      }
      var granted := *;
      if !granted {
        return -ENOMEM;
      }
      var grown := new Byte[cap];
      forall i | 0 <= i < data.Length { grown[i] := data[i]; }
      data := grown;
      return 0;
    }

    /** A reserve that was refused, made again, is granted although there is still no room. */
    method ReserveTwice(more: nat) returns (first: int, second: int)
      requires len <= data.Length <= cap
      modifies this`data, this`cap
      ensures first != 0 ==> second == 0 && data.Length < len + more
      ensures first == 0 ==> second == 0
    {
      first := Reserve(more);
      second := Reserve(more);
    }

    /** Copies `s` behind what is there. */
    method Append(s: seq<Byte>)
      requires len + |s| <= data.Length
      modifies this`len, data
      ensures len == old(len) + |s| && data[..len] == old(data[..len]) + s
    {
      ghost var before := data[..];
      Put(data, len, s);
      len := len + |s|;
      assert data[..len] == data[..][..len] == before[..old(len)] + s;
    }

    /** Zeros up to the next multiple of four. */
    method Pad4()
      requires Align4(len) <= data.Length
      modifies this`len, data
      ensures len == Align4(old(len)) && data[..len] == Padded(old(data[..len]), old(len))
    {
      while len % 4 != 0
        invariant old(len) <= len <= Align4(old(len))
        invariant data[..len] == old(data[..len]) + Zeros(len - old(len))
        decreases Align4(old(len)) - len
      {
        data[len] := 0;
        len := len + 1;
      }
    }

    /** Header, name and padding. */
    method WriteFront(ino: Word32, ghost e: Entry, name: seq<Byte>, mode: Word32, size: Word32)
      requires Writable(e) && e.name == name && e.mode == mode && |e.body| == size
      requires len % 4 == 0 && len + 110 + |name| + 4 <= data.Length
      modifies this`len, data
      ensures len == old(len) + |Front(ino, e)| && data[..len] == old(data[..len]) + Front(ino, e)
    {
      hide Fields, NoNul, Padded, Align4;
      ghost var before := data[..len];
      var hdr := MAGIC + Fields([ino, mode, 0, 0, 1, 0, size, 0, 0, 0, 0, |name| + 1, 0]);
      Append(hdr);
      Append(name + [0]);
      ConcatAssoc(before, hdr, name + [0]);
      PadShift(before, hdr + (name + [0]));
      Pad4();
    }

    /** The body and padding. */
    method WriteBody(body: seq<Byte>)
      requires len % 4 == 0 && len + |body| + 3 <= data.Length
      modifies this`len, data
      ensures len == old(len) + Align4(|body|) && data[..len] == old(data[..len]) + Padded(body, |body|)
    {
      hide Padded, Align4;
      PadShift(data[..len], body);
      Append(body);
      Pad4();
    }

    method WriteEntry(ino: Word32, name: seq<Byte>, mode: Word32, body: seq<Byte>)
      requires Writable(Entry(name, mode, body)) && len % 4 == 0 && len + 110 + |name| + |body| + 9 <= data.Length
      modifies this`len, data
      ensures len <= data.Length && data[..len] == old(data[..len]) + EntryBytes(ino, Entry(name, mode, body))
    {
      hide EntryBytes, NoNul, Front, Padded;
      ghost var before := data[..len];
      ghost var e := Entry(name, mode, body);
      WriteFront(ino, e, name, mode, |body|);
      WriteBody(body);
      EntryParts(before, ino, e);
    }

    /** One entry: header, name, padding, body, padding. */
    method AddEntry(name: seq<Byte>, mode: Word32, body: seq<Byte>) returns (ret: int)
      requires Valid() && NoNul(name) && |name| < U32 - 1
      modifies this, data
      ensures ret in {0, -ENOMEM, -EFBIG} && (ret == -EFBIG <==> |body| >= U32)
      ensures ret != -ENOMEM ==> Valid()
      ensures data == old(data) || fresh(data)
      ensures entries == if ret == 0 then old(entries) + [Entry(name, mode, body)] else old(entries)
      ensures ret == -ENOMEM ==> len == old(len) <= data.Length < cap && data[..len] == old(data[..len])
    {
      hide Archive, EntryBytes, NoNul;
      ArchiveAligned(entries);
      if |body| > 0xFFFF_FFFF {
        return -EFBIG;
      }
      ret := Reserve(110 + (|name| + 1) + |body| + 8);
      if ret != 0 {
        return;
      }
      ghost var e := Entry(name, mode, body);
      WriteEntry(ino, name, mode, body);
      ArchiveGrows(entries, e);
      ino := (ino + 1) % U32;
      entries := entries + [e];
      return 0;
    }

    /** An entry for every ancestor of `p`; `n` of them were added. */
    method AddAncestors(p: seq<Byte>) returns (ret: int, ghost n: nat)
      requires Valid() && NoNul(p) && |p| < 256
      modifies this, data
      ensures ret in {0, -ENOMEM} && (data == old(data) || fresh(data))
      ensures n <= |Ancestors(p, 0)| && (ret == 0 <==> n == |Ancestors(p, 0)|)
      ensures entries == old(entries) + Directories(Ancestors(p, 0)[..n])
      ensures if ret == 0 then Valid() else len <= data.Length < cap
    {
      hide Writer.Valid, NoNul, Archive, Directories, Ancestors, FirstSlash;
      ghost var dirs := Ancestors(p, 0);
      n := 0;
      var i := StrChr(p, 0);
      SkipToSlash(p, 0);
      while i < |p|
        invariant Valid() && (data == old(data) || fresh(data))
        invariant i <= |p| && n <= |dirs| && dirs[n..] == Ancestors(p, i) && (i < |p| ==> p[i] == SLASH)
        invariant entries == old(entries) + Directories(dirs[..n])
        decreases |p| - i
      {
        NextDirectory(p, dirs, n, i);
        PrefixNul(p, i);
        ret := AddEntry(p[..i], DIRECTORY, []);
        if ret != 0 {
          return;
        }
        n := n + 1;
        SkipToSlash(p, i + 1);
        i := StrChr(p, i + 1);
      }
      NoAncestors(p);
      return 0, n;
    }

    /** A file behind all its ancestors. */
    method AddFile(path: seq<Byte>, mode: Word32, body: seq<Byte>) returns (ret: int)
      requires Valid() && NoNul(path)
      modifies this, data
      ensures ret in {0, -EINVAL, -ENOMEM, -EFBIG} && (data == old(data) || fresh(data))
      ensures ret == -EINVAL <==> !(0 < |Strip(path)| < 256)
      ensures ret == 0 ==> entries == old(entries) + Added(path, mode, body)
      ensures ret == -EINVAL ==> entries == old(entries)
      ensures ret == -EFBIG ==> |body| >= U32 && entries == old(entries) + Directories(Ancestors(Strip(path), 0))
      ensures ret == -ENOMEM ==> old(entries) <= entries < old(entries) + Added(path, mode, body)
      ensures if ret == -ENOMEM then len <= data.Length < cap else Valid()
    {
      hide Writer.Valid, NoNul, Archive, Directories, Ancestors, Strip;
      StripNul(path);
      var p := Strip(path);
      if p == [] || |p| >= 256 {
        return -EINVAL;
      }
      ghost var n;
      ret, n := AddAncestors(p);
      ghost var dirs, file := Ancestors(p, 0), Entry(p, REGULAR + mode % 4096, body);
      AddedPrefix(old(entries), dirs, n, file);
      if ret != 0 {
        return;
      }
      assert dirs[..n] == dirs;
      ret := AddEntry(p, REGULAR + mode % 4096, body);
    }

    /** The trailer. */
    method Finish() returns (ret: int)
      requires Valid()
      modifies this, data
      ensures ret in {0, -ENOMEM}
      ensures ret == 0 ==> Valid() && entries == old(entries) + [Entry(TRAILER, 0, [])]
    {
      ret := AddEntry(TRAILER, 0, []);
    }
  }

  lemma AddedPrefix(es: seq<Entry>, dirs: seq<seq<Byte>>, n: nat, file: Entry)
    requires n <= |dirs|
    ensures es <= es + Directories(dirs[..n]) < es + (Directories(dirs) + [file])
    ensures es + Directories(dirs) + [file] == es + (Directories(dirs) + [file])
  {
  }

  /** The next slash at or after `from`, or the end. */
  method StrChr(s: seq<Byte>, from: nat) returns (p: nat)
    requires from <= |s|
    ensures p == FirstSlash(s, from)
  {
    p := from;
    while p < |s| && s[p] != SLASH
      invariant from <= p <= |s| && FirstSlash(s, from) == FirstSlash(s, p)
    {
      p := p + 1;
    }
  }

  function FirstSlash(s: seq<Byte>, from: nat): (p: nat)
    requires from <= |s|
    ensures from <= p <= |s| && (p < |s| ==> s[p] == SLASH) && forall i :: from <= i < p ==> s[i] != SLASH
    decreases |s| - from
  {
    if from == |s| || s[from] == SLASH then from else FirstSlash(s, from + 1)
  }

  lemma {:induction false} SkipToSlash(s: seq<Byte>, from: nat)
    requires from <= |s|
    ensures Ancestors(s, from) == Ancestors(s, FirstSlash(s, from))
    decreases |s| - from
  {
    if from < |s| && s[from] != SLASH { SkipToSlash(s, from + 1); }
  }

  lemma NoAncestors(s: seq<Byte>)
    ensures Ancestors(s, |s|) == []
  {
  }

  lemma NextDirectory(p: seq<Byte>, dirs: seq<seq<Byte>>, n: nat, i: nat)
    requires i < |p| && p[i] == SLASH && n <= |dirs| && dirs[n..] == Ancestors(p, i)
    ensures n < |dirs| && dirs[n] == p[..i] && dirs[n + 1..] == Ancestors(p, i + 1)
    ensures Directories(dirs[..n + 1]) == Directories(dirs[..n]) + [Entry(p[..i], DIRECTORY, [])]
  {
    assert dirs[n..] == [p[..i]] + Ancestors(p, i + 1);
    assert dirs[n] == dirs[n..][0] && dirs[n + 1..] == dirs[n..][1..];
  }

  lemma {:induction false} StripNul(path: seq<Byte>)
    requires NoNul(path)
    ensures NoNul(Strip(path))
    decreases |path|
  {
    if path != [] && path[0] == SLASH {
      assert NoNul(path[1..]);
      StripNul(path[1..]);
    }
  }

  lemma PrefixNul(s: seq<Byte>, n: nat)
    requires NoNul(s) && n <= |s|
    ensures NoNul(s[..n])
  {
  }

  // ---------------------------------------------------------------- reading back

  /** One hexadecimal header field. */
  function Field(buf: seq<Byte>, off: nat, index: nat): nat
    requires off + 110 <= |buf| && index < 13
  {
    var s := buf[off + 6 + 8 * index..off + 6 + 8 * index + 8];
    ValueOf(s[..DigitRun(s, 16)], 16)
  }

  datatype Read = Malformed | Found(e: Entry, next: nat)

  /** `cpio_next`: the entry at `off` and where the one after it starts. */
  function Next(buf: seq<Byte>, off: nat): (r: Read)
    ensures r.Found? ==> off + 110 <= |buf| && r.next > off
  {
    if off + 110 > |buf| || buf[off..off + 6] != MAGIC then Malformed
    else
      var filesize, namesize := Field(buf, off, 6), Field(buf, off, 11);
      var dataOff := Align4(off + 110 + namesize);
      if namesize == 0 || namesize >= 256 || dataOff + filesize > |buf| then Malformed
      else
        var name := buf[off + 110..off + 110 + namesize];
        Found(Entry(name[..NulAt(name, 0)], Field(buf, off, 1) % U32, buf[dataOff..dataOff + filesize]),
              Align4(dataOff + filesize))
  }

  datatype Listing = Broken | Listing(entries: seq<Entry>, end: nat)

  /** Entries from `off` up to the trailer, and where the archive ends. */
  function List(buf: seq<Byte>, off: nat): Listing
    decreases |buf| - off
  {
    match Next(buf, off)
    case Malformed => Broken
    case Found(e, next) =>
      if e.name == TRAILER then Listing([], next)
      else
        match List(buf, next)
        case Broken => Broken
        case Listing(es, end) => Listing([e] + es, end)
  }

  lemma {:induction false} FieldsAt(f: seq<Word32>, i: nat)
    requires i < |f|
    ensures Fields(f)[8 * i..8 * i + 8] == HexFixed(f[i], 8)
    decreases |f|
  {
    hide HexFixed;
    if i == 0 {
      assert Fields(f)[..8] == HexFixed(f[0], 8);
    } else {
      FieldsAt(f[1..], i - 1);
      Later(HexFixed(f[0], 8), Fields(f[1..]), 8 * (i - 1), 8 * (i - 1) + 8);
    }
  }

  lemma Later(a: seq<Byte>, b: seq<Byte>, lo: nat, hi: nat)
    requires lo <= hi <= |b|
    ensures (a + b)[|a| + lo..|a| + hi] == b[lo..hi]
  {
  }

  lemma Within(a: seq<Byte>, b: seq<Byte>, c: seq<Byte>, lo: nat, hi: nat)
    requires lo <= hi <= |b|
    ensures (a + b + c)[|a| + lo..|a| + hi] == b[lo..hi]
  {
  }

  lemma HexRead(n: Word32)
    ensures var s := HexFixed(n, 8); ValueOf(s[..DigitRun(s, 16)], 16) == n
  {
    Pow16Eight();
    HexFixedValue(n, 8);
    var s := HexFixed(n, 8);
    hide HexFixed, ValueOf, DigitRun, IsDigit;
    DigitRunOf(s, [], 16);
    assert s + [] == s && s[..8] == s;
  }

  lemma FieldRead(pre: seq<Byte>, f: seq<Word32>, post: seq<Byte>, i: nat)
    requires |f| == 13 && i < 13
    ensures Field(pre + (MAGIC + Fields(f)) + post, |pre|, i) == f[i]
  {
    hide Fields, HexFixed, ValueOf, DigitRun;
    FieldsAt(f, i);
    Later(MAGIC, Fields(f), 8 * i, 8 * i + 8);
    Within(pre, MAGIC + Fields(f), post, 6 + 8 * i, 6 + 8 * i + 8);
    HexRead(f[i]);
  }

  lemma MagicRead(pre: seq<Byte>, f: seq<Word32>, post: seq<Byte>)
    ensures (pre + (MAGIC + Fields(f)) + post)[|pre|..|pre| + 6] == MAGIC
  {
    hide Fields;
    Within(pre, MAGIC + Fields(f), post, 0, 6);
    assert (MAGIC + Fields(f))[..6] == MAGIC;
  }

  lemma NameRead(name: seq<Byte>)
    requires NoNul(name)
    ensures var s := name + [0]; s[..NulAt(s, 0)] == name
  {
    var s := name + [0];
    assert forall i :: 0 <= i < |name| ==> s[i] == name[i] != 0;
    assert s[|name|] == 0;
  }

  /** Where the parts of an entry lie in a buffer around it. */
  lemma EntryLies(pre: seq<Byte>, ino: Word32, e: Entry, post: seq<Byte>)
    requires |pre| % 4 == 0 && Writable(e)
    ensures var st, f := pre + EntryBytes(ino, e) + post, FieldsOf(ino, e);
            var at, start := |pre| + 110, Align4(|pre| + 110 + |e.name| + 1);
            && |pre| + |EntryBytes(ino, e)| == Align4(start + |e.body|) <= |st| && start + |e.body| <= |st|
            && at + |e.name| + 1 <= |st|
            && st[|pre|..|pre| + 6] == MAGIC && st[at..at + |e.name| + 1] == e.name + [0]
            && Field(st, |pre|, 1) == f[1] && Field(st, |pre|, 6) == f[6] && Field(st, |pre|, 11) == f[11]
            && st[start..start + |e.body|] == e.body
  {
    hide EntryBytes, Fields, Field, NoNul, Align4, Padded;
    var f := FieldsOf(ino, e);
    var h, n, z := MAGIC + Fields(f), e.name + [0], Zeros(Align4(110 + |e.name| + 1) - 110 - |e.name| - 1);
    var y := Zeros(Align4(|e.body|) - |e.body|);
    EntryShape(ino, e);
    AlignedSum(|pre|, 110 + |e.name| + 1);
    AlignedSum(|pre| + Align4(110 + |e.name| + 1), |e.body|);
    var rest := n + (z + ((e.body + y) + post));
    Lies(pre, h, n, z, e.body, y, post);
    hide FieldsOf;
    MagicRead(pre, f, rest);
    FieldRead(pre, f, rest, 1);
    FieldRead(pre, f, rest, 6);
    FieldRead(pre, f, rest, 11);
  }

  lemma EntryShape(ino: Word32, e: Entry)
    requires Writable(e)
    ensures var z, y := Zeros(Align4(110 + |e.name| + 1) - 110 - |e.name| - 1), Zeros(Align4(|e.body|) - |e.body|);
            EntryBytes(ino, e) == (MAGIC + Fields(FieldsOf(ino, e)) + (e.name + [0]) + z) + (e.body + y)
  {
    hide Fields, FieldsOf, Align4, NoNul;
  }

  lemma Lies(pre: seq<Byte>, h: seq<Byte>, n: seq<Byte>, z: seq<Byte>, b: seq<Byte>, y: seq<Byte>, post: seq<Byte>)
    ensures var st, at := pre + ((h + n + z) + (b + y)) + post, |pre| + |h|;
            && st == pre + h + (n + (z + ((b + y) + post)))
            && st[at..at + |n|] == n
            && st[at + |n| + |z|..at + |n| + |z| + |b|] == b
  {
    var rest := (b + y) + post;
    Assoc(pre, h + n + z, b + y, post);
    Assoc(pre, h + n, z, rest);
    Assoc(pre, h, n, z + rest);
    Middle(pre + h, n, z + rest);
    Assoc(pre + (h + n + z), b, y, post);
    Middle(pre + (h + n + z), b, y + post);
  }

  /** The reader finds the entry, unless its name fills the 256 bytes it keeps for one. */
  lemma EntryRead(pre: seq<Byte>, ino: Word32, e: Entry, post: seq<Byte>)
    requires |pre| % 4 == 0 && Writable(e)
    ensures Next(pre + EntryBytes(ino, e) + post, |pre|) ==
            if |e.name| <= 254 then Found(e, |pre| + |EntryBytes(ino, e)|) else Malformed
  {
    hide EntryBytes, Field, NulAt, NoNul, Align4;
    EntryLies(pre, ino, e, post);
    NameRead(e.name);
  }

  // ---------------------------------------------------------------- whole archives

  predicate Listable(es: seq<Entry>) {
    forall i :: 0 <= i < |es| ==> |es[i].name| <= 254 && es[i].name != TRAILER
  }

  lemma {:induction false} ListFrom(es: seq<Entry>, i: nat)
    requires AllWritable(es) && i < |es| && Listable(es[..|es| - 1]) && es[|es| - 1] == Entry(TRAILER, 0, [])
    ensures List(Archive(es), |Archive(es[..i])|) == Listing(es[i..|es| - 1], |Archive(es)|)
    decreases |es| - i
  {
    hide EntryBytes, Next, Archive;
    ArchiveSplit(es, i);
    ArchiveAligned(es[..i]);
    EntryRead(Archive(es[..i]), (i + 1) % U32, es[i], Tail(es, i + 1));
    if i + 1 < |es| {
      ListFrom(es, i + 1);
      assert es[i..|es| - 1] == [es[i]] + es[i + 1..|es| - 1];
      assert es[i] == es[..|es| - 1][i];
    } else {
      assert es[..i + 1] == es;
    }
  }

  /** The bytes from entry `i` on. */
  function Tail(es: seq<Entry>, i: nat): seq<Byte>
    requires AllWritable(es) && i <= |es|
    decreases |es| - i
  {
    if i == |es| then [] else EntryBytes((i + 1) % U32, es[i]) + Tail(es, i + 1)
  }

  lemma {:induction false} ArchiveTail(es: seq<Entry>, i: nat)
    requires AllWritable(es) && i <= |es|
    ensures Archive(es) == Archive(es[..i]) + Tail(es, i)
    decreases |es| - i
  {
    hide EntryBytes;
    if i == |es| {
      assert es[..i] == es;
      assert Archive(es) + [] == Archive(es);
    } else {
      ArchiveTail(es, i + 1);
      ArchiveGrows(es[..i], es[i]);
      assert es[..i + 1] == es[..i] + [es[i]];
      hide Archive;
      ConcatAssoc(Archive(es[..i]), EntryBytes((i + 1) % U32, es[i]), Tail(es, i + 1));
    }
  }

  lemma ArchiveSplit(es: seq<Entry>, i: nat)
    requires AllWritable(es) && i < |es|
    ensures Archive(es) == Archive(es[..i]) + EntryBytes((i + 1) % U32, es[i]) + Tail(es, i + 1)
    ensures |Archive(es[..i + 1])| == |Archive(es[..i])| + |EntryBytes((i + 1) % U32, es[i])|
  {
    hide EntryBytes, Archive, Tail;
    ArchiveTail(es, i + 1);
    ArchiveGrows(es[..i], es[i]);
    assert es[..i + 1] == es[..i] + [es[i]];
  }

  /**
   * A finished archive lists back as exactly what was added, in order, names, modes and bodies
   * included, and ends exactly at its last byte.
   */
  lemma ArchiveRoundTrip(es: seq<Entry>)
    requires AllWritable(es) && Listable(es)
    ensures var all := es + [Entry(TRAILER, 0, [])];
            AllWritable(all) && List(Archive(all), 0) == Listing(es, |Archive(all)|)
  {
    hide Archive, List;
    var all := es + [Entry(TRAILER, 0, [])];
    assert all[..|all| - 1] == es && all[..0] == [];
    ListFrom(all, 0);
    assert |Archive([])| == 0 by { NothingArchived(); }
    assert all[0..|all| - 1] == es;
  }

  lemma NothingArchived()
    ensures Archive([]) == []
  {
  }

  // ---------------------------------------------------------------- whole trees of files

  datatype Source = Source(path: seq<Byte>, mode: Word32, body: seq<Byte>)

  /** What adding the files one after another appends. */
  function AllAdded(files: seq<Source>): seq<Entry> {
    if files == [] then []
    else
      var f := files[|files| - 1];
      AllAdded(files[..|files| - 1]) + Added(f.path, f.mode, f.body)
  }

  /** A file the writer takes and the reader can name, not mistaken for the end at any level. */
  predicate Sensible(f: Source) {
    var p := Strip(f.path);
    && NoNul(f.path) && 1 <= |p| <= 254 && |f.body| < U32
    && p != TRAILER && TRAILER !in Ancestors(p, 0)
  }

  lemma AddedSensible(f: Source)
    requires Sensible(f)
    ensures AllWritable(Added(f.path, f.mode, f.body)) && Listable(Added(f.path, f.mode, f.body))
  {
    hide NoNul, Strip, Ancestors;
    var p := Strip(f.path);
    var es, dirs := Added(f.path, f.mode, f.body), Ancestors(p, 0);
    StripNul(f.path);
    AncestorsComplete(p, 0);
    forall i | 0 <= i < |es| ensures Writable(es[i]) && |es[i].name| <= 254 && es[i].name != TRAILER {
      if i < |dirs| {
        assert es[i].name == dirs[i] == p[..|dirs[i]|];
        PrefixNul(p, |dirs[i]|);
        assert dirs[i] in dirs;
      }
    }
  }

  lemma {:induction false} AllSensible(files: seq<Source>)
    requires forall i :: 0 <= i < |files| ==> Sensible(files[i])
    ensures AllWritable(AllAdded(files)) && Listable(AllAdded(files))
    decreases |files|
  {
    hide Sensible, Writable, Added;
    if files != [] {
      var f := files[|files| - 1];
      AllSensible(files[..|files| - 1]);
      AddedSensible(f);
    }
  }

  /** Files added one after another list back as each file's ancestors and then the file, in order. */
  lemma FilesRoundTrip(files: seq<Source>)
    requires forall i :: 0 <= i < |files| ==> Sensible(files[i])
    ensures var all := AllAdded(files) + [Entry(TRAILER, 0, [])];
            AllWritable(all) && List(Archive(all), 0) == Listing(AllAdded(files), |Archive(all)|)
  {
    hide AllWritable, Listable, Sensible, Archive, List, AllAdded;
    AllSensible(files);
    ArchiveRoundTrip(AllAdded(files));
  }
}
