/** The TLV attribute codec: an appender over a fixed buffer, an attribute
    iterator, and a search for the first attribute of a type. */
module Netlink {
  import opened Bytes

  const NLA_HDRLEN := 4
  const NLMSG_HDRLEN := 16
  const GENL_HDRLEN := 4
  const MSG_HDRLEN := NLMSG_HDRLEN + GENL_HDRLEN
  const MAX_PAYLOAD := 65531

  datatype Attr = Attr(typ: u16, payload: seq<byte>)

  function Align4(n: nat): (r: nat)
    ensures n <= r < n + 4 && r % 4 == 0
  {
    (n + 3) / 4 * 4
  }

  // ----- wire form of an attribute list

  /** The stored length is 16 bits wide: longer attributes wrap. */
  function AttrHeader(typ: u16, len: nat): (s: seq<byte>)
    ensures |s| == 4
  {
    Le16((NLA_HDRLEN + len) % 0x1_0000) + Le16(typ)
  }

  function EncodeAttr(a: Attr): (s: seq<byte>)
    ensures |s| == NLA_HDRLEN + Align4(|a.payload|)
  {
    AttrHeader(a.typ, |a.payload|) + a.payload + Zeros(Align4(|a.payload|) - |a.payload|)
  }

  function EncodeAttrs(attrs: seq<Attr>): seq<byte> {
    if attrs == [] then [] else EncodeAttr(attrs[0]) + EncodeAttrs(attrs[1..])
  }

  lemma EncodeAttrsCons(a: Attr, rest: seq<Attr>, all: seq<Attr>)
    requires all == [a] + rest
    ensures EncodeAttrs(all) == EncodeAttr(a) + EncodeAttrs(rest)
  {
    assert all[1..] == rest;
  }

  lemma Assoc(x: seq<byte>, y: seq<byte>, z: seq<byte>)
    ensures x + y + z == x + (y + z)
  {
  }

  lemma {:induction false} EncodeAttrsAppend(attrs: seq<Attr>, a: Attr)
    ensures EncodeAttrs(attrs + [a]) == EncodeAttrs(attrs) + EncodeAttr(a)
  {
    if attrs == [] {
      EncodeAttrsCons(a, [], attrs + [a]);
      assert EncodeAttr(a) + [] == EncodeAttr(a);
    } else {
      EncodeAttrsAppend(attrs[1..], a);
      EncodeAttrsCons(attrs[0], attrs[1..] + [a], attrs + [a]);
      Assoc(EncodeAttr(attrs[0]), EncodeAttrs(attrs[1..]), EncodeAttr(a));
    }
  }

  // ----- what a walk over received bytes yields

  predicate AttrInside(s: seq<byte>, i: nat, end: nat) {
    && i + NLA_HDRLEN <= end <= |s|
    && NLA_HDRLEN <= Get16(s, i)
    && i + Get16(s, i) <= end
  }

  function AttrAt(s: seq<byte>, i: nat): Attr
    requires AttrInside(s, i, |s|)
  {
    Attr(Get16(s, i + 2), s[i + NLA_HDRLEN..i + Get16(s, i)])
  }

  /** The attributes the iterator yields on `s[i..end]`, in order: it stops at
      the first header that is cut short or claims an impossible length, and
      tolerates missing padding after the last attribute. */
  function Walk(s: seq<byte>, i: nat, end: nat): seq<Attr>
    requires i <= end <= |s|
    decreases end - i
  {
    if !AttrInside(s, i, end) then []
    else [AttrAt(s, i)] + Walk(s, MinNat(i + Align4(Get16(s, i)), end), end)
  }

  /** Plain list search, the reference for `NlaFind`. */
  function FirstOfType(attrs: seq<Attr>, typ: u16): Option<Attr> {
    if attrs == [] then None
    else if attrs[0].typ == typ then Some(attrs[0])
    else FirstOfType(attrs[1..], typ)
  }

  lemma FirstOfTypeCons(a: Attr, rest: seq<Attr>, all: seq<Attr>, typ: u16)
    requires all == [a] + rest
    ensures FirstOfType(all, typ) == if a.typ == typ then Some(a) else FirstOfType(rest, typ)
  {
    assert all[1..] == rest;
  }

  lemma EncodedHeader(a: Attr)
    ensures var s := EncodeAttr(a);
            && Get16(s, 0) == (NLA_HDRLEN + |a.payload|) % 0x1_0000
            && Get16(s, 2) == a.typ
            && s[NLA_HDRLEN..NLA_HDRLEN + |a.payload|] == a.payload
            && forall k :: NLA_HDRLEN + |a.payload| <= k < |s| ==> s[k] == 0
  {
    var s := EncodeAttr(a);
    assert s[..2] == Le16((NLA_HDRLEN + |a.payload|) % 0x1_0000);
    assert s[2..4] == Le16(a.typ);
  }

  ghost predicate Holds(s: seq<byte>, i: nat, t: seq<byte>) {
    i + |t| <= |s| && s[i..i + |t|] == t
  }

  lemma HeadAt(s: seq<byte>, i: nat, a: Attr)
    requires Holds(s, i, EncodeAttr(a)) && |a.payload| <= MAX_PAYLOAD
    ensures AttrInside(s, i, |s|) && AttrAt(s, i) == a
    ensures Get16(s, i) == NLA_HDRLEN + |a.payload|
  {
    var t := EncodeAttr(a);
    EncodedHeader(a);
    HeldSlice(s, i, t, 0, 2);
    HeldSlice(s, i, t, 2, 4);
    HeldSlice(s, i, t, NLA_HDRLEN, NLA_HDRLEN + |a.payload|);
  }

  lemma HeldSlice(s: seq<byte>, i: nat, t: seq<byte>, lo: nat, hi: nat)
    requires Holds(s, i, t) && lo <= hi <= |t|
    ensures s[i + lo..i + hi] == t[lo..hi]
    ensures hi == lo + 2 ==> Get16(s, i + lo) == Get16(t, lo)
  {
    assert forall k :: 0 <= k < |t| ==> s[i + k] == s[i..i + |t|][k] == t[k];
    if hi == lo + 2 {
      assert s[i + lo..i + hi][0] == t[lo..hi][0] && s[i + lo..i + hi][1] == t[lo..hi][1];
    }
  }

  lemma WalkHead(s: seq<byte>, i: nat, a: Attr, j: nat)
    requires Holds(s, i, EncodeAttr(a)) && |a.payload| <= MAX_PAYLOAD
    requires j == i + |EncodeAttr(a)|
    ensures Walk(s, i, |s|) == [a] + Walk(s, j, |s|)
  {
    HeadAt(s, i, a);
    WalkStep(s, i, |s|, NLA_HDRLEN + |a.payload|, j);
  }

  lemma WalkStep(s: seq<byte>, i: nat, end: nat, len: nat, j: nat)
    requires AttrInside(s, i, end) && Get16(s, i) == len && j == i + Align4(len) <= end
    ensures Walk(s, i, end) == [AttrAt(s, i)] + Walk(s, j, end)
  {
  }

  /** An over-long attribute is not read back: its stored length wrapped. */
  lemma WalkHeadTooLong(s: seq<byte>, i: nat, a: Attr)
    requires Holds(s, i, EncodeAttr(a)) && |a.payload| > MAX_PAYLOAD
    ensures var w := Walk(s, i, |s|); w == [] || w[0] != a
  {
    if AttrInside(s, i, |s|) {
      assert |AttrAt(s, i).payload| < 0x1_0000 - NLA_HDRLEN;
    }
  }

  predicate AllFit(attrs: seq<Attr>) {
    forall i :: 0 <= i < |attrs| ==> |attrs[i].payload| <= MAX_PAYLOAD
  }

  /** Walking the built bytes yields exactly the attributes that were put,
      for precisely the lists whose payloads all fit a 16-bit length. */
  lemma {:induction false} WalkEncodeAttrs(s: seq<byte>, i: nat, attrs: seq<Attr>)
    requires i <= |s| && s[i..] == EncodeAttrs(attrs)
    ensures Walk(s, i, |s|) == attrs <==> AllFit(attrs)
    decreases attrs
  {
    if attrs != [] {
      var a, rest := attrs[0], attrs[1..];
      var j := i + |EncodeAttr(a)|;
      TailHolds(s, i, EncodeAttr(a), EncodeAttrs(rest));
      if |a.payload| <= MAX_PAYLOAD {
        var w := Walk(s, j, |s|);
        assert Walk(s, i, |s|) == [a] + w by { WalkHead(s, i, a, j); }
        WalkEncodeAttrs(s, j, rest);
        WalkCons(attrs, w);
      } else {
        WalkHeadTooLong(s, i, a);
        assert !AllFit(attrs) && Walk(s, i, |s|) != attrs;
      }
    }
  }

  lemma TailHolds(s: seq<byte>, i: nat, head: seq<byte>, tail: seq<byte>)
    requires i <= |s| && s[i..] == head + tail
    ensures Holds(s, i, head) && s[i + |head|..] == tail
  {
    assert s[i..i + |head|] == s[i..][..|head|];
    assert s[i + |head|..] == s[i..][|head|..];
  }

  lemma WalkCons(attrs: seq<Attr>, w: seq<Attr>)
    requires attrs != [] && |attrs[0].payload| <= MAX_PAYLOAD
    requires w == attrs[1..] <==> AllFit(attrs[1..])
    ensures [attrs[0]] + w == attrs <==> AllFit(attrs)
  {
    assert ([attrs[0]] + w)[1..] == w;
    assert attrs == [attrs[0]] + attrs[1..];
  }

  // ----- nla_iter

  class NlaIter {
    const data: seq<byte>
    var base: nat
    var remaining: nat
    var cur: nat

    ghost predicate Valid() reads this {
      base + remaining <= |data|
    }

    /** The attributes not yet yielded. */
    ghost function Left(): seq<Attr>
      requires Valid()
      reads this
    {
      Walk(data, base, base + remaining)
    }

    constructor (data: seq<byte>, start: nat, len: nat)
      requires start + len <= |data|
      ensures Valid() && this.data == data && base == start && remaining == len
    {
      this.data, base, remaining, cur := data, start, len, 0;
    }

    /** Yields the next attribute of the walk; every step consumes at least
        a header, and the end of the window stays where it was. */
    method Next() returns (ok: bool)
      requires Valid()
      modifies this
      ensures Valid() && base + remaining == old(base + remaining)
      ensures ok <==> old(Left()) != []
      ensures ok ==> cur == old(base) && AttrInside(data, cur, old(base + remaining))
      ensures ok ==> old(Left()) == [AttrAt(data, cur)] + Left()
      ensures ok ==> remaining + NLA_HDRLEN <= old(remaining)
      ensures !ok ==> base == old(base) && remaining == old(remaining)
    {
      if remaining < NLA_HDRLEN {
        return false;
      }
      cur := base;
      var n := Get16(data, cur);
      if n < NLA_HDRLEN || n > remaining {
        return false;
      }
      var aligned := Align4(n);
      if aligned > remaining {
        aligned := remaining;
      }
      base := base + aligned;
      remaining := remaining - aligned;
      return true;
    }
  }

  /** Offset of the first attribute of type `typ`, or -1. */
  method NlaFind(data: seq<byte>, start: nat, len: nat, typ: u16) returns (at: int)
    requires start + len <= |data|
    ensures at < 0 ==> FirstOfType(Walk(data, start, start + len), typ) == None
    ensures at >= 0 ==> AttrInside(data, at, start + len)
    ensures at >= 0 ==> FirstOfType(Walk(data, start, start + len), typ) == Some(AttrAt(data, at))
  {
    var it := new NlaIter(data, start, len);
    ghost var left := Walk(data, start, start + len);
    ghost var want := FirstOfType(left, typ);
    while true
      invariant it.Valid() && it.data == data && it.base + it.remaining == start + len
      invariant left == it.Left() && want == FirstOfType(left, typ)
      decreases it.remaining
    {
      var more := it.Next();
      if !more {
        return -1;
      }
      ghost var a, rest := AttrAt(data, it.cur), it.Left();
      FirstOfTypeCons(a, rest, left, typ);
      left := rest;
      if Get16(data, it.cur + 2) == typ {
        return it.cur;
      }
    }
  }

  // ----- nlbuf

  /** The 20 bytes that nlbuf_init lays down. */
  function Header(len: u32, typ: u16, flags: u16, seqno: u32, cmd: byte): (s: seq<byte>)
    ensures |s| == MSG_HDRLEN && Get32(s, 0) == len && Get16(s, 4) == typ && Get16(s, 6) == flags
  {
    var s := Le32(len) + Le16(typ) + Le16(flags) + Le32(seqno) + Le32(0) + [cmd, 1, 0, 0];
    assert Get32(s, 0) == Get32(s[..4], 0) && s[..4] == Le32(len);
    assert Get16(s, 4) == Get16(s[4..6], 0) && s[4..6] == Le16(typ);
    assert Get16(s, 6) == Get16(s[6..8], 0) && s[6..8] == Le16(flags);
    s
  }

  /** The layout of both headers at the front of some bytes: RFC 3549, section
      2.2, then the generic netlink command, version 1 and two zero bytes. */
  predicate HeaderAt(s: seq<byte>, len: u32, typ: u16, flags: u16, seqno: u32, cmd: byte) {
    && |s| >= 20
    && Get32(s, 0) == len && Get16(s, 4) == typ && Get16(s, 6) == flags
    && Get32(s, 8) == seqno && Get32(s, 12) == 0
    && s[16] == cmd && s[17] == 1 && s[18] == 0 && s[19] == 0
  }

  lemma HeaderLayout(len: u32, typ: u16, flags: u16, seqno: u32, cmd: byte)
    ensures HeaderAt(Header(len, typ, flags, seqno, cmd), len, typ, flags, seqno, cmd)
  {
    var s := Header(len, typ, flags, seqno, cmd);
    assert s[8..12] == Le32(seqno) && s[12..16] == Le32(0);
    assert Get32(s, 8) == Get32(s[8..12], 0) && Get32(s, 12) == Get32(s[12..16], 0);
    assert s[16..20] == [cmd, 1, 0, 0];
    assert s[16..20][0] == s[16] && s[16..20][1] == s[17] && s[16..20][2] == s[18] && s[16..20][3] == s[19];
  }

  lemma HeaderOfPrefix(h: seq<byte>, s: seq<byte>, len: u32, typ: u16, flags: u16, seqno: u32, cmd: byte)
    requires HeaderAt(h, len, typ, flags, seqno, cmd) && |h| <= |s| && s[..|h|] == h
    ensures HeaderAt(s, len, typ, flags, seqno, cmd)
  {
    assert forall k :: 0 <= k < |h| ==> s[k] == s[..|h|][k] == h[k];
  }

  /** `s` with the bytes from `at` on overwritten by `t`. */
  function Splice(s: seq<byte>, at: nat, t: seq<byte>): (r: seq<byte>)
    requires at + |t| <= |s|
    ensures |r| == |s|
    ensures r[..at + |t|] == s[..at] + t && r[at + |t|..] == s[at + |t|..]
  {
    s[..at] + t + s[at + |t|..]
  }

  lemma SpliceTwice(s: seq<byte>, at: nat, t: seq<byte>, u: seq<byte>)
    requires at + |t| + |u| <= |s|
    ensures Splice(Splice(s, at, t), at + |t|, u) == Splice(s, at, t + u)
  {
  }

  /** What a write at the offset leaves before and behind the new offset. */
  lemma Appended(was: seq<byte>, now: seq<byte>, initial: seq<byte>, at: nat, t: seq<byte>)
    requires at + |t| <= |was| == |initial| && now == Splice(was, at, t) && was[at..] == initial[at..]
    ensures now[..at + |t|] == was[..at] + t && now[at + |t|..] == initial[at + |t|..]
  {
    assert was[at..][|t|..] == was[at + |t|..] && initial[at..][|t|..] == initial[at + |t|..];
  }

  method Store(a: array<byte>, at: nat, t: seq<byte>)
    requires at + |t| <= a.Length
    modifies a
    ensures a[..] == Splice(old(a[..]), at, t)
  {
    forall i | 0 <= i < |t| {
      a[at + i] := t[i];
    }
  }

  /** Header, payload and zeroed padding of one attribute, written in place. */
  method StoreAttr(a: array<byte>, at: nat, attr: Attr)
    requires at + NLA_HDRLEN + Align4(|attr.payload|) <= a.Length
    modifies a
    ensures a[..] == Splice(old(a[..]), at, EncodeAttr(attr))
  {
    var len := |attr.payload|;
    var head, pad := AttrHeader(attr.typ, len), Zeros(Align4(len) - len);
    ghost var before := a[..];
    Store(a, at, head);
    if len != 0 {
      Store(a, at + NLA_HDRLEN, attr.payload);
    }
    ghost var t := head + attr.payload;
    SpliceTwice(before, at, head, attr.payload);
    assert a[..] == Splice(before, at, t);
    if |pad| != 0 {
      Store(a, at + NLA_HDRLEN + len, pad);
    }
    SpliceTwice(before, at, t, pad);
  }

  /** A finished message: header stamped with its own length, then attributes. */
  function Message(typ: u16, cmd: byte, flags: u16, seqno: u32, attrs: seq<Attr>): (s: seq<byte>)
    ensures |s| == MSG_HDRLEN + |EncodeAttrs(attrs)|
  {
    var body := EncodeAttrs(attrs);
    Header((MSG_HDRLEN + |body|) % 0x1_0000_0000, typ, flags, seqno, cmd) + body
  }

  lemma MessageFields(m: seq<byte>, typ: u16, cmd: byte, flags: u16, seqno: u32, attrs: seq<Attr>)
    requires m == Message(typ, cmd, flags, seqno, attrs) && |m| < 0x1_0000_0000
    ensures Get32(m, 0) == |m| && Get16(m, 4) == typ && m[MSG_HDRLEN..] == EncodeAttrs(attrs)
  {
    var h := MessageHeader(m, typ, cmd, flags, seqno, attrs);
    PrefixFields(m, h, EncodeAttrs(attrs));
  }

  lemma MessageHeader(m: seq<byte>, typ: u16, cmd: byte, flags: u16, seqno: u32, attrs: seq<Attr>)
    returns (h: seq<byte>)
    requires m == Message(typ, cmd, flags, seqno, attrs) && |m| < 0x1_0000_0000
    ensures |h| == MSG_HDRLEN && m == h + EncodeAttrs(attrs) && Get32(h, 0) == |m| && Get16(h, 4) == typ
  {
    h := Header((MSG_HDRLEN + |EncodeAttrs(attrs)|) % 0x1_0000_0000, typ, flags, seqno, cmd);
  }

  /** Every byte of both headers of a finished message. */
  lemma MessageLayout(m: seq<byte>, typ: u16, cmd: byte, flags: u16, seqno: u32, attrs: seq<Attr>)
    requires m == Message(typ, cmd, flags, seqno, attrs)
    ensures HeaderAt(m, |m| % 0x1_0000_0000, typ, flags, seqno, cmd)
  {
    var len := (MSG_HDRLEN + |EncodeAttrs(attrs)|) % 0x1_0000_0000;
    var h := Header(len, typ, flags, seqno, cmd);
    HeaderLayout(len, typ, flags, seqno, cmd);
    assert m[..|h|] == h;
    HeaderOfPrefix(h, m, len, typ, flags, seqno, cmd);
  }

  lemma PrefixFields(m: seq<byte>, h: seq<byte>, body: seq<byte>)
    requires |h| >= 8 && m == h + body
    ensures Get32(m, 0) == Get32(h, 0) && Get16(m, 4) == Get16(h, 4) && m[|h|..] == body
  {
  }

  /** Stamping the length into the blank header gives the finished message. */
  lemma StampedMessage(typ: u16, cmd: byte, flags: u16, seqno: u32, attrs: seq<Attr>)
    ensures var m := Message(typ, cmd, flags, seqno, attrs);
            Le32(|m| % 0x1_0000_0000) + Header(0, typ, flags, seqno, cmd)[4..] + EncodeAttrs(attrs) == m
  {
    var len := (MSG_HDRLEN + |EncodeAttrs(attrs)|) % 0x1_0000_0000;
    assert Le32(len) + Header(0, typ, flags, seqno, cmd)[4..] == Header(len, typ, flags, seqno, cmd);
  }

  class NlBuf {
    const base: array<byte>
    var off: nat
    ghost var header: seq<byte>
    ghost var attrs: seq<Attr>
    ghost var initial: seq<byte>

    /** The buffer holds an unstamped header and the attributes put so far,
        and past the write offset everything is as it was found. */
    ghost predicate Valid() reads this, base {
      && off <= base.Length
      && |header| == MSG_HDRLEN && base[..off] == header + EncodeAttrs(attrs)
      && |initial| == base.Length && base[off..] == initial[off..]
    }

    constructor (buf: array<byte>, family: int, cmd: byte, flags: u16, seqno: u32)
      requires MSG_HDRLEN <= buf.Length
      modifies buf
      ensures Valid() && base == buf && initial == old(buf[..]) && attrs == []
      ensures header == Header(0, family % 0x1_0000, flags, seqno, cmd)
    {
      var h := Header(0, family % 0x1_0000, flags, seqno, cmd);
      base, off, header, attrs, initial := buf, MSG_HDRLEN, h, [], buf[..];
      new;
      Store(buf, 0, h);
    }

    /** Appends one attribute exactly when it fits; a refused call writes nothing. */
    method PutAttr(attrTyp: u16, data: seq<byte>) returns (ok: bool)
      requires Valid()
      modifies this`off, this`attrs, base
      ensures Valid()
      ensures ok <==> old(off) + NLA_HDRLEN + Align4(|data|) <= base.Length
      ensures ok ==> attrs == old(attrs) + [Attr(attrTyp, data)]
      ensures ok ==> off == old(off) + NLA_HDRLEN + Align4(|data|)
      ensures !ok ==> attrs == old(attrs) && off == old(off) && base[..] == old(base[..])
    {
      var total := NLA_HDRLEN + Align4(|data|);
      if off + total > base.Length {
        return false;
      }
      var a := Attr(attrTyp, data);
      ghost var before := base[..];
      StoreAttr(base, off, a);
      Appended(before, base[..], initial, off, EncodeAttr(a));
      assert base[..off + total] == base[..][..off + total] == before[..off] + EncodeAttr(a);
      Assoc(header, EncodeAttrs(attrs), EncodeAttr(a));
      EncodeAttrsAppend(attrs, a);
      off := off + total;
      attrs := attrs + [a];
      return true;
    }

    method PutU32(attrTyp: u16, v: u32) returns (ok: bool)
      requires Valid()
      modifies this`off, this`attrs, base
      ensures Valid()
      ensures ok <==> old(off) + 8 <= base.Length
      ensures ok ==> attrs == old(attrs) + [Attr(attrTyp, Le32(v))] && off == old(off) + 8
      ensures !ok ==> attrs == old(attrs) && off == old(off) && base[..] == old(base[..])
    {
      ok := PutAttr(attrTyp, Le32(v));
    }

    method PutS32(attrTyp: u16, v: s32) returns (ok: bool)
      requires Valid()
      modifies this`off, this`attrs, base
      ensures Valid()
      ensures ok <==> old(off) + 8 <= base.Length
      ensures ok ==> attrs == old(attrs) + [Attr(attrTyp, Le32(FromS32(v)))] && off == old(off) + 8
      ensures !ok ==> attrs == old(attrs) && off == old(off) && base[..] == old(base[..])
    {
      ok := PutAttr(attrTyp, Le32(FromS32(v)));
    }

    /** Stamps the length actually used and returns it. */
    method Finalize() returns (n: nat)
      requires Valid()
      modifies base
      ensures n == off == MSG_HDRLEN + |EncodeAttrs(attrs)|
      ensures base[..n] == Le32(n % 0x1_0000_0000) + header[4..] + EncodeAttrs(attrs)
      ensures base[n..] == initial[n..]
    {
      ghost var before := base[..];
      Store(base, 0, Le32(off % 0x1_0000_0000));
      assert base[off..] == base[..][off..] == before[off..];
      assert base[..off] == Le32(off % 0x1_0000_0000) + before[4..off];
      assert before[4..off] == header[4..] + EncodeAttrs(attrs);
      return off;
    }
  }
}
