/** What goes over the wire, in numbers: the bytes of each request, and what the
    replies of a kernel make the parsers and query loops return. */
module Nl80211Wire {
  import opened Bytes
  import opened Netlink
  import opened Nl80211Messages
  import opened Nl80211Query

  // ----- requests

  /** Every header byte that a successful builder leaves in the buffer. */
  lemma BuiltBytes(n: int, before: seq<byte>, after: seq<byte>, family: int, cmd: byte, attrs: seq<Attr>)
    requires n >= 0 && Built(n, before, after, family, cmd, attrs)
    ensures 20 <= n <= |after|
    ensures Get32(after, 0) == n % 0x1_0000_0000 && Get16(after, 4) == family % 0x1_0000
    ensures Get16(after, 6) == 1 && Get32(after, 8) == 1 && Get32(after, 12) == 0
    ensures after[16] == cmd && after[17] == 1 && after[18] == 0 && after[19] == 0
  {
    var m := Request(family, cmd, attrs);
    MessageLayout(m, family % 0x1_0000, cmd, NLM_F_REQUEST, 1, attrs);
    assert after[..n] == m && |m| == n;
    HeaderOfPrefix(m, after, n % 0x1_0000_0000, family % 0x1_0000, 1, 1, cmd);
  }

  lemma RequestBytes(m: seq<byte>, family: int, cmd: byte, attrs: seq<Attr>)
    requires m == Request(family, cmd, attrs) && AllFit(attrs) && AttrsSize(attrs) < 0x1_0000
    ensures |m| >= 20 && Get16(m, 4) == family % 0x1_0000
    ensures Get16(m, 6) == 1 && m[16] == cmd && m[17] == 1
    ensures Walk(m, 20, |m|) == attrs
  {
    EncodedSize(attrs);
    MessageLayout(m, family % 0x1_0000, cmd, NLM_F_REQUEST, 1, attrs);
    RequestCarries(m, family, cmd, attrs);
  }

  /** The controller, id 0x10, is asked with command 3 for the family whose name,
      attribute 2, is "nl80211" and its terminator. */
  lemma GetFamilySends(m: seq<byte>)
    requires m == Request(GENL_ID_CTRL, CTRL_CMD_GETFAMILY, GetFamilyAttrs())
    ensures |m| >= 20 && Get16(m, 4) == 0x10 && m[16] == 3
    ensures Walk(m, 20, |m|) == [Attr(2, [110, 108, 56, 48, 50, 49, 49, 0])]
  {
    var name: seq<byte> := [110, 108, 56, 48, 50, 49, 49, 0];
    assert FAMILY_NAME == name;
    OneAttrSends(m, 0x10, 3, Attr(2, name), GetFamilyAttrs());
  }

  lemma OneAttrSends(m: seq<byte>, family: int, cmd: byte, a: Attr, attrs: seq<Attr>)
    requires attrs == [a] && |a.payload| <= 8 && m == Request(family, cmd, attrs)
    ensures |m| >= 20 && Get16(m, 4) == family % 0x1_0000 && m[16] == cmd && Walk(m, 20, |m|) == attrs
  {
    OneSize(a, attrs);
    RequestBytes(m, family, cmd, attrs);
  }

  lemma OneSize(a: Attr, attrs: seq<Attr>)
    requires attrs == [a]
    ensures AttrsSize(attrs) == 4 + Align4(|a.payload|)
  {
    assert attrs[1..] == [];
  }

  lemma RegSends(get: seq<byte>, set_: seq<byte>, family: int, alpha2: seq<byte>)
    requires get == Request(family, CMD_GET_REG, [])
    requires |alpha2| == 2 && set_ == Request(family, CMD_REQ_SET_REG, SetRegAttrs(alpha2))
    ensures |get| >= 20 && get[16] == 31 && Walk(get, 20, |get|) == []
    ensures |set_| >= 20 && set_[16] == 27 && Walk(set_, 20, |set_|) == [Attr(33, alpha2)]
  {
    RequestBytes(get, family, CMD_GET_REG, []);
    OneSize(Attr(33, alpha2), SetRegAttrs(alpha2));
    RequestBytes(set_, family, CMD_REQ_SET_REG, SetRegAttrs(alpha2));
  }

  lemma GetWiphySends(m: seq<byte>, family: int, phy: u32)
    requires m == Request(family, CMD_GET_WIPHY, GetWiphyAttrs(phy))
    ensures |m| >= 20 && m[16] == 1 && Walk(m, 20, |m|) == [Attr(1, Le32(phy))]
  {
    OneSize(Attr(1, Le32(phy)), GetWiphyAttrs(phy));
    RequestBytes(m, family, CMD_GET_WIPHY, GetWiphyAttrs(phy));
  }

  /** Setting 0 is AUTOMATIC; 1 and 2 carry the level in two's complement. */
  lemma SetTxPowerSends(m: seq<byte>, family: int, phy: u32, setting: u32, mBm: s32)
    requires m == Request(family, CMD_SET_WIPHY, TxPowerAttrs(phy, setting, mBm))
    ensures |m| >= 20 && m[16] == 2
    ensures Walk(m, 20, |m|) == if setting == 0 then [Attr(1, Le32(phy)), Attr(97, Le32(0))]
                                else [Attr(1, Le32(phy)), Attr(97, Le32(setting)), Attr(98, Le32(mBm % 0x1_0000_0000))]
  {
    var attrs := TxPowerAttrs(phy, setting, mBm);
    TxPowerSize(phy, setting, mBm);
    TxPowerFits(phy, setting, mBm);
    RequestBytes(m, family, 2, attrs);
    SameTxPower(phy, setting, mBm, mBm % 0x1_0000_0000, attrs);
  }

  lemma TxPowerFits(phy: u32, setting: u32, mBm: s32)
    ensures AllFit(TxPowerAttrs(phy, setting, mBm))
  {
  }

  lemma SameTxPower(phy: u32, setting: u32, mBm: s32, level: u32, attrs: seq<Attr>)
    requires attrs == TxPowerAttrs(phy, setting, mBm) && level == mBm % 0x1_0000_0000
    ensures attrs == if setting == 0 then [Attr(1, Le32(phy)), Attr(97, Le32(0))]
                     else [Attr(1, Le32(phy)), Attr(97, Le32(setting)), Attr(98, Le32(level))]
  {
    assert FromS32(mBm) == level;
  }

  lemma SetPsSends(m: seq<byte>, family: int, ifindex: u32, enabled: bool)
    requires m == Request(family, CMD_SET_POWER_SAVE, SetPsAttrs(ifindex, enabled))
    ensures |m| >= 20 && m[16] == 61
    ensures Walk(m, 20, |m|) == [Attr(3, Le32(ifindex)), Attr(93, [if enabled then 1 else 0, 0, 0, 0])]
  {
    var attrs := SetPsAttrs(ifindex, enabled);
    PairSize(attrs[0], attrs[1]);
    RequestBytes(m, family, CMD_SET_POWER_SAVE, attrs);
    LittleEndian(if enabled then 1 else 0, 0);
  }

  // ----- one reply

  lemma {:induction false} FirstAmong(pre: seq<Attr>, a: Attr, post: seq<Attr>, all: seq<Attr>)
    requires all == pre + ([a] + post) && forall i :: 0 <= i < |pre| ==> pre[i].typ != a.typ
    ensures FirstOfType(all, a.typ) == Some(a)
    decreases pre
  {
    if pre == [] {
      assert all == [a] + post;
    } else {
      assert all[0] == pre[0] && all[1..] == pre[1..] + ([a] + post);
      FirstAmong(pre[1..], a, post, all[1..]);
    }
  }

  /** A search fails exactly when no attribute has the type. */
  lemma {:induction false} NoneAmong(attrs: seq<Attr>, typ: u16)
    ensures FirstOfType(attrs, typ) == None <==> forall i :: 0 <= i < |attrs| ==> attrs[i].typ != typ
    decreases attrs
  {
    if attrs != [] {
      NoneAmong(attrs[1..], typ);
      assert forall i :: 0 < i < |attrs| ==> attrs[i] == attrs[1..][i - 1];
    }
  }

  ghost predicate IsReply(m: seq<byte>, typ: u16, cmd: byte, flags: u16, seqno: u32, attrs: seq<Attr>) {
    m == Message(typ, cmd, flags, seqno, attrs) && AllFit(attrs) && |m| < 0x1_0000_0000
  }

  lemma ReplyCarries(m: seq<byte>, typ: u16, cmd: byte, flags: u16, seqno: u32,
                     pre: seq<Attr>, a: Attr, post: seq<Attr>)
    requires IsReply(m, typ, cmd, flags, seqno, pre + ([a] + post))
    requires forall i :: 0 <= i < |pre| ==> pre[i].typ != a.typ
    ensures |m| >= 20 && Complete(m) && MsgType(m) == typ && Carried(m, a.typ) == Some(a)
  {
    var attrs := pre + ([a] + post);
    MessageCarries(m, typ, cmd, flags, seqno, attrs);
    FirstAmong(pre, a, post, attrs);
  }

  /** A reply of the controller (0x10) whose first attribute of type 1 holds at
      least two bytes gives the id in them, low byte first; whatever surrounds
      it. A reply of any other type or with less in it gives none. */
  lemma FamilyIdReply(m: seq<byte>, typ: u16, cmd: byte, flags: u16, seqno: u32,
                      pre: seq<Attr>, p: seq<byte>, post: seq<Attr>)
    requires IsReply(m, typ, cmd, flags, seqno, pre + ([Attr(1, p)] + post))
    requires forall i :: 0 <= i < |pre| ==> pre[i].typ != 1
    ensures Complete(m) && (FamilyIdIn(m).Some? <==> typ == 0x10 && |p| >= 2)
    ensures FamilyIdIn(m).Some? ==> var b: seq<int> := p; FamilyIdIn(m).value == b[0] + 0x100 * b[1]
  {
    ReplyCarries(m, typ, cmd, flags, seqno, pre, Attr(1, p), post);
  }

  /** Attribute 98 holds the level, as a 32-bit two's complement number. */
  lemma TxPowerReply(m: seq<byte>, typ: u16, cmd: byte, flags: u16, seqno: u32,
                     pre: seq<Attr>, mBm: s32, more: seq<byte>, post: seq<Attr>)
    requires IsReply(m, typ, cmd, flags, seqno, pre + ([Attr(98, Le32(mBm % 0x1_0000_0000) + more)] + post))
    requires forall i :: 0 <= i < |pre| ==> pre[i].typ != 98
    ensures Complete(m) && TxPowerIn(m) == Some(mBm)
  {
    var v := mBm % 0x1_0000_0000;
    var p := Le32(v) + more;
    ReplyCarries(m, typ, cmd, flags, seqno, pre, Attr(98, p), post);
    LevelIn(m, p, Le32(v), more, mBm);
  }

  lemma LevelIn(m: seq<byte>, p: seq<byte>, s: seq<byte>, more: seq<byte>, mBm: s32)
    requires |m| >= 20 && Complete(m) && Carried(m, 98) == Some(Attr(98, p))
    requires p == s + more && s == Le32(mBm % 0x1_0000_0000)
    ensures TxPowerIn(m) == Some(mBm)
  {
    assert Get32(p, 0) == Get32(s, 0);
    TwosComplement(mBm);
  }

  /** Attribute 33 holds the two letters, with or without a terminator. */
  lemma Alpha2Reply(m: seq<byte>, typ: u16, cmd: byte, flags: u16, seqno: u32,
                    pre: seq<Attr>, letters: seq<byte>, more: seq<byte>, post: seq<Attr>)
    requires IsReply(m, typ, cmd, flags, seqno, pre + ([Attr(33, letters + more)] + post)) && |letters| == 2
    requires forall i :: 0 <= i < |pre| ==> pre[i].typ != 33
    ensures Complete(m) && Alpha2In(m) == Some(letters)
  {
    ReplyCarries(m, typ, cmd, flags, seqno, pre, Attr(33, letters + more), post);
    assert (letters + more)[..2] == letters;
  }

  /** Without the attribute, or with too few bytes in it, there is no reading. */
  lemma NothingInReply(m: seq<byte>, typ: u16, cmd: byte, flags: u16, seqno: u32, attrs: seq<Attr>)
    requires IsReply(m, typ, cmd, flags, seqno, attrs)
    ensures Complete(m)
    ensures (forall i :: 0 <= i < |attrs| ==> attrs[i].typ != 1 || |attrs[i].payload| < 2) ==> FamilyIdIn(m) == None
    ensures (forall i :: 0 <= i < |attrs| ==> attrs[i].typ != 33 || |attrs[i].payload| < 2) ==> Alpha2In(m) == None
    ensures (forall i :: 0 <= i < |attrs| ==> attrs[i].typ != 98 || |attrs[i].payload| < 4) ==> TxPowerIn(m) == None
  {
    MessageCarries(m, typ, cmd, flags, seqno, attrs);
    FoundAmong(attrs, 1);
    FoundAmong(attrs, 33);
    FoundAmong(attrs, 98);
  }

  lemma {:induction false} FoundAmong(attrs: seq<Attr>, typ: u16)
    ensures FirstOfType(attrs, typ).Some? ==>
      exists i :: 0 <= i < |attrs| && attrs[i] == FirstOfType(attrs, typ).value && attrs[i].typ == typ
    decreases attrs
  {
    if attrs != [] && attrs[0].typ != typ {
      FoundAmong(attrs[1..], typ);
      if FirstOfType(attrs, typ).Some? {
        var i :| 0 <= i < |attrs| - 1 && attrs[1..][i] == FirstOfType(attrs, typ).value;
        assert attrs[i + 1] == attrs[1..][i];
      }
    }
  }

  /** A message of type 2 acknowledges exactly when the code it holds is zero. */
  lemma AckMeans(m: Msg, code: s32)
    requires |m| >= 20 && Get16(m, 4) == 2 && m[16..20] == Le32(code % 0x1_0000_0000)
    ensures IsAck(m) <==> code == 0
  {
    assert Get32(m, 16) == Get32(m[16..20], 0) == code % 0x1_0000_0000;
  }

  lemma NoAck(m: Msg)
    requires Get16(m, 4) != 2 || |m| < 20
    ensures !IsAck(m)
  {
  }

  // ----- a datagram

  function Padded(m: Msg): (s: seq<byte>)
    ensures |s| == |m| + (4 - |m| % 4) % 4 && s[..|m|] == m
  {
    m + Zeros((4 - |m| % 4) % 4)
  }

  /** Messages one after the other, each padded to a multiple of four. */
  function Datagram(ms: seq<Msg>): seq<byte> {
    if ms == [] then [] else Padded(ms[0]) + Datagram(ms[1..])
  }

  lemma MessageHead(d: seq<byte>, i: nat, m: Msg, head: seq<byte>)
    requires i + |head| <= |d| && d[i..i + |head|] == head && head == Padded(m)
    ensures MessageAt(d, i) && MessageAtOffset(d, i) == m && |head| == Align4(Get32(d, i))
  {
    HeldSlice(d, i, head, 0, |m|);
    HeldSlice(d, i, m, 0, 2);
    HeldSlice(d, i, m, 2, 4);
    assert Get32(d, i) == Get32(m, 0) == |m|;
  }

  /** A datagram is walked back into the messages it was made of, whatever stray
      bytes follow that are too few for another header. */
  lemma {:induction false} MessagesOfDatagram(d: seq<byte>, i: nat, ms: seq<Msg>, tail: seq<byte>)
    requires i <= |d| && d[i..] == Datagram(ms) + tail && |tail| < 16
    ensures MessagesFrom(d, i) == ms
    decreases ms
  {
    if ms == [] {
      assert |d| - i < 16;
    } else {
      var head, rest := Padded(ms[0]), ms[1..];
      Behead(d, i, head, Datagram(rest), tail, d[i..]);
      MessageHead(d, i, ms[0], head);
      var next := i + |head|;
      MessagesOfDatagram(d, next, rest, tail);
      NextMessage(d, i, next, ms[0], rest);
      assert ms == [ms[0]] + rest;
    }
  }

  lemma NextMessage(d: seq<byte>, i: nat, next: nat, m: Msg, rest: seq<Msg>)
    requires MessageAt(d, i) && MessageAtOffset(d, i) == m && next == i + Align4(Get32(d, i))
    ensures MessagesFrom(d, next) == rest ==> MessagesFrom(d, i) == [m] + rest
  {
  }

  lemma Behead(d: seq<byte>, i: nat, head: seq<byte>, rest: seq<byte>, tail: seq<byte>, left: seq<byte>)
    requires i <= |d| && left == d[i..] && left == head + rest + tail
    ensures i + |head| <= |d| && d[i..i + |head|] == head && d[i + |head|..] == rest + tail
  {
    Assoc(head, rest, tail);
    TailHolds(d, i, head, rest + tail);
  }

  // ----- the family id

  predicate Neither(m: Msg, a: u16, b: u16) {
    Get16(m, 4) != a && Get16(m, 4) != b
  }

  /** The id of the first message that has one, if no message of type 2 is before it. */
  lemma {:induction false} FamilyIdAt(ms: seq<Msg>, k: nat)
    requires k < |ms| && forall j :: 0 <= j <= k ==> Get16(ms[j], 4) != 2
    requires FamilyIdIn(ms[k]).Some? && forall j :: 0 <= j < k ==> FamilyIdIn(ms[j]) == None
    ensures FirstFamilyId(BeforeError(ms)) == FamilyIdIn(ms[k])
    decreases k
  {
    Uncons(ms[0], BeforeError(ms[1..]));
    if k > 0 {
      assert forall j :: 0 <= j < |ms| - 1 ==> ms[1..][j] == ms[j + 1];
      FamilyIdAt(ms[1..], k - 1);
    }
  }

  /** None if a message of type 2, or the end, comes before any id. */
  lemma {:induction false} FamilyIdNowhere(ms: seq<Msg>, k: nat)
    requires k <= |ms| && (k < |ms| ==> Get16(ms[k], 4) == 2)
    requires forall j :: 0 <= j < k ==> FamilyIdIn(ms[j]) == None
    ensures FirstFamilyId(BeforeError(ms)) == None
    decreases k
  {
    if ms != [] && !IsError(ms[0]) {
      Uncons(ms[0], BeforeError(ms[1..]));
      assert forall j :: 0 <= j < |ms| - 1 ==> ms[1..][j] == ms[j + 1];
      FamilyIdNowhere(ms[1..], k - 1);
    }
  }

  /** The controller's answer, anywhere in a datagram, is the id that gets used. */
  lemma FamilyIdResolved(reply: seq<byte>, ms: seq<Msg>, tail: seq<byte>, k: nat, id: u16,
                         cmd: byte, flags: u16, seqno: u32, pre: seq<Attr>, post: seq<Attr>)
    requires reply == Datagram(ms) + tail && |tail| < 16 && k < |ms|
    requires forall j :: 0 <= j < k ==> Neither(ms[j], 2, 0x10)
    requires IsReply(ms[k], 0x10, cmd, flags, seqno, pre + ([Attr(1, Le16(id))] + post))
    requires forall i :: 0 <= i < |pre| ==> pre[i].typ != 1
    ensures Resolved(-1, Some(reply)) == id
  {
    FamilyIdSent(ms[k], cmd, flags, seqno, pre, id, post);
    ResolvedFrom(reply, ms, tail, k, id);
  }

  lemma FamilyIdSent(m: Msg, cmd: byte, flags: u16, seqno: u32, pre: seq<Attr>, id: u16, post: seq<Attr>)
    requires IsReply(m, 0x10, cmd, flags, seqno, pre + ([Attr(1, Le16(id))] + post))
    requires forall i :: 0 <= i < |pre| ==> pre[i].typ != 1
    ensures FamilyIdIn(m) == Some(id)
  {
    FamilyIdReply(m, 0x10, cmd, flags, seqno, pre, Le16(id), post);
    LittleEndian(0, id);
  }

  lemma ResolvedFrom(reply: seq<byte>, ms: seq<Msg>, tail: seq<byte>, k: nat, id: u16)
    requires reply == Datagram(ms) + tail && |tail| < 16 && k < |ms|
    requires forall j :: 0 <= j < k ==> Neither(ms[j], 2, 0x10)
    requires FamilyIdIn(ms[k]) == Some(id)
    ensures Resolved(-1, Some(reply)) == id
  {
    assert reply[0..] == reply;
    MessagesOfDatagram(reply, 0, ms, tail);
    assert Get16(ms[k], 4) == 0x10;
    FamilyIdAt(ms, k);
  }

  // ----- acknowledgements and queries

  /** The first message of type 2 decides; without one there is no acknowledgement. */
  lemma {:induction false} ErrorAt(ms: seq<Msg>, k: nat)
    requires k <= |ms| && forall j :: 0 <= j < k ==> Get16(ms[j], 4) != 2
    requires k < |ms| ==> Get16(ms[k], 4) == 2
    ensures FirstError(ms) == if k < |ms| then Some(ms[k]) else None
    decreases k
  {
    if k > 0 {
      assert forall j :: 0 <= j < |ms| - 1 ==> ms[1..][j] == ms[j + 1];
      ErrorAt(ms[1..], k - 1);
    }
  }

  /** The first reading before any message of type 2 or 3 in a datagram is the
      answer, whatever follows; such a message before it ends the query. */
  lemma {:induction false} ReadingAt(w: Wanted, ms: seq<Msg>, after: seq<Msg>, k: nat)
    requires k < |ms| && forall j :: 0 <= j < k ==> Neither(ms[j], 2, 3) && ReadingIn(w, ms[j]) == None
    ensures !Neither(ms[k], 2, 3) ==> FirstReading(w, BeforeEnd(ms + after)) == None
    ensures Neither(ms[k], 2, 3) && ReadingIn(w, ms[k]).Some? ==>
      FirstReading(w, BeforeEnd(ms + after)) == ReadingIn(w, ms[k])
    decreases k
  {
    assert ms + after == [ms[0]] + (ms[1..] + after);
    SkipMessage(w, ms[0], ms[1..] + after);
    if k > 0 {
      assert forall j :: 0 <= j < |ms| - 1 ==> ms[1..][j] == ms[j + 1];
      ReadingAt(w, ms[1..], after, k - 1);
    }
  }

  lemma {:induction false} NothingYet(w: Wanted, ms: seq<Msg>, after: seq<Msg>)
    requires forall j :: 0 <= j < |ms| ==> Neither(ms[j], 2, 3) && ReadingIn(w, ms[j]) == None
    ensures FirstReading(w, BeforeEnd(ms + after)) == FirstReading(w, BeforeEnd(after))
    decreases ms
  {
    if ms == [] {
      assert ms + after == after;
    } else {
      assert ms + after == [ms[0]] + (ms[1..] + after);
      SkipMessage(w, ms[0], ms[1..] + after);
      assert forall j :: 0 <= j < |ms| - 1 ==> ms[1..][j] == ms[j + 1];
      NothingYet(w, ms[1..], after);
    }
  }

  /** The multipart flag is 2. */
  lemma MultiFlag(m: Msg, high: nat, bit: nat, low: nat)
    requires Get16(m, 6) == 4 * high + 2 * bit + low && bit < 2 && low < 2
    ensures IsMulti(m) <==> bit == 1
  {
  }

  /** The answer to a query is settled datagram by datagram. The first message
      with a reading or of type 2 or 3 settles it; if there is none, the next
      datagram is awaited exactly when some message has flag 2 set. */
  lemma AnswerStep(w: Wanted, d: seq<byte>, ds: seq<seq<byte>>, ms: seq<Msg>, tail: seq<byte>, k: nat)
    requires d == Datagram(ms) + tail && |tail| < 16 && k <= |ms|
    requires forall j :: 0 <= j < k ==> Neither(ms[j], 2, 3) && ReadingIn(w, ms[j]) == None
    ensures k < |ms| && !Neither(ms[k], 2, 3) ==> Answer(w, [d] + ds) == None
    ensures k < |ms| && Neither(ms[k], 2, 3) && ReadingIn(w, ms[k]).Some? ==> Answer(w, [d] + ds) == ReadingIn(w, ms[k])
    ensures k == |ms| && (exists j :: 0 <= j < |ms| && Get16(ms[j], 6) % 4 >= 2) ==> Answer(w, [d] + ds) == Answer(w, ds)
    ensures k == |ms| && (forall j :: 0 <= j < |ms| ==> Get16(ms[j], 6) % 4 < 2) ==> Answer(w, [d] + ds) == None
  {
    var after := AwaitedStep(d, ds, ms, tail);
    if k < |ms| {
      ReadingAt(w, ms, after, k);
    } else {
      NothingYet(w, ms, after);
      LastMeans(ms);
    }
  }

  lemma AwaitedStep(d: seq<byte>, ds: seq<seq<byte>>, ms: seq<Msg>, tail: seq<byte>) returns (after: seq<Msg>)
    requires d == Datagram(ms) + tail && |tail| < 16
    ensures Awaited([d] + ds) == ms + after && after == if IsLast(ms) then [] else Awaited(ds)
  {
    assert d[0..] == d;
    MessagesOfDatagram(d, 0, ms, tail);
    assert ([d] + ds)[0] == d && ([d] + ds)[1..] == ds;
    after := if IsLast(ms) then [] else Awaited(ds);
    assert ms + [] == ms;
  }

  /** With no message of type 2 or 3, flag 2 on any message asks for another datagram. */
  lemma LastMeans(ms: seq<Msg>)
    requires forall j :: 0 <= j < |ms| ==> Neither(ms[j], 2, 3)
    ensures IsLast(ms) <==> forall j :: 0 <= j < |ms| ==> Get16(ms[j], 6) % 4 < 2
  {
    forall j | 0 <= j < |ms|
      ensures IsMulti(ms[j]) <==> Get16(ms[j], 6) % 4 >= 2
    {
      MultiFlag(ms[j], Get16(ms[j], 6) / 4, Get16(ms[j], 6) / 2 % 2, Get16(ms[j], 6) % 2);
    }
    if !(forall m :: m in ms ==> !IsMulti(m)) {
      var m :| m in ms && IsMulti(m);
      var j :| 0 <= j < |ms| && ms[j] == m;
    } else {
      assert forall j :: 0 <= j < |ms| ==> ms[j] in ms;
    }
  }
}
