/** Request builders and reply parsers of the nl80211 controls, each proved
    against the attribute list that the message stands for. */
module Nl80211Messages {
  import opened Bytes
  import opened Netlink

  const GENL_ID_CTRL: u16 := 0x10
  const NLM_F_REQUEST: u16 := 1
  const NLMSG_ERROR: u16 := 2
  const NLMSG_DONE: u16 := 3

  const CTRL_CMD_GETFAMILY: byte := 3
  const CTRL_ATTR_FAMILY_ID: u16 := 1
  const CTRL_ATTR_FAMILY_NAME: u16 := 2

  const CMD_GET_WIPHY: byte := 1
  const CMD_SET_WIPHY: byte := 2
  const CMD_REQ_SET_REG: byte := 27
  const CMD_GET_REG: byte := 31
  const CMD_SET_POWER_SAVE: byte := 61

  const ATTR_WIPHY: u16 := 1
  const ATTR_IFINDEX: u16 := 3
  const ATTR_REG_ALPHA2: u16 := 33
  const ATTR_PS_STATE: u16 := 93
  const ATTR_TX_POWER_SETTING: u16 := 97
  const ATTR_TX_POWER_LEVEL: u16 := 98

  const TX_POWER_AUTOMATIC := 0
  const TX_POWER_FIXED := 2

  /** "nl80211" and its terminator. */
  const FAMILY_NAME: seq<byte> := [110, 108, 56, 48, 50, 49, 49, 0]

  // ----- requests

  function Request(family: int, cmd: byte, attrs: seq<Attr>): seq<byte> {
    Message(family % 0x1_0000, cmd, NLM_F_REQUEST, 1, attrs)
  }

  /** What a builder call with arguments in range must do to its buffer: succeed
      exactly when the whole request fits, return the size stamped, and leave
      everything past that size alone. */
  ghost predicate Built(n: int, before: seq<byte>, after: seq<byte>, family: int, cmd: byte, attrs: seq<Attr>) {
    var size := MSG_HDRLEN + AttrsSize(attrs);
    && (n >= 0 <==> size <= |before|)
    && |after| == |before|
    && (n >= 0 ==> n == size && after[..n] == Request(family, cmd, attrs) && after[n..] == before[n..])
  }

  /** Per attribute, 4 plus the payload length rounded up to 4. */
  function AttrsSize(attrs: seq<Attr>): nat {
    if attrs == [] then 0 else NLA_HDRLEN + Align4(|attrs[0].payload|) + AttrsSize(attrs[1..])
  }

  lemma {:induction false} EncodedSize(attrs: seq<Attr>)
    ensures |EncodeAttrs(attrs)| == AttrsSize(attrs)
  {
    if attrs != [] {
      EncodedSize(attrs[1..]);
    }
  }

  lemma PairSize(a: Attr, b: Attr)
    ensures AttrsSize([a, b]) == 8 + Align4(|a.payload|) + Align4(|b.payload|)
  {
    assert [a, b][1..] == [b] && [b][1..] == [];
    assert AttrsSize([b]) == 4 + Align4(|b.payload|);
  }

  /** Stamps a complete request; the caller has put every attribute. */
  method Finish(b: NlBuf, family: int, cmd: byte, ghost attrs: seq<Attr>) returns (n: int)
    requires b.Valid() && b.attrs == attrs
    requires b.header == Header(0, family % 0x1_0000, NLM_F_REQUEST, 1, cmd)
    modifies b.base
    ensures n >= 0 && Built(n, b.initial, b.base[..], family, cmd, attrs)
  {
    EncodedSize(attrs);
    n := b.Finalize();
    StampedMessage(family % 0x1_0000, cmd, NLM_F_REQUEST, 1, attrs);
    assert b.base[..][..n] == b.base[..n] && b.base[..][n..] == b.base[n..];
  }

  function GetFamilyAttrs(): seq<Attr> {
    [Attr(CTRL_ATTR_FAMILY_NAME, FAMILY_NAME)]
  }

  method BuildGetFamily(buf: array<byte>) returns (n: int)
    modifies buf
    ensures Built(n, old(buf[..]), buf[..], GENL_ID_CTRL, CTRL_CMD_GETFAMILY, GetFamilyAttrs())
  {
    if buf.Length < MSG_HDRLEN {
      return -1;
    }
    var b := new NlBuf(buf, GENL_ID_CTRL, CTRL_CMD_GETFAMILY, NLM_F_REQUEST, 1);
    var ok := b.PutAttr(CTRL_ATTR_FAMILY_NAME, FAMILY_NAME);
    if !ok {
      return -1;
    }
    n := Finish(b, GENL_ID_CTRL, CTRL_CMD_GETFAMILY, GetFamilyAttrs());
  }

  method BuildGetReg(buf: array<byte>, family: s32) returns (n: int)
    modifies buf
    ensures family <= 0 ==> n < 0 && buf[..] == old(buf[..])
    ensures family > 0 ==> Built(n, old(buf[..]), buf[..], family, CMD_GET_REG, [])
  {
    if family <= 0 || buf.Length < MSG_HDRLEN {
      return -1;
    }
    var b := new NlBuf(buf, family, CMD_GET_REG, NLM_F_REQUEST, 1);
    n := Finish(b, family, CMD_GET_REG, []);
  }

  function SetRegAttrs(alpha2: seq<byte>): seq<Attr> {
    [Attr(ATTR_REG_ALPHA2, alpha2)]
  }

  method BuildSetReg(buf: array<byte>, family: s32, alpha2: seq<byte>) returns (n: int)
    modifies buf
    ensures family <= 0 || |alpha2| != 2 ==> n < 0 && buf[..] == old(buf[..])
    ensures family > 0 && |alpha2| == 2 ==>
      Built(n, old(buf[..]), buf[..], family, CMD_REQ_SET_REG, SetRegAttrs(alpha2))
  {
    if family <= 0 || |alpha2| != 2 || buf.Length < MSG_HDRLEN {
      return -1;
    }
    var b := new NlBuf(buf, family, CMD_REQ_SET_REG, NLM_F_REQUEST, 1);
    var ok := b.PutAttr(ATTR_REG_ALPHA2, alpha2);
    if !ok {
      return -1;
    }
    n := Finish(b, family, CMD_REQ_SET_REG, SetRegAttrs(alpha2));
  }

  function GetWiphyAttrs(phy: u32): seq<Attr> {
    [Attr(ATTR_WIPHY, Le32(phy))]
  }

  method BuildGetWiphy(buf: array<byte>, family: s32, phy: s32) returns (n: int)
    modifies buf
    ensures family <= 0 || phy < 0 ==> n < 0 && buf[..] == old(buf[..])
    ensures family > 0 && phy >= 0 ==>
      Built(n, old(buf[..]), buf[..], family, CMD_GET_WIPHY, GetWiphyAttrs(phy))
  {
    if family <= 0 || phy < 0 || buf.Length < MSG_HDRLEN {
      return -1;
    }
    var b := new NlBuf(buf, family, CMD_GET_WIPHY, NLM_F_REQUEST, 1);
    var ok := b.PutU32(ATTR_WIPHY, phy);
    if !ok {
      return -1;
    }
    n := Finish(b, family, CMD_GET_WIPHY, GetWiphyAttrs(phy));
  }

  /** The level is sent for every setting but AUTOMATIC. */
  function TxPowerAttrs(phy: u32, setting: u32, mBm: s32): seq<Attr> {
    var wiphy, choice := Attr(ATTR_WIPHY, Le32(phy)), Attr(ATTR_TX_POWER_SETTING, Le32(setting));
    if setting == TX_POWER_AUTOMATIC then [wiphy, choice]
    else [wiphy, choice, Attr(ATTR_TX_POWER_LEVEL, Le32(FromS32(mBm)))]
  }

  method BuildSetTxPower(buf: array<byte>, family: s32, phy: s32, setting: s32, mBm: s32) returns (n: int)
    modifies buf
    ensures family <= 0 || phy < 0 || !(TX_POWER_AUTOMATIC <= setting <= TX_POWER_FIXED) ==>
      n < 0 && buf[..] == old(buf[..])
    ensures family > 0 && phy >= 0 && TX_POWER_AUTOMATIC <= setting <= TX_POWER_FIXED ==>
      Built(n, old(buf[..]), buf[..], family, CMD_SET_WIPHY, TxPowerAttrs(phy, setting, mBm))
  {
    if family <= 0 || phy < 0 || setting < TX_POWER_AUTOMATIC || setting > TX_POWER_FIXED {
      return -1;
    }
    if buf.Length < MSG_HDRLEN {
      return -1;
    }
    ghost var attrs := TxPowerAttrs(phy, setting, mBm);
    TxPowerSize(phy, setting, mBm);
    var b := new NlBuf(buf, family, CMD_SET_WIPHY, NLM_F_REQUEST, 1);
    var ok := b.PutU32(ATTR_WIPHY, phy);
    if !ok {
      return -1;
    }
    ok := b.PutU32(ATTR_TX_POWER_SETTING, setting);
    if !ok {
      return -1;
    }
    if setting != TX_POWER_AUTOMATIC {
      ok := b.PutS32(ATTR_TX_POWER_LEVEL, mBm);
      if !ok {
        return -1;
      }
    }
    assert b.attrs == attrs;
    n := Finish(b, family, CMD_SET_WIPHY, attrs);
  }

  lemma TxPowerSize(phy: u32, setting: u32, mBm: s32)
    ensures AttrsSize(TxPowerAttrs(phy, setting, mBm)) == if setting == TX_POWER_AUTOMATIC then 16 else 24
  {
    var attrs := TxPowerAttrs(phy, setting, mBm);
    if setting == TX_POWER_AUTOMATIC {
      PairSize(attrs[0], attrs[1]);
    } else {
      assert attrs[1..] == [attrs[1], attrs[2]];
      PairSize(attrs[1], attrs[2]);
    }
  }

  function SetPsAttrs(ifindex: u32, enabled: bool): seq<Attr> {
    [Attr(ATTR_IFINDEX, Le32(ifindex)), Attr(ATTR_PS_STATE, Le32(if enabled then 1 else 0))]
  }

  method BuildSetPs(buf: array<byte>, family: s32, ifindex: s32, enabled: bool) returns (n: int)
    modifies buf
    ensures family <= 0 || ifindex <= 0 ==> n < 0 && buf[..] == old(buf[..])
    ensures family > 0 && ifindex > 0 ==>
      Built(n, old(buf[..]), buf[..], family, CMD_SET_POWER_SAVE, SetPsAttrs(ifindex, enabled))
  {
    if family <= 0 || ifindex <= 0 || buf.Length < MSG_HDRLEN {
      return -1;
    }
    ghost var attrs := SetPsAttrs(ifindex, enabled);
    PairSize(attrs[0], attrs[1]);
    var b := new NlBuf(buf, family, CMD_SET_POWER_SAVE, NLM_F_REQUEST, 1);
    var ok := b.PutU32(ATTR_IFINDEX, ifindex);
    if !ok {
      return -1;
    }
    ok := b.PutU32(ATTR_PS_STATE, if enabled then 1 else 0);
    if !ok {
      return -1;
    }
    assert b.attrs == attrs;
    n := Finish(b, family, CMD_SET_POWER_SAVE, attrs);
  }

  // ----- replies

  function MsgLen(msg: seq<byte>): u32 requires |msg| >= NLMSG_HDRLEN { Get32(msg, 0) }
  function MsgType(msg: seq<byte>): u16 requires |msg| >= NLMSG_HDRLEN { Get16(msg, 4) }
  function MsgFlags(msg: seq<byte>): u16 requires |msg| >= NLMSG_HDRLEN { Get16(msg, 6) }

  /** The stated length covers both headers and stays inside the bytes at hand. */
  predicate Complete(msg: seq<byte>) {
    |msg| >= MSG_HDRLEN ==> MSG_HDRLEN <= MsgLen(msg) <= |msg|
  }

  /** The first attribute of a type among those the message carries. */
  function Carried(msg: seq<byte>, typ: u16): Option<Attr>
    requires |msg| >= MSG_HDRLEN && Complete(msg)
  {
    FirstOfType(Walk(msg, MSG_HDRLEN, MsgLen(msg)), typ)
  }

  function TxPowerIn(msg: seq<byte>): Option<s32>
    requires Complete(msg)
  {
    if |msg| < MSG_HDRLEN then None
    else match Carried(msg, ATTR_TX_POWER_LEVEL)
      case Some(a) => if |a.payload| >= 4 then Some(ToS32(Get32(a.payload, 0))) else None
      case None => None
  }

  function Alpha2In(msg: seq<byte>): Option<seq<byte>>
    requires Complete(msg)
  {
    if |msg| < MSG_HDRLEN then None
    else match Carried(msg, ATTR_REG_ALPHA2)
      case Some(a) => if |a.payload| >= 2 then Some(a.payload[..2]) else None
      case None => None
  }

  function FamilyIdIn(msg: seq<byte>): Option<u16>
    requires Complete(msg)
  {
    if |msg| < MSG_HDRLEN || MsgType(msg) != GENL_ID_CTRL then None
    else match Carried(msg, CTRL_ATTR_FAMILY_ID)
      case Some(a) => if |a.payload| >= 2 then Some(Get16(a.payload, 0)) else None
      case None => None
  }

  method ParseTxPower(msg: seq<byte>) returns (r: Option<s32>)
    requires Complete(msg)
    ensures r == TxPowerIn(msg)
  {
    if |msg| < MSG_HDRLEN {
      return None;
    }
    var a := NlaFind(msg, MSG_HDRLEN, MsgLen(msg) - MSG_HDRLEN, ATTR_TX_POWER_LEVEL);
    if a < 0 || Get16(msg, a) < NLA_HDRLEN + 4 {
      return None;
    }
    ghost var p := AttrAt(msg, a).payload;
    assert Get32(p, 0) == Get32(msg, a + NLA_HDRLEN);
    return Some(ToS32(Get32(msg, a + NLA_HDRLEN)));
  }

  /** `outSize` is the room the caller offers; two letters and a NUL are needed. */
  method ParseAlpha2(msg: seq<byte>, outSize: nat) returns (r: Option<seq<byte>>)
    requires Complete(msg)
    ensures r == if outSize < 3 then None else Alpha2In(msg)
  {
    if |msg| < MSG_HDRLEN || outSize < 3 {
      return None;
    }
    var a := NlaFind(msg, MSG_HDRLEN, MsgLen(msg) - MSG_HDRLEN, ATTR_REG_ALPHA2);
    if a < 0 || Get16(msg, a) < NLA_HDRLEN + 2 {
      return None;
    }
    var plen := Get16(msg, a) - NLA_HDRLEN;
    if plen > 2 {
      plen := 2;
    }
    ghost var p := AttrAt(msg, a).payload;
    assert p[..2] == msg[a + NLA_HDRLEN..a + NLA_HDRLEN + 2];
    return Some(msg[a + NLA_HDRLEN..a + NLA_HDRLEN + plen]);
  }

  method ParseFamilyId(msg: seq<byte>) returns (r: Option<u16>)
    requires Complete(msg)
    ensures r == FamilyIdIn(msg)
  {
    if |msg| < MSG_HDRLEN || MsgType(msg) != GENL_ID_CTRL {
      return None;
    }
    var a := NlaFind(msg, MSG_HDRLEN, MsgLen(msg) - MSG_HDRLEN, CTRL_ATTR_FAMILY_ID);
    if a < 0 || Get16(msg, a) < NLA_HDRLEN + 2 {
      return None;
    }
    ghost var p := AttrAt(msg, a).payload;
    assert Get16(p, 0) == Get16(msg, a + NLA_HDRLEN);
    return Some(Get16(msg, a + NLA_HDRLEN));
  }

  predicate AckReadable(msg: seq<byte>) {
    |msg| >= NLMSG_HDRLEN && MsgType(msg) == NLMSG_ERROR && MsgLen(msg) >= NLMSG_HDRLEN + 4
  }

  /** An ERROR message whose error field is present and zero. */
  predicate IsAck(msg: seq<byte>) {
    AckReadable(msg) && NLMSG_HDRLEN + 4 <= |msg| && ToS32(Get32(msg, NLMSG_HDRLEN)) == 0
  }

  method ParseAck(msg: seq<byte>) returns (ok: bool)
    requires AckReadable(msg) ==> NLMSG_HDRLEN + 4 <= |msg|
    ensures ok <==> IsAck(msg)
  {
    if |msg| < NLMSG_HDRLEN || MsgType(msg) != NLMSG_ERROR || MsgLen(msg) < NLMSG_HDRLEN + 4 {
      return false;
    }
    var err := ToS32(Get32(msg, NLMSG_HDRLEN));
    return err == 0;
  }

  // ----- what a reply parser recovers from a request

  /** Walking a request yields the attributes that were put into it. */
  lemma RequestCarries(m: seq<byte>, family: int, cmd: byte, attrs: seq<Attr>)
    requires m == Request(family, cmd, attrs)
    requires AllFit(attrs) && |m| < 0x1_0000_0000
    ensures |m| >= MSG_HDRLEN && Complete(m) && MsgLen(m) == |m| && MsgType(m) == family % 0x1_0000
    ensures Walk(m, MSG_HDRLEN, |m|) == attrs
  {
    MessageCarries(m, family % 0x1_0000, cmd, NLM_F_REQUEST, 1, attrs);
  }

  /** The same for any message, as the kernel sends them. */
  lemma MessageCarries(m: seq<byte>, typ: u16, cmd: byte, flags: u16, seqno: u32, attrs: seq<Attr>)
    requires m == Message(typ, cmd, flags, seqno, attrs)
    requires AllFit(attrs) && |m| < 0x1_0000_0000
    ensures |m| >= MSG_HDRLEN && Complete(m) && MsgLen(m) == |m| && MsgType(m) == typ
    ensures Walk(m, MSG_HDRLEN, |m|) == attrs
  {
    MessageFields(m, typ, cmd, flags, seqno, attrs);
    WalkEncodeAttrs(m, MSG_HDRLEN, attrs);
  }

  /** Any signed level sent LIMITED or FIXED is read back; AUTOMATIC carries none. */
  lemma TxPowerRoundTrip(m: seq<byte>, family: int, phy: u32, setting: u32, mBm: s32)
    requires m == Request(family, CMD_SET_WIPHY, TxPowerAttrs(phy, setting, mBm))
    ensures Complete(m) && TxPowerIn(m) == if setting == TX_POWER_AUTOMATIC then None else Some(mBm)
  {
    var attrs := TxPowerAttrs(phy, setting, mBm);
    TxPowerSize(phy, setting, mBm);
    EncodedSize(attrs);
    RequestCarries(m, family, CMD_SET_WIPHY, attrs);
    TxPowerSearch(phy, setting, mBm);
    TxPowerFrom(m, mBm);
  }

  lemma TxPowerFrom(m: seq<byte>, mBm: s32)
    requires |m| >= MSG_HDRLEN && Complete(m)
    ensures Carried(m, ATTR_TX_POWER_LEVEL) == None ==> TxPowerIn(m) == None
    ensures Carried(m, ATTR_TX_POWER_LEVEL) == Some(Attr(ATTR_TX_POWER_LEVEL, Le32(FromS32(mBm))))
            ==> TxPowerIn(m) == Some(mBm)
  {
    assert ToS32(Get32(Le32(FromS32(mBm)), 0)) == mBm;
  }

  lemma TxPowerSearch(phy: u32, setting: u32, mBm: s32)
    ensures FirstOfType(TxPowerAttrs(phy, setting, mBm), ATTR_TX_POWER_LEVEL)
            == if setting == TX_POWER_AUTOMATIC then None
               else Some(Attr(ATTR_TX_POWER_LEVEL, Le32(FromS32(mBm))))
  {
    var attrs := TxPowerAttrs(phy, setting, mBm);
    if setting == TX_POWER_AUTOMATIC {
      assert attrs[1..] == [attrs[1]] && [attrs[1]][1..] == [];
      assert FirstOfType([attrs[1]], ATTR_TX_POWER_LEVEL) == None;
    } else {
      assert attrs[1..] == [attrs[1], attrs[2]] && [attrs[1], attrs[2]][1..] == [attrs[2]];
      assert FirstOfType([attrs[2]], ATTR_TX_POWER_LEVEL) == Some(attrs[2]);
    }
  }

  lemma Alpha2RoundTrip(m: seq<byte>, family: int, alpha2: seq<byte>)
    requires |alpha2| == 2 && m == Request(family, CMD_REQ_SET_REG, SetRegAttrs(alpha2))
    ensures Complete(m) && Alpha2In(m) == Some(alpha2)
  {
    var attrs := SetRegAttrs(alpha2);
    assert attrs[1..] == [] && AttrsSize(attrs) == 8;
    EncodedSize(attrs);
    RequestCarries(m, family, CMD_REQ_SET_REG, attrs);
    assert alpha2[..2] == alpha2;
  }
}
