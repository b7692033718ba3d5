/** Walking received datagrams: acknowledgements, multi-datagram queries and the
    cached family id, against folds over the messages the datagrams contain. */
module Nl80211Query {
  import opened Bytes
  import opened Netlink
  import opened Nl80211Messages

  /** A message as it lies in a datagram: exactly as long as it says. */
  type Msg = m: seq<byte> | |m| >= NLMSG_HDRLEN && MsgLen(m) == |m|
    witness [16, 0, 0, 0, 0, 0, 0, 0, 0, 0, 0, 0, 0, 0, 0, 0]

  predicate MessageAt(d: seq<byte>, i: nat) {
    i + NLMSG_HDRLEN <= |d| && NLMSG_HDRLEN <= Get32(d, i) <= |d| - i
  }

  /** The well-formed messages from offset `i` on, up to the first bad length. */
  function MessagesFrom(d: seq<byte>, i: nat): seq<Msg>
    decreases |d| - i
  {
    if !MessageAt(d, i) then []
    else [MessageAtOffset(d, i)] + MessagesFrom(d, i + Align4(Get32(d, i)))
  }

  function MessageAtOffset(d: seq<byte>, i: nat): (m: Msg)
    requires MessageAt(d, i)
    ensures m == d[i..i + Get32(d, i)]
  {
    var m := d[i..i + Get32(d, i)];
    assert Get32(m, 0) == Get32(d, i);
    m
  }

  function Messages(d: seq<byte>): seq<Msg> {
    MessagesFrom(d, 0)
  }

  predicate IsError(m: Msg) { MsgType(m) == NLMSG_ERROR }
  predicate IsEnd(m: Msg) { MsgType(m) == NLMSG_ERROR || MsgType(m) == NLMSG_DONE }
  predicate IsMulti(m: Msg) { MsgFlags(m) / 2 % 2 == 1 }

  /** Steps past the message at `i`. */
  lemma StepMessages(d: seq<byte>, i: nat, left: seq<Msg>, next: nat) returns (rest: seq<Msg>)
    requires MessageAt(d, i) && left == MessagesFrom(d, i) && next == i + Align4(Get32(d, i))
    ensures left == [MessageAtOffset(d, i)] + rest && rest == left[1..]
    ensures rest == MessagesFrom(d, next)
  {
    rest := MessagesFrom(d, next);
  }

  // ----- acknowledgements

  function FirstError(ms: seq<Msg>): Option<Msg> {
    if ms == [] then None else if IsError(ms[0]) then Some(ms[0]) else FirstError(ms[1..])
  }

  /** `reply` is None when the socket, the send or the receive failed. */
  method DoAck(reply: Option<seq<byte>>) returns (ok: bool)
    ensures ok <==> reply.Some? && var e := FirstError(Messages(reply.value)); e.Some? && IsAck(e.value)
  {
    if reply.None? {
      return false;
    }
    var d := reply.value;
    var i, remaining := 0, |d| as int;
    ghost var left := Messages(d);
    while remaining >= NLMSG_HDRLEN
      invariant i + remaining == |d| && left == MessagesFrom(d, i)
      invariant FirstError(Messages(d)) == FirstError(left)
    {
      var len := Get32(d, i);
      if len < NLMSG_HDRLEN || len > remaining {
        break;
      }
      var m := MessageAtOffset(d, i);
      var next := i + Align4(len);
      left := StepMessages(d, i, left, next);
      if MsgType(m) == NLMSG_ERROR {
        ok := ParseAck(m);
        return;
      }
      remaining := remaining - Align4(len);
      i := next;
    }
    return false;
  }

  lemma Uncons(m: Msg, ms: seq<Msg>)
    ensures ([m] + ms)[0] == m && ([m] + ms)[1..] == ms
  {
  }

  // ----- queries

  datatype Wanted = WantAlpha2 | WantTxPower
  datatype Reading = Alpha2(letters: seq<byte>) | TxPower(mBm: s32)

  /** What the callback of a query takes from one message, if anything. */
  function ReadingIn(w: Wanted, m: Msg): Option<Reading> {
    match w
    case WantAlpha2 => (match Alpha2In(m) case Some(a) => Some(Alpha2(a)) case None => None)
    case WantTxPower => (match TxPowerIn(m) case Some(v) => Some(TxPower(v)) case None => None)
  }

  function FirstReading(w: Wanted, ms: seq<Msg>): Option<Reading> {
    if ms == [] then None
    else if ReadingIn(w, ms[0]).Some? then ReadingIn(w, ms[0])
    else FirstReading(w, ms[1..])
  }

  /** A query waits for no datagram after one that ends the exchange or that
      carries no multipart message. */
  predicate IsLast(ms: seq<Msg>) {
    (exists m :: m in ms && IsEnd(m)) || (forall m :: m in ms ==> !IsMulti(m))
  }

  /** The messages of all datagrams a query waits for. */
  function Awaited(ds: seq<seq<byte>>): seq<Msg> {
    if ds == [] then []
    else
      var ms := Messages(ds[0]);
      if IsLast(ms) then ms else ms + Awaited(ds[1..])
  }

  /** The messages before the first ERROR or DONE. */
  function BeforeEnd(ms: seq<Msg>): seq<Msg> {
    if ms == [] || IsEnd(ms[0]) then [] else [ms[0]] + BeforeEnd(ms[1..])
  }

  /** The answer to a query over a series of datagrams: the reading of the first
      message that has one, before the end of the exchange. */
  function Answer(w: Wanted, ds: seq<seq<byte>>): Option<Reading> {
    FirstReading(w, BeforeEnd(Awaited(ds)))
  }

  /** Runs the callback on one message. */
  method Callback(w: Wanted, m: Msg, outSize: nat) returns (r: Option<Reading>)
    requires outSize >= 3
    ensures r == ReadingIn(w, m)
  {
    match w {
      case WantAlpha2 =>
        var a := ParseAlpha2(m, outSize);
        r := match a case Some(s) => Some(Alpha2(s)) case None => None;
      case WantTxPower =>
        var v := ParseTxPower(m);
        r := match v case Some(x) => Some(TxPower(x)) case None => None;
    }
  }

  lemma SkipMessage(w: Wanted, m: Msg, ms: seq<Msg>)
    ensures IsEnd(m) ==> BeforeEnd([m] + ms) == []
    ensures !IsEnd(m) ==> BeforeEnd([m] + ms) == [m] + BeforeEnd(ms)
    ensures !IsEnd(m) && ReadingIn(w, m).Some? ==> FirstReading(w, BeforeEnd([m] + ms)) == ReadingIn(w, m)
    ensures !IsEnd(m) && ReadingIn(w, m) == None
            ==> FirstReading(w, BeforeEnd([m] + ms)) == FirstReading(w, BeforeEnd(ms))
  {
    Uncons(m, ms);
    Uncons(m, BeforeEnd(ms));
  }

  /** Looks at one message: an acknowledgement or DONE ends the exchange, as does
      an error; anything else is put to the callback. */
  method Visit(w: Wanted, m: Msg, outSize: nat) returns (r: Option<Reading>, ended: bool)
    requires outSize >= 3
    ensures ended <==> IsEnd(m)
    ensures r == if IsEnd(m) then None else ReadingIn(w, m)
  {
    if MsgType(m) == NLMSG_ERROR {
      var acked := ParseAck(m);
      return None, true;
    }
    if MsgType(m) == NLMSG_DONE {
      return None, true;
    }
    r := Callback(w, m, outSize);
    ended := false;
  }

  /** What a pass over one datagram reports, when `after` is what later datagrams
      would still contribute: the answer if it stopped, else that nothing in
      this datagram answers, and whether another datagram is to be awaited. */
  ghost predicate Scanned(w: Wanted, ms: seq<Msg>, after: seq<Msg>, r: Option<Reading>, stop: bool, multi: bool) {
    var answer := FirstReading(w, BeforeEnd(ms + after));
    if stop then answer == r
    else r == None && answer == FirstReading(w, BeforeEnd(after)) && (multi <==> !IsLast(ms))
  }

  /** The state of a pass: `seen` is behind it and holds neither an end nor an
      answer, `left` is ahead. */
  ghost predicate Scanning(w: Wanted, all: seq<Msg>, after: seq<Msg>, seen: seq<Msg>, left: seq<Msg>, multi: bool) {
    && all == seen + left
    && FirstReading(w, BeforeEnd(all + after)) == FirstReading(w, BeforeEnd(left + after))
    && (forall m :: m in seen ==> !IsEnd(m))
    && (multi <==> exists m :: m in seen && IsMulti(m))
  }

  lemma ScanStep(w: Wanted, all: seq<Msg>, after: seq<Msg>, seen: seq<Msg>, m: Msg, rest: seq<Msg>, multi: bool)
    requires Scanning(w, all, after, seen, [m] + rest, multi)
    ensures IsEnd(m) ==> FirstReading(w, BeforeEnd(all + after)) == None
    ensures !IsEnd(m) && ReadingIn(w, m).Some? ==> FirstReading(w, BeforeEnd(all + after)) == ReadingIn(w, m)
    ensures !IsEnd(m) && ReadingIn(w, m) == None ==>
      Scanning(w, all, after, seen + [m], rest, multi || IsMulti(m))
  {
    assert [m] + rest + after == [m] + (rest + after);
    assert seen + ([m] + rest) == seen + [m] + rest;
    SkipMessage(w, m, rest + after);
  }

  lemma ScanEnd(w: Wanted, all: seq<Msg>, after: seq<Msg>, seen: seq<Msg>, multi: bool)
    requires Scanning(w, all, after, seen, [], multi)
    ensures Scanned(w, all, after, None, false, multi)
  {
    assert seen + [] == seen && [] + after == after;
  }

  method ScanDatagram(w: Wanted, d: seq<byte>, outSize: nat, ghost after: seq<Msg>)
    returns (r: Option<Reading>, stop: bool, multi: bool)
    requires outSize >= 3
    ensures Scanned(w, Messages(d), after, r, stop, multi)
  {
    var i, remaining := 0, |d| as int;
    multi := false;
    ghost var all := Messages(d);
    ghost var seen, left: seq<Msg> := [], all;
    assert [] + all == all;
    while remaining >= NLMSG_HDRLEN
      invariant i + remaining == |d| && left == MessagesFrom(d, i)
      invariant Scanning(w, all, after, seen, left, multi)
    {
      var len := Get32(d, i);
      if len < NLMSG_HDRLEN || len > remaining {
        break;
      }
      var m := MessageAtOffset(d, i);
      var next := i + Align4(len);
      ghost var rest := StepMessages(d, i, left, next);
      ScanStep(w, all, after, seen, m, rest, multi);
      var ended;
      r, ended := Visit(w, m, outSize);
      if ended || r.Some? {
        return r, true, multi;
      }
      multi := multi || IsMulti(m);
      seen, left := seen + [m], rest;
      remaining := remaining - Align4(len);
      i := next;
    }
    ScanEnd(w, all, after, seen, multi);
    return None, false, multi;
  }

  /** `ds` are the datagrams that will arrive; receiving past them fails. */
  method DoQuery(w: Wanted, ds: seq<seq<byte>>, outSize: nat) returns (r: Option<Reading>)
    requires outSize >= 3
    ensures r == Answer(w, ds)
  {
    var k := 0;
    while k < |ds|
      invariant k <= |ds| && Answer(w, ds) == Answer(w, ds[k..])
    {
      ghost var ms, rest := Messages(ds[k]), ds[k + 1..];
      ghost var after := if IsLast(ms) then [] else Awaited(rest);
      assert ds[k..][1..] == rest && ms + [] == ms;
      var got, stop, multi := ScanDatagram(w, ds[k], outSize, after);
      assert Awaited(ds[k..]) == ms + after;
      if stop || !multi {
        return got;
      }
      k := k + 1;
    }
    return None;
  }

  /** Reading the answer positionally: the message at `k` answers, and nothing
      before it does. */
  lemma {:induction false} FirstReadingAt(w: Wanted, ms: seq<Msg>)
    ensures FirstReading(w, ms) == None <==> forall j :: 0 <= j < |ms| ==> ReadingIn(w, ms[j]) == None
    ensures FirstReading(w, ms).Some? ==>
      exists k :: 0 <= k < |ms| && ReadingIn(w, ms[k]) == FirstReading(w, ms)
                  && forall j :: 0 <= j < k ==> ReadingIn(w, ms[j]) == None
  {
    if ms != [] && ReadingIn(w, ms[0]) == None {
      FirstReadingAt(w, ms[1..]);
      if FirstReading(w, ms).Some? {
        var k :| 0 <= k < |ms[1..]| && ReadingIn(w, ms[1..][k]) == FirstReading(w, ms)
                 && forall j :: 0 <= j < k ==> ReadingIn(w, ms[1..][j]) == None;
        forall j | 0 <= j < k + 1 ensures ReadingIn(w, ms[j]) == None {
          assert j > 0 ==> ms[j] == ms[1..][j - 1];
        }
        assert ms[k + 1] == ms[1..][k];
      } else {
        assert forall j :: 0 < j < |ms| ==> ms[j] == ms[1..][j - 1];
      }
    }
  }

  /** The cut keeps a prefix that stops short of the first ending message. */
  lemma {:induction false} BeforeEndIsPrefix(ms: seq<Msg>)
    ensures var b := BeforeEnd(ms);
            && b <= ms
            && (forall j :: 0 <= j < |b| ==> !IsEnd(b[j]))
            && (|b| < |ms| ==> IsEnd(ms[|b|]))
  {
    if ms != [] && !IsEnd(ms[0]) {
      BeforeEndIsPrefix(ms[1..]);
    }
  }

  // ----- the family id and the controls built on it

  function BeforeError(ms: seq<Msg>): seq<Msg> {
    if ms == [] || IsError(ms[0]) then [] else [ms[0]] + BeforeError(ms[1..])
  }

  function FirstFamilyId(ms: seq<Msg>): Option<u16> {
    if ms == [] then None
    else if FamilyIdIn(ms[0]).Some? then FamilyIdIn(ms[0])
    else FirstFamilyId(ms[1..])
  }

  type FamilyId = x: int | -1 <= x < 0x1_0000

  /** The family id known after asking: a cached one stays, else the first that
      the reply names before any ERROR. */
  function Resolved(cached: FamilyId, reply: Option<seq<byte>>): FamilyId {
    if cached >= 0 then cached
    else if reply.None? then -1
    else match FirstFamilyId(BeforeError(Messages(reply.value))) case Some(v) => v case None => -1
  }

  class Wireless {
    /** -1 until the controller has answered once. */
    var familyIdCached: FamilyId

    constructor ()
      ensures familyIdCached == -1
    {
      familyIdCached := -1;
    }

    /** Asks the controller once; a known id is returned without asking. */
    method GetFamilyId(reply: Option<seq<byte>>) returns (id: FamilyId)
      modifies this
      ensures id == familyIdCached == Resolved(old(familyIdCached), reply)
    {
      if familyIdCached >= 0 {
        return familyIdCached;
      }
      if reply.None? {
        return -1;
      }
      var d := reply.value;
      var i, remaining := 0, |d| as int;
      ghost var left := Messages(d);
      ghost var want := FirstFamilyId(BeforeError(left));
      while remaining >= NLMSG_HDRLEN
        invariant i + remaining == |d| && left == MessagesFrom(d, i)
        invariant want == FirstFamilyId(BeforeError(left))
        invariant familyIdCached == -1
      {
        var len := Get32(d, i);
        if len < NLMSG_HDRLEN || len > remaining {
          break;
        }
        var m := MessageAtOffset(d, i);
        var next := i + Align4(len);
        left := StepMessages(d, i, left, next);
        Uncons(m, BeforeError(left));
        if MsgType(m) == NLMSG_ERROR {
          var acked := ParseAck(m);
          return -1;
        }
        var got := ParseFamilyId(m);
        if got.Some? {
          familyIdCached := got.value;
          return familyIdCached;
        }
        remaining := remaining - Align4(len);
        i := next;
      }
      return -1;
    }

    /** `family` is the controller's reply, `ds` the replies to the query, and
        `sent` the query itself, empty when none was sent. */
    method GetTxPower(phy: s32, family: Option<seq<byte>>, ds: seq<seq<byte>>)
      returns (r: Option<s32>, sent: seq<byte>)
      modifies this
      ensures familyIdCached == if phy < 0 then old(familyIdCached) else Resolved(old(familyIdCached), family)
      ensures sent == if phy >= 0 && familyIdCached > 0
                      then Request(familyIdCached, CMD_GET_WIPHY, GetWiphyAttrs(phy)) else []
      ensures r.Some? ==> sent != [] && Answer(WantTxPower, ds) == Some(TxPower(r.value))
      ensures sent != [] && Answer(WantTxPower, ds).Some? ==> r.Some?
    {
      sent := [];
      if phy < 0 {
        return None, sent;
      }
      var id := GetFamilyId(family);
      if id < 0 {
        return None, sent;
      }
      assert GetWiphyAttrs(phy)[1..] == [] && AttrsSize(GetWiphyAttrs(phy)) == 8;
      var req := new byte[64];
      var n := BuildGetWiphy(req, id, phy);
      if n < 0 {
        return None, sent;
      }
      sent := req[..n];
      var got := DoQuery(WantTxPower, ds, 3);
      ReadingKind(WantTxPower, BeforeEnd(Awaited(ds)));
      r := match got case Some(TxPower(v)) => Some(v) case _ => None;
    }

    /** The request for a level carries that level back, except that -1 asks for
        AUTOMATIC and carries none. `sent` is empty when nothing was sent. */
    method SetTxPower(phy: s32, mBm: s32, family: Option<seq<byte>>, reply: Option<seq<byte>>)
      returns (ok: bool, sent: seq<byte>)
      modifies this
      ensures familyIdCached == if phy < 0 then old(familyIdCached) else Resolved(old(familyIdCached), family)
      ensures sent != [] <==> phy >= 0 && familyIdCached > 0
      ensures sent != [] ==> Complete(sent) && TxPowerIn(sent) == if mBm == -1 then None else Some(mBm)
      ensures sent == [] ==> !ok
      ensures sent != [] ==>
        (ok <==> reply.Some? && var e := FirstError(Messages(reply.value)); e.Some? && IsAck(e.value))
    {
      if phy < 0 {
        return false, [];
      }
      var id := GetFamilyId(family);
      if id < 0 {
        return false, [];
      }
      var setting, level := TX_POWER_FIXED, mBm;
      if mBm == -1 {
        setting, level := TX_POWER_AUTOMATIC, 0;
      }
      TxPowerSize(phy, setting, level);
      var req := new byte[128];
      var n := BuildSetTxPower(req, id, phy, setting, level);
      if n < 0 {
        return false, [];
      }
      sent := req[..n];
      TxPowerRoundTrip(sent, id, phy, setting, level);
      ok := DoAck(reply);
    }
  }

  lemma {:induction false} ReadingKind(w: Wanted, ms: seq<Msg>)
    ensures match FirstReading(w, ms)
            case Some(Alpha2(_)) => w == WantAlpha2
            case Some(TxPower(_)) => w == WantTxPower
            case None => true
  {
    if ms != [] {
      ReadingKind(w, ms[1..]);
    }
  }
}
