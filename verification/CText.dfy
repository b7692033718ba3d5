/** C string helpers over `string`; each character stands for one byte. */
module CText {
  import opened Bytes

  const NUL: char := '\0'

  type i64 = x: int | -0x8000_0000_0000_0000 <= x < 0x8000_0000_0000_0000

  // ----- searching

  /** Index of the first occurrence, or the length. */
  function IndexOf(s: string, c: char): (i: nat)
    ensures i <= |s| && (forall j :: 0 <= j < i ==> s[j] != c) && (i < |s| ==> s[i] == c)
  {
    if s == "" || s[0] == c then 0 else 1 + IndexOf(s[1..], c)
  }

  /** Index of the last occurrence, or the length. */
  function LastIndexOf(s: string, c: char): (i: nat)
    ensures i <= |s| && (i < |s| ==> s[i] == c)
    ensures forall j :: i < j < |s| ==> s[j] != c
    ensures i == |s| ==> c !in s
  {
    if s == "" then 0
    else if s[|s| - 1] == c then |s| - 1
    else
      var i := LastIndexOf(s[..|s| - 1], c);
      if i == |s| - 1 then |s| else i
  }

  /** The C string that starts at the head of a buffer. */
  function CStr(s: string): (r: string)
    ensures r <= s && NUL !in r && (NUL !in s ==> r == s) && (|r| < |s| ==> s[|r|] == NUL)
  {
    s[..IndexOf(s, NUL)]
  }

  predicate Lacks(s: string, c: char) {
    forall i :: 0 <= i < |s| ==> s[i] != c
  }

  lemma LacksConcat(s: string, t: string, c: char)
    requires Lacks(s, c) && Lacks(t, c)
    ensures Lacks(s + t, c)
  {
  }

  lemma IndexOfSplit(s: string, c: char, t: string)
    requires Lacks(s, c)
    ensures IndexOf(s + [c] + t, c) == |s|
  {
    var u := s + [c] + t;
    assert u[|s|] == c && forall i :: 0 <= i < |s| ==> u[i] == s[i];
  }

  predicate IsBlank(c: char) { c == ' ' || c == '\t' }
  predicate IsEol(c: char) { c == '\n' || c == '\r' }
  predicate IsDigit(c: char) { '0' <= c <= '9' }
  predicate IsHex(c: char) { IsDigit(c) || 'a' <= c <= 'f' || 'A' <= c <= 'F' }
  predicate IsAlpha(c: char) { 'a' <= c <= 'z' || 'A' <= c <= 'Z' }
  predicate IsSpace(c: char) { c == ' ' || '\t' <= c <= '\r' }

  /** snprintf("%s") into a slot of `size` bytes. */
  function Slot(s: string, size: nat): (r: string)
    requires size > 0
    ensures r <= s && |r| < size && (|s| < size ==> r == s) && (|s| >= size ==> |r| == size - 1)
  {
    s[..MinNat(|s|, size - 1)]
  }

  // ----- strtok and strcasecmp

  /** Number of leading characters that are (`among`) or are not delimiters. */
  function Span(s: string, delims: set<char>, among: bool): (n: nat)
    ensures n <= |s| && (forall j :: 0 <= j < n ==> (s[j] in delims) == among)
    ensures n < |s| ==> (s[n] in delims) != among
  {
    if s == "" || (s[0] in delims) != among then 0 else 1 + Span(s[1..], delims, among)
  }

  /** The tokens a strtok_r loop visits. */
  function Tokens(s: string, delims: set<char>): seq<string>
    decreases |s|
  {
    var t := s[Span(s, delims, true)..];
    if t == "" then [] else
      var n := Span(t, delims, false);
      [t[..n]] + Tokens(t[n..], delims)
  }

  /** One strtok_r call on the text still to be scanned. */
  method NextToken(s: string, delims: set<char>) returns (tok: Option<string>, rest: string)
    ensures tok == None ==> Tokens(s, delims) == []
    ensures tok.Some? ==> tok.value != "" && |rest| < |s|
    ensures tok.Some? ==> Tokens(s, delims) == [tok.value] + Tokens(rest, delims)
  {
    var i := Span(s, delims, true);
    var t := s[i..];
    if t == "" {
      return None, "";
    }
    var n := Span(t, delims, false);
    return Some(t[..n]), t[n..];
  }

  function Lower(c: char): char {
    if 'A' <= c <= 'Z' then c - 'A' + 'a' else c
  }

  predicate CaseEq(s: string, t: string) {
    |s| == |t| && forall i :: 0 <= i < |s| ==> Lower(s[i]) == Lower(t[i])
  }

  // ----- decimal numbers

  function Digit(d: nat): (c: char)
    requires d < 10
    ensures IsDigit(c)
  {
    '0' + d as char
  }

  function DigitValue(c: char): nat
    requires IsDigit(c)
  {
    (c - '0') as nat
  }

  function Dec(n: nat): (s: string)
    ensures s != "" && forall i :: 0 <= i < |s| ==> IsDigit(s[i])
  {
    if n < 10 then [Digit(n)] else Dec(n / 10) + [Digit(n % 10)]
  }

  function Magnitude(v: int): nat {
    if v < 0 then -v else v
  }

  /** printf("%lld"). */
  function PrintInt(v: int): (s: string)
    ensures s != "" && (IsDigit(s[0]) || s[0] == '-') && forall i :: 0 < i < |s| ==> IsDigit(s[i])
  {
    if v < 0 then "-" + Dec(Magnitude(v)) else Dec(v)
  }

  predicate AllDigits(s: string) {
    forall i :: 0 <= i < |s| ==> IsDigit(s[i])
  }

  function Value(s: string): nat
    requires AllDigits(s)
  {
    if s == "" then 0 else Value(s[..|s| - 1]) * 10 + DigitValue(s[|s| - 1])
  }

  lemma {:induction false} ValueDec(n: nat)
    ensures Value(Dec(n)) == n
  {
    if n < 10 {
      assert [Digit(n)][..0] == "";
    } else {
      ValueDec(n / 10);
      assert Dec(n)[..|Dec(n)| - 1] == Dec(n / 10);
    }
  }

  function Pow10(k: nat): nat {
    if k == 0 then 1 else 10 * Pow10(k - 1)
  }

  lemma {:induction false} DecLength(n: nat, k: nat)
    requires n < Pow10(k) && k > 0
    ensures |Dec(n)| <= k
  {
    if n >= 10 {
      assert k > 1 by {
        assert Pow10(1) == 10;
      }
      DecLength(n / 10, k - 1);
    }
  }

  /** Sign, nineteen digits: every 64-bit value prints in at most 20 bytes. */
  lemma PrintIntLength(v: i64)
    ensures |PrintInt(v)| <= 20
  {
    assert Pow10(19) == 10_000_000_000_000_000_000 by {
      assert Pow10(5) == 100_000 && Pow10(10) == 10_000_000_000 && Pow10(15) == 1_000_000_000_000_000;
    }
    DecLength(Magnitude(v), 19);
  }

  function LeadSpace(s: string): (n: nat)
    ensures n <= |s|
  {
    if s == "" || !IsSpace(s[0]) then 0 else 1 + LeadSpace(s[1..])
  }

  function LeadDigits(s: string): (n: nat)
    ensures n <= |s| && AllDigits(s[..n]) && (n < |s| ==> !IsDigit(s[n]))
    ensures forall j :: 0 <= j < n ==> IsDigit(s[j])
  {
    if s == "" || !IsDigit(s[0]) then 0 else 1 + LeadDigits(s[1..])
  }

  /** strtoll(base 10): the value, where parsing stopped, and range overflow. */
  datatype Parsed = Parsed(value: int, end: nat, erange: bool)

  function Strtoll(s: string): (p: Parsed)
    ensures -0x8000_0000_0000_0000 <= p.value < 0x8000_0000_0000_0000 && p.end <= |s|
  {
    var i := LeadSpace(s);
    var k := if i < |s| && (s[i] == '-' || s[i] == '+') then i + 1 else i;
    var n := LeadDigits(s[k..]);
    if n == 0 then Parsed(0, 0, false)
    else
      var magnitude: int := Value(s[k..][..n]);
      var v := if i < k && s[i] == '-' then -magnitude else magnitude;
      if v < -0x8000_0000_0000_0000 then Parsed(-0x8000_0000_0000_0000, k + n, true)
      else if v > 0x7fff_ffff_ffff_ffff then Parsed(0x7fff_ffff_ffff_ffff, k + n, true)
      else Parsed(v, k + n, false)
  }

  lemma TailOfConcat<T>(d: seq<T>, rest: seq<T>)
    requires d != []
    ensures (d + rest)[0] == d[0] && (d + rest)[1..] == d[1..] + rest
  {
  }

  lemma {:induction false} LeadDigitsOf(d: string, rest: string)
    requires AllDigits(d) && (rest == "" || !IsDigit(rest[0]))
    decreases |d|
    ensures LeadDigits(d + rest) == |d| && (d + rest)[..|d|] == d
  {
    if d == "" {
      assert d + rest == rest;
    } else {
      TailOfConcat(d, rest);
      LeadDigitsOf(d[1..], rest);
    }
  }

  /** Parsing inverts printing, whatever non-digit text follows. */
  lemma StrtollPrint(v: i64, rest: string)
    requires rest == "" || !IsDigit(rest[0])
    ensures Strtoll(PrintInt(v) + rest) == Parsed(v, |PrintInt(v)|, false)
  {
    var s, d := PrintInt(v) + rest, Dec(Magnitude(v));
    var k := if v < 0 then 1 else 0;
    assert LeadSpace(s) == 0;
    assert s[k..] == d + rest;
    LeadDigitsOf(d, rest);
    ValueDec(Magnitude(v));
  }

  /** Accepts exactly a C string that is wholly one in-range number. */
  function CliParseInt(s: string): Option<i64> {
    var p := Strtoll(s);
    if s == "" || p.erange || p.end == 0 || p.end != |s| then None else Some(p.value)
  }

  lemma CliParsePrint(v: i64)
    ensures CliParseInt(PrintInt(v)) == Some(v)
  {
    StrtollPrint(v, "");
    assert PrintInt(v) + "" == PrintInt(v);
  }

  // ----- what a text is tokenised into

  predicate AllIn(s: string, delims: set<char>) {
    forall i :: 0 <= i < |s| ==> s[i] in delims
  }

  predicate NoneIn(s: string, delims: set<char>) {
    forall i :: 0 <= i < |s| ==> s[i] !in delims
  }

  lemma {:induction false} SpanPast(head: string, rest: string, delims: set<char>, among: bool)
    requires if among then AllIn(head, delims) else NoneIn(head, delims)
    ensures Span(head + rest, delims, among) == |head| + Span(rest, delims, among)
    decreases |head|
  {
    if head == "" {
      assert head + rest == rest;
    } else {
      TailOfConcat(head, rest);
      SpanPast(head[1..], rest, delims, among);
    }
  }

  lemma SkipGap(gap: string, rest: string, delims: set<char>)
    requires AllIn(gap, delims)
    ensures Tokens(gap + rest, delims) == Tokens(rest, delims)
  {
    SpanPast(gap, rest, delims, true);
    assert (gap + rest)[|gap| + Span(rest, delims, true)..] == rest[Span(rest, delims, true)..];
  }

  lemma TokenHead(tok: string, rest: string, delims: set<char>)
    requires tok != "" && NoneIn(tok, delims) && (rest == "" || rest[0] in delims)
    ensures Tokens(tok + rest, delims) == [tok] + Tokens(rest, delims)
  {
    var s := tok + rest;
    assert Span(s, delims, true) == 0 && s[0..] == s;
    SpanPast(tok, rest, delims, false);
    assert Span(rest, delims, false) == 0;
    assert s[..|tok|] == tok && s[|tok|..] == rest;
  }

  // ----- the tables and texts these stand for

  const LOWER := "abcdefghijklmnopqrstuvwxyz"
  const UPPER := "ABCDEFGHIJKLMNOPQRSTUVWXYZ"

  /** The character classes of the C locale, spelled out. */
  lemma Classes(c: char)
    ensures IsDigit(c) <==> c in "0123456789"
    ensures IsHex(c) <==> c in "0123456789" || c in "abcdef" || c in "ABCDEF"
    ensures IsAlpha(c) <==> c in LOWER || c in UPPER
    ensures IsBlank(c) <==> c in " \t"
    ensures IsEol(c) <==> c in "\r\n"
    ensures IsSpace(c) <==> c in " \t\n\r" || c as int == 11 || c as int == 12
  {
    DigitClass(c);
    LowerClass(c);
    UpperClass(c);
  }

  lemma DigitClass(c: char)
    ensures IsDigit(c) <==> c in "0123456789"
  {
    var s := "0123456789";
    assert forall i :: 0 <= i < 10 ==> s[i] == '0' + i as char;
    if IsDigit(c) {
      assert s[(c - '0') as int] == c;
    }
  }

  lemma LowerClass(c: char)
    ensures 'a' <= c <= 'z' <==> c in LOWER
  {
    assert forall i :: 0 <= i < 26 ==> LOWER[i] == 'a' + i as char;
    if 'a' <= c <= 'z' {
      assert LOWER[(c - 'a') as int] == c;
    }
  }

  lemma UpperClass(c: char)
    ensures 'A' <= c <= 'Z' <==> c in UPPER
  {
    assert forall i :: 0 <= i < 26 ==> UPPER[i] == 'A' + i as char;
    if 'A' <= c <= 'Z' {
      assert UPPER[(c - 'A') as int] == c;
    }
  }

  /** Texts are equal but for case when they agree everywhere up to the
      distance between a letter and its other case. */
  lemma CaseEqMeans(s: string, t: string)
    ensures CaseEq(s, t) <==>
            |s| == |t| && forall i :: 0 <= i < |s| ==>
              s[i] == t[i] || (IsAlpha(s[i]) && IsAlpha(t[i]) && (s[i] as int - t[i] as int == 32 || t[i] as int - s[i] as int == 32))
  {
    if |s| == |t| {
      forall i | 0 <= i < |s|
        ensures Lower(s[i]) == Lower(t[i]) <==>
                s[i] == t[i] || (IsAlpha(s[i]) && IsAlpha(t[i]) && (s[i] as int - t[i] as int == 32 || t[i] as int - s[i] as int == 32))
      {
        LowerMeans(s[i], t[i]);
      }
    }
  }

  lemma LowerMeans(a: char, b: char)
    ensures Lower(a) == Lower(b) <==>
            a == b || (IsAlpha(a) && IsAlpha(b) && (a as int - b as int == 32 || b as int - a as int == 32))
  {
    assert Lower(a) as int == if 'A' <= a <= 'Z' then a as int + 32 else a as int;
    assert Lower(b) as int == if 'A' <= b <= 'Z' then b as int + 32 else b as int;
  }

  lemma DigitTable(d: nat)
    requires d < 10
    ensures Digit(d) == "0123456789"[d] && DigitValue("0123456789"[d]) == d
  {
  }

  lemma {:induction false} LeadSpaceOf(w: string, rest: string)
    requires (forall i :: 0 <= i < |w| ==> IsSpace(w[i])) && (rest == "" || !IsSpace(rest[0]))
    ensures LeadSpace(w + rest) == |w|
    decreases |w|
  {
    if w == "" {
      assert w + rest == rest;
    } else {
      TailOfConcat(w, rest);
      LeadSpaceOf(w[1..], rest);
    }
  }

  function Clamped(v: int, end: nat): Parsed {
    if v < -0x8000_0000_0000_0000 then Parsed(-0x8000_0000_0000_0000, end, true)
    else if v >= 0x8000_0000_0000_0000 then Parsed(0x7fff_ffff_ffff_ffff, end, true)
    else Parsed(v, end, false)
  }

  lemma StrtollAt(s: string, i: nat, k: nat, d: string, n: nat, v: int)
    requires LeadSpace(s) == i <= k <= |s|
    requires k == if i < |s| && (s[i] == '-' || s[i] == '+') then i + 1 else i
    requires LeadDigits(s[k..]) == |d| > 0 && s[k..][..|d|] == d && Value(d) == n
    requires v == if i < k && s[i] == '-' then -1 * n else n
    ensures Strtoll(s) == Clamped(v, k + |d|)
  {
  }

  /** White space, a sign and digits are a number, whatever its size: the value if
      it fits 64 bits, else the nearest bound with the overflow reported. */
  lemma StrtollReads(w: string, sign: string, n: nat, rest: string, s: string, v: int)
    requires s == w + (sign + (Dec(n) + rest)) && (sign == "" || sign == "+" || sign == "-")
    requires forall i :: 0 <= i < |w| ==> IsSpace(w[i])
    requires rest == "" || !IsDigit(rest[0])
    requires v == if sign == "-" then -1 * n else n
    ensures Strtoll(s) == Clamped(v, |w| + |sign| + |Dec(n)|)
  {
    var d, tail, k := Dec(n), Dec(n) + rest, |w| + |sign|;
    assert tail[0] == d[0];
    assert IsDigit(tail[0]) && (sign == "" || sign[0] == '+' || sign[0] == '-');
    SignedTail(w, sign, tail, s);
    LeadDigitsOf(d, rest);
    ValueDec(n);
    StrtollAt(s, |w|, k, d, n, v);
  }

  lemma SignedTail(w: string, sign: string, tail: string, s: string)
    requires s == w + (sign + tail) && |sign| <= 1 && (sign == "" || !IsSpace(sign[0]))
    requires (forall i :: 0 <= i < |w| ==> IsSpace(w[i])) && tail != "" && IsDigit(tail[0])
    ensures LeadSpace(s) == |w| && s[|w| + |sign|..] == tail
    ensures |w| < |s| && s[|w|] == if sign == "" then tail[0] else sign[0]
  {
    var t := sign + tail;
    assert t[0] == if sign == "" then tail[0] else sign[0];
    LeadSpaceOf(w, t);
    SkipBoth(w, sign, tail, s);
  }

  lemma SkipBoth(a: string, b: string, c: string, s: string)
    requires s == a + (b + c)
    ensures s[|a| + |b|..] == c && s[|a|..] == b + c
  {
  }

  lemma SignedText(v: int, sign: string, n: nat, rest: string, s: string)
    requires s == PrintInt(v) + rest && n == Magnitude(v) && sign == if v < 0 then "-" else ""
    ensures s == "" + (sign + (Dec(n) + rest)) && |s| == |sign| + |Dec(n)| + |rest|
    ensures (sign == "" || sign == "-") && v == if sign == "-" then -1 * n else n
  {
  }

  /** Nothing but one number in range is accepted: not the empty text, not a
      number with anything after it, and none beyond 64 bits. */
  lemma CliParseRefuses(v: int, rest: string)
    requires rest == "" || !IsDigit(rest[0])
    requires rest != "" || v < -0x8000_0000_0000_0000 || v >= 0x8000_0000_0000_0000
    ensures CliParseInt(PrintInt(v) + rest) == None
  {
    RefusesText(PrintInt(v) + rest, v, rest, Magnitude(v), if v < 0 then "-" else "");
  }

  lemma RefusesText(s: string, v: int, rest: string, n: nat, sign: string)
    requires s == PrintInt(v) + rest && n == Magnitude(v) && sign == if v < 0 then "-" else ""
    requires rest == "" || !IsDigit(rest[0])
    requires rest != "" || v < -0x8000_0000_0000_0000 || v >= 0x8000_0000_0000_0000
    ensures CliParseInt(s) == None
  {
    SignedText(v, sign, n, rest, s);
    StrtollReads("", sign, n, rest, s, v);
    NotAllOfIt(s, v, |""| + |sign| + |Dec(n)|);
  }

  lemma NotAllOfIt(s: string, v: int, end: nat)
    requires Strtoll(s) == Clamped(v, end)
    requires end < |s| || v < -0x8000_0000_0000_0000 || v >= 0x8000_0000_0000_0000
    ensures CliParseInt(s) == None
  {
  }
}
