/** Shared file helpers: text and integer reads through fixed buffers, and the
    doubling buffer that reads a whole binary file. */
module FileIo {
  import opened Bytes
  import opened CText

  // ----- text

  function StripEol(s: string): (r: string)
    ensures r <= s && (r == "" || !IsEol(r[|r| - 1]))
    ensures forall i :: |r| <= i < |s| ==> IsEol(s[i])
  {
    if s == "" || !IsEol(s[|s| - 1]) then s else StripEol(s[..|s| - 1])
  }

  /** What a reader with a buffer of `size` bytes sees of a file's content. */
  function FileText(content: string, size: nat): string
    requires size > 0
  {
    CStr(StripEol(content[..MinNat(|content|, size - 1)]))
  }

  /** `file` is None when it cannot be opened or read. */
  method ReadFileString(file: Option<string>, size: nat) returns (r: Option<string>)
    requires size > 0
    ensures r == match file case None => None case Some(c) => Some(FileText(c, size))
  {
    if file.None? {
      return None;
    }
    var n := MinNat(|file.value|, size - 1);
    var buf := file.value[..n];
    ghost var want := StripEol(buf);
    while n > 0 && IsEol(buf[n - 1])
      invariant 0 <= n <= |buf|
      invariant want == StripEol(buf[..n])
    {
      n := n - 1;
      assert buf[..n + 1][..n] == buf[..n];
    }
    return Some(CStr(buf[..n]));
  }

  /** Trailing line feeds and carriage returns are dropped, nothing else is. */
  lemma FileTextIs(body: string, eol: string, size: nat)
    requires |body| + |eol| < size && Lacks(body, '\0')
    requires body == "" || (body[|body| - 1] != '\n' && body[|body| - 1] != '\r')
    requires forall i :: 0 <= i < |eol| ==> eol[i] == '\n' || eol[i] == '\r'
    ensures FileText(body + eol, size) == body
  {
    StripEolAppend(body, eol);
    assert (body + eol)[..|body + eol|] == body + eol;
  }

  /** Nothing behind a NUL is seen. */
  lemma FileTextStops(body: string, more: string, size: nat)
    requires |body| + |more| + 1 < size && Lacks(body, '\0')
    requires more != "" && more[|more| - 1] != '\n' && more[|more| - 1] != '\r'
    ensures FileText(body + "\0" + more, size) == body
  {
    var s := body + "\0" + more;
    assert s[..|s|] == s && StripEol(s) == s;
    assert s == body + ['\0'] + more;
    IndexOfSplit(body, '\0', more);
  }

  /** A longer text is cut to one byte less than the buffer. */
  lemma FileTextCut(content: string, size: nat)
    requires |content| >= size > 1 && Lacks(content, '\0')
    requires content[size - 2] != '\n' && content[size - 2] != '\r'
    ensures FileText(content, size) == content[..size - 1]
  {
    var s := content[..size - 1];
    assert StripEol(s) == s;
    assert forall i :: 0 <= i < |s| ==> s[i] == content[i];
  }

  function FileI64(content: string): Option<int> {
    var p := Strtoll(FileText(content, 64));
    if p.erange || p.end == 0 then None else Some(p.value)
  }

  method ReadFileI64(file: Option<string>) returns (r: Option<int>)
    ensures r == match file case None => None case Some(c) => FileI64(c)
  {
    var text := ReadFileString(file, 64);
    if text.None? {
      return None;
    }
    var p := Strtoll(text.value);
    if p.erange || p.end == 0 {
      return None;
    }
    return Some(p.value);
  }

  /** The bytes that writing an integer puts in a file. */
  function I64Text(v: i64): string {
    Slot(PrintInt(v), 32)
  }

  lemma {:induction false} StripEolAppend(s: string, eol: string)
    requires s == "" || !IsEol(s[|s| - 1])
    requires forall i :: 0 <= i < |eol| ==> IsEol(eol[i])
    decreases |eol|
    ensures StripEol(s + eol) == s
  {
    if eol == "" {
      assert s + eol == s;
    } else {
      assert (s + eol)[..|s + eol| - 1] == s + eol[..|eol| - 1];
      StripEolAppend(s, eol[..|eol| - 1]);
    }
  }

  /** Any 64-bit value written and read back is unchanged, also when the file
      shows line ends after it. */
  lemma I64RoundTrip(v: i64, eol: string)
    requires forall i :: 0 <= i < |eol| ==> IsEol(eol[i])
    ensures I64Text(v) == PrintInt(v)
    ensures FileI64(I64Text(v) + eol) == Some(v)
  {
    PrintIntLength(v);
    var s := PrintInt(v);
    var keep := MinNat(|s + eol|, 63) - |s|;
    assert (s + eol)[..MinNat(|s + eol|, 63)] == s + eol[..keep];
    StripEolAppend(s, eol[..keep]);
    assert CStr(s) == s by {
      assert forall i :: 0 <= i < |s| ==> s[i] != NUL;
    }
    StrtollPrint(v, "");
    assert s + "" == s;
  }

  // ----- binary

  /** Capacity the doubling buffer ends with for a file of `n` bytes. */
  function GrowTo(n: nat, cap: nat): (r: nat)
    requires cap > 0
    ensures r > n && r >= cap
    decreases n - cap
  {
    if n < cap then cap else GrowTo(n, 2 * cap)
  }

  /** The capacity doubles, and stops doubling as soon as the file fits with room. */
  lemma {:induction false} GrowsByDoubling(n: nat, cap: nat)
    requires cap > 0
    ensures GrowTo(n, cap) == cap || GrowTo(n, cap) <= 2 * n
    ensures GrowTo(n, cap) == cap <==> n < cap
    decreases n - cap
  {
    if n >= cap {
      GrowsByDoubling(n, 2 * cap);
    }
  }

  method Realloc(a: array<byte>, keep: nat, size: nat) returns (b: array<byte>)
    requires keep <= a.Length && keep <= size
    ensures fresh(b) && b.Length == size && b[..keep] == a[..keep]
  {
    b := new byte[size](_ => 0);
    forall i | 0 <= i < keep {
      b[i] := a[i];
    }
  }

  /** `chunks` says how much each read delivers, `readable` how many bytes can be
      read before an I/O error, `heapLimit` the largest block that can be
      allocated. The terminator is in bounds even when the final shrink fails. */
  method ReadFileBinary(content: seq<byte>, readable: nat, chunks: seq<nat>, heapLimit: nat, shrinkFails: bool)
    returns (out: array?<byte>, len: nat)
    ensures out != null <==> |content| <= readable && GrowTo(|content|, 256) <= heapLimit
    ensures out != null ==> fresh(out) && len == |content| < out.Length
    ensures out != null ==> out[..len] == content && out[len] == 0
  {
    var avail := MinNat(|content|, readable);
    if 256 > heapLimit {
      return null, 0;
    }
    var cap := 256;
    var buf := new byte[cap](_ => 0);
    var calls := 0;
    len := 0;
    while true
      invariant fresh(buf) && buf.Length == cap > 0
      invariant len <= cap && len <= avail
      invariant buf[..len] == content[..len]
      invariant GrowTo(avail, cap) == GrowTo(avail, 256) && cap <= heapLimit
      decreases avail - len, len == avail
    {
      if len == cap {
        if 2 * cap > heapLimit {
          return null, len;
        }
        buf := Realloc(buf, len, 2 * cap);
        cap := 2 * cap;
      }
      var want := MinNat(cap - len, avail - len);
      var r := if calls < |chunks| && 0 < chunks[calls] then MinNat(chunks[calls], want) else want;
      calls := calls + 1;
      if r == 0 {
        break;
      }
      forall i | 0 <= i < r {
        buf[len + i] := content[len + i];
      }
      len := len + r;
    }
    if avail < |content| {
      return null, len;
    }
    assert content[..len] == content;
    if !shrinkFails {
      buf := Realloc(buf, len, len + 1);
    }
    buf[len] := 0;
    out := buf;
  }
}
