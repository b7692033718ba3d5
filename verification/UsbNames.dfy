/** USB device names: the directory-entry automaton against its grammar, and the
    check made when a device is opened. */
module UsbNames {
  import opened Bytes
  import opened CText

  predicate IsAlnum(c: char) { IsAlpha(c) || IsDigit(c) }
  predicate IsSep(c: char) { c == '-' || c == '.' }

  predicate Digits(s: string) {
    s != "" && AllDigits(s)
  }

  /** Digit runs joined by single separators. */
  ghost predicate Chain(s: string)
    decreases |s|
  {
    Digits(s) || exists k :: 0 < k < |s| - 1 && Digits(s[..k]) && IsSep(s[k]) && Chain(s[k + 1..])
  }

  /** A root hub or a port path. */
  ghost predicate DeviceName(s: string) {
    ("usb" <= s && Digits(s[3..])) || Chain(s)
  }

  /** Digits, and single separators between them. */
  predicate Spaced(s: string) {
    && (forall i :: 0 <= i < |s| ==> IsDigit(s[i]) || IsSep(s[i]))
    && (forall i :: 0 <= i < |s| - 1 ==> !(IsSep(s[i]) && IsSep(s[i + 1])))
  }

  predicate PortPath(s: string) {
    s != "" && Spaced(s) && IsDigit(s[0]) && IsDigit(s[|s| - 1])
  }

  lemma {:induction false} ChainIsPath(s: string)
    requires Chain(s)
    ensures PortPath(s)
    decreases |s|
  {
    if !Digits(s) {
      var k :| 0 < k < |s| - 1 && Digits(s[..k]) && IsSep(s[k]) && Chain(s[k + 1..]);
      ChainIsPath(s[k + 1..]);
      JoinedPath(s, k, s[..k], s[k + 1..]);
    }
  }

  lemma JoinedPath(s: string, k: nat, run: string, t: string)
    requires 0 < k < |s| && run == s[..k] && t == s[k + 1..]
    requires AllDigits(run) && IsSep(s[k]) && PortPath(t)
    ensures PortPath(s)
  {
    forall i | 0 <= i < |s|
      ensures IsDigit(s[i]) || IsSep(s[i])
      ensures i < |s| - 1 ==> !(IsSep(s[i]) && IsSep(s[i + 1]))
    {
      if i < k {
        assert s[i] == run[i];
      } else if i > k {
        var j := i - k - 1;
        assert s[i] == t[j] && (i < |s| - 1 ==> s[i + 1] == t[j + 1]);
      } else {
        assert s[i + 1] == t[0];
      }
    }
    assert s[0] == run[0] && s[|s| - 1] == t[|t| - 1];
  }

  lemma {:induction false} PathIsChain(s: string)
    requires PortPath(s)
    ensures Chain(s)
    decreases |s|
  {
    var k := LeadDigits(s);
    if k < |s| {
      var t := s[k + 1..];
      assert IsSep(s[k]) && 0 < k;
      assert k < |s| - 1;
      assert t[0] == s[k + 1] && t[|t| - 1] == s[|s| - 1];
      assert forall i :: 0 <= i < |t| ==> t[i] == s[k + 1 + i];
      PathIsChain(t);
      assert Digits(s[..k]) && IsSep(s[k]) && Chain(t);
    }
  }

  /** Accepts exactly the grammar. */
  method IsUsbDeviceEntry(name: string) returns (ok: bool)
    ensures ok <==> DeviceName(name)
  {
    if name == "" {
      return false;
    }
    if IndexOf(name, ':') < |name| {
      ghost var i := IndexOf(name, ':');
      NotAName(name, i);
      return false;
    }
    if "usb" <= name && |name| > 3 && IsDigit(name[3]) {
      NotAPath(name);
      var c := 4;
      while c < |name|
        invariant 4 <= c <= |name| && forall i :: 3 <= i < c ==> IsDigit(name[i])
      {
        if !IsDigit(name[c]) {
          assert name[3..][c - 3] == name[c];
          return false;
        }
        c := c + 1;
      }
      return true;
    }
    if !IsDigit(name[0]) {
      NotAPath(name);
      return false;
    }
    assert !("usb" <= name);
    ok := ScanPath(name);
    if ok {
      PathIsChain(name);
    } else {
      NotAPath(name);
    }
  }

  /** The automaton: a digit clears the flag, a separator sets it, and a second
      separator in a row or at the end is refused. */
  method ScanPath(name: string) returns (ok: bool)
    requires name != "" && IsDigit(name[0])
    ensures ok <==> PortPath(name)
  {
    var lastWasSep := false;
    var c := 0;
    while c < |name|
      invariant 0 <= c <= |name| && Spaced(name[..c])
      invariant lastWasSep <==> c > 0 && IsSep(name[c - 1])
    {
      if IsDigit(name[c]) {
        lastWasSep := false;
      } else if IsSep(name[c]) {
        if lastWasSep {
          return false;
        }
        lastWasSep := true;
      } else {
        return false;
      }
      assert name[..c + 1][..c] == name[..c];
      c := c + 1;
    }
    assert name[..c] == name;
    return !lastWasSep;
  }

  lemma NotAPath(name: string)
    ensures Chain(name) ==> PortPath(name)
    ensures name != "" && !IsDigit(name[0]) ==> !Chain(name)
  {
    if Chain(name) {
      ChainIsPath(name);
    }
  }

  lemma NotAName(name: string, i: nat)
    requires i < |name| && name[i] == ':'
    ensures !DeviceName(name)
  {
    if DeviceName(name) {
      EntriesCanBeOpened(name);
    }
  }

  /** The check made before a device is opened. */
  predicate DevPathOk(p: string) {
    && p != "" && (forall i :: 0 <= i < |p| ==> IsAlnum(p[i]) || p[i] == '-' || p[i] == '.')
    && (IsDigit(p[0]) || ("usb" <= p && |p| > 3 && IsDigit(p[3])))
  }

  method DevPathValid(p: string) returns (ok: bool)
    ensures ok <==> DevPathOk(p)
  {
    if p == "" {
      return false;
    }
    var c := 0;
    while c < |p|
      invariant 0 <= c <= |p|
      invariant forall i :: 0 <= i < c ==> IsAlnum(p[i]) || p[i] == '-' || p[i] == '.'
    {
      if p[c] == '/' || p[c] == ':' {
        return false;
      }
      if !(IsAlnum(p[c]) || p[c] == '-' || p[c] == '.') {
        return false;
      }
      c := c + 1;
    }
    if IsDigit(p[0]) {
      return true;
    }
    return "usb" <= p && |p| > 3 && IsDigit(p[3]);
  }

  /** Every name that enumeration offers can be opened. */
  lemma EntriesCanBeOpened(name: string)
    requires DeviceName(name)
    ensures DevPathOk(name)
  {
    if "usb" <= name && Digits(name[3..]) {
      assert forall i :: 3 <= i < |name| ==> name[i] == name[3..][i - 3];
      assert forall i :: 0 <= i < 3 ==> name[i] == "usb"[i];
    } else {
      ChainIsPath(name);
    }
  }

  // ----- the accepted names, character by character

  predicate IsFigure(c: char) { '0' <= c <= '9' }

  /** Figures, dashes and dots, with a figure at both ends and next to every dash
      and dot. */
  predicate Figures(s: string) {
    && s != "" && IsFigure(s[0]) && IsFigure(s[|s| - 1])
    && (forall i :: 0 <= i < |s| ==> IsFigure(s[i]) || s[i] == '-' || s[i] == '.')
    && (forall i :: 0 <= i < |s| - 1 ==> IsFigure(s[i]) || IsFigure(s[i + 1]))
  }

  lemma NamesAre(s: string)
    ensures DeviceName(s) <==>
            Figures(s) || (|s| > 3 && s[..3] == "usb" && forall i :: 3 <= i < |s| ==> IsFigure(s[i]))
  {
    PathsAre(s);
    if PortPath(s) {
      PathIsChain(s);
    }
    if Chain(s) {
      ChainIsPath(s);
    }
    UsbAre(s);
  }

  lemma PathsAre(s: string)
    ensures PortPath(s) <==> Figures(s)
  {
  }

  lemma UsbAre(s: string)
    ensures "usb" <= s && Digits(s[3..]) <==>
            |s| > 3 && s[..3] == "usb" && forall i :: 3 <= i < |s| ==> IsFigure(s[i])
  {
    if |s| >= 3 {
      assert forall i :: 3 <= i < |s| ==> s[i] == s[3..][i - 3];
      assert s[..3] == "usb" <==> "usb" <= s;
    }
  }

  /** What may be opened: letters, figures, dashes and dots, beginning with a figure
      or with "usb" and a figure. */
  lemma OpenedAre(p: string)
    ensures DevPathOk(p) <==>
            && p != "" && (IsFigure(p[0]) || (|p| >= 4 && p[..3] == "usb" && IsFigure(p[3])))
            && forall i :: 0 <= i < |p| ==>
                 IsFigure(p[i]) || 'a' <= p[i] <= 'z' || 'A' <= p[i] <= 'Z' || p[i] == '-' || p[i] == '.'
  {
    assert |p| >= 3 ==> (p[..3] == "usb" <==> "usb" <= p);
  }
}
