/** Battery indexing: the exchange sort that makes an index mean the same battery
    whatever order the directory lists them in. */
module Battery {
  import opened Bytes

  // ----- strcmp order

  predicate Le(a: string, b: string) {
    a == "" || (b != "" && (a[0] < b[0] || (a[0] == b[0] && Le(a[1..], b[1..]))))
  }

  lemma {:induction false} LeTotal(a: string, b: string)
    ensures Le(a, b) || Le(b, a)
    decreases |a|
  {
    if a != "" && b != "" && a[0] == b[0] {
      LeTotal(a[1..], b[1..]);
    }
  }

  lemma {:induction false} LeAntisymmetric(a: string, b: string)
    requires Le(a, b) && Le(b, a)
    ensures a == b
    decreases |a|
  {
    if a != "" && b != "" {
      LeAntisymmetric(a[1..], b[1..]);
      assert a == [a[0]] + a[1..] && b == [b[0]] + b[1..];
    }
  }

  lemma {:induction false} LeTransitive(a: string, b: string, c: string)
    requires Le(a, b) && Le(b, c)
    ensures Le(a, c)
    decreases |a|
  {
    if a != "" && a[0] == b[0] && b[0] == c[0] {
      LeTransitive(a[1..], b[1..], c[1..]);
    }
  }

  lemma {:induction false} LeReflexive(a: string)
    ensures Le(a, a)
    decreases |a|
  {
    if a != "" {
      LeReflexive(a[1..]);
    }
  }

  // ----- sorted lists are determined by what they hold

  predicate Sorted(s: seq<string>) {
    forall i, j :: 0 <= i < j < |s| ==> Le(s[i], s[j])
  }

  lemma HeadIsLeast(s: seq<string>, x: string)
    requires Sorted(s) && s != [] && x in multiset(s)
    ensures Le(s[0], x)
  {
    var k :| 0 <= k < |s| && s[k] == x;
    if k == 0 {
      LeReflexive(x);
    }
  }

  lemma WithoutHead(s: seq<string>)
    requires s != []
    ensures multiset(s[1..]) == multiset(s) - multiset{s[0]} && s == [s[0]] + s[1..]
  {
    assert s == [s[0]] + s[1..];
  }

  lemma {:induction false} SortedUnique(s: seq<string>, t: seq<string>)
    requires Sorted(s) && Sorted(t) && multiset(s) == multiset(t)
    ensures s == t
    decreases |s|
  {
    assert |s| == |multiset(s)| == |multiset(t)| == |t|;
    if s != [] {
      assert s[0] in multiset(s) && t[0] in multiset(t);
      HeadIsLeast(s, t[0]);
      HeadIsLeast(t, s[0]);
      LeAntisymmetric(s[0], t[0]);
      WithoutHead(s);
      WithoutHead(t);
      SortedUnique(s[1..], t[1..]);
    }
  }

  // ----- the exchange sort

  /** Positions before `i` hold the least names, in order. */
  predicate Settled(s: seq<string>, i: int) {
    forall a, b :: 0 <= a < i && a < b < |s| ==> Le(s[a], s[b])
  }

  /** Position `i` is least among those up to `j`. */
  predicate LeastSoFar(s: seq<string>, i: nat, j: int) {
    i < |s| && forall k :: i < k < j && k < |s| ==> Le(s[i], s[k])
  }

  function Exchanged(s: seq<string>, i: nat, j: nat): seq<string>
    requires i < |s| && j < |s|
  {
    s[i := s[j]][j := s[i]]
  }

  lemma ExchangeKeeps(s: seq<string>, i: nat, j: nat)
    requires i < j < |s| && Settled(s, i) && LeastSoFar(s, i, j) && !Le(s[i], s[j])
    ensures var t := Exchanged(s, i, j);
            multiset(t) == multiset(s) && Settled(t, i) && LeastSoFar(t, i, j + 1)
  {
    var t := Exchanged(s, i, j);
    LeTotal(s[i], s[j]);
    forall k | i < k < j + 1
      ensures Le(t[i], t[k])
    {
      if k < j {
        LeTransitive(s[j], s[i], s[k]);
      }
    }
    forall a, b | 0 <= a < i && a < b < |t|
      ensures Le(t[a], t[b])
    {
      assert t[a] == s[a] && (t[b] == s[b] || t[b] == s[i] || t[b] == s[j]);
    }
  }

  method SortNames(list: array<string>)
    modifies list
    ensures Sorted(list[..]) && multiset(list[..]) == multiset(old(list[..]))
  {
    var n := list.Length;
    var i := 0;
    while i < n
      invariant 0 <= i <= n && Settled(list[..], i)
      invariant multiset(list[..]) == multiset(old(list[..]))
    {
      var j := i + 1;
      while j < n
        invariant i < j <= n && Settled(list[..], i) && LeastSoFar(list[..], i, j)
        invariant multiset(list[..]) == multiset(old(list[..]))
      {
        if !Le(list[i], list[j]) {
          ExchangeKeeps(list[..], i, j);
          ghost var next := Exchanged(list[..], i, j);
          list[i], list[j] := list[j], list[i];
          assert list[..] == next;
        }
        j := j + 1;
      }
      i := i + 1;
    }
  }

  /** The name at `index` in strcmp order, if there are that many batteries;
      `supplies` lists the battery names as the directory gives them. */
  method NthBatteryName(supplies: seq<string>, index: int) returns (name: Option<string>)
    ensures name.Some? <==> 0 <= index < |supplies|
    ensures name.Some? ==>
      forall s :: Sorted(s) && multiset(s) == multiset(supplies) ==> |s| == |supplies| && name.value == s[index]
  {
    if |supplies| == 0 {
      return None;
    }
    if index < 0 || index >= |supplies| {
      return None;
    }
    var list := new string[|supplies|](i requires 0 <= i < |supplies| => supplies[i]);
    assert list[..] == supplies;
    SortNames(list);
    ghost var sorted := list[..];
    forall s | Sorted(s) && multiset(s) == multiset(supplies)
      ensures s == sorted
    {
      SortedUnique(s, sorted);
    }
    return Some(list[index]);
  }

  /** Two listings of the same batteries give the same answer. */
  method SameAnswer(a: seq<string>, b: seq<string>, index: int) returns (x: Option<string>, y: Option<string>)
    requires multiset(a) == multiset(b)
    ensures x == y && (x.Some? <==> 0 <= index < |a|)
  {
    assert |a| == |multiset(a)| == |multiset(b)| == |b|;
    x := NthBatteryName(a, index);
    y := NthBatteryName(b, index);
    if x.Some? {
      var sorted := ArrangedNames(a);
      assert Sorted(sorted) && multiset(sorted) == multiset(a) == multiset(b);
    }
  }

  method ArrangedNames(a: seq<string>) returns (s: seq<string>)
    ensures Sorted(s) && multiset(s) == multiset(a)
  {
    var list := new string[|a|](i requires 0 <= i < |a| => a[i]);
    assert list[..] == a;
    SortNames(list);
    s := list[..];
  }

  // ----- what the order is

  /** A prefix comes first; else the first character that differs decides. */
  lemma {:induction false} LeMeans(a: string, b: string)
    ensures Le(a, b) <==>
            a <= b || exists k :: 0 <= k < |a| && k < |b| && a[..k] == b[..k] && a[k] < b[k]
    decreases |a|
  {
    if a != "" && b != "" {
      HeadsAgree(a, b);
      if a[0] == b[0] {
        LeMeans(a[1..], b[1..]);
        SameHead(a, b, a[1..], b[1..]);
      } else {
        assert a[..0] == b[..0];
      }
    }
  }

  lemma HeadsAgree(a: string, b: string)
    requires a != "" && b != ""
    ensures a <= b ==> a[0] == b[0]
    ensures forall k :: 0 < k <= |a| && k <= |b| && a[..k] == b[..k] ==> a[0] == b[0]
  {
    forall k | 0 < k <= |a| && k <= |b| && a[..k] == b[..k]
      ensures a[0] == b[0]
    {
      assert a[..k][0] == b[..k][0];
    }
  }

  lemma SameHead(a: string, b: string, s: string, t: string)
    requires a != "" && b != "" && a[0] == b[0] && s == a[1..] && t == b[1..]
    ensures a <= b <==> s <= t
    ensures (exists k :: 0 <= k < |a| && k < |b| && a[..k] == b[..k] && a[k] < b[k])
            <==> exists k :: 0 <= k < |s| && k < |t| && s[..k] == t[..k] && s[k] < t[k]
  {
    assert a == [a[0]] + s && b == [b[0]] + t;
    if k :| 0 <= k < |a| && k < |b| && a[..k] == b[..k] && a[k] < b[k] {
      assert a[..k][1..] == s[..k - 1] && b[..k][1..] == t[..k - 1] && s[k - 1] < t[k - 1];
    }
    if k :| 0 <= k < |s| && k < |t| && s[..k] == t[..k] && s[k] < t[k] {
      assert a[..k + 1] == [a[0]] + s[..k] && b[..k + 1] == [b[0]] + t[..k] && a[k + 1] < b[k + 1];
    }
  }
}
