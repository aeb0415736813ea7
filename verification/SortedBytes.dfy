/** Python's order on bytes, and `sorted` on a set of them. */
module SortedBytes {
  import opened Chunks

  predicate Less(a: seq<byte>, b: seq<byte>) {
    b != [] && (a == [] || a[0] < b[0] || (a[0] == b[0] && Less(a[1..], b[1..])))
  }

  lemma {:induction false} LessIsTotal(a: seq<byte>, b: seq<byte>)
    ensures Less(a, b) || Less(b, a) || a == b
  {
    if a != [] && b != [] && a[0] == b[0] {
      LessIsTotal(a[1..], b[1..]);
      assert a == [a[0]] + a[1..] && b == [b[0]] + b[1..];
    }
  }

  lemma {:induction false} LessIsTransitive(a: seq<byte>, b: seq<byte>, c: seq<byte>)
    requires Less(a, b) && Less(b, c)
    ensures Less(a, c)
  {
    if a != [] && a[0] == b[0] == c[0] {
      LessIsTransitive(a[1..], b[1..], c[1..]);
    }
  }

  lemma {:induction false} NotLessThanItself(a: seq<byte>)
    ensures !Less(a, a)
  {
    if a != [] {
      NotLessThanItself(a[1..]);
    }
  }

  predicate Ascending(s: seq<Bytes>) {
    forall i, j :: 0 <= i < j < |s| ==> Less(s[i], s[j])
  }

  ghost function Elements(s: seq<Bytes>): set<Bytes> {
    set x | x in s
  }

  function Insert(s: seq<Bytes>, x: Bytes): seq<Bytes> {
    if s == [] || Less(x, s[0]) then [x] + s else [s[0]] + Insert(s[1..], x)
  }

  lemma {:induction false} InsertHolds(s: seq<Bytes>, x: Bytes)
    ensures Elements(Insert(s, x)) == Elements(s) + {x}
  {
    if s == [] || Less(x, s[0]) {
      assert Insert(s, x) == [x] + s;
    } else {
      InsertHolds(s[1..], x);
      HeadAndTail(s);
      var longer := Insert(s, x);
      HeadAndTail(longer);
      assert longer[1..] == Insert(s[1..], x);
    }
  }

  lemma HeadAndTail(s: seq<Bytes>)
    requires s != []
    ensures Elements(s) == {s[0]} + Elements(s[1..])
  {
    assert s == [s[0]] + s[1..];
  }

  lemma NoElements(s: seq<Bytes>)
    ensures Elements(s) == {} <==> s == []
  {
    if s != [] {
      assert s[0] in Elements(s);
    }
  }

  lemma {:induction false} InsertKeepsOrder(s: seq<Bytes>, x: Bytes)
    requires Ascending(s) && x !in s
    ensures Ascending(Insert(s, x))
  {
    if s == [] {
    } else if Less(x, s[0]) {
      forall j | 0 <= j < |s| ensures Less(x, s[j]) {
        if j > 0 { LessIsTransitive(x, s[0], s[j]); }
      }
    } else {
      var rest := Insert(s[1..], x);
      InsertKeepsOrder(s[1..], x);
      InsertHolds(s[1..], x);
      LessIsTotal(s[0], x);
      forall j | 0 <= j < |rest| ensures Less(s[0], rest[j]) {
        assert rest[j] in Elements(rest);
        if rest[j] != x {
          var k :| 0 <= k < |s[1..]| && s[1..][k] == rest[j];
          assert s[k + 1] == rest[j];
        }
      }
    }
  }

  lemma {:induction false} AscendingIsUnique(s: seq<Bytes>, t: seq<Bytes>)
    requires Ascending(s) && Ascending(t) && Elements(s) == Elements(t)
    ensures s == t
  {
    NoElements(s);
    NoElements(t);
    if s != [] {
      assert s[0] in Elements(s) && t[0] in Elements(t);
      FirstIsFirst(s, t);
      TailElements(s);
      TailElements(t);
      AscendingIsUnique(s[1..], t[1..]);
      assert s == [s[0]] + s[1..] && t == [t[0]] + t[1..];
    }
  }

  lemma FirstIsFirst(s: seq<Bytes>, t: seq<Bytes>)
    requires s != [] && t != [] && Ascending(s) && Ascending(t) && s[0] in t && t[0] in s
    ensures s[0] == t[0]
  {
    var i :| 0 <= i < |t| && t[i] == s[0];
    var j :| 0 <= j < |s| && s[j] == t[0];
    if i > 0 && j > 0 {
      LessIsTransitive(s[0], s[j], t[i]);
      NotLessThanItself(s[0]);
    }
  }

  lemma TailElements(s: seq<Bytes>)
    requires s != [] && Ascending(s)
    ensures Elements(s[1..]) == Elements(s) - {s[0]}
  {
    forall j | 0 < j < |s| ensures s[j] != s[0] {
      NotLessThanItself(s[0]);
    }
    assert s == [s[0]] + s[1..];
  }

  ghost function Sorted(values: set<Bytes>): seq<Bytes> {
    if values == {} then []
    else
      var x :| x in values;
      Insert(Sorted(values - {x}), x)
  }

  lemma {:induction false} SortedIsSorted(values: set<Bytes>)
    ensures Ascending(Sorted(values)) && Elements(Sorted(values)) == values
  {
    if values != {} {
      var x :| x in values && Sorted(values) == Insert(Sorted(values - {x}), x);
      SortedIsSorted(values - {x});
      assert x !in Elements(Sorted(values - {x}));
      InsertHolds(Sorted(values - {x}), x);
      InsertKeepsOrder(Sorted(values - {x}), x);
    }
  }

  /** `sorted(values)` */
  method Sort(values: set<Bytes>) returns (s: seq<Bytes>)
    ensures s == Sorted(values)
    ensures Ascending(s) && forall x :: x in s <==> x in values
  {
    s := [];
    var rest := values;
    while rest != {}
      invariant rest <= values && Ascending(s) && Elements(s) == values - rest
      decreases rest
    {
      var x :| x in rest;
      assert x !in Elements(s);
      InsertKeepsOrder(s, x);
      InsertHolds(s, x);
      s := Insert(s, x);
      rest := rest - {x};
    }
    SortedIsSorted(values);
    AscendingIsUnique(s, Sorted(values));
    assert forall x :: x in s <==> x in Elements(s);
  }

  lemma {:induction false} AscendingCounts(s: seq<Bytes>)
    requires Ascending(s)
    ensures |Elements(s)| == |s|
  {
    if s == [] {
      assert Elements(s) == {};
    } else {
      AscendingCounts(s[1..]);
      TailElements(s);
      assert s[0] in Elements(s);
    }
  }
}
