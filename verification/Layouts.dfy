/** Lists laid out one after the other, and what it takes to cut the result differently. */
module Layouts {

  /** The first `n` elements, each spelled out by `f`. */
  function UpTo<E, C>(f: E -> seq<C>, s: seq<E>, n: nat): seq<C>
    requires n <= |s|
  {
    if n == 0 then [] else UpTo(f, s, n - 1) + f(s[n - 1])
  }

  function All<E, C>(f: E -> seq<C>, s: seq<E>): seq<C> {
    UpTo(f, s, |s|)
  }

  lemma {:induction false} SameFirst<E, C>(f: E -> seq<C>, s: seq<E>, t: seq<E>, n: nat)
    requires n <= |s| && n <= |t| && forall i :: 0 <= i < n ==> s[i] == t[i]
    ensures UpTo(f, s, n) == UpTo(f, t, n)
    decreases n
  {
    if n > 0 {
      SameFirst(f, s, t, n - 1);
    }
  }

  lemma {:induction false} AfterFirst<E, C>(f: E -> seq<C>, a: seq<E>, b: seq<E>, whole: seq<E>, n: nat)
    requires whole == a + b && n <= |b|
    ensures UpTo(f, whole, |a| + n) == All(f, a) + UpTo(f, b, n)
    decreases n
  {
    if n == 0 {
      SameFirst(f, whole, a, |a|);
    } else {
      AfterFirst(f, a, b, whole, n - 1);
    }
  }

  lemma AllJoins<E, C>(f: E -> seq<C>, a: seq<E>, b: seq<E>, whole: seq<E>)
    requires whole == a + b
    ensures All(f, whole) == All(f, a) + All(f, b)
  {
    AfterFirst(f, a, b, whole, |b|);
  }

  lemma AllOfOne<E, C>(f: E -> seq<C>, e: E, s: seq<E>)
    requires s == [e]
    ensures All(f, s) == f(e)
  {
    assert UpTo(f, s, 0) == [];
    assert [] + f(e) == f(e);
  }

  lemma AllOfThree<E, C>(f: E -> seq<C>, s: seq<E>)
    requires |s| == 3
    ensures All(f, s) == f(s[0]) + f(s[1]) + f(s[2])
  {
    assert UpTo(f, s, 1) == UpTo(f, s, 0) + f(s[0]);
    assert UpTo(f, s, 1) == f(s[0]);
    assert UpTo(f, s, 2) == UpTo(f, s, 1) + f(s[1]);
  }

  lemma JoinMore<E, C>(f: E -> seq<C>, init: seq<E>, e: E, s: seq<E>)
    requires s == init + [e]
    ensures All(f, s) == All(f, init) + f(e)
  {
    AllJoins(f, init, [e], s);
    AllOfOne(f, e, [e]);
  }

  lemma JoinThree<E, C>(f: E -> seq<C>, pre: seq<E>, run: seq<E>, post: seq<E>, whole: seq<E>)
    requires whole == pre + (run + post)
    ensures All(f, whole) == All(f, pre) + (All(f, run) + All(f, post))
  {
    AllJoins(f, run, post, run + post);
    AllJoins(f, pre, run + post, whole);
  }

  lemma AllOfHead<E, C>(f: E -> seq<C>, e: E, tail: seq<E>, s: seq<E>)
    requires s == [e] + tail
    ensures All(f, s) == f(e) + All(f, tail)
  {
    AllJoins(f, [e], tail, s);
    AllOfOne(f, e, [e]);
  }

  lemma {:induction false} NotShorter<E, C>(f: E -> seq<C>, s: seq<E>)
    requires forall e :: e in s ==> f(e) != []
    ensures |All(f, s)| >= |s|
    decreases |s|
  {
    if s != [] {
      NotShorter(f, s[1..]);
      AllOfHead(f, s[0], s[1..], s);
      assert s == [s[0]] + s[1..];
    }
  }

  // ---------- Blocks of odd length, each headed by a mark ----------

  lemma InThree<C>(x: seq<C>, y: seq<C>, z: seq<C>, rest: seq<C>, k: nat)
    requires k < |x| + |y| + |z|
    ensures (x + y + z + rest)[k] == if k < |x| then x[k] else if k < |x| + |y| then y[k - |x|] else z[k - |x| - |y|]
  {
  }

  lemma SameHead<C>(x: seq<C>, r: seq<C>, f: seq<C>, g: seq<C>)
    requires x + r == f + g && |x| == |f|
    ensures x == f && r == g
  {
    assert (x + r)[..|x|] == x && (f + g)[..|f|] == f;
    assert (x + r)[|x|..] == r && (f + g)[|f|..] == g;
  }

  predicate NotInside<C>(mark: C -> bool, block: seq<C>) {
    forall k :: 0 < k < |block| ==> !mark(block[k])
  }

  lemma StartsInside<C>(x: seq<C>, r: seq<C>, f: seq<C>, g: seq<C>)
    requires x + r == f + g && |x| < |f|
    ensures r != [] && f[|x|] == r[0]
  {
    assert (x + r)[|x|] == (f + g)[|x|];
  }

  /** What follows the first head starts with a mark, so it does not start inside the second head. */
  lemma NoShorterHead<C>(mark: C -> bool, x: seq<C>, r: seq<C>, f: seq<C>, g: seq<C>)
    requires x + r == f + g && x != [] && NotInside(mark, f)
    requires r != [] ==> mark(r[0])
    ensures |x| >= |f|
  {
    if |x| < |f| {
      StartsInside(x, r, f, g);
    }
  }

  /**
   * Two layouts in odd blocks, the first with no mark inside: heads are equal, or the second's covers three of the
   * first's.
   */
  lemma SecondMark<C>(mark: C -> bool, x: seq<C>, y: seq<C>, z: seq<C>, rest: seq<C>, f: seq<C>, g: seq<C>)
    requires x + y + z + rest == f + g && |x| % 2 == |y| % 2 == |z| % 2 == |f| % 2 == 1
    requires g != [] ==> mark(g[0])
    requires NotInside(mark, x) && NotInside(mark, y) && NotInside(mark, z)
    ensures |f| == |x| || |f| >= |x| + |y| + |z|
  {
    var n := |f|;
    if |x| != n < |x| + |y| + |z| {
      InThree(x, y, z, rest, n);
      assert (f + g)[n] == g[0];
      assert n != |x| + |y|;
      NoMarkThere(mark, x, y, z, n);
    }
  }

  /** With only one or two blocks in the first layout heads are equal. */
  lemma SecondMarkOfFew<C>(mark: C -> bool, x: seq<C>, y: seq<C>, f: seq<C>, g: seq<C>)
    requires x + y == f + g && |x| % 2 == |f| % 2 == 1 && (y != [] ==> |y| % 2 == 1)
    requires g != [] ==> mark(g[0])
    requires NotInside(mark, x) && NotInside(mark, y)
    ensures |f| == |x|
  {
    if g != [] {
      assert (f + g)[|f|] == g[0];
      assert x + y + [] + [] == x + y;
      InThree(x, y, [], [], |f|);
    }
  }

  lemma NoMarkThere<C>(mark: C -> bool, x: seq<C>, y: seq<C>, z: seq<C>, n: nat)
    requires NotInside(mark, x) && NotInside(mark, y) && NotInside(mark, z) && 0 < n < |x| + |y| + |z|
    requires n != |x| && n != |x| + |y|
    ensures !mark(if n < |x| then x[n] else if n < |x| + |y| then y[n - |x|] else z[n - |x| - |y|])
  {
  }

  // ---------- Every second element ----------

  function Odds<C>(s: seq<C>): (r: seq<C>)
    ensures |r| == |s| / 2 && forall i :: 0 <= i < |r| ==> r[i] == s[2 * i + 1]
  {
    seq(|s| / 2, i requires 0 <= i < |s| / 2 => s[2 * i + 1])
  }

  function Evens<C>(s: seq<C>): (r: seq<C>)
    ensures |r| == (|s| + 1) / 2 && forall i :: 0 <= i < |r| ==> r[i] == s[2 * i]
  {
    seq((|s| + 1) / 2, i requires 0 <= i < (|s| + 1) / 2 => s[2 * i])
  }

  lemma OddsOfTwo<C>(x: seq<C>, y: seq<C>)
    ensures |x| % 2 == 0 ==> Odds(x + y) == Odds(x) + Odds(y)
    ensures |x| % 2 == 1 ==> Odds(x + y) == Odds(x) + Evens(y)
  {
    var all, h := x + y, |x| / 2;
    forall i | 0 <= i < |Odds(all)|
      ensures Odds(all)[i] == if i < h then Odds(x)[i] else if |x| % 2 == 0 then Odds(y)[i - h] else Evens(y)[i - h]
    {
      assert 2 * i + 1 < |x| <==> i < h;
    }
  }

  /** Every second element of three odd blocks: in the middle one it is the others. */
  lemma OddsOfThree<C>(x: seq<C>, y: seq<C>, z: seq<C>)
    requires |x| % 2 == |y| % 2 == |z| % 2 == 1
    ensures Odds(x + y + z) == Odds(x) + Evens(y) + Odds(z)
  {
    OddsOfTwo(x + y, z);
    OddsOfTwo(x, y);
  }
}
