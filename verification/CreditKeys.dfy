/** The idempotency keys of a rebase batch. */
module CreditKeys {
  datatype Kind = Grant | Revoke

  function Digit(d: nat): (c: char)
    requires d < 10
    ensures c != '-'
  {
    "0123456789"[d]
  }

  /** `str(n)` */
  function Decimal(n: nat): (s: string)
    ensures s != [] && '-' !in s
  {
    if n < 10 then [Digit(n)] else Decimal(n / 10) + [Digit(n % 10)]
  }

  lemma DigitsDiffer(d: nat, e: nat)
    requires d < 10 && e < 10 && Digit(d) == Digit(e)
    ensures d == e
  {
  }

  lemma {:induction false} DecimalIsInjective(m: nat, n: nat)
    requires Decimal(m) == Decimal(n)
    ensures m == n
  {
    var s, t := Decimal(m), Decimal(n);
    if m >= 10 && n >= 10 {
      assert s[..|s| - 1] == Decimal(m / 10) && t[..|t| - 1] == Decimal(n / 10);
      assert s[|s| - 1] == Digit(m % 10) && t[|t| - 1] == Digit(n % 10);
      DecimalIsInjective(m / 10, n / 10);
      DigitsDiffer(m % 10, n % 10);
    } else if m < 10 && n < 10 {
      assert s[0] == Digit(m) && t[0] == Digit(n);
      DigitsDiffer(m, n);
    }
  }

  function DocNo(batch: string, user: nat): string {
    "REBASE-" + batch + "-" + Decimal(user)
  }

  function Suffix(kind: Kind): string {
    if kind.Grant? then ":wallet-grant" else ":wallet-revoke"
  }

  function Key(batch: string, user: nat, kind: Kind): string {
    "admin:" + DocNo(batch, user) + Suffix(kind)
  }

  lemma NoDashInTail(a: string, s: string, whole: string)
    requires '-' !in s && whole == a + "-" + s
    ensures forall k :: |a| < k < |whole| ==> whole[k] != '-'
  {
    forall k | |a| < k < |whole|
      ensures whole[k] != '-'
    {
      assert whole[k] == s[k - |a| - 1];
    }
  }

  /** Whatever the batch name contains, the last dash separates it from the user. */
  lemma LastDashSplits(a: string, s: string, b: string, t: string)
    requires a + "-" + s == b + "-" + t && '-' !in s && '-' !in t
    ensures a == b && s == t
  {
    var whole := a + "-" + s;
    NoDashInTail(a, s, whole);
    NoDashInTail(b, t, whole);
    assert whole[|a|] == '-' && whole[|b|] == '-';
    assert a == whole[..|a|] && b == whole[..|b|];
    assert s == whole[|a| + 1..] && t == whole[|b| + 1..];
  }

  lemma SameSuffix(p: string, k: Kind, q: string, l: Kind)
    requires p + Suffix(k) == q + Suffix(l)
    ensures k == l && p == q
  {
    var s, t := p + Suffix(k), q + Suffix(l);
    assert s[|s| - 1] == Suffix(k)[|Suffix(k)| - 1] && t[|t| - 1] == Suffix(l)[|Suffix(l)| - 1];
    assert k == l;
    assert p == s[..|p|] && q == t[..|q|];
  }

  lemma SamePrefix(p: string, s: string, t: string)
    requires p + s == p + t
    ensures s == t
  {
    assert s == (p + s)[|p|..] && t == (p + t)[|p|..];
  }

  lemma DocNosIdentify(batch1: string, user1: nat, batch2: string, user2: nat)
    requires DocNo(batch1, user1) == DocNo(batch2, user2)
    ensures batch1 == batch2 && user1 == user2
  {
    var body1, body2 := batch1 + "-" + Decimal(user1), batch2 + "-" + Decimal(user2);
    var prefix := "REBASE-";
    assert DocNo(batch1, user1) == prefix + body1 && DocNo(batch2, user2) == prefix + body2;
    SamePrefix(prefix, body1, body2);
    LastDashSplits(batch1, Decimal(user1), batch2, Decimal(user2));
    DecimalIsInjective(user1, user2);
  }

  /** A key stands for one batch, one user and one direction: granting and revoking never share a key. */
  lemma KeysIdentify(batch1: string, user1: nat, kind1: Kind, batch2: string, user2: nat, kind2: Kind)
    requires Key(batch1, user1, kind1) == Key(batch2, user2, kind2)
    ensures batch1 == batch2 && user1 == user2 && kind1 == kind2
  {
    var prefix, doc1, doc2 := "admin:", DocNo(batch1, user1), DocNo(batch2, user2);
    SameSuffix(prefix + doc1, kind1, prefix + doc2, kind2);
    SamePrefix(prefix, doc1, doc2);
    DocNosIdentify(batch1, user1, batch2, user2);
  }

  /** The keys whose succeeded events the next reading of the entitlement adds up. */
  predicate CountsAsEntitlement(key: string) {
    "admin:" <= key || "bonus:" <= key || "signup:" <= key
  }

  /** What stands before the first colon decides. */
  lemma CountsIff(word: string, rest: string)
    requires ':' !in word
    ensures CountsAsEntitlement(word + ":" + rest) <==> word == "admin" || word == "bonus" || word == "signup"
    ensures !CountsAsEntitlement(word)
  {
    var key := word + ":" + rest;
    WordDecides("admin", word, rest);
    WordDecides("bonus", word, rest);
    WordDecides("signup", word, rest);
    assert "admin:" == "admin" + ":" && "bonus:" == "bonus" + ":" && "signup:" == "signup" + ":";
  }

  lemma WordDecides(family: string, word: string, rest: string)
    requires ':' !in word && ':' !in family
    ensures family + ":" <= word + ":" + rest <==> word == family
    ensures !(family + ":" <= word)
  {
    var key, start := word + ":" + rest, family + ":";
    if start <= key {
      SameWord(family, key[|start|..], word, rest);
    }
    if word == family {
      assert key == start + rest;
    }
    assert start[|family|] == ':';
  }

  lemma SameWord(a: string, x: string, b: string, y: string)
    requires ':' !in a && ':' !in b && a + ":" + x == b + ":" + y
    ensures a == b
  {
    var s, t := a + ":" + x, b + ":" + y;
    assert s[|a|] == ':' && t[|b|] == ':';
    assert s[..|a|] == a && t[..|b|] == b;
  }

  /** The batch's own events are among them. */
  lemma OwnEventsAreCountedAgain(batch: string, user: nat, kind: Kind)
    ensures CountsAsEntitlement(Key(batch, user, kind))
  {
    var rest := DocNo(batch, user) + Suffix(kind);
    assert Key(batch, user, kind) == "admin:" + rest;
  }
}
