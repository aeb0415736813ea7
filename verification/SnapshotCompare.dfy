/** Taking the snapshot of a key and comparing two databases. The digest stands for the bytes fed to the hasher. */
module SnapshotCompare {
  import opened Options
  import opened Chunks
  import opened SortedBytes
  import opened SnapshotDigest

  const TTL_TOLERANCE_MS := 15_000
  const SHORT_LIVED_MS := 60_000

  datatype KeySnapshot = KeySnapshot(kind: Kind, digest: seq<byte>, pttl: int)

  predicate ShortLived(ttl: int) {
    0 <= ttl <= SHORT_LIVED_MS
  }

  /** Keys that are about to expire, or vanish while they are read, are left out; -1 is a key without expiry. */
  method SnapshotKey(initialTtl: int, value: Option<Value>, finalTtl: int) returns (r: Option<KeySnapshot>)
    ensures r.Some? <==>
              value.Some? && !(0 <= initialTtl <= 60_000) && !(0 <= finalTtl <= 60_000) && finalTtl != -2
    ensures r.Some? ==> r.value.kind == KindOf(value.value) && r.value.digest == Encoding(value.value)
    ensures r.Some? ==> r.value.pttl == finalTtl
  {
    if ShortLived(initialTtl) || value.None? {
      return None;
    }
    var digest := DigestValue(value.value);
    if finalTtl == -2 || ShortLived(finalTtl) {
      return None;
    }
    return Some(KeySnapshot(KindOf(value.value), digest, finalTtl));
  }

  function Abs(x: int): nat {
    if x < 0 then -x else x
  }

  predicate TtlMatches(source: int, target: int) {
    if source == -1 || target == -1 then source == target else Abs(source - target) <= TTL_TOLERANCE_MS
  }

  /** Both without expiry, or both with one, at most 15 seconds apart. */
  predicate SameExpiry(source: int, target: int) {
    (source == -1 <==> target == -1) && (source != -1 ==> source - target <= 15_000 && target - source <= 15_000)
  }

  lemma TtlMatchesIff(source: int, target: int)
    ensures TtlMatches(source, target) <==> SameExpiry(source, target)
  {
  }

  datatype Issue =
    | MissingKey(key: Bytes)
    | ExtraKey(key: Bytes)
    | TypeDiffers(key: Bytes)
    | ContentDiffers(key: Bytes)
    | TtlDiffers(key: Bytes)
    | SizeDiffers

  datatype Database = Database(size: int, keys: map<Bytes, KeySnapshot>)

  predicate KeyIssue(issue: Issue, key: Bytes, s: KeySnapshot, t: KeySnapshot) {
    || (issue == TypeDiffers(key) && s.kind != t.kind)
    || (issue == ContentDiffers(key) && s.kind == t.kind && s.digest != t.digest)
    || (issue == TtlDiffers(key) && s.kind == t.kind && !TtlMatches(s.pttl, t.pttl))
  }

  predicate IsIssue(issue: Issue, source: Database, target: Database) {
    match issue
    case MissingKey(key) => key in source.keys && key !in target.keys
    case ExtraKey(key) => key in target.keys && key !in source.keys
    case SizeDiffers => source.size != target.size
    case _ => SharedKeyIssue(issue, issue.key, source, target)
  }

  predicate SharedKeyIssue(issue: Issue, key: Bytes, source: Database, target: Database) {
    key in source.keys && key in target.keys && KeyIssue(issue, key, source.keys[key], target.keys[key])
  }

  method CompareKey(key: Bytes, s: KeySnapshot, t: KeySnapshot) returns (errors: seq<Issue>)
    ensures forall issue :: issue in errors <==> KeyIssue(issue, key, s, t)
  {
    if s.kind != t.kind {
      return [TypeDiffers(key)];
    }
    errors := [];
    if s.digest != t.digest {
      errors := errors + [ContentDiffers(key)];
    }
    if !TtlMatches(s.pttl, t.pttl) {
      errors := errors + [TtlDiffers(key)];
    }
  }

  ghost predicate Found(issue: Issue, keys: seq<Bytes>, source: Database, target: Database) {
    exists k :: k in keys && SharedKeyIssue(issue, k, source, target)
  }

  lemma FoundStep(issue: Issue, keys: seq<Bytes>, i: nat, source: Database, target: Database)
    requires i < |keys|
    ensures Found(issue, keys[..i + 1], source, target)
       <==> Found(issue, keys[..i], source, target) || SharedKeyIssue(issue, keys[i], source, target)
  {
    assert keys[..i + 1] == keys[..i] + [keys[i]];
  }

  method CompareKeys(source: Database, target: Database) returns (errors: seq<Issue>)
    ensures forall issue :: issue in errors <==>
              IsIssue(issue, source, target) && !issue.MissingKey? && !issue.ExtraKey? && !issue.SizeDiffers?
  {
    var keys := Sort(source.keys.Keys * target.keys.Keys);
    errors := [];
    for i := 0 to |keys|
      invariant forall issue :: issue in errors <==> Found(issue, keys[..i], source, target)
    {
      assert keys[i] in source.keys.Keys * target.keys.Keys;
      var found := CompareKey(keys[i], source.keys[keys[i]], target.keys[keys[i]]);
      errors := errors + found;
      forall issue
        ensures issue in errors <==> Found(issue, keys[..i + 1], source, target)
      {
        FoundStep(issue, keys, i, source, target);
      }
    }
    assert keys[..|keys|] == keys;
    forall issue
      ensures Found(issue, keys, source, target)
         <==> IsIssue(issue, source, target) && !issue.MissingKey? && !issue.ExtraKey? && !issue.SizeDiffers?
    {
      if IsIssue(issue, source, target) && !issue.MissingKey? && !issue.ExtraKey? && !issue.SizeDiffers? {
        assert SharedKeyIssue(issue, issue.key, source, target);
      }
    }
  }

  method ListKeys(keys: set<Bytes>, missing: bool) returns (errors: seq<Issue>)
    ensures forall issue ::
              issue in errors <==> exists k :: k in keys && issue == (if missing then MissingKey(k) else ExtraKey(k))
  {
    var sorted := Sort(keys);
    errors := [];
    for i := 0 to |sorted|
      invariant forall issue :: issue in errors <==>
                  exists k :: k in sorted[..i] && issue == (if missing then MissingKey(k) else ExtraKey(k))
    {
      errors := errors + [if missing then MissingKey(sorted[i]) else ExtraKey(sorted[i])];
      assert sorted[..i + 1] == sorted[..i] + [sorted[i]];
    }
    assert sorted[..|sorted|] == sorted;
  }

  /** Every difference is reported, nothing else is. A different type hides content and expiry of that key. */
  method CompareDatabase(source: Database, target: Database) returns (errors: seq<Issue>)
    ensures forall issue :: issue in errors <==> IsIssue(issue, source, target)
  {
    var missing := ListKeys(source.keys.Keys - target.keys.Keys, true);
    var extra := ListKeys(target.keys.Keys - source.keys.Keys, false);
    var differing := CompareKeys(source, target);
    errors := missing + extra + differing;
    if source.size != target.size {
      errors := errors + [SizeDiffers];
    }
  }

  predicate SameKey(s: KeySnapshot, t: KeySnapshot) {
    s.kind == t.kind && s.digest == t.digest && SameExpiry(s.pttl, t.pttl)
  }

  /** A key's own errors: only its type if that differs; otherwise contents and expiry, each if it differs. */
  lemma ErrorsOfAKey(source: Database, target: Database, key: Bytes)
    requires key in source.keys && key in target.keys
    ensures !IsIssue(MissingKey(key), source, target) && !IsIssue(ExtraKey(key), source, target)
    ensures var s, t := source.keys[key], target.keys[key];
            && (IsIssue(TypeDiffers(key), source, target) <==> s.kind != t.kind)
            && (IsIssue(ContentDiffers(key), source, target) <==> s.kind == t.kind && s.digest != t.digest)
            && (IsIssue(TtlDiffers(key), source, target) <==> s.kind == t.kind && !SameExpiry(s.pttl, t.pttl))
  {
    TtlMatchesIff(source.keys[key].pttl, target.keys[key].pttl);
  }

  /** No error means same size, same keys, and per key same type, same fed bytes and matching expiry; and conversely. */
  lemma NoIssueIff(source: Database, target: Database)
    ensures (forall issue :: !IsIssue(issue, source, target)) <==>
              && source.size == target.size && source.keys.Keys == target.keys.Keys
              && forall k :: k in source.keys && k in target.keys ==> SameKey(source.keys[k], target.keys[k])
  {
    if forall issue :: !IsIssue(issue, source, target) {
      assert !IsIssue(SizeDiffers, source, target);
      forall k
        ensures k in source.keys <==> k in target.keys
        ensures k in source.keys && k in target.keys ==> SameKey(source.keys[k], target.keys[k])
      {
        assert !IsIssue(MissingKey(k), source, target) && !IsIssue(ExtraKey(k), source, target);
        assert !IsIssue(TypeDiffers(k), source, target);
        assert !IsIssue(ContentDiffers(k), source, target) && !IsIssue(TtlDiffers(k), source, target);
        if k in source.keys && k in target.keys {
          ErrorsOfAKey(source, target, k);
        }
      }
    }
  }

  /** The snapshot holds these values under their keys. */
  ghost predicate SnapshotOf(db: Database, values: map<Bytes, Value>) {
    && db.keys.Keys == values.Keys
    && forall k :: k in values ==> db.keys[k].kind == KindOf(values[k]) && db.keys[k].digest == Encoding(values[k])
  }

  /** Without an error the two databases hold the same values under the same keys, streams excepted. */
  lemma NoIssueMeansSameValues(source: Database, sourceValues: map<Bytes, Value>, target: Database,
                               targetValues: map<Bytes, Value>)
    requires SnapshotOf(source, sourceValues) && SnapshotOf(target, targetValues)
    requires forall issue :: !IsIssue(issue, source, target)
    ensures sourceValues.Keys == targetValues.Keys
    ensures forall k :: k in sourceValues && !sourceValues[k].Stream? ==> sourceValues[k] == targetValues[k]
  {
    NoIssueIff(source, target);
    forall k | k in sourceValues && !sourceValues[k].Stream?
      ensures sourceValues[k] == targetValues[k]
    {
      assert SameKey(source.keys[k], target.keys[k]);
      EncodingIdentifies(sourceValues[k], targetValues[k]);
    }
  }
}
