/** The bounded signature cache of one output, keyed by the second a signature is for. */
module SignatureCache {
  import opened Common

  datatype FrameSignResult = FrameSignResult(
    frameType: string, licenseId: string, signInfo: string, signValue: string, signVersion: string)
  {
    predicate Valid() {
      frameType != "" && licenseId != "" && signInfo != "" && signValue != "" && signVersion != ""
    }
  }

  type Signatures = map<int, FrameSignResult>

  const MAXIMUM_ENTRIES := 1200
  const TOLERANCE_SECONDS := 1

  // ----- The unbounded history and its newest part

  function ValidOnly(batch: Signatures): Signatures {
    map t | t in batch && batch[t].Valid() :: batch[t]
  }

  /** Every valid signature ever merged, the latest one winning for each second. */
  function History(batches: seq<Signatures>): Signatures {
    if batches == [] then map[]
    else History(batches[..|batches| - 1]) + ValidOnly(batches[|batches| - 1])
  }

  function Above(keys: set<int>, t: int): set<int> {
    set k | k in keys && k > t
  }

  /** The `n` largest of the keys, or all of them. */
  function Largest(keys: set<int>, n: nat): set<int> {
    set k | k in keys && |Above(keys, k)| < n
  }

  /** The cache a history leaves behind: its newest 1200 entries. */
  function Newest(history: Signatures): Signatures {
    map t | t in Largest(history.Keys, MAXIMUM_ENTRIES) :: history[t]
  }

  function Merged(cache: Signatures, batch: Signatures): Signatures {
    Newest(cache + ValidOnly(batch))
  }

  function MergedAll(batches: seq<Signatures>): Signatures {
    if batches == [] then map[]
    else Merged(MergedAll(batches[..|batches| - 1]), batches[|batches| - 1])
  }

  // ----- Facts about the largest keys

  lemma AboveMonotone(small: set<int>, large: set<int>, t: int)
    requires small <= large
    ensures |Above(small, t)| <= |Above(large, t)|
  {
    SubsetSize(Above(small, t), Above(large, t));
  }

  lemma {:induction false} SmallestKey(keys: set<int>) returns (least: int)
    requires keys != {}
    ensures least in keys && forall k :: k in keys ==> least <= k
    decreases |keys|
  {
    var some := AnElement(keys);
    least := some;
    if keys != {some} {
      var rest := SmallestKey(keys - {some});
      least := if rest < some then rest else some;
      assert keys == keys - {some} + {some};
    }
  }

  lemma {:induction false} GreatestKey(keys: set<int>) returns (greatest: int)
    requires keys != {}
    ensures greatest in keys && forall k :: k in keys ==> k <= greatest
    decreases |keys|
  {
    var some := AnElement(keys);
    greatest := some;
    if keys != {some} {
      var rest := GreatestKey(keys - {some});
      greatest := if rest > some then rest else some;
      assert keys == keys - {some} + {some};
    }
  }

  /** No more than `n` keys are kept, and all of them when there are no more. */
  lemma {:induction false} LargestSize(keys: set<int>, n: nat)
    ensures |Largest(keys, n)| == if |keys| <= n then |keys| else n
    ensures |keys| <= n ==> Largest(keys, n) == keys
    decreases |keys|
  {
    if |keys| <= n {
      forall k | k in keys
        ensures |Above(keys, k)| < n
      {
        SubsetSize(Above(keys, k), keys);
      }
      assert Largest(keys, n) == keys;
    } else {
      var least := SmallestKey(keys);
      DropSmallest(keys, least, n);
      LargestSize(keys - {least}, n);
    }
  }

  /** Erasing the smallest key of an overfull cache does not change which keys are the largest. */
  lemma DropSmallest(keys: set<int>, least: int, n: nat)
    requires least in keys && (forall k :: k in keys ==> least <= k) && |keys| > n
    ensures Largest(keys - {least}, n) == Largest(keys, n)
  {
    assert Above(keys, least) == keys - {least};
    forall k | k in keys
      ensures Above(keys, k) == Above(keys - {least}, k)
    {
    }
  }

  lemma LargestAbove(keys: set<int>, t: int, n: nat)
    ensures Above(Largest(keys, n), t) == Largest(Above(keys, t), n)
  {
    forall k | k > t
      ensures Above(Above(keys, t), k) == Above(keys, k)
    {
    }
  }

  /** Evicting before a later insertion and evicting only after it keep the same keys. */
  lemma EvictionCommutes(keys: set<int>, added: set<int>, n: nat)
    ensures Largest(Largest(keys, n) + added, n) == Largest(keys + added, n)
  {
    var kept := Largest(keys, n);
    forall k | k in keys + added
      ensures k in Largest(kept + added, n) <==> k in Largest(keys + added, n)
    {
      AboveMonotone(kept + added, keys + added, k);
      if Above(keys, k) <= kept {
        assert Above(kept + added, k) == Above(keys + added, k);
      } else {
        var lost :| lost in Above(keys, k) && lost !in kept;
        LargestAbove(keys, lost, n);
        LargestSize(Above(keys, lost), n);
        assert |Above(kept, lost)| >= n;
        assert Above(kept, lost) <= Above(kept + added, k);
        SubsetSize(Above(kept, lost), Above(kept + added, k));
      }
      if k in keys && k !in kept {
        AboveMonotone(keys, keys + added, k);
      }
    }
  }

  // ----- Main results about merging

  lemma NewestSize(history: Signatures)
    ensures |Newest(history)| <= MAXIMUM_ENTRIES
  {
    LargestSize(history.Keys, MAXIMUM_ENTRIES);
    assert Newest(history).Keys == Largest(history.Keys, MAXIMUM_ENTRIES);
    assert |Newest(history)| == |Newest(history).Keys|;
  }

  lemma NewestCommutes(history: Signatures, added: Signatures)
    ensures Newest(Newest(history) + added) == Newest(history + added)
  {
    var kept := Newest(history);
    EvictionCommutes(history.Keys, added.Keys, MAXIMUM_ENTRIES);
    assert kept.Keys == Largest(history.Keys, MAXIMUM_ENTRIES);
    assert (history + added).Keys == history.Keys + added.Keys;
    assert (kept + added).Keys == kept.Keys + added.Keys;
    assert Newest(kept + added).Keys == Newest(history + added).Keys;
  }

  /** After any merges the cache is the history restricted to its 1200 largest seconds. */
  lemma {:induction false} CacheRefinesHistory(batches: seq<Signatures>)
    ensures MergedAll(batches) == Newest(History(batches))
    ensures |MergedAll(batches)| <= MAXIMUM_ENTRIES
    decreases |batches|
  {
    NewestSize(History(batches));
    if batches != [] {
      var n := |batches| - 1;
      CacheRefinesHistory(batches[..n]);
      NewestCommutes(History(batches[..n]), ValidOnly(batches[n]));
    }
  }

  /** The last timestamp of a cache: 0 when it is empty, its largest key otherwise. */
  ghost predicate IsLastTimestamp(cache: Signatures, last: int) {
    if cache == map[] then last == 0 else last in cache && forall t :: t in cache ==> t <= last
  }

  ghost function LastTimestamp(cache: Signatures): (last: int)
    ensures IsLastTimestamp(cache, last)
  {
    if cache == map[] then 0
    else
      assert exists last :: IsLastTimestamp(cache, last) by {
        var greatest := GreatestKey(cache.Keys);
        assert IsLastTimestamp(cache, greatest);
      }
      var last :| IsLastTimestamp(cache, last);
      last
  }

  /** A merge adds nothing but valid new entries and evicts only entries older than everything it keeps. */
  lemma MergeIsMonotone(cache: Signatures, batch: Signatures)
    ensures forall t :: t in Merged(cache, batch) ==>
              (t in ValidOnly(batch) && Merged(cache, batch)[t] == batch[t]) ||
              (t !in ValidOnly(batch) && t in cache && Merged(cache, batch)[t] == cache[t])
    ensures cache != map[] ==> LastTimestamp(cache) <= LastTimestamp(Merged(cache, batch))
    ensures ValidOnly(batch) != map[] ==> LastTimestamp(ValidOnly(batch)) <= LastTimestamp(Merged(cache, batch))
    ensures Merged(cache, batch) != map[] ==>
              LastTimestamp(Merged(cache, batch)) in cache || LastTimestamp(Merged(cache, batch)) in ValidOnly(batch)
  {
    var all := cache + ValidOnly(batch);
    if all != map[] {
      assert LastTimestamp(all) in all;
      assert Above(all.Keys, LastTimestamp(all)) == {};
      assert LastTimestamp(all) in Merged(cache, batch);
    }
    if cache != map[] {
      assert LastTimestamp(cache) in all;
    }
    if ValidOnly(batch) != map[] {
      assert LastTimestamp(ValidOnly(batch)) in all;
    }
  }

  // ----- Nearest key

  function Distance(a: int, b: int): nat {
    if a < b then b - a else a - b
  }

  /** The second whose signature serves second t: t itself, else the one before, else the one after. */
  function Near(cache: Signatures, t: int): Option<int> {
    if t in cache then Some(t)
    else if t - 1 in cache then Some(t - 1)
    else if t + 1 in cache then Some(t + 1)
    else None
  }

  /**
   The chosen key is nearest to the requested second over the whole cache, the earlier of two equally
   near keys, and there is none exactly when every key is more than one second away.
   */
  lemma NearIsNearest(cache: Signatures, t: int)
    ensures Near(cache, t) == None <==> forall k :: k in cache ==> Distance(k, t) > TOLERANCE_SECONDS
    ensures Near(cache, t).Some? ==>
              var best := Near(cache, t).value;
              && best in cache
              && forall k :: k in cache ==>
                   Distance(best, t) < Distance(k, t) || (Distance(best, t) == Distance(k, t) && best <= k)
  {
    if Near(cache, t) == None {
      forall k | k in cache
        ensures Distance(k, t) > TOLERANCE_SECONDS
      {
        assert k != t && k != t - 1 && k != t + 1;
      }
    }
  }

  // ----- The ordered-map operations the session is written with

  /** The first key at or after t. */
  ghost predicate IsLowerBound(keys: set<int>, t: int, bound: Option<int>) {
    match bound
    case None => forall k :: k in keys ==> k < t
    case Some(b) => b in keys && b >= t && forall k :: k in keys && k >= t ==> b <= k
  }

  method LowerBound(cache: Signatures, t: int) returns (bound: Option<int>)
    ensures IsLowerBound(cache.Keys, t, bound)
  {
    var later := set k | k in cache && k >= t;
    if later == {} {
      assert forall k :: k in cache.Keys && k >= t ==> k in later;
      return None;
    }
    ghost var least := SmallestKey(later);
    var b :| b in later && forall k :: k in later ==> b <= k;
    assert forall k :: k in cache.Keys && k >= t ==> k in later;
    bound := Some(b);
  }

  /** The last key before t. */
  method Previous(cache: Signatures, t: int) returns (before: int)
    requires exists k :: k in cache && k < t
    ensures before in cache && before < t && forall k :: k in cache && k < t ==> k <= before
  {
    var earlier := set k | k in cache && k < t;
    assert forall k :: k in cache && k < t ==> k in earlier;
    ghost var greatest := GreatestKey(earlier);
    before :| before in earlier && forall k :: k in earlier ==> k <= before;
  }

  method First(cache: Signatures) returns (first: int)
    requires cache != map[]
    ensures first in cache && forall k :: k in cache ==> first <= k
  {
    ghost var least := SmallestKey(cache.Keys);
    first :| first in cache.Keys && forall k :: k in cache.Keys ==> first <= k;
  }

  method LastOf(signatures: Signatures) returns (last: int)
    ensures last == LastTimestamp(signatures)
  {
    if signatures == map[] {
      return 0;
    }
    ghost var greatest := GreatestKey(signatures.Keys);
    last :| last in signatures.Keys && forall t :: t in signatures.Keys ==> t <= last;
  }
}
