/** The bounded memory of webhook updates, compared with remembering every update for ever. */
module UpdateCache {
  import opened Sums

  /** Bot and update. */
  type Key = (int, int)
  const MAX_SEEN := 2000

  /** The ordered dictionary as its keys, oldest first: its new contents, and whether the update was there already. */
  function Check(seen: seq<Key>, key: Key): (seq<Key>, bool) {
    if key in seen then (seen, true)
    else
      var longer := seen + [key];
      (if |longer| > MAX_SEEN then longer[1..] else longer, false)
  }

  class Cache {
    var seen: seq<Key>

    constructor ()
      ensures seen == []
    {
      seen := [];
    }

    method IsDuplicateUpdate(key: Key) returns (duplicate: bool)
      modifies this
      ensures (seen, duplicate) == Check(old(seen), key)
    {
      if key in seen {
        return true;
      }
      seen := seen + [key];
      if |seen| > MAX_SEEN {
        seen := seen[1..];
      }
      duplicate := false;
    }
  }

  function Seen(updates: seq<Key>): seq<Key> {
    if updates == [] then [] else Check(Seen(updates[..|updates| - 1]), updates[|updates| - 1]).0
  }

  predicate Flags(updates: seq<Key>, key: Key) {
    Check(Seen(updates), key).1
  }

  /** Updates that were let through, in order. */
  function Accepted(updates: seq<Key>): seq<Key> {
    if updates == [] then []
    else
      var (before, last) := (updates[..|updates| - 1], updates[|updates| - 1]);
      Accepted(before) + if Flags(before, last) then [] else [last]
  }

  function Last<T>(s: seq<T>, n: nat): seq<T> {
    if |s| <= n then s else s[|s| - n..]
  }

  /** The cache never exceeds its size, holds no key twice, and is exactly the most recent accepted keys in order. */
  lemma {:induction false} CacheIsRecentAccepted(updates: seq<Key>)
    ensures Seen(updates) == Last(Accepted(updates), 2000)
    ensures |Seen(updates)| <= 2000 && Distinct(Seen(updates))
  {
    if updates == [] {
    } else {
      var before, last := updates[..|updates| - 1], updates[|updates| - 1];
      CacheIsRecentAccepted(before);
      var accepted := Accepted(before);
      if !Flags(before, last) {
        assert Last(accepted + [last], MAX_SEEN)
            == if |accepted| < MAX_SEEN then accepted + [last] else accepted[|accepted| + 1 - MAX_SEEN..] + [last];
      } else {
        assert accepted + [] == accepted;
      }
    }
  }

  lemma {:induction false} AcceptedWereDelivered(updates: seq<Key>)
    ensures forall key :: key in Accepted(updates) <==> key in updates
  {
    if updates == [] {
    } else {
      var before, last := updates[..|updates| - 1], updates[|updates| - 1];
      AcceptedWereDelivered(before);
      CacheIsRecentAccepted(before);
      assert updates == before + [last];
    }
  }

  /** Position of the latest acceptance of a key. */
  ghost predicate LatestAt(accepted: seq<Key>, key: Key, j: nat) {
    j < |accepted| && accepted[j] == key && forall k :: j < k < |accepted| ==> accepted[k] != key
  }

  lemma {:induction false} LatestExists(accepted: seq<Key>, key: Key) returns (j: nat)
    requires key in accepted
    ensures LatestAt(accepted, key, j)
  {
    var last := |accepted| - 1;
    if accepted[last] == key {
      j := last;
    } else {
      assert accepted == accepted[..last] + [accepted[last]];
      j := LatestExists(accepted[..last], key);
    }
  }

  /**
   A key that was never delivered is never flagged; a delivered one is flagged exactly when fewer than 2000 newer
   keys have been accepted since its latest acceptance.
   */
  lemma FlaggedIffRecent(updates: seq<Key>, key: Key)
    ensures key !in updates ==> !Flags(updates, key)
    ensures key in updates ==>
              exists j: nat :: LatestAt(Accepted(updates), key, j)
                               && (Flags(updates, key) <==> |Accepted(updates)| - 1 - j < 2000)
  {
    CacheIsRecentAccepted(updates);
    AcceptedWereDelivered(updates);
    var accepted := Accepted(updates);
    if key in updates {
      var j := LatestExists(accepted, key);
      var tail := Last(accepted, MAX_SEEN);
      var cut := |accepted| - |tail|;
      assert forall k :: 0 <= k < |tail| ==> tail[k] == accepted[cut + k];
      if j >= cut {
        assert tail[j - cut] == key;
      }
    }
  }

  /** As long as at most 2000 distinct updates have come in, the cache answers like an unbounded set. */
  lemma AgreesWithUnboundedSet(updates: seq<Key>, key: Key)
    ensures |Accepted(updates)| <= 2000 ==> (Flags(updates, key) <==> key in updates)
    ensures Flags(updates, key) ==> key in updates
  {
    CacheIsRecentAccepted(updates);
    AcceptedWereDelivered(updates);
  }
}
