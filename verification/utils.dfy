/**
 * lib/utils.ts: the vote encoding, the FHE error translation, the decryption cache keys and
 * the TTL cache kept in the browser's `localStorage`.
 */
module Utils {
  import opened Wrappers
  import opened Strings

  /** `VOTE_OPTIONS.YES` and `VOTE_OPTIONS.NO`. */
  const VoteYes: int := 0
  const VoteNo: int := 1

  /** `validateVoteValue`: only the two vote options are valid. */
  predicate ValidateVoteValue(value: int) {
    value == VoteYes || value == VoteNo
  }

  /** `getVoteOptionLabel`. */
  function VoteOptionLabel(value: int): (name: string)
    ensures name in {"Yes", "No", "Unknown"}
  {
    if value == VoteYes then "Yes"
    else if value == VoteNo then "No"
    else "Unknown"
  }

  /** A value gets a real label exactly when it is a valid vote, and the two options get different labels. */
  lemma LabelKnownIffValid(value: int)
    ensures VoteOptionLabel(value) != "Unknown" <==> ValidateVoteValue(value)
    ensures VoteOptionLabel(VoteYes) != VoteOptionLabel(VoteNo)
  {
  }

  // The texts are written in pieces of at most 25 characters, a length the verifier can
  // search character by character.
  const NoFheNetwork := "Network does not support " + "FHE. Please connect to " + "Sepolia testnet."
  const NoServerSide := "FHE SDK is not available " + "on server side. Please " + "try again."
  const NoCdn := "Failed to load FHE SDK " + "from CDN. Please check " + "your internet connection."
  const UnknownFheError := "Unknown FHE error occurred"

  const SignersNeedle := "getCoprocessorSigners"
  const ServerSideNeedle := "Zama SDK can only be loaded " + "on client side"
  const CdnNeedle := "Failed to load Zama SDK from CDN"

  /** A text that lacks the characters `C`, `Z` or `g` mentions none of the failures `handleFHEError` looks for. */
  lemma {:induction false} CleanWithout(text: string, c: char)
    requires c in {'C', 'g'} && c !in text && 'Z' !in text
    ensures !Contains(text, SignersNeedle)
    ensures !Contains(text, ServerSideNeedle)
    ensures !Contains(text, CdnNeedle)
  {
    if Contains(text, SignersNeedle) {
      ContainsChar(text, SignersNeedle, if c == 'C' then 3 else 0);
    }
    if Contains(text, ServerSideNeedle) {
      ContainsChar(text, ServerSideNeedle, 0);
    }
    if Contains(text, CdnNeedle) {
      ContainsChar(text, CdnNeedle, 15);
    }
  }

  /** The texts `handleFHEError` substitutes lack the characters that rule the failures out. */
  lemma NoFheNetworkLacksG() ensures 'g' !in NoFheNetwork {}
  lemma NoFheNetworkLacksZ() ensures 'Z' !in NoFheNetwork {}
  lemma NoServerSideLacksC() ensures 'C' !in NoServerSide {}
  lemma NoServerSideLacksZ() ensures 'Z' !in NoServerSide {}
  lemma NoCdnLacksG() ensures 'g' !in NoCdn {}
  lemma NoCdnLacksZ() ensures 'Z' !in NoCdn {}
  lemma UnknownFheErrorLacksG() ensures 'g' !in UnknownFheError {}
  lemma UnknownFheErrorLacksZ() ensures 'Z' !in UnknownFheError {}

  /** None of the texts `handleFHEError` substitutes mentions one of the failures it looks for. */
  predicate Clean(text: string) {
    !Contains(text, SignersNeedle) && !Contains(text, ServerSideNeedle) && !Contains(text, CdnNeedle)
  }

  lemma FriendlyTextsClean()
    ensures Clean(NoFheNetwork) && Clean(NoServerSide) && Clean(NoCdn) && Clean(UnknownFheError)
  {
    NoFheNetworkLacksG();
    NoFheNetworkLacksZ();
    CleanWithout(NoFheNetwork, 'g');
    NoServerSideLacksC();
    NoServerSideLacksZ();
    CleanWithout(NoServerSide, 'C');
    NoCdnLacksG();
    NoCdnLacksZ();
    CleanWithout(NoCdn, 'g');
    UnknownFheErrorLacksG();
    UnknownFheErrorLacksZ();
    CleanWithout(UnknownFheError, 'g');
  }

  /**
   * `handleFHEError`: the first matching known SDK failure gets a friendly text, any other
   * error keeps its own message, and an error without a message gets a generic text. An
   * absent `message` is the empty string here.
   */
  function HandleFheError(message: string): (text: string)
    ensures text != ""
    ensures Contains(message, SignersNeedle) ==> text == NoFheNetwork
    ensures !Contains(message, SignersNeedle) && Contains(message, ServerSideNeedle) ==> text == NoServerSide
    ensures !Contains(message, SignersNeedle) && !Contains(message, ServerSideNeedle) && Contains(message, CdnNeedle) ==>
      text == NoCdn
    ensures message == "" ==> text == UnknownFheError
    ensures text == message <==>
      message != ""
      && !Contains(message, SignersNeedle)
      && !Contains(message, ServerSideNeedle)
      && !Contains(message, CdnNeedle)
  {
    FriendlyTextsClean();
    if Contains(message, SignersNeedle) then NoFheNetwork
    else if Contains(message, ServerSideNeedle) then NoServerSide
    else if Contains(message, CdnNeedle) then NoCdn
    else if message != "" then message
    else UnknownFheError
  }

  /** The friendly texts match no known failure again, so translating twice changes nothing. */
  lemma {:induction false} HandleFheErrorIdempotent(message: string)
    ensures HandleFheError(HandleFheError(message)) == HandleFheError(message)
  {
    TranslationClean(message);
    CleanKept(HandleFheError(message));
  }

  /** What `handleFHEError` returns mentions none of the failures it looks for. */
  lemma TranslationClean(message: string)
    ensures Clean(HandleFheError(message))
  {
    FriendlyTextsClean();
    var text := HandleFheError(message);
    if Contains(message, SignersNeedle) {
      assert text == NoFheNetwork;
    } else if Contains(message, ServerSideNeedle) {
      assert text == NoServerSide;
    } else if Contains(message, CdnNeedle) {
      assert text == NoCdn;
    } else if message != "" {
      assert text == message;
    } else {
      assert text == UnknownFheError;
    }
  }

  /** A non-empty message that mentions no known failure comes back unchanged. */
  lemma CleanKept(text: string)
    requires Clean(text) && text != ""
    ensures HandleFheError(text) == text
  {
  }

  const CachePrefix := "decrypt_cache_"
  /** `CACHE_EXPIRY_MS`: 24 hours in milliseconds. */
  const CacheExpiryMs: int := 24 * 60 * 60 * 1000

  /** `getDecryptCacheKey`: the handle behind the cache prefix, so distinct handles get distinct keys. */
  function DecryptCacheKey(handle: string): (key: string)
    ensures StartsWith(key, CachePrefix) && key[|CachePrefix|..] == handle
  {
    CachePrefix + handle
  }

  /** `getDecryptMultipleCacheKey`: the handles, sorted and comma-joined, behind `multiple_`. */
  function DecryptMultipleCacheKey(handles: seq<string>): (key: string)
    ensures StartsWith(key, CachePrefix + "multiple_")
  {
    StartsWithConcat(CachePrefix + "multiple_", Join(Sort(handles), ","));
    CachePrefix + "multiple_" + Join(Sort(handles), ",")
  }

  /** The key of a batch does not depend on the order in which its handles are listed. */
  lemma MultipleKeyOrderFree(handles: seq<string>, reordered: seq<string>)
    requires multiset(handles) == multiset(reordered)
    ensures DecryptMultipleCacheKey(handles) == DecryptMultipleCacheKey(reordered)
  {
    SortPermutationInvariant(handles, reordered);
  }

  /** A single-handle key of a `0x` handle never collides with a batch key. */
  lemma {:induction false} KeySpacesDisjoint(handle: string, handles: seq<string>)
    requires StartsWith(handle, "0x")
    ensures DecryptCacheKey(handle) != DecryptMultipleCacheKey(handles)
  {
    var single := DecryptCacheKey(handle);
    var batch := DecryptMultipleCacheKey(handles);
    assert single[|CachePrefix|] == handle[0] == '0';
    assert batch[..|CachePrefix + "multiple_"|] == CachePrefix + "multiple_";
    assert batch[|CachePrefix|] == 'm';
  }

  /**
   * What `localStorage` holds under a key, as the cache reads it: an entry `{value, timestamp}`,
   * a string that `JSON.parse` rejects, or the empty string.
   */
  datatype Item<V> = Record(value: V, timestamp: int) | Unparseable | Blank

  /** The age test of `getDecryptCache` and `clearExpiredDecryptCache`. */
  predicate Expired(timestamp: int, now: int) {
    now - timestamp > CacheExpiryMs
  }

  /** Entries the sweep removes: cache entries that are expired or unparseable. */
  predicate Stale<V>(key: string, item: Item<V>, now: int) {
    StartsWith(key, CachePrefix) && (item.Unparseable? || (item.Record? && Expired(item.timestamp, now)))
  }

  /** What `getDecryptCache(key)` returns. */
  function Read<V>(items: map<string, Item<V>>, key: string, now: int): (r: Option<V>)
    ensures r.Some? <==> key in items && items[key].Record? && !Expired(items[key].timestamp, now)
    ensures r.Some? ==> r.value == items[key].value
  {
    if key !in items then None
    else match items[key]
      case Record(value, timestamp) => if Expired(timestamp, now) then None else Some(value)
      case _ => None
  }

  /** The storage after `getDecryptCache(key)`: an expired entry under the key is removed. */
  function AfterRead<V>(items: map<string, Item<V>>, key: string, now: int): (r: map<string, Item<V>>)
    ensures forall k :: k in r <==> k in items && !(k == key && items[k].Record? && Expired(items[k].timestamp, now))
    ensures forall k :: k in r ==> r[k] == items[k]
  {
    if key in items && items[key].Record? && Expired(items[key].timestamp, now) then items - {key} else items
  }

  /** The storage after `clearExpiredDecryptCache()`. */
  function Sweep<V>(items: map<string, Item<V>>, now: int): (r: map<string, Item<V>>)
    ensures forall k :: k in r <==> k in items && !Stale(k, items[k], now)
    ensures forall k :: k in r ==> r[k] == items[k]
  {
    map k | k in items && !Stale(k, items[k], now) :: items[k]
  }

  /** The storage after `clearAllDecryptCache()`. */
  function SweepAll<V>(items: map<string, Item<V>>): (r: map<string, Item<V>>)
    ensures forall k :: k in r <==> k in items && !StartsWith(k, CachePrefix)
    ensures forall k :: k in r ==> r[k] == items[k]
  {
    map k | k in items && !StartsWith(k, CachePrefix) :: items[k]
  }

  /** Sweeping twice removes nothing more. */
  lemma SweepIdempotent<V>(items: map<string, Item<V>>, now: int)
    ensures Sweep(Sweep(items, now), now) == Sweep(items, now)
  {
  }

  /** Sweeping never changes what a cache read returns at the same instant, nor any other key. */
  lemma SweepPreservesReads<V>(items: map<string, Item<V>>, now: int, key: string)
    ensures Read(Sweep(items, now), key, now) == Read(items, key, now)
    ensures !StartsWith(key, CachePrefix) ==> (key in Sweep(items, now) <==> key in items)
  {
  }

  /** A read after `clearAllDecryptCache` misses every cache key and leaves every other key alone. */
  lemma SweepAllForgets<V>(items: map<string, Item<V>>, key: string, now: int)
    ensures StartsWith(key, CachePrefix) ==> Read(SweepAll(items), key, now) == None
    ensures !StartsWith(key, CachePrefix) ==> Read(SweepAll(items), key, now) == Read(items, key, now)
  {
  }

  /** Whether `setItem` succeeds, leaving the storage as `next`: the quota counts keys. */
  predicate Fits<V>(next: map<string, Item<V>>, capacity: nat) {
    |next.Keys| <= capacity
  }

  /** The storage after `setDecryptCache(key, value)` at `now`: write; if that overflows, sweep and retry once. */
  function Written<V>(items: map<string, Item<V>>, capacity: nat, key: string, value: V, now: int): map<string, Item<V>> {
    if Fits(items[key := Record(value, now)], capacity) then items[key := Record(value, now)]
    else if Fits(Sweep(items, now)[key := Record(value, now)], capacity) then Sweep(items, now)[key := Record(value, now)]
    else Sweep(items, now)
  }

  /**
   * The browser's `localStorage`, as the cache sees it. `available` is `typeof window !==
   * "undefined"`; `capacity` stands for the storage quota, as a number of keys: a `setItem`
   * that would hold more keys throws.
   */
  class LocalStorage<V> {
    var items: map<string, Item<V>>
    const available: bool
    const capacity: nat

    constructor (available: bool, capacity: nat, items: map<string, Item<V>>)
      ensures this.available == available && this.capacity == capacity && this.items == items
    {
      this.available := available;
      this.capacity := capacity;
      this.items := items;
    }

    /** `getDecryptCache(key)`: a live entry's value; an expired entry is removed on the way. */
    method GetDecryptCache(key: string, now: int) returns (r: Option<V>)
      modifies this
      ensures !available ==> r == None && items == old(items)
      ensures available ==> r == Read(old(items), key, now) && items == AfterRead(old(items), key, now)
    {
      if !available {
        return None;
      }
      if key !in items {
        return None;
      }
      match items[key]
      case Record(value, timestamp) =>
        if Expired(timestamp, now) {
          items := items - {key};
          return None;
        }
        return Some(value);
      case Unparseable =>
        return None;
      case Blank =>
        return None;
    }

    /** `setDecryptCache(key, value)`: write; when the quota is hit, sweep and try once more. */
    method SetDecryptCache(key: string, value: V, now: int)
      modifies this
      ensures items == if available then Written(old(items), capacity, key, value, now) else old(items)
    {
      if !available {
        return;
      }
      var next := items[key := Record(value, now)];
      if Fits(next, capacity) {
        items := next;
      } else {
        ClearExpiredDecryptCache(now);
        next := items[key := Record(value, now)];
        if Fits(next, capacity) {
          items := next;
        }
      }
    }

    /** `clearExpiredDecryptCache()`: remove every cache entry that is expired or unparseable. */
    method ClearExpiredDecryptCache(now: int)
      modifies this
      ensures items == if available then Sweep(old(items), now) else old(items)
    {
      if !available {
        return;
      }
      var keys := items.Keys;
      ghost var before := items;
      while keys != {}
        invariant keys <= before.Keys
        invariant items == map k | k in before && (k in keys || !Stale(k, before[k], now)) :: before[k]
        decreases keys
      {
        var key :| key in keys;
        if StartsWith(key, CachePrefix) {
          match items[key]
          case Record(_, timestamp) =>
            if Expired(timestamp, now) {
              items := items - {key};
            }
          case Unparseable =>
            items := items - {key};
          case Blank =>
        }
        keys := keys - {key};
      }
    }

    /** `clearAllDecryptCache()`: remove every cache entry and nothing else. */
    method ClearAllDecryptCache()
      modifies this
      ensures items == if available then SweepAll(old(items)) else old(items)
    {
      if !available {
        return;
      }
      var keys := items.Keys;
      ghost var before := items;
      while keys != {}
        invariant keys <= before.Keys
        invariant items == map k | k in before && (k in keys || !StartsWith(k, CachePrefix)) :: before[k]
        decreases keys
      {
        var key :| key in keys;
        if StartsWith(key, CachePrefix) {
          items := items - {key};
        }
        keys := keys - {key};
      }
    }
  }

  /**
   * A value that was stored, on the first `setItem` or on the retry after the sweep, is read back
   * until it expires: an entry exactly 24 hours old is still live.
   */
  lemma ReadAfterWrite<V>(items: map<string, Item<V>>, capacity: nat, key: string, value: V, now: int, later: int)
    requires Fits(items[key := Record(value, now)], capacity) || Fits(Sweep(items, now)[key := Record(value, now)], capacity)
    requires later - now <= CacheExpiryMs
    ensures Read(Written(items, capacity, key, value, now), key, later) == Some(value)
  {
  }

  /** Once the TTL has passed, the same read misses. */
  lemma ReadAfterExpiry<V>(items: map<string, Item<V>>, capacity: nat, key: string, value: V, now: int, later: int)
    requires later - now > CacheExpiryMs
    requires forall k | k in items :: items[k].Record? ==> items[k].timestamp <= now
    ensures Read(Written(items, capacity, key, value, now), key, later) == None
  {
  }

  /** A write, even one that fails for want of room, never disturbs keys outside the cache. */
  lemma WriteKeepsForeignKeys<V>(items: map<string, Item<V>>, capacity: nat, key: string, value: V, now: int, k: string)
    requires k != key && !StartsWith(k, CachePrefix)
    ensures k in Written(items, capacity, key, value, now) <==> k in items
    ensures k in items ==> Written(items, capacity, key, value, now)[k] == items[k]
  {
  }
}
