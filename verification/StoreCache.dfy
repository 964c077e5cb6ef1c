/** `StoreHandleCache`, updated in place.  The methods named after one lock-protected block each are
    what the interleavings of CacheProtocol.dfy are made of; `GetOrOpen` runs them one call at a
    time. */
module StoreCache {
  import opened Wrappers
  import opened Lru

  /** The cache key names the store and the generation read from its manifest. */
  datatype CacheKey = CacheKey(store: string, generation: string)

  /** A lazily opened dataset, known by its identity only. */
  type Dataset = nat

  datatype Outcome = Pending | Opened(dataset: Dataset) | Raised(error: string)

  class Flight {
    var outcome: Outcome

    constructor ()
      ensures outcome == Pending
    {
      outcome := Pending;
    }
  }

  datatype Begin = Hit(dataset: Dataset) | Lead(flight: Flight) | Follow(flight: Flight)

  /** What publishing an opened dataset does to the entries. */
  function Publish(es: seq<(CacheKey, Dataset)>, key: CacheKey, d: Dataset, maxEntries: nat): seq<(CacheKey, Dataset)> {
    Last(PutLast(es, key, d), maxEntries)
  }

  /** The entries are the `n` most recently used keys of the history. */
  ghost predicate Tracks(es: seq<(CacheKey, Dataset)>, history: seq<CacheKey>, n: nat) {
    Keys(es) == CacheKeys(history, n) && Distinct(Keys(es)) && |es| <= n
  }

  lemma KeysAfterLookup(history: seq<CacheKey>, key: CacheKey, n: nat)
    ensures CacheKeys(history + [key], n) == LookupKeys(CacheKeys(history, n), key, n)
  {
    assert (history + [key])[..|history|] == history;
  }

  lemma HitTracks(es: seq<(CacheKey, Dataset)>, history: seq<CacheKey>, n: nat, key: CacheKey, d: Dataset)
    requires Tracks(es, history, n) && key in Keys(es)
    ensures Tracks(PutLast(es, key, d), history + [key], n)
  {
    PutLastKeys(es, key, d);
    TouchDistinct(Keys(es), key);
    KeysAfterLookup(history, key, n);
  }

  lemma MissKeys(ks: seq<CacheKey>, key: CacheKey, n: nat)
    requires Distinct(ks) && key !in ks
    ensures Last(Touch(ks, key), n) == LookupKeys(ks, key, n) && Distinct(Last(Touch(ks, key), n))
  {
  }

  lemma MissTracks(es: seq<(CacheKey, Dataset)>, history: seq<CacheKey>, n: nat, key: CacheKey, d: Dataset)
    requires Tracks(es, history, n) && key !in Keys(es)
    ensures Tracks(Publish(es, key, d, n), history + [key], n)
  {
    var published := Publish(es, key, d, n);
    assert Keys(published) == Last(Touch(Keys(es), key), n) by {
      PutLastKeys(es, key, d);
      LastKeys(PutLast(es, key, d), n);
    }
    MissKeys(Keys(es), key, n);
    KeysAfterLookup(history, key, n);
  }

  lemma DropFirst<T>(grown: seq<T>, left: seq<T>)
    requires left != [] && |left| <= |grown| && left == grown[|grown| - |left|..]
    ensures left[1..] == grown[|grown| - (|left| - 1)..]
  {
  }

  class StoreHandleCache {
    const maxEntries: nat
    var entries: seq<(CacheKey, Dataset)>
    var inFlight: map<CacheKey, Flight>
    var hits: nat
    var misses: nat
    /** The keys of the successful lookups, in order, when lookups run one at a time. */
    ghost var history: seq<CacheKey>

    constructor (maxEntries: nat)
      ensures this.maxEntries == maxEntries && entries == [] && inFlight == map[] && history == []
      ensures hits == 0 && misses == 0 && Quiet()
    {
      this.maxEntries := maxEntries;
      entries, inFlight, hits, misses, history := [], map[], 0, 0, [];
    }

    /** No call is in progress, and the entries are the most recently used keys of the history. */
    ghost predicate Quiet()
      reads this
    {
      inFlight == map[] && Tracks(entries, history, maxEntries)
    }

    /** First block: a hit moves to the end, otherwise the caller leads a new flight or follows
        the one in the air. */
    method BeginLookup(key: CacheKey) returns (b: Begin)
      modifies this`entries, this`inFlight, this`hits
      ensures b.Hit? <==> key in Keys(old(entries))
      ensures b.Hit? ==> (key, b.dataset) in old(entries)
      ensures b.Hit? ==> entries == PutLast(old(entries), key, b.dataset)
      ensures b.Hit? ==> inFlight == old(inFlight) && hits == old(hits) + 1
      ensures !b.Hit? ==> entries == old(entries) && hits == old(hits)
      ensures b.Follow? ==> key in old(inFlight) && b.flight == old(inFlight)[key] && inFlight == old(inFlight)
      ensures b.Lead? ==> key !in old(inFlight) && fresh(b.flight) && b.flight.outcome.Pending?
      ensures b.Lead? ==> inFlight == old(inFlight)[key := b.flight]
    {
      if key in Keys(entries) {
        var d := Get(entries, key);
        entries := PutLast(entries, key, d);
        hits := hits + 1;
        return Hit(d);
      }
      if key in inFlight { return Follow(inFlight[key]); }
      var flight := new Flight();
      inFlight := inFlight[key := flight];
      b := Lead(flight);
    }

    /** The leader's opener raised: nothing is cached and the key is free again. */
    method FinishRaised(key: CacheKey, flight: Flight, error: string)
      modifies this`inFlight, flight
      ensures inFlight == old(inFlight) - {key} && flight.outcome == Raised(error)
    {
      flight.outcome := Raised(error);
      inFlight := inFlight - {key};
    }

    /** The leader's opener returned: the dataset becomes the newest entry, the oldest ones leave
        until the cache fits, and the followers get the same dataset. */
    method FinishOpened(key: CacheKey, flight: Flight, d: Dataset)
      modifies this`entries, this`inFlight, this`misses, flight
      ensures entries == Publish(old(entries), key, d, maxEntries) && misses == old(misses) + 1
      ensures inFlight == old(inFlight) - {key} && flight.outcome == Opened(d)
    {
      misses := misses + 1;
      entries := PutLast(entries, key, d);
      ghost var grown := entries;
      while |entries| > maxEntries
        invariant |entries| <= |grown| && entries == grown[|grown| - |entries|..]
        invariant |entries| >= maxEntries || entries == grown
        modifies this`entries
      {
        DropFirst(grown, entries);
        entries := entries[1..];
      }
      flight.outcome := Opened(d);
      inFlight := inFlight - {key};
    }

    /** The first block of a lookup while no other is in progress. */
    method BeginQuietly(key: CacheKey) returns (b: Begin)
      requires Quiet()
      modifies this`entries, this`inFlight, this`hits, this`history
      ensures b.Hit? <==> key in Keys(old(entries))
      ensures b.Hit? ==> Quiet() && (key, b.dataset) in old(entries)
      ensures b.Hit? ==> history == old(history) + [key] && hits == old(hits) + 1
      ensures !b.Hit? ==> b.Lead? && fresh(b.flight) && inFlight == map[key := b.flight]
      ensures !b.Hit? ==> entries == old(entries) && history == old(history) && hits == old(hits)
    {
      b := BeginLookup(key);
      if b.Hit? {
        HitTracks(old(entries), history, maxEntries, key, b.dataset);
        history := history + [key];
      }
    }

    /** The leader's part of that lookup. */
    method FinishQuietly(key: CacheKey, flight: Flight, answer: Result<Dataset, string>)
      requires inFlight == map[key := flight] && Tracks(entries, history, maxEntries) && key !in Keys(entries)
      modifies this`entries, this`inFlight, this`misses, this`history, flight
      ensures Quiet()
      ensures answer.Err? ==> entries == old(entries) && misses == old(misses) && history == old(history)
      ensures answer.Ok? ==> entries == Publish(old(entries), key, answer.value, maxEntries)
      ensures answer.Ok? ==> misses == old(misses) + 1 && history == old(history) + [key]
    {
      match answer
      case Err(error) => FinishRaised(key, flight, error);
      case Ok(d) =>
        MissTracks(entries, history, maxEntries, key, d);
        FinishOpened(key, flight, d);
        history := history + [key];
    }

    /** One lookup while no other is in progress: a hit exactly when the key is among the
        `maxEntries` most recently used ones, and a raising opener changes nothing. */
    method GetOrOpen(key: CacheKey, answer: Result<Dataset, string>) returns (r: Result<(Dataset, bool), string>)
      requires Quiet()
      modifies this
      ensures Quiet()
      ensures key in Keys(old(entries)) <==> key in CacheKeys(old(history), maxEntries)
      ensures var hit := key in Keys(old(entries));
              && (r.Err? <==> !hit && answer.Err?)
              && (r.Err? ==> r.error == answer.error && entries == old(entries) && history == old(history))
              && (r.Ok? ==> r.value.1 == hit && history == old(history) + [key])
              && (r.Ok? ==> if hit then (key, r.value.0) in old(entries) else Ok(r.value.0) == answer)
              && hits == old(hits) + (if hit then 1 else 0)
              && misses == old(misses) + (if r.Ok? && !hit then 1 else 0)
    {
      var b := BeginQuietly(key);
      if b.Hit? { return Ok((b.dataset, true)); }
      FinishQuietly(key, b.flight, answer);
      match answer
      case Err(error) => r := Err(error);
      case Ok(d) => r := Ok((d, false));
    }
  }
}
