/**
 * cache.go: the default configuration cache, a concurrent string map behind Get, Set, Del and
 * Range, and the factory that makes one. Only strings are ever stored, so the type assertions
 * on what the map holds always succeed.
 */
module Cache {
  import opened Options

  /** The message of the error Get reports for a missing key. */
  const LoadFail: string := "load default cache fail"

  /** What Get returns for key: the stored value without error, or "" and the load error. */
  function Lookup(store: map<string, string>, key: string): (r: (string, Option<string>))
    ensures key in store ==> r == (store[key], None)
    ensures key !in store ==> r == ("", Some(LoadFail))
  {
    if key in store then (store[key], None) else ("", Some(LoadFail))
  }

  /** Reading a key just stored gives the value stored, without error. */
  lemma LookupAfterStore(store: map<string, string>, key: string, value: string, other: string)
    ensures Lookup(store[key := value], key) == (value, None)
    ensures other != key ==> Lookup(store[key := value], other) == Lookup(store, other)
  {
  }

  /** Reading a key just deleted fails, and deleting one key leaves every other readable as before. */
  lemma LookupAfterDelete(store: map<string, string>, key: string, other: string)
    ensures Lookup(store - {key}, key) == ("", Some(LoadFail))
    ensures other != key ==> Lookup(store - {key}, other) == Lookup(store, other)
  {
  }

  /** The arguments Range hands to f for the entry at key: the key, twice. */
  function Visit(store: map<string, string>, key: string): (r: (string, string))
    requires key in store
    ensures r.0 == key
  {
    (key, key)
  }

  /** The arguments evidently intended: the key and the value stored under it. */
  function VisitFixed(store: map<string, string>, key: string): (r: (string, string))
    requires key in store
    ensures r.0 == key && r.1 == store[key]
  {
    (key, store[key])
  }

  /** Range as written shows f the key where the value belongs: any entry whose value differs from its key. */
  lemma RangePassesKey()
    ensures Visit(map["a" := "1"], "a").1 != map["a" := "1"]["a"]
    ensures VisitFixed(map["a" := "1"], "a").1 == map["a" := "1"]["a"]
  {
  }

  /** The keys of the entries a Range call visited. */
  function Visited(calls: seq<(string, string)>): set<string> {
    set i | 0 <= i < |calls| :: calls[i].0
  }

  lemma VisitedAppend(calls: seq<(string, string)>, args: (string, string))
    ensures Visited(calls + [args]) == Visited(calls) + {args.0}
  {
    var c := calls + [args];
    assert forall i :: 0 <= i < |calls| ==> c[i] == calls[i];
    assert c[|calls|] == args;
  }

  /**
   * What a Range call may have done: each entry visited at most once, f held on every call but
   * the last, and either f turned false on the last call or every entry was visited.
   */
  predicate RangeOutcome(store: map<string, string>, f: (string, string) -> bool, calls: seq<(string, string)>) {
    && (forall i :: 0 <= i < |calls| ==> calls[i].0 in store)
    && (forall i, j :: 0 <= i < j < |calls| ==> calls[i].0 != calls[j].0)
    && (forall i :: 0 <= i < |calls| - 1 ==> f(calls[i].0, calls[i].1))
    && ((calls != [] && !f(calls[|calls| - 1].0, calls[|calls| - 1].1))
        || (Visited(calls) == store.Keys && forall i :: 0 <= i < |calls| ==> f(calls[i].0, calls[i].1)))
  }

  /**
   * Part way through a Range call: rest holds the entries not yet visited, each visited entry
   * was visited once, and f held on every call so far.
   */
  predicate Scanned(store: map<string, string>, f: (string, string) -> bool, calls: seq<(string, string)>, rest: set<string>) {
    && rest <= store.Keys
    && (forall i :: 0 <= i < |calls| ==> calls[i].0 in store && calls[i].0 !in rest)
    && (forall i, j :: 0 <= i < j < |calls| ==> calls[i].0 != calls[j].0)
    && (forall i :: 0 <= i < |calls| ==> f(calls[i].0, calls[i].1))
    && Visited(calls) + rest == store.Keys
  }

  /** Visiting one more entry either keeps the scan going or ends the call. */
  lemma ScanStep(store: map<string, string>, f: (string, string) -> bool, calls: seq<(string, string)>,
                 rest: set<string>, args: (string, string))
    requires Scanned(store, f, calls, rest) && args.0 in rest
    ensures f(args.0, args.1) ==> Scanned(store, f, calls + [args], rest - {args.0})
    ensures !f(args.0, args.1) ==> RangeOutcome(store, f, calls + [args])
  {
    VisitedAppend(calls, args);
  }

  /** A scan with nothing left to visit is a complete Range call. */
  lemma ScanDone(store: map<string, string>, f: (string, string) -> bool, calls: seq<(string, string)>)
    requires Scanned(store, f, calls, {})
    ensures RangeOutcome(store, f, calls)
  {
  }

  /** DefaultCache: the sync.Map, as the map from key to value it holds. */
  class DefaultCache {
    var store: map<string, string>

    constructor()
      ensures store == map[]
    {
      store := map[];
    }

    /** Get: the value under key, or "" and "load default cache fail" when there is none. */
    method Get(key: string) returns (value: string, err: Option<string>)
      ensures (value, err) == Lookup(store, key)
    {
      if key !in store {
        return "", Some(LoadFail);
      }
      return store[key], None;
    }

    /** Set: stores value under key, leaving every other key alone; it never fails. */
    method Set(key: string, value: string) returns (err: Option<string>)
      modifies this
      ensures store == old(store)[key := value]
      ensures err.None?
    {
      store := store[key := value];
      return None;
    }

    /** Del: removes key, whether or not it was there, and always reports true. */
    method Del(key: string) returns (affected: bool)
      modifies this
      ensures store == old(store) - {key}
      ensures affected
    {
      store := store - {key};
      return true;
    }

    /**
     * Range: visits the entries in an order the map does not fix and calls f on each, until f
     * returns false; calls lists the arguments f was given, which are the key twice.
     */
    method Range(f: (string, string) -> bool) returns (calls: seq<(string, string)>)
      ensures RangeOutcome(store, f, calls)
      ensures forall i :: 0 <= i < |calls| ==> calls[i].0 in store && calls[i] == Visit(store, calls[i].0)
    {
      calls := [];
      var rest := store.Keys;
      while rest != {}
        invariant Scanned(store, f, calls, rest)
        invariant forall i :: 0 <= i < |calls| ==> calls[i].0 in store && calls[i] == Visit(store, calls[i].0)
        decreases rest
      {
        var k :| k in rest;
        var args := Visit(store, k);
        ScanStep(store, f, calls, rest, args);
        calls := calls + [args];
        if !f(args.0, args.1) {
          return;
        }
        rest := rest - {k};
      }
      ScanDone(store, f, calls);
    }

    /** Range as evidently intended: f is given each key with its value. */
    method RangeFixed(f: (string, string) -> bool) returns (calls: seq<(string, string)>)
      ensures RangeOutcome(store, f, calls)
      ensures forall i :: 0 <= i < |calls| ==> calls[i].0 in store && calls[i].1 == store[calls[i].0]
    {
      calls := [];
      var rest := store.Keys;
      while rest != {}
        invariant Scanned(store, f, calls, rest)
        invariant forall i :: 0 <= i < |calls| ==> calls[i].0 in store && calls[i].1 == store[calls[i].0]
        decreases rest
      {
        var k :| k in rest;
        var args := VisitFixed(store, k);
        ScanStep(store, f, calls, rest, args);
        calls := calls + [args];
        if !f(args.0, args.1) {
          return;
        }
        rest := rest - {k};
      }
      ScanDone(store, f, calls);
    }
  }

  /** DefaultCacheFactory: Create makes a new, empty cache. */
  class DefaultCacheFactory {
    constructor() {
    }

    method Create() returns (c: DefaultCache)
      ensures fresh(c) && c.store == map[]
    {
      c := new DefaultCache();
    }
  }
}
