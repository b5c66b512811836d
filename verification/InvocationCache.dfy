/** The cache object of hax/hax/consul/cache.py and the decorators around calls and writes, working in
    place on a store and a nested dictionary. */
module InvocationCaches {
  import opened Fids
  import opened ConsulCache

  class InvocationCache {
    /** function name -> stringified arguments -> returned value */
    var calls: map<string, map<string, Outcome>>

    /** The cache as one map from call to outcome. */
    ghost function View(): (c: Cache)
      reads this
      ensures forall f :: f in c <==> f.fn in calls && f.args in calls[f.fn]
      ensures forall f :: f in c ==> c[f] == calls[f.fn][f.args]
    {
      map f | f in (set fn, a | fn in calls && a in calls[fn] :: Target(fn, a)) :: calls[f.fn][f.args]
    }

    constructor ()
      ensures View() == map[]
    {
      calls := map[];
    }

    method Has(f: Target) returns (r: bool)
      ensures r <==> f in View()
    {
      if f.fn !in calls {
        return false;
      }
      return f.args in calls[f.fn];
    }

    /** None stands for the KeyError. */
    method Lookup(f: Target) returns (o: Option<Outcome>)
      ensures o == if f in View() then Some(View()[f]) else None
    {
      if f.fn !in calls || f.args !in calls[f.fn] {
        return None;
      }
      o := Some(calls[f.fn][f.args]);
    }

    method Clear()
      modifies this
      ensures View() == map[]
    {
      calls := map[];
    }

    method Store(f: Target, o: Outcome)
      modifies this
      ensures View() == old(View())[f := o]
    {
      var entries := if f.fn in calls then calls[f.fn] else map[];
      calls := calls[f.fn := entries[f.args := o]];
    }
  }

  class KVStore {
    var data: KV
    constructor (data: KV)
      ensures this.data == data
    {
      this.data := data;
    }
  }

  /** Runs a program under the decorators, event by event: reads go to the store, writes clear the cache
      they are handed, calls are looked up, run on a miss with the cache handed on or a new one, and
      remembered when they return. */
  method Execute(code: Code, b: Program, start: seq<Outcome>, kv: KVStore, cache: InvocationCache, es: seq<Event>)
    returns (o: Outcome)
    requires Cached(code, b, start, kv.data, cache.View(), es).Some?
    modifies kv, cache
    ensures old(Cached(code, b, start, kv.data, cache.View(), es)) == Some((kv.data, cache.View(), o))
    decreases es, 0
  {
    var seen := start;
    var i := 0;
    while i < |es|
      invariant 0 <= i <= |es|
      invariant Cached(code, b, seen, kv.data, cache.View(), es[i..])
             == old(Cached(code, b, start, kv.data, cache.View(), es))
    {
      assert es[i..][1..] == es[i+1..];
      match b(seen) {
        case Get(key) =>
          seen := seen + [ReadOutcome(es[i].ok, kv.data, key)];
        case Put(key, val, pass) =>
          if pass {
            cache.Clear();
          }
          var ok := es[i].ok;
          if ok {
            kv.data := kv.data[key := val];
          }
          seen := seen + [StoreOutcome(ok)];
        case Call(f, pass) =>
          var r := Invoke(code, f, pass, kv, cache, es[i]);
          seen := seen + [r];
      }
      i := i + 1;
    }
    o := b(seen).o;
  }

  /** `uses_consul_cache` around one call. */
  method Invoke(code: Code, f: Target, pass: bool, kv: KVStore, cache: InvocationCache, e: Event) returns (r: Outcome)
    requires e.Hit? ==> pass && f in cache.View()
    requires !e.Hit? ==> e.Ran? && !(pass && f in cache.View()) &&
                         Cached(code, code(f), [], kv.data, if pass then cache.View() else map[], e.inner).Some?
    modifies kv, cache
    ensures e.Hit? ==> kv.data == old(kv.data) && cache.View() == old(cache.View()) && r == cache.View()[f]
    ensures e.Ran? ==>
              var (kv1, c1, o) := old(Cached(code, code(f), [], kv.data, if pass then cache.View() else map[], e.inner)).value;
              && kv.data == kv1 && r == o
              && cache.View() == if pass then Remember(c1, f, o) else old(cache.View())
    decreases e
  {
    if pass {
      var found := cache.Has(f);
      if found {
        var answer := cache.Lookup(f);
        r := answer.value;
      } else {
        r := RunAndRemember(code, f, kv, cache, e.inner);
      }
    } else {
      var own := new InvocationCache();
      r := RunAndRemember(code, f, kv, own, e.inner);
    }
  }

  /** The miss: the function runs and its value is put into the cache it was given. */
  method RunAndRemember(code: Code, f: Target, kv: KVStore, cache: InvocationCache, inner: seq<Event>) returns (r: Outcome)
    requires Cached(code, code(f), [], kv.data, cache.View(), inner).Some?
    modifies kv, cache
    ensures var (kv1, c1, o) := old(Cached(code, code(f), [], kv.data, cache.View(), inner)).value;
            kv.data == kv1 && r == o && cache.View() == Remember(c1, f, o)
    decreases inner, 1
  {
    r := Execute(code, code(f), [], kv, cache, inner);
    if r.Ok? {
      cache.Store(f, r);
    }
  }
}
