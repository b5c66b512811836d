/** Which calls are answered from the cache and which are run (hax/hax/consul/cache.py). */
module CacheHits {
  import opened Fids
  import opened ConsulCache

  /** A call is answered from the cache exactly when the cache is handed on and has it. */
  lemma HitsIff(code: Code, b: Program, seen: seq<Outcome>, kv: KV, c: Cache, f: Target, pass: bool, es: seq<Event>)
    requires b(seen) == Call(f, pass) && Cached(code, b, seen, kv, c, es).Some?
    ensures es != [] && (es[0].Hit? <==> pass && f in c) && (es[0].Hit? || es[0].Ran?)
  {
  }

  /** A call that has returned with the cache handed on is not run again by the next one. */
  lemma SecondCallHits(code: Code, b: Program, seen: seq<Outcome>, kv: KV, c: Cache, f: Target, es: seq<Event>,
                       kv1: KV, c1: Cache, o: Outcome)
    requires b(seen) == Call(f, true) && Cached(code, b, seen, kv, c, es).Some? && es != [] && es[0].Ran?
    requires Cached(code, code(f), [], kv, c, es[0].inner) == Some((kv1, c1, o)) && o.Ok? && b(seen + [o]) == Call(f, true)
    ensures |es| >= 2 && es[1].Hit?
  {
    HitsIff(code, b, seen, kv, c, f, true, es);
    assert f in Remember(c1, f, o);
    HitsIff(code, b, seen + [o], kv1, Remember(c1, f, o), f, true, es[1..]);
  }

  /** One that has raised is run again, unless it was cached on the way. */
  lemma RaisedRunsAgain(code: Code, b: Program, seen: seq<Outcome>, kv: KV, c: Cache, f: Target, es: seq<Event>,
                        kv1: KV, c1: Cache)
    requires b(seen) == Call(f, true) && Cached(code, b, seen, kv, c, es).Some? && es != [] && es[0].Ran?
    requires Cached(code, code(f), [], kv, c, es[0].inner) == Some((kv1, c1, Raised)) && b(seen + [Raised]) == Call(f, true)
    requires f !in c1
    ensures |es| >= 2 && es[1].Ran?
  {
    HitsIff(code, b, seen, kv, c, f, true, es);
    HitsIff(code, b, seen + [Raised], kv1, c1, f, true, es[1..]);
  }

  /** A call without the cache runs with an empty one, and leaves it as it is. */
  lemma UnpassedKeepsCache(code: Code, b: Program, seen: seq<Outcome>, kv: KV, c: Cache, f: Target, es: seq<Event>)
    requires b(seen) == Call(f, false) && |es| == 1 && Cached(code, b, seen, kv, c, es).Some?
    ensures Cached(code, b, seen, kv, c, es).value.1 == c
    ensures es[0].Ran? && Cached(code, code(f), [], kv, map[], es[0].inner).Some?
  {
    HitsIff(code, b, seen, kv, c, f, false, es);
    assert es[1..] == [];
  }
}
