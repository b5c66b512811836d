/** Implicit memoisation over the KV store (hax/hax/consul/cache.py): cached and direct execution of
    nested programs.

    A program is a strategy: from the outcomes seen so far it decides its next action.  An execution is
    a finite tree of events; replaying the tree checks that it is an execution and computes its effect.
    Nothing bounds the depth of calls or the number of actions. */
module ConsulCache {
  import opened Fids

  type KV = map<string, string>

  /** A function raises or returns a value; only returned values are cached. */
  datatype Outcome = Raised | Ok(value: Option<string>)

  /** A decorated function and its stringified arguments. */
  datatype Target = Target(fn: string, args: string)

  /** `pass` says whether the action hands the current cache on as kv_cache. */
  datatype Action =
    | Return(o: Outcome) | Get(key: string) | Call(f: Target, pass: bool) | Put(key: string, val: string, pass: bool)

  type Program = seq<Outcome> -> Action
  type Code = Target -> Program

  /** A read or write of the store raises or not; a call is answered from the cache or runs the function. */
  datatype Event = Got(ok: bool) | Stored(ok: bool) | Hit | Ran(inner: seq<Event>)

  type Cache = map<Target, Outcome>

  function Lookup(kv: KV, key: string): Outcome {
    Ok(if key in kv then Some(kv[key]) else None)
  }

  function ReadOutcome(ok: bool, kv: KV, key: string): Outcome {
    if ok then Lookup(kv, key) else Raised
  }

  function StoreOutcome(ok: bool): Outcome {
    if ok then Ok(None) else Raised
  }

  /** What `es` does as an execution of `b` without any cache, from outcomes `seen` and store `kv`. */
  function Direct(code: Code, b: Program, seen: seq<Outcome>, kv: KV, es: seq<Event>): Option<(KV, Outcome)>
    decreases es
  {
    if es == [] then (if b(seen).Return? then Some((kv, b(seen).o)) else None)
    else
      match (b(seen), es[0])
      case (Get(key), Got(ok)) => Direct(code, b, seen + [ReadOutcome(ok, kv, key)], kv, es[1..])
      case (Put(key, val, _), Stored(ok)) =>
        Direct(code, b, seen + [StoreOutcome(ok)], if ok then kv[key := val] else kv, es[1..])
      case (Call(f, _), Ran(inner)) =>
        (match Direct(code, code(f), [], kv, inner)
         case None => None
         case Some((kv1, o)) => Direct(code, b, seen + [o], kv1, es[1..]))
      case _ => None
  }

  /** The cache entry made after a function has run; `uses_consul_cache` does not catch exceptions. */
  function Remember(c: Cache, f: Target, o: Outcome): Cache {
    if o.Ok? then c[f := o] else c
  }

  /** What `es` does as an execution of `b` under the decorators, with cache `c`. */
  function Cached(code: Code, b: Program, seen: seq<Outcome>, kv: KV, c: Cache, es: seq<Event>)
    : Option<(KV, Cache, Outcome)>
    decreases es
  {
    if es == [] then (if b(seen).Return? then Some((kv, c, b(seen).o)) else None)
    else
      match (b(seen), es[0])
      case (Get(key), Got(ok)) => Cached(code, b, seen + [ReadOutcome(ok, kv, key)], kv, c, es[1..])
      case (Put(key, val, pass), Stored(ok)) =>
        Cached(code, b, seen + [StoreOutcome(ok)], if ok then kv[key := val] else kv,
               if pass then map[] else c, es[1..])
      case (Call(f, pass), Hit) =>
        if pass && f in c then Cached(code, b, seen + [c[f]], kv, c, es[1..]) else None
      case (Call(f, pass), Ran(inner)) =>
        if pass && f in c then None
        else
          (match Cached(code, code(f), [], kv, if pass then c else map[], inner)
           case None => None
           case Some((kv1, c1, o)) =>
             Cached(code, b, seen + [o], kv1, if pass then Remember(c1, f, o) else c, es[1..]))
      case _ => None
  }

  // ---------------------------------------------------------------- what the decorators rely on

  /** Decorated functions do not write. */
  ghost predicate ReadOnly(code: Code) {
    forall f, seen :: !code(f)(seen).Put?
  }

  /** Every write hands the cache on, so that it is cleared. */
  ghost predicate WritesPass(b: Program) {
    forall seen :: b(seen).Put? ==> b(seen).pass
  }

  /** No read of the store raises. */
  predicate Clean(es: seq<Event>)
    decreases es
  {
    es == [] || (CleanEvent(es[0]) && Clean(es[1..]))
  }

  predicate CleanEvent(e: Event)
    decreases e
  {
    match e
    case Got(ok) => ok
    case Ran(inner) => Clean(inner)
    case _ => true
  }

  /** Some direct execution on this store, without failing reads if `clean`, returns `o`. */
  ghost predicate Evaluates(code: Code, f: Target, kv: KV, o: Outcome, clean: bool) {
    exists es :: Direct(code, code(f), [], kv, es) == Some((kv, o)) && (clean ==> Clean(es))
  }

  /** Every cached value is what the function may return on the present store. */
  ghost predicate Fresh(code: Code, kv: KV, c: Cache, clean: bool) {
    forall f :: f in c ==> Evaluates(code, f, kv, c[f], clean)
  }

  lemma {:induction false} ReadersKeepStore(code: Code, b: Program, seen: seq<Outcome>, kv: KV, es: seq<Event>)
    requires ReadOnly(code) && (forall h :: !b(h).Put?) && Direct(code, b, seen, kv, es).Some?
    ensures Direct(code, b, seen, kv, es).value.0 == kv
    decreases es
  {
    if es != [] {
      match (b(seen), es[0])
      case (Get(key), Got(ok)) =>
        ReadersKeepStore(code, b, seen + [ReadOutcome(ok, kv, key)], kv, es[1..]);
      case (Call(f, _), Ran(inner)) =>
        ReadersKeepStore(code, code(f), [], kv, inner);
        var o := Direct(code, code(f), [], kv, inner).value.1;
        ReadersKeepStore(code, b, seen + [o], kv, es[1..]);
      case _ =>
    }
  }

  /** A direct execution of a reader on a given store in which no read raises has only one outcome. */
  lemma {:induction false} ReadersDeterministic(code: Code, b: Program, seen: seq<Outcome>, kv: KV, es: seq<Event>, ds: seq<Event>)
    requires ReadOnly(code) && (forall h :: !b(h).Put?) && Clean(es) && Clean(ds)
    requires Direct(code, b, seen, kv, es).Some? && Direct(code, b, seen, kv, ds).Some?
    ensures Direct(code, b, seen, kv, es) == Direct(code, b, seen, kv, ds)
    decreases es
  {
    if es != [] && ds != [] {
      match (b(seen), es[0])
      case (Get(key), Got(_)) =>
        ReadersDeterministic(code, b, seen + [Lookup(kv, key)], kv, es[1..], ds[1..]);
      case (Call(f, _), Ran(inner)) =>
        ReadersDeterministic(code, code(f), [], kv, inner, ds[0].inner);
        ReadersKeepStore(code, code(f), [], kv, inner);
        var o := Direct(code, code(f), [], kv, inner).value.1;
        ReadersDeterministic(code, b, seen + [o], kv, es[1..], ds[1..]);
      case _ =>
    }
  }

  lemma CleanFirst(e: Event, es: seq<Event>)
    ensures Clean([e] + es) <==> CleanEvent(e) && Clean(es)
  {
    assert ([e] + es)[1..] == es;
  }

  /** Transparency: whatever a cached execution returns and leaves in the store, a direct execution
      returns and leaves, and the cache stays fresh.  Reads and writes may raise anywhere; if no read does
      in the cached execution, none does in the direct one. */
  lemma {:induction false} CacheTransparent(code: Code, b: Program, seen: seq<Outcome>, kv: KV, c: Cache, es: seq<Event>,
                                            clean: bool)
    returns (ds: seq<Event>)
    requires ReadOnly(code) && WritesPass(b) && Fresh(code, kv, c, clean) && Cached(code, b, seen, kv, c, es).Some?
    requires clean ==> Clean(es)
    ensures var (kv', c', o) := Cached(code, b, seen, kv, c, es).value;
            Direct(code, b, seen, kv, ds) == Some((kv', o)) && Fresh(code, kv', c', clean)
    ensures clean ==> Clean(ds)
    decreases es, 1
  {
    if es == [] {
      ds := [];
    } else {
      match (b(seen), es[0])
      case (Get(key), Got(ok)) =>
        var rest := CacheTransparent(code, b, seen + [ReadOutcome(ok, kv, key)], kv, c, es[1..], clean);
        ds := [Got(ok)] + rest;
        CleanFirst(Got(ok), rest);
      case (Put(key, val, pass), Stored(ok)) =>
        var rest := CacheTransparent(code, b, seen + [StoreOutcome(ok)], if ok then kv[key := val] else kv, map[], es[1..], clean);
        ds := [Stored(ok)] + rest;
        CleanFirst(Stored(ok), rest);
      case (Call(f, pass), Hit) =>
        assert Evaluates(code, f, kv, c[f], clean);
        var inner :| Direct(code, code(f), [], kv, inner) == Some((kv, c[f])) && (clean ==> Clean(inner));
        var rest := CacheTransparent(code, b, seen + [c[f]], kv, c, es[1..], clean);
        ds := [Ran(inner)] + rest;
        CleanFirst(Ran(inner), rest);
      case (Call(f, pass), Ran(inner)) =>
        ds := RanTransparent(code, b, seen, kv, c, f, pass, inner, es, clean);
    }
  }

  lemma {:induction false} RanTransparent(code: Code, b: Program, seen: seq<Outcome>, kv: KV, c: Cache, f: Target,
                                          pass: bool, inner: seq<Event>, es: seq<Event>, clean: bool)
    returns (ds: seq<Event>)
    requires ReadOnly(code) && WritesPass(b) && Fresh(code, kv, c, clean) && (clean ==> Clean(es))
    requires es != [] && es[0] == Ran(inner) && b(seen) == Call(f, pass) && Cached(code, b, seen, kv, c, es).Some?
    ensures var (kv', c', o) := Cached(code, b, seen, kv, c, es).value;
            Direct(code, b, seen, kv, ds) == Some((kv', o)) && Fresh(code, kv', c', clean)
    ensures clean ==> Clean(ds)
    decreases es, 0
  {
    var c0: Cache := if pass then c else map[];
    var (kv1, c1, o) := Cached(code, code(f), [], kv, c0, inner).value;
    var dInner := CacheTransparent(code, code(f), [], kv, c0, inner, clean);
    ReadersKeepStore(code, code(f), [], kv, dInner);
    var c2 := if pass then Remember(c1, f, o) else c;
    assert Evaluates(code, f, kv, o, clean);
    var rest := CacheTransparent(code, b, seen + [o], kv, c2, es[1..], clean);
    ds := [Ran(dInner)] + rest;
    CleanFirst(Ran(dInner), rest);
    assert ds[1..] == rest;
  }

  /** The public face: a whole program started with an empty cache.  If no read raised, every direct
      evaluation at the end in which none raises gives the cached value. */
  lemma CachedRunIsDirectRun(code: Code, b: Program, kv: KV, es: seq<Event>, kv': KV, c': Cache, o: Outcome)
    requires ReadOnly(code) && WritesPass(b) && Cached(code, b, [], kv, map[], es) == Some((kv', c', o))
    ensures exists ds :: Direct(code, b, [], kv, ds) == Some((kv', o))
    ensures forall f, ds :: Clean(es) && f in c' && Clean(ds) && Direct(code, code(f), [], kv', ds).Some? ==>
                              Direct(code, code(f), [], kv', ds) == Some((kv', c'[f]))
  {
    var ds := CacheTransparent(code, b, [], kv, map[], es, Clean(es));
    forall f, ds | Clean(es) && f in c' && Clean(ds) && Direct(code, code(f), [], kv', ds).Some?
      ensures Direct(code, code(f), [], kv', ds) == Some((kv', c'[f]))
    {
      assert Evaluates(code, f, kv', c'[f], true);
      var es :| Direct(code, code(f), [], kv', es) == Some((kv', c'[f])) && Clean(es);
      ReadersDeterministic(code, code(f), [], kv', es, ds);
    }
  }

  // ---------------------------------------------------------------- a write that keeps the cache

  /** Reads one key, writes it, reads it again and returns the second answer. */
  function ReadWriteRead(f: Target, key: string, val: string, pass: bool): Program {
    seen => if |seen| == 0 || |seen| == 2 then Call(f, true)
            else if |seen| == 1 then Put(key, val, pass)
            else Return(seen[2])
  }

  function ReaderOf(key: string): Program {
    (seen: seq<Outcome>) => if seen == [] then Get(key) else Return(seen[0])
  }

  /** The write in the middle is transparent exactly when it hands the cache on; a write that does
      not, like the one `_generate_sub_disks` makes, leaves the first answer to be served again. */
  lemma StaleReadIff(f: Target, key: string, was: string, val: string, pass: bool)
    requires was != val
    ensures var code: Code := _ => ReaderOf(key);
            var b := ReadWriteRead(f, key, val, pass);
            var again := if pass then Ran([Got(true)]) else Hit;
            var r := Cached(code, b, [], map[key := was], map[], [Ran([Got(true)]), Stored(true), again]);
            && Direct(code, b, [], map[key := was], [Ran([Got(true)]), Stored(true), Ran([Got(true)])])
               == Some((map[key := val], Ok(Some(val))))
            && r.Some? && r.value.0 == map[key := val] && r.value.2 == Ok(Some(if pass then val else was))
  {
    var code: Code := _ => ReaderOf(key);
    var b := ReadWriteRead(f, key, val, pass);
    var again := if pass then Ran([Got(true)]) else Hit;
    var kv: KV, kv': KV := map[key := was], map[key := val];
    assert map[key := was][key := val] == kv';
    OneRead(code, key, kv);
    OneRead(code, key, kv');
    var o1, o2, o3 := Ok(Some(was)), Ok(None), Ok(Some(val));
    assert [] + [o1] == [o1] && [o1] + [o2] == [o1, o2] && [o1, o2] + [o3] == [o1, o2, o3];
    assert [o1, o2] + [o1] == [o1, o2, o1];
    var es := [Ran([Got(true)]), Stored(true), again];
    assert es[1..] == [Stored(true), again] && es[1..][1..] == [again] && es[1..][1..][1..] == [];
    var ds := [Ran([Got(true)]), Stored(true), Ran([Got(true)])];
    assert ds[1..] == [Stored(true), Ran([Got(true)])] && ds[1..][1..] == [Ran([Got(true)])] && ds[1..][1..][1..] == [];
    var c1: Cache := map[f := o1];
    if pass {
      var c3: Cache := map[f := o3];
      assert Cached(code, b, [o1, o2, o3], kv', c3, []) == Some((kv', c3, o3));
      assert Cached(code, b, [o1, o2], kv', map[], [again]) == Some((kv', c3, o3));
      assert Cached(code, b, [o1], kv, c1, [Stored(true), again]) == Some((kv', c3, o3));
    } else {
      assert Cached(code, b, [o1, o2, o1], kv', c1, []) == Some((kv', c1, o1));
      assert Cached(code, b, [o1, o2], kv', c1, [again]) == Some((kv', c1, o1));
      assert Cached(code, b, [o1], kv, c1, [Stored(true), again]) == Some((kv', c1, o1));
    }
  }

  /** Whatever a cached run of the program returns and stores, some direct run does. */
  ghost predicate Transparent(code: Code, b: Program) {
    forall kv, es :: Cached(code, b, [], kv, map[], es).Some? ==> HasDirectRun(code, b, kv, Cached(code, b, [], kv, map[], es).value)
  }

  ghost predicate HasDirectRun(code: Code, b: Program, kv: KV, r: (KV, Cache, Outcome)) {
    exists ds :: Direct(code, b, [], kv, ds) == Some((r.0, r.2))
  }

  /** All writes hand the cache on, or none does. */
  ghost predicate WritesAre(b: Program, pass: bool) {
    forall seen :: b(seen).Put? ==> b(seen).pass == pass
  }

  /** What a reader of one key can do. */
  lemma ReaderOnly(code: Code, key: string, kv: KV, es: seq<Event>)
    requires Direct(code, ReaderOf(key), [], kv, es).Some?
    ensures Direct(code, ReaderOf(key), [], kv, es).value.0 == kv
    ensures Direct(code, ReaderOf(key), [], kv, es).value.1 in {Raised, Lookup(kv, key)}
  {
    assert es != [] && es[0].Got?;
    var o := ReadOutcome(es[0].ok, kv, key);
    assert [] + [o] == [o] && ReaderOf(key)([o]) == Return(o);
    assert es[1..] == [];
  }

  /** What a direct run of the program returns is what the store then holds, unless the read raised. */
  lemma DirectRunIsFresh(f: Target, key: string, val: string, kv: KV, ds: seq<Event>)
    requires Direct(_ => ReaderOf(key), ReadWriteRead(f, key, val, false), [], kv, ds).Some?
    ensures var r := Direct(_ => ReaderOf(key), ReadWriteRead(f, key, val, false), [], kv, ds).value;
            r.1 in {Raised, Lookup(r.0, key)}
  {
    var code: Code := _ => ReaderOf(key);
    var b := ReadWriteRead(f, key, val, false);
    var r := Direct(code, b, [], kv, ds);
    var o1 := Direct(code, ReaderOf(key), [], kv, ds[0].inner).value.1;
    ReaderOnly(code, key, kv, ds[0].inner);
    assert [] + [o1] == [o1];
    var d1 := ds[1..];
    assert Direct(code, b, [o1], kv, d1) == r;
    var o2, kv2 := StoreOutcome(d1[0].ok), if d1[0].ok then kv[key := val] else kv;
    assert [o1] + [o2] == [o1, o2];
    var d2 := d1[1..];
    assert Direct(code, b, [o1, o2], kv2, d2) == r;
    var o3 := Direct(code, ReaderOf(key), [], kv2, d2[0].inner).value.1;
    ReaderOnly(code, key, kv2, d2[0].inner);
    assert [o1, o2] + [o3] == [o1, o2, o3];
    assert b([o1, o2, o3]) == Return(o3);
    assert Direct(code, b, [o1, o2, o3], kv2, d2[1..]) == r;
  }

  lemma TransparentWhenPassed(code: Code, b: Program)
    requires ReadOnly(code) && WritesPass(b)
    ensures Transparent(code, b)
  {
    forall kv, es | Cached(code, b, [], kv, map[], es).Some?
      ensures HasDirectRun(code, b, kv, Cached(code, b, [], kv, map[], es).value)
    {
      var ds := CacheTransparent(code, b, [], kv, map[], es, false);
    }
  }

  lemma StaleRun(f: Target, key: string, was: string, val: string)
    requires was != val
    ensures !Transparent(_ => ReaderOf(key), ReadWriteRead(f, key, val, false))
  {
    var code: Code := _ => ReaderOf(key);
    var b := ReadWriteRead(f, key, val, false);
    var kv: KV := map[key := was];
    StaleReadIff(f, key, was, val, false);
    var es := [Ran([Got(true)]), Stored(true), Hit];
    var r := Cached(code, b, [], kv, map[], es).value;
    forall ds
      ensures Direct(code, b, [], kv, ds) != Some((r.0, r.2))
    {
      if Direct(code, b, [], kv, ds).Some? {
        DirectRunIsFresh(f, key, val, kv, ds);
      }
    }
    assert !HasDirectRun(code, b, kv, r);
  }

  /** For programs whose writes all hand the cache on, or none does: caching is transparent for all of them
      exactly in the first case. */
  lemma TransparentIff(pass: bool)
    ensures (forall code, b :: ReadOnly(code) && WritesAre(b, pass) ==> Transparent(code, b)) <==> pass
  {
    if pass {
      forall code, b | ReadOnly(code) && WritesAre(b, pass)
        ensures Transparent(code, b)
      {
        TransparentWhenPassed(code, b);
      }
    } else {
      var f := Target("f", "");
      StaleRun(f, "k", "a", "b");
      var code: Code := _ => ReaderOf("k");
      var b := ReadWriteRead(f, "k", "b", false);
      assert ReadOnly(code) && WritesAre(b, false) && !Transparent(code, b);
    }
  }

  lemma OneRead(code: Code, key: string, kv: KV)
    requires key in kv
    ensures Direct(code, ReaderOf(key), [], kv, [Got(true)]) == Some((kv, Ok(Some(kv[key]))))
    ensures forall c :: Cached(code, ReaderOf(key), [], kv, c, [Got(true)]) == Some((kv, c, Ok(Some(kv[key]))))
  {
    var o := Ok(Some(kv[key]));
    assert [] + [o] == [o] && [Got(true)][1..] == [];
  }
}
