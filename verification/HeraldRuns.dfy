/** All interleavings of delivery notifications with threads waiting on promises.

    A promise is awaited by one thread at a time.  A waiting thread may proceed at any moment: on a
    notification, because a delivery was found before blocking, or because its timeout expired. */
module HeraldRuns {
  import opened Fids
  import opened Heralds

  datatype Phase = Idle | Waiting(all: bool) | Returned(all: bool) | NotDelivered

  /** `original` and `ids` are the ids a promise was made of and those still in it.  The other fields
      are history: ids notified so far, ids notified more than once, ids confirmed to a waiter, ids
      evicted with their arrival and eviction times, and for each wait its start and the ids
      notified since. */
  datatype World = World(
    h: Herald<nat>, now: int, original: map<nat, set<MessageId>>, ids: map<nat, set<MessageId>>,
    phase: map<nat, Phase>, notified: set<MessageId>, repeated: set<MessageId>,
    consumed: set<MessageId>, evicted: map<MessageId, (int, int)>,
    begun: map<nat, int>, since: map<nat, set<MessageId>>)

  datatype Label =
    | Promise(p: nat, ids: set<MessageId>) | Notified(m: MessageId) | Tick(d: nat)
    | Begin(p: nat, all: bool) | Round(p: nat)

  predicate IsWaiting(w: World, p: nat) {
    p in w.phase && w.phase[p].Waiting?
  }

  /** No two promises share an id; a promise that is being awaited is not awaited again. */
  predicate Enabled(w: World, l: Label) {
    match l
    case Promise(p, ids) => p !in w.original && forall q :: q in w.original ==> w.original[q] !! ids
    case Notified(_) => true
    case Tick(_) => true
    case Begin(p, _) => p in w.original && p in w.ids && !IsWaiting(w, p)
    case Round(p) => p in w.ids && IsWaiting(w, p)
  }

  function StepPromise(w: World, p: nat, ids: set<MessageId>): World {
    w.(original := w.original[p := ids], ids := w.ids[p := ids], phase := w.phase[p := Idle],
       begun := w.begun[p := w.now], since := w.since[p := {}])
  }

  function StepNotified(w: World, m: MessageId): World {
    w.(h := Notify(w.h, w.ids, m, w.now),
       notified := w.notified + {m},
       repeated := if m in w.notified then w.repeated + {m} else w.repeated,
       since := map p | p in w.since :: w.since[p] + {m})
  }

  /** The first critical section of `wait_for_any` and `wait_for_all`.  An empty promise lets
      `wait_for_all` return at once, leaving its client registered. */
  function StepBegin(w: World, p: nat, all: bool): World
    requires p in w.ids
  {
    var dropped := map m | m in w.h.unsorted && m !in w.ids[p] && TooOld(w.h, m, w.now) :: (w.h.unsorted[m], w.now);
    w.(h := Register(Groom(w.h, p, w.ids[p], w.now), p),
       phase := w.phase[p := if all && w.ids[p] == {} then Returned(true) else Waiting(all)],
       evicted := w.evicted + dropped, begun := w.begun[p := w.now], since := w.since[p := {}])
  }

  /** What becomes of the waiting thread: `_verify_delivered` raises, `wait_for_all` goes round
      again while ids are left, or the wait returns. */
  function NextPhase(w: World, p: nat): Phase
    requires p in w.ids && IsWaiting(w, p)
  {
    if p !in w.h.recent then NotDelivered
    else if w.phase[p].all && w.ids[p] - Confirmed(w.h, p) != {} then w.phase[p]
    else Returned(w.phase[p].all)
  }

  /** The second critical section: `_verify_delivered` and, in `wait_for_all`, re-registration. */
  function StepRound(w: World, p: nat): World
    requires p in w.ids && IsWaiting(w, p)
  {
    var got := Confirmed(w.h, p);
    var h := Verified(w.h, p);
    w.(h := if NextPhase(w, p).Waiting? then Register(h, p) else h,
       ids := w.ids[p := w.ids[p] - got], consumed := w.consumed + got,
       phase := w.phase[p := NextPhase(w, p)])
  }

  function Step(w: World, l: Label): World
    requires Enabled(w, l)
  {
    match l
    case Promise(p, ids) => StepPromise(w, p, ids)
    case Notified(m) => StepNotified(w, m)
    case Tick(d) => w.(now := w.now + d)
    case Begin(p, all) => StepBegin(w, p, all)
    case Round(p) => StepRound(w, p)
  }

  function Start(ttl: int, now: int): World {
    World(Herald(ttl, [], map[], map[]), now, map[], map[], map[], {}, {}, {}, map[], map[], map[])
  }

  function Run(w: World, ls: seq<Label>): Option<World> {
    if ls == [] then Some(w)
    else
      match Run(w, ls[..|ls|-1])
      case None => None
      case Some(v) => if Enabled(v, ls[|ls|-1]) then Some(Step(v, ls[|ls|-1])) else None
  }

  // ---------------------------------------------------------------- soundness

  /** Clients: who is registered, what was confirmed to them, and what lies unsorted. */
  ghost predicate ClientInv(w: World) {
    && w.ids.Keys == w.original.Keys == w.phase.Keys == w.since.Keys == w.begun.Keys
    && (forall p :: IsWaiting(w, p) ==> p in w.h.waiting)
    && (forall p :: p in w.h.waiting ==> p in w.ids && (IsWaiting(w, p) || w.ids[p] == {}))
    && (forall p :: p in w.h.recent ==> IsWaiting(w, p) && w.h.recent[p] != {} && w.h.recent[p] <= w.ids[p])
    && (forall p :: p in w.h.waiting ==> w.ids[p] !! w.h.unsorted.Keys)
  }

  lemma ClientPromise(w: World, p: nat, ids: set<MessageId>)
    requires ClientInv(w) && Enabled(w, Promise(p, ids))
    ensures ClientInv(StepPromise(w, p, ids))
  {
  }

  lemma ClientNotified(w: World, m: MessageId)
    requires ClientInv(w)
    ensures ClientInv(StepNotified(w, m))
  {
    OwnerIsWaiting(w.h.waiting, w.ids, m);
  }

  /** What starting a wait does to the clients: it registers one and matches it with what came early. */
  ghost predicate Begins(w: World, t: World, p: nat) {
    && t.ids == w.ids && p in w.ids && p in t.phase
    && (t.phase[p].Waiting? || w.ids[p] == {})
    && (forall q :: q != p ==> (IsWaiting(t, q) <==> IsWaiting(w, q)))
    && (forall q :: q in t.h.waiting <==> q == p || q in w.h.waiting)
    && (forall q :: q in t.h.recent ==> if q == p then IsWaiting(t, p) && t.h.recent[p] != {} && t.h.recent[p] <= w.ids[p]
                                        else q in w.h.recent && t.h.recent[q] == w.h.recent[q])
    && t.h.unsorted.Keys <= w.h.unsorted.Keys - w.ids[p]
  }

  lemma BeginBegins(w: World, p: nat, all: bool)
    requires Enabled(w, Begin(p, all)) && p !in w.h.recent
    ensures Begins(w, StepBegin(w, p, all), p)
  {
  }

  lemma ClientBegins(w: World, t: World, p: nat)
    requires ClientInv(w) && Begins(w, t, p) && SameKeys(t)
    ensures ClientInv(t)
  {
    forall q | q in t.h.waiting
      ensures q in t.ids && (IsWaiting(t, q) || t.ids[q] == {}) && t.ids[q] !! t.h.unsorted.Keys
    {
      assert q != p ==> w.ids[q] !! w.h.unsorted.Keys;
    }
  }

  lemma ClientBegin(w: World, p: nat, all: bool)
    requires ClientInv(w) && Enabled(w, Begin(p, all))
    ensures ClientInv(StepBegin(w, p, all))
  {
    BeginBegins(w, p, all);
    ClientBegins(w, StepBegin(w, p, all), p);
  }

  /** Taking a client off the list leaves the others. */
  lemma {:induction false} Unregister(ws: seq<nat>, p: nat)
    ensures forall q :: q in Without(ws, p) <==> q in ws && q != p
  {
    if ws != [] {
      Unregister(ws[1..], p);
    }
  }

  /** A round touches only its own promise, whose ids can only shrink. */
  lemma RoundFrame(w: World, p: nat)
    requires Enabled(w, Round(p))
    ensures var t := StepRound(w, p);
            && t.h.recent == w.h.recent - {p} && t.h.unsorted == w.h.unsorted
            && t.ids.Keys == w.ids.Keys && t.phase.Keys == w.phase.Keys
            && t.ids[p] <= w.ids[p] && (forall q :: q in w.ids && q != p ==> t.ids[q] == w.ids[q])
            && (forall q :: q != p ==> (IsWaiting(t, q) <==> IsWaiting(w, q)))
            && (forall q :: q != p ==> (q in t.h.waiting <==> q in w.h.waiting))
            && (p in t.h.waiting <==> IsWaiting(t, p))
  {
    Unregister(w.h.waiting, p);
  }

  lemma ClientRound(w: World, p: nat)
    requires ClientInv(w) && Enabled(w, Round(p))
    ensures ClientInv(StepRound(w, p))
  {
    RoundFrame(w, p);
    var t := StepRound(w, p);
    forall q | q in t.h.waiting
      ensures q in t.ids && (IsWaiting(t, q) || t.ids[q] == {}) && t.ids[q] !! t.h.unsorted.Keys
    {
      assert q in w.h.waiting;
      assert t.ids[q] <= w.ids[q];
    }
    forall q | q in t.h.recent
      ensures IsWaiting(t, q) && t.h.recent[q] != {} && t.h.recent[q] <= t.ids[q]
    {
      assert q != p && q in w.h.recent;
    }
  }

  // ---------------------------------------------------------------- completeness

  ghost predicate InRecent(w: World, m: MessageId) {
    exists p :: p in w.h.recent && m in w.h.recent[p]
  }

  /** The id is kept somewhere. */
  ghost predicate Held(w: World, m: MessageId) {
    InRecent(w, m) || m in w.h.unsorted || m in w.consumed || m in w.evicted
  }

  ghost predicate OnePlace(w: World, m: MessageId) {
    && (InRecent(w, m) ==> m !in w.h.unsorted && m !in w.consumed && m !in w.evicted)
    && (m in w.h.unsorted ==> m !in w.consumed && m !in w.evicted)
    && (m in w.consumed ==> m !in w.evicted)
  }

  /** An id is held exactly when it was notified, and in one place unless it was notified again. */
  ghost predicate Accounted(w: World, m: MessageId) {
    && (m in w.notified <==> Held(w, m))
    && (m in w.notified && m !in w.repeated ==> OnePlace(w, m))
  }

  ghost predicate PromiseInv(w: World) {
    && w.ids.Keys == w.original.Keys
    && (forall p, q :: p in w.original && q in w.original && p != q ==> w.original[p] !! w.original[q])
    && (forall p :: p in w.ids ==> Shrinking(w.original[p], w.ids[p], w.consumed))
    && (forall m :: m in w.consumed ==> Promised(w, m))
  }

  /** What is left of a promise, and that everything else of it was confirmed. */
  predicate Shrinking(original: set<MessageId>, ids: set<MessageId>, consumed: set<MessageId>) {
    ids <= original && consumed !! ids && original <= ids + consumed
  }

  ghost predicate Promised(w: World, m: MessageId) {
    exists p :: p in w.original && m in w.original[p]
  }

  ghost predicate PlaceInv(w: World) {
    forall m :: Accounted(w, m)
  }

  lemma PlaceNotified(w: World, x: MessageId, m: MessageId)
    requires ClientInv(w) && Accounted(w, m)
    ensures Accounted(StepNotified(w, x), m)
  {
    var t := StepNotified(w, x);
    OwnerIsWaiting(w.h.waiting, w.ids, x);
    if InRecent(w, m) {
      var p :| p in w.h.recent && m in w.h.recent[p];
      assert p in t.h.recent && m in t.h.recent[p];
    }
    match Owner(w.h.waiting, w.ids, x) {
      case Some(p) =>
        assert x in t.h.recent[p];
        if m != x && InRecent(t, m) {
          var q :| q in t.h.recent && m in t.h.recent[q];
          assert q in w.h.recent && m in w.h.recent[q];
        }
      case None =>
    }
  }

  lemma PlaceBegin(w: World, p: nat, all: bool, m: MessageId)
    requires ClientInv(w) && Accounted(w, m) && Enabled(w, Begin(p, all))
    ensures Accounted(StepBegin(w, p, all), m)
  {
    var t := StepBegin(w, p, all);
    assert p !in w.h.recent;
    if InRecent(w, m) {
      var q :| q in w.h.recent && m in w.h.recent[q];
      assert q in t.h.recent && m in t.h.recent[q];
    }
    if m in w.h.unsorted && m in w.ids[p] {
      assert m in w.h.unsorted.Keys * w.ids[p];
      assert p in t.h.recent && m in t.h.recent[p];
    }
    if InRecent(t, m) {
      var q :| q in t.h.recent && m in t.h.recent[q];
      assert (q in w.h.recent && m in w.h.recent[q]) || (m in w.h.unsorted && m in w.ids[p]);
    }
  }

  lemma PlaceRound(w: World, p: nat, m: MessageId)
    requires ClientInv(w) && PromiseInv(w) && Accounted(w, m) && Enabled(w, Round(p))
    ensures Accounted(StepRound(w, p), m)
  {
    var t := StepRound(w, p);
    RoundFrame(w, p);
    if InRecent(w, m) {
      var q :| q in w.h.recent && m in w.h.recent[q];
      if q != p {
        assert q in t.h.recent && m in t.h.recent[q];
      }
    }
    if InRecent(t, m) {
      var q :| q in t.h.recent && m in t.h.recent[q];
      assert q in w.h.recent && m in w.h.recent[q] && q != p;
      assert m in w.ids[q] && w.original[p] !! w.original[q];
    }
  }

  lemma PromiseMade(w: World, p: nat, ids: set<MessageId>)
    requires PromiseInv(w) && Enabled(w, Promise(p, ids))
    ensures PromiseInv(StepPromise(w, p, ids))
  {
    var t := StepPromise(w, p, ids);
    forall m | m in w.consumed
      ensures Promised(t, m) && m !in ids
    {
      assert Promised(w, m);
      var q :| q in w.original && m in w.original[q];
      assert q in t.original && m in t.original[q];
    }
  }

  /** Confirming part of one promise. */
  lemma PromiseShrinks(w: World, t: World, p: nat, got: set<MessageId>)
    requires PromiseInv(w) && p in w.ids && got <= w.ids[p] && t.original == w.original
    requires t.ids == w.ids[p := w.ids[p] - got] && t.consumed == w.consumed + got
    ensures PromiseInv(t)
  {
    assert Shrinking(w.original[p], w.ids[p], w.consumed);
    forall q | q in t.ids
      ensures Shrinking(t.original[q], t.ids[q], t.consumed)
    {
      assert Shrinking(w.original[q], w.ids[q], w.consumed);
      assert q != p ==> w.original[p] !! w.original[q];
    }
    forall m | m in t.consumed
      ensures Promised(t, m)
    {
      if m in got {
        assert m in t.original[p];
      } else {
        assert Promised(w, m);
        var q :| q in w.original && m in w.original[q];
        assert m in t.original[q];
      }
    }
  }

  lemma PromiseRound(w: World, p: nat)
    requires ClientInv(w) && PromiseInv(w) && Enabled(w, Round(p))
    ensures PromiseInv(StepRound(w, p))
  {
    PromiseShrinks(w, StepRound(w, p), p, Confirmed(w.h, p));
  }

  lemma PromiseSame(w: World, t: World)
    requires PromiseInv(w) && t.original == w.original && t.ids == w.ids && t.consumed == w.consumed
    ensures PromiseInv(t)
  {
    forall m | m in t.consumed
      ensures Promised(t, m)
    {
      assert Promised(w, m);
      var q :| q in w.original && m in w.original[q];
      assert q in t.original && m in t.original[q];
    }
  }

  // ---------------------------------------------------------------- timing and outcomes

  ghost predicate SameKeys(w: World) {
    w.ids.Keys == w.original.Keys == w.phase.Keys == w.since.Keys == w.begun.Keys
  }

  /** While a wait lasts, each of its ids notified since it began has been confirmed to it. */
  ghost predicate SinceInv(w: World) {
    SameKeys(w) && forall p :: IsWaiting(w, p) ==> w.since[p] * w.ids[p] <= Confirmed(w.h, p)
  }

  /** Evicted ids had outlived their time to live, those of a waiting promise before its wait began. */
  ghost predicate EvictInv(w: World) {
    && SameKeys(w)
    && (forall m :: m in w.evicted ==> w.evicted[m].1 - w.evicted[m].0 > w.h.ttl && w.evicted[m].1 <= w.now)
    && (forall p, m :: IsWaiting(w, p) && m in w.ids[p] && m in w.evicted ==> w.evicted[m].1 <= w.begun[p])
  }

  /** `wait_for_all` has returned only on an emptied promise, `wait_for_any` only on a smaller one. */
  ghost predicate OutcomeInv(w: World) {
    SameKeys(w) && forall p :: p in w.phase ==> OutcomeOk(w.phase[p], w.ids[p], w.original[p])
  }

  predicate OutcomeOk(phase: Phase, ids: set<MessageId>, original: set<MessageId>) {
    && (phase == Returned(true) ==> ids == {})
    && (phase == Returned(false) ==> ids < original)
  }

  lemma ConfirmedGrows(h: Herald<nat>, ids: map<nat, set<MessageId>>, x: MessageId, now: int, p: nat)
    ensures Confirmed(h, p) <= Confirmed(Notify(h, ids, x, now), p)
    ensures Owner(h.waiting, ids, x) == Some(p) ==> x in Confirmed(Notify(h, ids, x, now), p)
  {
  }

  lemma SinceNotified(w: World, x: MessageId)
    requires ClientInv(w) && PromiseInv(w) && SinceInv(w)
    ensures SinceInv(StepNotified(w, x))
  {
    var t := StepNotified(w, x);
    forall p | IsWaiting(t, p)
      ensures t.since[p] * t.ids[p] <= Confirmed(t.h, p)
    {
      SinceNotifiedOne(w, x, p);
    }
  }

  lemma SinceNotifiedOne(w: World, x: MessageId, p: nat)
    requires ClientInv(w) && PromiseInv(w) && SinceInv(w) && IsWaiting(w, p)
    ensures (w.since[p] + {x}) * w.ids[p] <= Confirmed(Notify(w.h, w.ids, x, w.now), p)
  {
    ConfirmedGrows(w.h, w.ids, x, w.now, p);
    assert w.since[p] * w.ids[p] <= Confirmed(w.h, p);
    if x in w.ids[p] {
      OwnerIs(w, p, x);
    }
  }

  lemma OwnerIs(w: World, p: nat, x: MessageId)
    requires ClientInv(w) && PromiseInv(w) && IsWaiting(w, p) && x in w.ids[p]
    ensures Owner(w.h.waiting, w.ids, x) == Some(p)
  {
    OwnerIsWaiting(w.h.waiting, w.ids, x);
    var q := Owner(w.h.waiting, w.ids, x).value;
    assert Shrinking(w.original[p], w.ids[p], w.consumed) && Shrinking(w.original[q], w.ids[q], w.consumed);
  }

  lemma SinceBegin(w: World, p: nat, all: bool)
    requires ClientInv(w) && SinceInv(w) && Enabled(w, Begin(p, all))
    ensures SinceInv(StepBegin(w, p, all))
  {
    var t := StepBegin(w, p, all);
    forall q | IsWaiting(t, q)
      ensures t.since[q] * t.ids[q] <= Confirmed(t.h, q)
    {
      if q != p {
        assert IsWaiting(w, q);
        assert Confirmed(t.h, q) == Confirmed(w.h, q);
      }
    }
  }

  lemma SinceRound(w: World, p: nat)
    requires SinceInv(w) && Enabled(w, Round(p))
    ensures SinceInv(StepRound(w, p))
  {
    var t := StepRound(w, p);
    forall q | IsWaiting(t, q)
      ensures t.since[q] * t.ids[q] <= Confirmed(t.h, q)
    {
      assert IsWaiting(w, q);
      assert w.since[q] * w.ids[q] <= Confirmed(w.h, q);
    }
  }

  lemma EvictBegin(w: World, p: nat, all: bool)
    requires ClientInv(w) && EvictInv(w) && Enabled(w, Begin(p, all))
    ensures EvictInv(StepBegin(w, p, all))
  {
    var t := StepBegin(w, p, all);
    forall q, m | IsWaiting(t, q) && m in t.ids[q] && m in t.evicted
      ensures t.evicted[m].1 <= t.begun[q]
    {
      if q != p {
        assert IsWaiting(w, q) && w.ids[q] !! w.h.unsorted.Keys;
      }
    }
  }

  lemma EvictRound(w: World, p: nat)
    requires EvictInv(w) && Enabled(w, Round(p))
    ensures EvictInv(StepRound(w, p))
  {
    var t := StepRound(w, p);
    forall q | IsWaiting(t, q)
      ensures IsWaiting(w, q) && t.ids[q] <= w.ids[q]
    {
    }
  }

  lemma OutcomeOfRound(w: World, p: nat)
    requires ClientInv(w) && PromiseInv(w) && Enabled(w, Round(p))
    ensures OutcomeOk(NextPhase(w, p), w.ids[p] - Confirmed(w.h, p), w.original[p])
    ensures p in w.h.recent ==> w.ids[p] - Confirmed(w.h, p) < w.ids[p]
  {
    assert Shrinking(w.original[p], w.ids[p], w.consumed);
    if p in w.h.recent {
      var m :| m in w.h.recent[p];
      assert m in w.ids[p] && m !in w.ids[p] - Confirmed(w.h, p);
    }
  }

  lemma OutcomeUpdates(w: World, t: World, p: nat, phase: Phase, ids: set<MessageId>)
    requires OutcomeInv(w) && SameKeys(t) && p in w.phase && t.original == w.original
    requires t.phase == w.phase[p := phase] && t.ids == w.ids[p := ids] && OutcomeOk(phase, ids, w.original[p])
    ensures OutcomeInv(t)
  {
    forall q | q in t.phase
      ensures OutcomeOk(t.phase[q], t.ids[q], t.original[q])
    {
      if q != p {
        assert OutcomeOk(w.phase[q], w.ids[q], w.original[q]);
      }
    }
  }

  lemma OutcomeRound(w: World, p: nat)
    requires ClientInv(w) && PromiseInv(w) && OutcomeInv(w) && Enabled(w, Round(p))
    ensures OutcomeInv(StepRound(w, p))
  {
    OutcomeOfRound(w, p);
    OutcomeUpdates(w, StepRound(w, p), p, NextPhase(w, p), w.ids[p] - Confirmed(w.h, p));
  }

  lemma OutcomeBegin(w: World, p: nat, all: bool)
    requires OutcomeInv(w) && Enabled(w, Begin(p, all))
    ensures OutcomeInv(StepBegin(w, p, all))
  {
    var t := StepBegin(w, p, all);
    forall q | q in t.phase
      ensures OutcomeOk(t.phase[q], t.ids[q], t.original[q])
    {
      if q != p {
        assert OutcomeOk(w.phase[q], w.ids[q], w.original[q]);
      }
    }
  }

  lemma UnchangedWaits(w: World, t: World)
    requires EvictInv(w) && OutcomeInv(w) && SameKeys(t)
    requires t.ids == w.ids && t.phase == w.phase && t.original == w.original && t.begun == w.begun
    requires t.evicted == w.evicted && t.h.ttl == w.h.ttl && t.now >= w.now
    ensures EvictInv(t) && OutcomeInv(t)
  {
  }

  lemma FreshPromise(w: World, p: nat, ids: set<MessageId>)
    requires SinceInv(w) && EvictInv(w) && OutcomeInv(w) && Enabled(w, Promise(p, ids))
    ensures var t := StepPromise(w, p, ids); SinceInv(t) && EvictInv(t) && OutcomeInv(t)
  {
    var t := StepPromise(w, p, ids);
    forall q | q in t.phase
      ensures OutcomeOk(t.phase[q], t.ids[q], t.original[q])
    {
      if q != p {
        assert OutcomeOk(w.phase[q], w.ids[q], w.original[q]);
      }
    }
    forall q | IsWaiting(t, q)
      ensures q != p && IsWaiting(w, q)
    {
    }
  }

  // ---------------------------------------------------------------- all runs

  ghost predicate Inv(w: World) {
    ClientInv(w) && PromiseInv(w) && PlaceInv(w) && SinceInv(w) && EvictInv(w) && OutcomeInv(w)
  }

  lemma PlaceStep(w: World, l: Label)
    requires Inv(w) && Enabled(w, l)
    ensures PlaceInv(Step(w, l))
  {
    var t := Step(w, l);
    forall m
      ensures Accounted(t, m)
    {
      assert Accounted(w, m);
      match l {
        case Notified(x) => PlaceNotified(w, x, m);
        case Begin(p, all) => PlaceBegin(w, p, all, m);
        case Round(p) => PlaceRound(w, p, m);
        case _ => assert InRecent(t, m) <==> InRecent(w, m);
      }
    }
  }

  lemma InvPromise(w: World, p: nat, ids: set<MessageId>)
    requires Inv(w) && Enabled(w, Promise(p, ids))
    ensures Inv(Step(w, Promise(p, ids)))
  {
    PlaceStep(w, Promise(p, ids));
    ClientPromise(w, p, ids);
    PromiseMade(w, p, ids);
    FreshPromise(w, p, ids);
  }

  lemma InvNotified(w: World, x: MessageId)
    requires Inv(w)
    ensures Inv(Step(w, Notified(x)))
  {
    PlaceStep(w, Notified(x));
    ClientNotified(w, x);
    PromiseSame(w, StepNotified(w, x));
    SinceNotified(w, x);
    UnchangedWaits(w, StepNotified(w, x));
  }

  lemma InvTick(w: World, d: nat)
    requires Inv(w)
    ensures Inv(Step(w, Tick(d)))
  {
    PlaceStep(w, Tick(d));
    PromiseSame(w, Step(w, Tick(d)));
    UnchangedWaits(w, Step(w, Tick(d)));
  }

  lemma InvBegin(w: World, p: nat, all: bool)
    requires Inv(w) && Enabled(w, Begin(p, all))
    ensures Inv(Step(w, Begin(p, all)))
  {
    PlaceStep(w, Begin(p, all));
    ClientBegin(w, p, all);
    PromiseSame(w, StepBegin(w, p, all));
    SinceBegin(w, p, all);
    EvictBegin(w, p, all);
    OutcomeBegin(w, p, all);
  }

  lemma InvRound(w: World, p: nat)
    requires Inv(w) && Enabled(w, Round(p))
    ensures Inv(Step(w, Round(p)))
  {
    PlaceStep(w, Round(p));
    ClientRound(w, p);
    PromiseRound(w, p);
    SinceRound(w, p);
    EvictRound(w, p);
    OutcomeRound(w, p);
  }

  lemma InvStep(w: World, l: Label)
    requires Inv(w) && Enabled(w, l)
    ensures Inv(Step(w, l))
  {
    match l {
      case Promise(p, ids) => InvPromise(w, p, ids);
      case Notified(x) => InvNotified(w, x);
      case Tick(d) => InvTick(w, d);
      case Begin(p, all) => InvBegin(w, p, all);
      case Round(p) => InvRound(w, p);
    }
  }

  lemma {:induction false} RunInv(ttl: int, now: int, ls: seq<Label>)
    requires Run(Start(ttl, now), ls).Some?
    ensures Inv(Run(Start(ttl, now), ls).value)
    decreases |ls|
  {
    if ls != [] {
      RunInv(ttl, now, ls[..|ls|-1]);
      InvStep(Run(Start(ttl, now), ls[..|ls|-1]).value, ls[|ls|-1]);
    }
  }

  /** Soundness in every reachable state: unsorted ids meet no registered promise, and what was
      confirmed to a client is a non-empty part of its promise. */
  lemma Soundness(ttl: int, now: int, ls: seq<Label>, w: World)
    requires Run(Start(ttl, now), ls) == Some(w)
    ensures forall p :: p in w.h.waiting ==> p in w.ids && w.ids[p] !! w.h.unsorted.Keys
    ensures forall p :: p in w.h.recent ==> p in w.ids && w.h.recent[p] != {} && w.h.recent[p] <= w.ids[p]
  {
    RunInv(ttl, now, ls);
  }

  /** Each round of a wait raises or strictly shrinks the promise, so a wait on n ids takes at most
      n successful rounds. */
  lemma RoundRaisesOrShrinks(ttl: int, now: int, ls: seq<Label>, w: World, p: nat)
    requires Run(Start(ttl, now), ls) == Some(w) && Enabled(w, Round(p))
    ensures var t := Step(w, Round(p));
            t.phase[p] == NotDelivered || (t.ids[p] < w.ids[p] && |t.ids[p]| < |w.ids[p]|)
  {
    RunInv(ttl, now, ls);
    OutcomeOfRound(w, p);
    var t := Step(w, Round(p));
    if t.phase[p] != NotDelivered {
      ProperSubset(t.ids[p], w.ids[p]);
    }
  }

  /** A normal return of `wait_for_all` means every id of the promise was notified; one of
      `wait_for_any` means some id was. */
  lemma ReturnMeansDelivered(ttl: int, now: int, ls: seq<Label>, w: World, p: nat)
    requires Run(Start(ttl, now), ls) == Some(w) && p in w.phase && w.phase[p].Returned?
    ensures p in w.original
    ensures w.phase[p].all ==> w.original[p] <= w.notified
    ensures !w.phase[p].all ==> w.original[p] * w.notified != {}
  {
    RunInv(ttl, now, ls);
    assert Shrinking(w.original[p], w.ids[p], w.consumed);
    forall m | m in w.consumed
      ensures m in w.notified
    {
      assert Accounted(w, m);
    }
    if !w.phase[p].all {
      var m :| m in w.original[p] && m !in w.ids[p];
      assert m in w.original[p] * w.notified;
    }
  }

  /** Every notified id is kept: confirmed to exactly one waiting client, unsorted, consumed, or
      evicted after its time to live; just one of these if it was notified once. */
  lemma EveryDeliveryAccounted(ttl: int, now: int, ls: seq<Label>, w: World, m: MessageId)
    requires Run(Start(ttl, now), ls) == Some(w)
    ensures m in w.notified <==> Held(w, m)
    ensures m in w.notified && m !in w.repeated ==> OnePlace(w, m)
    ensures forall p, q :: p in w.h.recent && q in w.h.recent && m in w.h.recent[p] && m in w.h.recent[q] ==> p == q
    ensures m in w.evicted ==> w.evicted[m].1 - w.evicted[m].0 > ttl
  {
    RunInv(ttl, now, ls);
    TtlFixed(ttl, now, ls);
    assert Accounted(w, m);
    OneClient(w, m);
  }

  lemma OneClient(w: World, m: MessageId)
    requires ClientInv(w) && PromiseInv(w)
    ensures forall p, q :: p in w.h.recent && q in w.h.recent && m in w.h.recent[p] && m in w.h.recent[q] ==> p == q
  {
    forall p, q | p in w.h.recent && q in w.h.recent && m in w.h.recent[p] && m in w.h.recent[q]
      ensures p == q
    {
      assert Shrinking(w.original[p], w.ids[p], w.consumed) && Shrinking(w.original[q], w.ids[q], w.consumed);
    }
  }

  lemma {:induction false} TtlFixed(ttl: int, now: int, ls: seq<Label>)
    requires Run(Start(ttl, now), ls).Some?
    ensures Run(Start(ttl, now), ls).value.h.ttl == ttl
    decreases |ls|
  {
    if ls != [] {
      TtlFixed(ttl, now, ls[..|ls|-1]);
      TtlStep(Run(Start(ttl, now), ls[..|ls|-1]).value, ls[|ls|-1]);
    }
  }

  lemma TtlStep(w: World, l: Label)
    requires Enabled(w, l)
    ensures Step(w, l).h.ttl == w.h.ttl
  {
  }

  /** NotDelivered is justified: no id left in the promise was notified since the wait began, and
      one notified earlier had been evicted before the wait began. */
  lemma NotDeliveredIsJustified(ttl: int, now: int, ls: seq<Label>, w: World, p: nat, m: MessageId)
    requires Run(Start(ttl, now), ls) == Some(w) && Enabled(w, Round(p))
    requires Step(w, Round(p)).phase[p] == NotDelivered && m in Step(w, Round(p)).ids[p]
    ensures p in w.since && p in w.begun && m !in w.since[p]
    ensures m !in w.notified || (m in w.evicted && w.evicted[m].1 <= w.begun[p])
  {
    RunInv(ttl, now, ls);
    assert p !in w.h.recent;
    LeftUnconfirmed(w, p, m);
  }

  /** Where the ids of a waiting promise to which nothing is confirmed can be. */
  lemma LeftUnconfirmed(w: World, p: nat, m: MessageId)
    requires Inv(w) && IsWaiting(w, p) && p !in w.h.recent && m in w.ids[p]
    ensures m !in w.since[p]
    ensures m !in w.notified || (m in w.evicted && w.evicted[m].1 <= w.begun[p])
  {
    assert m !in w.since[p] * w.ids[p];
    assert Accounted(w, m);
    assert Shrinking(w.original[p], w.ids[p], w.consumed);
    assert w.ids[p] !! w.h.unsorted.Keys;
    ConfirmedToItsOwner(w, p, m);
  }

  lemma ConfirmedToItsOwner(w: World, p: nat, m: MessageId)
    requires ClientInv(w) && PromiseInv(w) && p in w.ids && m in w.ids[p]
    ensures InRecent(w, m) ==> p in w.h.recent
  {
    if InRecent(w, m) {
      var q :| q in w.h.recent && m in w.h.recent[q];
      assert Shrinking(w.original[p], w.ids[p], w.consumed) && Shrinking(w.original[q], w.ids[q], w.consumed);
      assert q == p;
    }
  }

  // ---------------------------------------------------------------- when a wait must return

  /** The id has come in for the wait of `p`: since it began, or earlier and not thrown away. */
  ghost predicate CameIn(w: World, p: nat, m: MessageId)
    requires p in w.since
  {
    m in w.since[p] || (m in w.notified && m !in w.evicted)
  }

  lemma CameInIsConfirmed(w: World, p: nat, m: MessageId)
    requires Inv(w) && IsWaiting(w, p) && m in w.ids[p] && CameIn(w, p, m)
    ensures m in Confirmed(w.h, p)
  {
    if m in w.since[p] {
      assert m in w.since[p] * w.ids[p];
    } else {
      assert Accounted(w, m);
      assert Shrinking(w.original[p], w.ids[p], w.consumed);
      assert w.ids[p] !! w.h.unsorted.Keys;
      RecentOfOwner(w, p, m);
    }
  }

  lemma RecentOfOwner(w: World, p: nat, m: MessageId)
    requires ClientInv(w) && PromiseInv(w) && p in w.ids && m in w.ids[p] && InRecent(w, m)
    ensures m in Confirmed(w.h, p)
  {
    var q :| q in w.h.recent && m in w.h.recent[q];
    assert Shrinking(w.original[p], w.ids[p], w.consumed) && Shrinking(w.original[q], w.ids[q], w.consumed);
    assert q == p;
  }

  /** `wait_for_any` returns at its next round as soon as one id of the promise has come in, and only if one
      was notified. */
  lemma AnyReturns(ttl: int, now: int, ls: seq<Label>, w: World, p: nat)
    requires Run(Start(ttl, now), ls) == Some(w) && Enabled(w, Round(p)) && w.phase[p] == Waiting(false)
    ensures p in w.since
    ensures (exists m :: m in w.ids[p] && CameIn(w, p, m)) ==> StepRound(w, p).phase[p] == Returned(false)
    ensures StepRound(w, p).phase[p] != NotDelivered ==>
              StepRound(w, p).phase[p] == Returned(false) && exists m :: m in w.ids[p] && m in w.notified
  {
    RunInv(ttl, now, ls);
    if m :| m in w.ids[p] && CameIn(w, p, m) {
      CameInIsConfirmed(w, p, m);
    }
    if p in w.h.recent {
      var m :| m in w.h.recent[p];
      assert InRecent(w, m) && Accounted(w, m);
      assert m in w.ids[p] && m in w.notified;
    }
  }

  lemma AllConfirmed(w: World, p: nat)
    requires Inv(w) && IsWaiting(w, p) && w.ids[p] != {} && forall m :: m in w.ids[p] ==> CameIn(w, p, m)
    ensures p in w.h.recent && w.ids[p] - Confirmed(w.h, p) == {}
  {
    forall m | m in w.ids[p] ensures m in Confirmed(w.h, p) {
      CameInIsConfirmed(w, p, m);
    }
    var m :| m in w.ids[p];
    assert m in Confirmed(w.h, p);
  }

  /** `wait_for_all` returns at its next round when every id left in the promise has come in. */
  lemma AllReturns(ttl: int, now: int, ls: seq<Label>, w: World, p: nat)
    requires Run(Start(ttl, now), ls) == Some(w) && Enabled(w, Round(p)) && w.phase[p] == Waiting(true) && w.ids[p] != {}
    requires p in w.since && forall m :: m in w.ids[p] ==> CameIn(w, p, m)
    ensures StepRound(w, p).phase[p] == Returned(true)
  {
    RunInv(ttl, now, ls);
    AllConfirmed(w, p);
  }

  /** When some ids have come in and some were never notified, it goes on waiting for the rest. */
  lemma AllGoesOn(ttl: int, now: int, ls: seq<Label>, w: World, p: nat, m: MessageId, x: MessageId)
    requires Run(Start(ttl, now), ls) == Some(w) && Enabled(w, Round(p)) && w.phase[p] == Waiting(true)
    requires p in w.since && m in w.ids[p] && CameIn(w, p, m) && x in w.ids[p] && x !in w.notified
    ensures StepRound(w, p).phase[p] == Waiting(true) && p in StepRound(w, p).h.waiting
  {
    RunInv(ttl, now, ls);
    CameInIsConfirmed(w, p, m);
    UnnotifiedIsLeft(w, p, x);
    assert x in w.ids[p] - Confirmed(w.h, p);
    RoundFrame(w, p);
  }

  lemma UnnotifiedIsLeft(w: World, p: nat, x: MessageId)
    requires Inv(w) && x !in w.notified
    ensures x !in Confirmed(w.h, p)
  {
    assert Accounted(w, x);
    assert p in w.h.recent && x in w.h.recent[p] ==> InRecent(w, x);
  }

  // ---------------------------------------------------------------- eviction

  /** When a wait begins, exactly the early deliveries that it does not want and that have outlived their
      time to live are thrown away. */
  lemma EvictedIff(w: World, p: nat, all: bool, m: MessageId)
    requires Enabled(w, Begin(p, all)) && m in w.h.unsorted
    ensures m !in StepBegin(w, p, all).h.unsorted <==> m in w.ids[p] || w.now - w.h.unsorted[m] > w.h.ttl
    ensures m in StepBegin(w, p, all).evicted && m !in w.evicted ==> m !in w.ids[p] && w.now - w.h.unsorted[m] > w.h.ttl
  {
  }

  /** So none that is left is older than that. */
  lemma NothingTooOld(w: World, p: nat, all: bool)
    requires Enabled(w, Begin(p, all))
    ensures forall m :: m in StepBegin(w, p, all).h.unsorted ==> w.now - StepBegin(w, p, all).h.unsorted[m] <= w.h.ttl
  {
    forall m | m in StepBegin(w, p, all).h.unsorted
      ensures w.now - StepBegin(w, p, all).h.unsorted[m] <= w.h.ttl
    {
      EvictedIff(w, p, all, m);
    }
  }
}
