/** The herald object of hax/hax/motr/delivery.py, updated in place, with the promise object of
    hax/hax/types.py.  Each critical section is a method proved against `Heralds`. */
module DeliveryHeralds {
  import opened Fids
  import opened Heralds

  function AsSet(s: seq<MessageId>): set<MessageId> {
    set m | m in s
  }

  lemma AsSetPush(s: seq<MessageId>, m: MessageId)
    ensures AsSet(s + [m]) == AsSet(s) + {m}
  {
  }

  class Promise {
    var ids: set<MessageId>

    constructor (messageIds: seq<MessageId>)
      ensures ids == AsSet(messageIds)
    {
      ids := AsSet(messageIds);
    }

    /** `exclude_ids`. */
    method ExcludeIds(excluded: seq<MessageId>)
      modifies this
      ensures ids == old(ids) - AsSet(excluded)
    {
      for i := 0 to |excluded|
        invariant ids == old(ids) - AsSet(excluded[..i])
      {
        ids := ids - {excluded[i]};
        assert excluded[..i+1] == excluded[..i] + [excluded[i]];
      }
      assert excluded[..|excluded|] == excluded;
    }
  }

  function Sets<P>(lists: map<P, seq<MessageId>>): map<P, set<MessageId>> {
    map p | p in lists :: AsSet(lists[p])
  }

  lemma SetsUpdate<P>(lists: map<P, seq<MessageId>>, p: P, l: seq<MessageId>)
    ensures Sets(lists[p := l]) == Sets(lists)[p := AsSet(l)]
    ensures Sets(lists - {p}) == Sets(lists) - {p}
  {
  }

  class DeliveryHerald {
    const unsortedTtl: int
    var recentlyDelivered: map<Promise, seq<MessageId>>
    var waitingClients: seq<Promise>
    var unsortedDeliveries: map<MessageId, int>

    ghost function View(): Herald<Promise>
      reads this
    {
      Herald(unsortedTtl, waitingClients,
             Sets(recentlyDelivered), unsortedDeliveries)
    }

    ghost function IdsOf(ws: seq<Promise>): map<Promise, set<MessageId>>
      reads ws
    {
      map p | p in ws :: p.ids
    }

    constructor (ttl: int)
      ensures unsortedTtl == ttl && View() == Herald(ttl, [], map[], map[])
    {
      unsortedTtl := ttl;
      recentlyDelivered, waitingClients, unsortedDeliveries := map[], [], map[];
    }

    /** `groom_unsorted`: one pass over the unsorted deliveries, then their removal. */
    method GroomUnsorted(promise: Promise, now: int)
      modifies `recentlyDelivered, `unsortedDeliveries
      ensures View() == Groom(old(View()), promise, promise.ids, now)
    {
      var delivered: seq<MessageId>, toRemove: set<MessageId> := [], {};
      var keys := unsortedDeliveries.Keys;
      while keys != {}
        invariant unsortedDeliveries == old(unsortedDeliveries) && recentlyDelivered == old(recentlyDelivered)
        invariant keys <= unsortedDeliveries.Keys
        invariant AsSet(delivered) == (unsortedDeliveries.Keys - keys) * promise.ids
        invariant toRemove == set m | m in unsortedDeliveries && m !in keys &&
                                      (m in promise.ids || now - unsortedDeliveries[m] > unsortedTtl)
        decreases keys
      {
        var m :| m in keys;
        AsSetPush(delivered, m);
        if m in promise.ids {
          delivered := delivered + [m];
          toRemove := toRemove + {m};
        } else if now - unsortedDeliveries[m] > unsortedTtl {
          toRemove := toRemove + {m};
        }
        keys := keys - {m};
      }
      if delivered != [] {
        assert delivered[0] in AsSet(delivered);
        assert AsSet(delivered) == old(unsortedDeliveries.Keys) * promise.ids;
        SetsUpdate(recentlyDelivered, promise, delivered);
        recentlyDelivered := recentlyDelivered[promise := delivered];
      }
      unsortedDeliveries := unsortedDeliveries - toRemove;
      ghost var h := Groom(old(View()), promise, promise.ids, now);
      assert View().unsorted == h.unsorted;
      assert old(View()).unsorted.Keys * promise.ids == AsSet(delivered);
      assert delivered == [] ==> AsSet(delivered) == {};
      assert old(View()).recent == Sets(old(recentlyDelivered));
      assert delivered == [] ==> View().recent == h.recent;
      assert delivered != [] ==> View().recent == h.recent;
    }

    /** `notify_delivered`: the first waiting client with this id gets it. */
    method NotifyDelivered(m: MessageId, now: int)
      modifies `recentlyDelivered, `unsortedDeliveries
      ensures View() == Notify(old(View()), IdsOf(waitingClients), m, now)
    {
      ghost var ids := IdsOf(waitingClients);
      for i := 0 to |waitingClients|
        invariant Owner(waitingClients, ids, m) == Owner(waitingClients[i..], ids, m)
        invariant unsortedDeliveries == old(unsortedDeliveries) && recentlyDelivered == old(recentlyDelivered)
      {
        var promise := waitingClients[i];
        assert waitingClients[i..][1..] == waitingClients[i+1..];
        if m in promise.ids {
          var oldList := if promise in recentlyDelivered then recentlyDelivered[promise] else [];
          SetsUpdate(recentlyDelivered, promise, oldList + [m]);
          recentlyDelivered := recentlyDelivered[promise := oldList + [m]];
          AsSetPush(oldList, m);
          assert Owner(waitingClients, ids, m) == Some(promise);
          assert ids == IdsOf(waitingClients);
          assert AsSet(oldList) == Confirmed(old(View()), promise);
          assert View().recent == Notify(old(View()), ids, m, now).recent;
          return;
        }
      }
      unsortedDeliveries := unsortedDeliveries[m := now];
    }

    /** `_verify_delivered`; a false result stands for NotDelivered being raised. */
    method VerifyDelivered(promise: Promise) returns (ok: bool)
      requires promise in waitingClients
      modifies `waitingClients, `recentlyDelivered, promise
      ensures View() == Verified(old(View()), promise)
      ensures ok <==> promise in old(recentlyDelivered)
      ensures promise.ids == old(promise.ids - Confirmed(View(), promise))
    {
      waitingClients := Without(waitingClients, promise);
      if promise !in recentlyDelivered {
        assert recentlyDelivered - {promise} == recentlyDelivered;
        return false;
      }
      var confirmed := recentlyDelivered[promise];
      SetsUpdate(recentlyDelivered, promise, []);
      recentlyDelivered := recentlyDelivered - {promise};
      promise.ExcludeIds(confirmed);
      return true;
    }

    /** The first critical section of both waits. */
    method BeginWait(promise: Promise, now: int) returns (skipAwait: bool)
      modifies this
      ensures View() == Register(Groom(old(View()), promise, promise.ids, now), promise)
      ensures skipAwait <==> promise in recentlyDelivered
    {
      GroomUnsorted(promise, now);
      AddClient(promise);
      skipAwait := promise in recentlyDelivered;
    }

    /** `waiting_clients[promise] = condition`. */
    method AddClient(promise: Promise)
      modifies `waitingClients
      ensures View() == Register(old(View()), promise)
    {
      if promise !in waitingClients {
        waitingClients := waitingClients + [promise];
      }
    }
  
    /** What the herald keeps between critical sections: what is confirmed to a client is a
        non-empty part of its promise. */
    ghost predicate Valid()
      reads this, recentlyDelivered.Keys
    {
      forall p :: p in View().recent ==> View().recent[p] != {} && View().recent[p] <= p.ids
    }

    /** No other client waits for an id of this promise. */
    ghost predicate OnlyClient(promise: Promise)
      reads this, waitingClients, promise
    {
      forall p :: p in waitingClients && p != promise ==> p.ids !! promise.ids
    }

    ghost function ConfirmedTo(promise: Promise): set<MessageId>
      reads this
    {
      Confirmed(View(), promise)
    }

    method NotifyOne(m: MessageId, now: int, ghost promise: Promise)
      requires Valid() && promise in waitingClients
      modifies `recentlyDelivered, `unsortedDeliveries
      ensures Valid()
      ensures old(ConfirmedTo(promise)) <= ConfirmedTo(promise) <= old(ConfirmedTo(promise)) + {m}
      ensures OnlyClient(promise) && m in promise.ids ==> m in ConfirmedTo(promise)
    {
      OwnerIsWaiting(waitingClients, IdsOf(waitingClients), m);
      NotifyDelivered(m, now);
    }

    /** A registered wait during and before which the ids `seen` were notified.  `alone` says that no
        other client waits for any of its ids. */
    ghost predicate Awaiting(promise: Promise, seen: set<MessageId>, alone: bool)
      reads this, recentlyDelivered.Keys, waitingClients, promise
    {
      && Valid() && (promise.ids != {} ==> promise in waitingClients)
      && ConfirmedTo(promise) <= seen
      && (alone ==> OnlyClient(promise) && promise.ids * seen <= ConfirmedTo(promise))
    }

    /** Entering the wait matches it with everything that came in early. */
    method StartWait(promise: Promise, now: int) returns (skipAwait: bool)
      requires Valid() && promise !in recentlyDelivered
      modifies this
      ensures Awaiting(promise, old(unsortedDeliveries).Keys, old(OnlyClient(promise)))
      ensures skipAwait <==> promise in recentlyDelivered
      ensures promise in waitingClients
    {
      skipAwait := BeginWait(promise, now);
    }

    /** Notifications arriving from Motr while a client blocks. */
    method Block(promise: Promise, now: int, ms: seq<MessageId>, ghost seen: set<MessageId>, ghost alone: bool)
      requires Awaiting(promise, seen, alone) && promise in waitingClients
      modifies `recentlyDelivered, `unsortedDeliveries
      ensures Awaiting(promise, seen + AsSet(ms), alone)
    {
      for i := 0 to |ms|
        invariant Awaiting(promise, seen + AsSet(ms[..i]), alone)
      {
        NotifyOne(ms[i], now, promise);
        AsSetPush(ms[..i], ms[i]);
        assert ms[..i+1] == ms[..i] + [ms[i]];
      }
      assert ms[..|ms|] == ms;
    }

    /** `_verify_delivered` inside the loop of `wait_for_all`, with re-registration. */
    method VerifyRound(promise: Promise, ghost seen: set<MessageId>, ghost alone: bool) returns (ok: bool)
      requires Awaiting(promise, seen, alone) && promise.ids != {}
      modifies `waitingClients, `recentlyDelivered, promise
      ensures ok ==> Awaiting(promise, seen, alone) && Less(promise.ids, old(promise.ids), seen)
      ensures !ok ==> Valid() && promise.ids == old(promise.ids) && (alone ==> promise.ids !! seen)
      ensures ok <==> promise in old(recentlyDelivered)
    {
      ghost var was, got := promise.ids, ConfirmedTo(promise);
      ghost var ws := waitingClients;
      ok := VerifyDelivered(promise);
      OthersStay(ws, promise);
      if ok {
        assert got != {} && got <= was;
        ProperSubset(promise.ids, was);
        if promise.ids != {} {
          AddClient(promise);
        }
      } else {
        assert got == {} && promise.ids == was;
      }
    }

    /** `wait_for_all`.  `arrivals` holds the notifications that come in during each blocking wait;
        a wait during which nothing comes in times out.  A false result stands for NotDelivered. */
    method WaitForAll(promise: Promise, now: int, arrivals: seq<seq<MessageId>>) returns (ok: bool, waits: nat)
      requires Valid() && promise !in recentlyDelivered
      modifies this, promise
      ensures Valid() && promise.ids <= old(promise.ids)
      ensures waits <= |old(promise.ids)| + 1
      ensures ok ==> promise.ids == {} && old(promise.ids) <= old(unsortedDeliveries).Keys + Arrived(arrivals, waits)
      ensures !ok && old(OnlyClient(promise)) ==>
                promise.ids != {} && promise.ids !! old(unsortedDeliveries).Keys + Arrived(arrivals, waits)
    {
      ghost var seen, alone := unsortedDeliveries.Keys, OnlyClient(promise);
      var skipAwait := StartWait(promise, now);
      waits := 0;
      while promise.ids != {}
        invariant Awaiting(promise, seen, alone)
        invariant seen == old(unsortedDeliveries).Keys + Arrived(arrivals, waits)
        invariant skipAwait ==> promise in recentlyDelivered
        invariant waits + |promise.ids| <= |old(promise.ids)|
        invariant promise.ids <= old(promise.ids) <= promise.ids + seen
        decreases |promise.ids|
      {
        if skipAwait {
          skipAwait := false;
          ok := VerifyRound(promise, seen, alone);
        } else {
          var ms := if waits < |arrivals| then arrivals[waits] else [];
          ArrivedNext(old(unsortedDeliveries).Keys, arrivals, waits, ms);
          ok, seen := BlockAndVerify(promise, now, ms, seen, alone);
          waits := waits + 1;
        }
        if !ok {
          return;
        }
      }
      ok := true;
    }

    /** `wait_for_any`.  `arrivals` are the notifications that come in while it blocks. */
    method WaitForAny(promise: Promise, now: int, arrivals: seq<MessageId>) returns (ok: bool)
      requires Valid() && promise !in recentlyDelivered
      modifies this, promise
      ensures Valid()
      ensures ok ==> promise.ids < old(promise.ids) <= promise.ids + old(unsortedDeliveries).Keys + AsSet(arrivals)
      ensures !ok ==> promise.ids == old(promise.ids)
      ensures old(OnlyClient(promise)) ==> (ok <==> old(promise.ids) * (old(unsortedDeliveries).Keys + AsSet(arrivals)) != {})
      ensures promise !in waitingClients
    {
      ghost var seen, alone := unsortedDeliveries.Keys, OnlyClient(promise);
      var skipAwait := StartWait(promise, now);
      if !skipAwait {
        Block(promise, now, arrivals, seen, alone);
        seen := seen + AsSet(arrivals);
      }
      ghost var was, got, ws := promise.ids, ConfirmedTo(promise), waitingClients;
      ok := VerifyDelivered(promise);
      OthersStay(ws, promise);
      if ok {
        assert got != {} && got <= was && got <= seen;
        ProperSubset(promise.ids, was);
      } else {
        assert got == {};
      }
    }

    method BlockAndVerify(promise: Promise, now: int, ms: seq<MessageId>, ghost seen: set<MessageId>, ghost alone: bool)
      returns (ok: bool, ghost seen': set<MessageId>)
      requires Awaiting(promise, seen, alone) && promise.ids != {}
      modifies this, promise
      ensures seen' == seen + AsSet(ms)
      ensures ok ==> Awaiting(promise, seen', alone) && Less(promise.ids, old(promise.ids), seen')
      ensures !ok ==> Valid() && promise.ids == old(promise.ids) && (alone ==> promise.ids !! seen')
    {
      Block(promise, now, ms, seen, alone);
      seen' := seen + AsSet(ms);
      ok := VerifyRound(promise, seen', alone);
    }
  }

  /** A promise that lost some ids, all of them seen. */
  ghost predicate Less(a: set<MessageId>, b: set<MessageId>, seen: set<MessageId>) {
    a <= b <= a + seen && |a| < |b|
  }

  lemma {:induction false} OthersStay(ws: seq<Promise>, p: Promise)
    ensures forall q :: q in Without(ws, p) ==> q in ws && q != p
  {
    if ws != [] {
      OthersStay(ws[1..], p);
    }
  }

  /** Everything notified during the first `n` waits. */
  ghost function Arrived(arrivals: seq<seq<MessageId>>, n: nat): set<MessageId> {
    if n == 0 then {}
    else Arrived(arrivals, n - 1) + if n <= |arrivals| then AsSet(arrivals[n - 1]) else {}
  }

  lemma ArrivedNext(early: set<MessageId>, arrivals: seq<seq<MessageId>>, n: nat, ms: seq<MessageId>)
    requires ms == if n < |arrivals| then arrivals[n] else []
    ensures early + Arrived(arrivals, n) + AsSet(ms) == early + Arrived(arrivals, n + 1)
  {
  }
}
