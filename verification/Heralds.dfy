/** The delivery rendezvous of hax/hax/motr/delivery.py as functions on values.

    The dictionary of waiting clients is a sequence of promises in insertion order.  Lists of
    confirmed ids are used only as sets by `exclude_ids`, so they are sets here. */
module Heralds {
  import opened Fids

  datatype MessageId = MessageId(halinkCtx: int, tag: int)

  datatype Herald<P> = Herald(
    ttl: int, waiting: seq<P>, recent: map<P, set<MessageId>>, unsorted: map<MessageId, int>)

  /** `groom_unsorted`: deliveries nobody awaited yet are matched with the promise, and unmatched
      ones past their time to live are dropped. */
  function Groom<P>(h: Herald<P>, p: P, ids: set<MessageId>, now: int): Herald<P> {
    var delivered := h.unsorted.Keys * ids;
    h.(recent := if delivered != {} then h.recent[p := delivered] else h.recent,
       unsorted := map m | m in h.unsorted && m !in ids && !TooOld(h, m, now) :: h.unsorted[m])
  }

  predicate TooOld<P>(h: Herald<P>, m: MessageId, now: int)
    requires m in h.unsorted
  {
    now - h.unsorted[m] > h.ttl
  }

  /** `waiting_clients[promise] = condition`. */
  function Register<P(==)>(h: Herald<P>, p: P): Herald<P> {
    if p in h.waiting then h else h.(waiting := h.waiting + [p])
  }

  /** The first waiting client whose promise contains `m`. */
  function Owner<P>(ws: seq<P>, ids: map<P, set<MessageId>>, m: MessageId): Option<P> {
    if ws == [] then None
    else if ws[0] in ids && m in ids[ws[0]] then Some(ws[0])
    else Owner(ws[1..], ids, m)
  }

  lemma {:induction false} OwnerIsWaiting<P>(ws: seq<P>, ids: map<P, set<MessageId>>, m: MessageId)
    ensures match Owner(ws, ids, m)
            case Some(p) => p in ws && p in ids && m in ids[p]
            case None => forall p :: p in ws && p in ids ==> m !in ids[p]
  {
    if ws != [] {
      OwnerIsWaiting(ws[1..], ids, m);
    }
  }

  /** It is the first such client. */
  lemma {:induction false} OwnerIsFirst<P>(ws: seq<P>, ids: map<P, set<MessageId>>, m: MessageId, k: nat)
    requires k < |ws| && ws[k] in ids && m in ids[ws[k]]
    requires forall j :: 0 <= j < k ==> ws[j] !in ids || m !in ids[ws[j]]
    ensures Owner(ws, ids, m) == Some(ws[k])
    decreases |ws|
  {
    if k > 0 {
      OwnerIsFirst(ws[1..], ids, m, k - 1);
    }
  }

  function Confirmed<P>(h: Herald<P>, p: P): set<MessageId> {
    if p in h.recent then h.recent[p] else {}
  }

  /** `notify_delivered`. */
  function Notify<P>(h: Herald<P>, ids: map<P, set<MessageId>>, m: MessageId, now: int): Herald<P> {
    match Owner(h.waiting, ids, m)
    case Some(p) => h.(recent := h.recent[p := Confirmed(h, p) + {m}])
    case None => h.(unsorted := h.unsorted[m := now])
  }

  /** `del waiting_clients[promise]`. */
  function Without<P(==)>(ws: seq<P>, p: P): seq<P> {
    if ws == [] then [] else (if ws[0] == p then [] else [ws[0]]) + Without(ws[1..], p)
  }

  /** The herald after `_verify_delivered`, whether it raises or not. */
  function Verified<P(==)>(h: Herald<P>, p: P): Herald<P> {
    h.(waiting := Without(h.waiting, p), recent := h.recent - {p})
  }

  lemma ProperSubset(a: set<MessageId>, b: set<MessageId>)
    requires a < b
    ensures |a| < |b|
  {
    assert b == a + (b - a);
  }
}
