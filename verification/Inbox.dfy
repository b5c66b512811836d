/** What a consumer makes of a snapshot of the queue (hax/hax/queue/offset.py): sort the entries by
    epoch, drop those already read. */
module Inbox {

  datatype Entry = Entry(epoch: int, msg: string)

  /** Stable insertion by epoch; `list.sort` of the source. */
  function Insert(e: Entry, es: seq<Entry>): seq<Entry> {
    if es == [] || e.epoch <= es[0].epoch then [e] + es else [es[0]] + Insert(e, es[1..])
  }

  function Sort(es: seq<Entry>): seq<Entry> {
    if es == [] then [] else Insert(es[0], Sort(es[1..]))
  }

  function Unread(es: seq<Entry>, offset: int): seq<Entry> {
    if es == [] then []
    else (if es[0].epoch > offset then [es[0]] else []) + Unread(es[1..], offset)
  }

  /** `InboxFilter.prepare`. */
  function Prepare(raw: seq<Entry>, offset: int): seq<Entry> {
    Unread(Sort(raw), offset)
  }

  predicate Ascending(es: seq<Entry>) {
    forall i, j :: 0 <= i < j < |es| ==> es[i].epoch <= es[j].epoch
  }

  lemma {:induction false} InsertKeeps(e: Entry, es: seq<Entry>)
    ensures multiset(Insert(e, es)) == multiset(es) + multiset{e}
  {
    if es != [] && e.epoch > es[0].epoch {
      InsertKeeps(e, es[1..]);
      assert es == [es[0]] + es[1..];
    }
  }

  lemma {:induction false} InsertSorts(e: Entry, es: seq<Entry>)
    requires Ascending(es)
    ensures Ascending(Insert(e, es))
  {
    if es != [] && e.epoch > es[0].epoch {
      var r := Insert(e, es[1..]);
      InsertSorts(e, es[1..]);
      InsertKeeps(e, es[1..]);
      forall j | 0 <= j < |r|
        ensures es[0].epoch <= r[j].epoch
      {
        assert r[j] in multiset(es[1..]) + multiset{e};
      }
    }
  }

  lemma {:induction false} SortSorts(es: seq<Entry>)
    ensures Ascending(Sort(es)) && multiset(Sort(es)) == multiset(es)
  {
    if es != [] {
      SortSorts(es[1..]);
      InsertSorts(es[0], Sort(es[1..]));
      InsertKeeps(es[0], Sort(es[1..]));
      assert es == [es[0]] + es[1..];
    }
  }

  /** Consecutive epochs from `first` on. */
  predicate Consecutive(es: seq<Entry>, first: int) {
    forall i :: 0 <= i < |es| ==> es[i].epoch == first + i
  }

  lemma SameHead(a: seq<Entry>, b: seq<Entry>, first: int)
    requires Ascending(a) && Consecutive(b, first) && multiset(a) == multiset(b) && a != []
    ensures b != [] && a[0] == b[0]
  {
    assert a[0] in multiset(a);
    assert b != [];
    assert b[0] in multiset(b);
    var i :| 0 <= i < |a| && a[i] == b[0];
    var j :| 0 <= j < |b| && b[j] == a[0];
    assert a[0].epoch <= a[i].epoch;
  }

  lemma TailMultiset(a: seq<Entry>)
    requires a != []
    ensures multiset(a[1..]) == multiset(a) - multiset{a[0]}
  {
    assert a == [a[0]] + a[1..];
  }

  /** The only ascending arrangement of consecutive entries is the consecutive one. */
  lemma {:induction false} OneArrangement(a: seq<Entry>, b: seq<Entry>, first: int)
    requires Ascending(a) && Consecutive(b, first) && multiset(a) == multiset(b)
    ensures a == b
  {
    if a == [] {
      assert |multiset(b)| == 0;
    } else {
      SameHead(a, b, first);
      TailMultiset(a);
      TailMultiset(b);
      OneArrangement(a[1..], b[1..], first + 1);
      assert a == [a[0]] + a[1..] && b == [b[0]] + b[1..];
    }
  }

  lemma {:induction false} UnreadTail(es: seq<Entry>, first: int, offset: int)
    requires Consecutive(es, first)
    ensures offset < first ==> Unread(es, offset) == es
    ensures first <= offset < first + |es| ==> Unread(es, offset) == es[offset - first + 1..]
    ensures offset >= first + |es| ==> Unread(es, offset) == []
  {
    if es != [] {
      UnreadTail(es[1..], first + 1, offset);
      assert es == [es[0]] + es[1..];
      if first < offset < first + |es| {
        assert es[1..][offset - first..] == es[offset - first + 1..];
      }
    }
  }

  /** However a snapshot of consecutive entries is ordered, preparing it yields exactly the entries
      past the offset, in publication order. */
  lemma PrepareInOrder(raw: seq<Entry>, es: seq<Entry>, first: int, offset: int)
    requires Consecutive(es, first) && multiset(raw) == multiset(es)
    ensures offset < first ==> Prepare(raw, offset) == es
    ensures first <= offset < first + |es| ==> Prepare(raw, offset) == es[offset - first + 1..]
    ensures offset >= first + |es| ==> Prepare(raw, offset) == []
  {
    SortSorts(raw);
    OneArrangement(Sort(raw), es, first);
    UnreadTail(es, first, offset);
  }

  lemma {:induction false} UnreadExact(es: seq<Entry>, offset: int, e: Entry)
    ensures multiset(Unread(es, offset))[e] == if e.epoch > offset then multiset(es)[e] else 0
  {
    if es != [] {
      UnreadExact(es[1..], offset, e);
      assert es == [es[0]] + es[1..];
    }
  }

  lemma {:induction false} UnreadAscends(es: seq<Entry>, offset: int)
    requires Ascending(es)
    ensures Ascending(Unread(es, offset))
  {
    if es != [] {
      UnreadAscends(es[1..], offset);
      var r := Unread(es[1..], offset);
      forall j | 0 <= j < |r|
        ensures es[0].epoch <= r[j].epoch
      {
        UnreadExact(es[1..], offset, r[j]);
        assert r[j] in multiset(r);
        assert r[j] in multiset(es[1..]);
      }
    }
  }

  /** For every snapshot, consecutive or not: exactly the entries past the offset, each as often as it was
      there, in ascending order. */
  lemma PrepareExact(raw: seq<Entry>, offset: int, e: Entry)
    ensures Ascending(Prepare(raw, offset))
    ensures multiset(Prepare(raw, offset))[e] == if e.epoch > offset then multiset(raw)[e] else 0
  {
    SortSorts(raw);
    UnreadAscends(Sort(raw), offset);
    UnreadExact(Sort(raw), offset, e);
  }
}
