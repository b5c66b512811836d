/** The objects around the broadcast queue, updated in place: the KV adapter, the publisher's retry
    loop (hax/hax/queue/publish.py), the offset storage (hax/hax/queue/offset.py) and the
    consume-then-mark loop (hax/hax/server.py). */
module QueueObjects {
  import opened Fids
  import opened Inbox
  import opened BroadcastQueue

  /** The store after other publishers have committed `msgs`, one after the other. */
  function After(kv: Store, msgs: seq<string>): Store {
    if msgs == [] then kv
    else var before := After(kv, msgs[..|msgs|-1]); Committed(before, before.epoch, msgs[|msgs|-1])
  }

  lemma {:induction false} AfterGrows(kv: Store, msgs: seq<string>)
    requires kv.index <= kv.clock
    ensures var t := After(kv, msgs);
            && t.epoch == kv.epoch + |msgs| && t.index <= t.clock
            && t.index >= kv.index && (msgs != [] ==> t.index > kv.index) && t.offset == kv.offset
  {
    if msgs != [] {
      AfterGrows(kv, msgs[..|msgs|-1]);
    }
  }

  lemma {:induction false} AfterAppend(kv: Store, a: seq<string>, b: seq<string>)
    ensures After(kv, a + b) == After(After(kv, a), b)
  {
    if b == [] {
      assert a + b == a;
    } else {
      assert (a + b)[..|a + b|-1] == a + b[..|b|-1];
      AfterAppend(kv, a, b[..|b|-1]);
    }
  }

  function Flat(ms: seq<seq<string>>): seq<string> {
    if ms == [] then [] else Flat(ms[..|ms|-1]) + ms[|ms|-1]
  }

  class KVAdapter {
    var store: Store

    constructor (store: Store)
      ensures this.store == store
    {
      this.store := store;
    }

    /** `kv_put_in_transaction` on the epoch and message keys; false when the check fails. */
    method PutInTransaction(value: int, msg: string, cas: nat) returns (ok: bool)
      modifies this
      ensures ok <==> Accepts(old(store), cas)
      ensures store == if ok then Committed(old(store), value, msg) else old(store)
    {
      ok := cas == 0 || cas == store.index;
      if ok {
        store := Committed(store, value, msg);
      }
    }

    /** `OffsetStorage.mark_last_read`. */
    method MarkLastRead(epoch: int)
      modifies this
      ensures store == old(store).(offset := Some(epoch))
    {
      store := store.(offset := Some(epoch));
    }

    /** `OffsetStorage.get_last_read_epoch`. */
    method GetLastReadEpoch() returns (epoch: int)
      ensures epoch == LastRead(store)
      ensures store.offset.None? ==> epoch == -1
    {
      if store.offset.None? {
        return -1;
      }
      return store.offset.value;
    }

    /** Other publishers at work. */
    method Rivals(msgs: seq<string>)
      modifies this
      ensures store == After(old(store), msgs)
    {
      for i := 0 to |msgs|
        invariant store == After(old(store), msgs[..i])
      {
        assert msgs[..i+1][..i] == msgs[..i];
        store := Committed(store, store.epoch, msgs[i]);
      }
      assert msgs[..|msgs|] == msgs;
    }
  }

  /** `Publisher.publish`.  `rivals[k]` are the messages others commit between the read and the put of
      attempt `k`; with no rivals an attempt succeeds.  With a positive index the message is stored once,
      right after all rival messages that got in before it, under the epoch that is returned.  With index
      zero the first attempt succeeds, whatever the rivals have done to the epoch in between. */
  method Publish(kv: KVAdapter, msg: string, rivals: seq<seq<string>>) returns (nextEpoch: int, attempts: nat)
    requires kv.store.index <= kv.store.clock
    modifies kv
    ensures 0 < attempts <= |rivals| + 1
    ensures nextEpoch == kv.store.epoch && nextEpoch in kv.store.queue && kv.store.queue[nextEpoch] == msg
    ensures old(kv.store.index) > 0 ==>
              var rs := Flat(rivals[..if attempts <= |rivals| then attempts else |rivals|]);
              kv.store == After(old(kv.store), rs + [msg]) && nextEpoch == old(kv.store.epoch) + |rs| + 1
    ensures old(kv.store.index) == 0 ==>
              && attempts == 1 && nextEpoch == old(kv.store.epoch) + 1
              && kv.store == Committed(After(old(kv.store), if rivals == [] then [] else rivals[0]), old(kv.store.epoch), msg)
  {
    attempts := 0;
    while true
      invariant attempts <= |rivals|
      invariant kv.store == After(old(kv.store), Flat(rivals[..attempts]))
      invariant kv.store.index <= kv.store.clock
      invariant if old(kv.store.index) > 0 then kv.store.index > 0 else attempts == 0
      decreases |rivals| - attempts
    {
      var index, value := kv.store.index, kv.store.epoch;
      nextEpoch := value + 1;
      var others := if attempts < |rivals| then rivals[attempts] else [];
      ghost var before, done := kv.store, rivals[..attempts];
      kv.Rivals(others);
      AfterGrows(before, others);
      AfterGrows(old(kv.store), Flat(done));
      AfterAppend(old(kv.store), Flat(done), others);
      if attempts < |rivals| {
        assert rivals[..attempts+1][..attempts] == done;
      }
      var ok := kv.PutInTransaction(value, msg, index);
      attempts := attempts + 1;
      if ok {
        AfterAppend(old(kv.store), Flat(done), [msg]);
        assert [msg][..0] == [];
        return;
      }
    }
  }

  /** The receiver of consumed entries. */
  class Processor {
    var delivered: seq<Entry>

    method Process(e: Entry)
      modifies this
      ensures delivered == old(delivered) + [e]
    {
      delivered := delivered + [e];
    }
  }

  /** `process_bq_update`: every unread entry is processed and then marked, in order. */
  method ProcessBqUpdate(kv: KVAdapter, raw: seq<Entry>, processor: Processor)
    modifies kv, processor
    ensures var todo := Prepare(raw, LastRead(old(kv.store)));
            && processor.delivered == old(processor.delivered) + todo
            && kv.store == if todo == [] then old(kv.store)
                           else old(kv.store).(offset := Some(todo[|todo|-1].epoch))
  {
    var offset := kv.GetLastReadEpoch();
    var messages := Prepare(raw, offset);
    if messages == [] {
      return;
    }
    for i := 0 to |messages|
      invariant processor.delivered == old(processor.delivered) + messages[..i]
      invariant kv.store == if i == 0 then old(kv.store)
                            else old(kv.store).(offset := Some(messages[i - 1].epoch))
    {
      processor.Process(messages[i]);
      kv.MarkLastRead(messages[i].epoch);
      assert messages[..i+1] == messages[..i] + [messages[i]];
    }
    assert messages[..|messages|] == messages;
  }
}
