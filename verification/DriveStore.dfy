/** The device entries of the KV store, updated in place by `update_drive_state` and read back for the
    notes of `_generate_sub_disks` (hax/hax/util.py, hax/hax/motr/__init__.py). */
module DriveStores {
  import opened Fids
  import opened DriveStates
  import FailureHandling

  /** A pending write of an entry. */
  datatype PutKV = PutKV(at: nat, entry: Entry)

  predicate Writes(ops: seq<PutKV>, i: nat) {
    exists k :: 0 <= k < |ops| && ops[k].at == i
  }

  predicate InRange(es: seq<Entry>, ops: seq<PutKV>) {
    forall k :: 0 <= k < |ops| ==> ops[k].at < |es|
  }

  /** The entries after the writes, in order. */
  function Written(es: seq<Entry>, ops: seq<PutKV>): (r: seq<Entry>)
    requires InRange(es, ops)
    ensures |r| == |es|
  {
    if ops == [] then es
    else
      var op := ops[|ops|-1];
      Written(es, ops[..|ops|-1])[op.at := op.entry]
  }

  /** When all writes to an entry agree, their order and number do not matter. */
  lemma {:induction false} WrittenAt(es: seq<Entry>, ops: seq<PutKV>, i: nat, v: Entry)
    requires InRange(es, ops) && i < |es|
    requires forall k :: 0 <= k < |ops| && ops[k].at == i ==> ops[k].entry == v
    ensures Written(es, ops)[i] == if Writes(ops, i) then v else es[i]
    decreases |ops|
  {
    if ops != [] {
      var init := ops[..|ops|-1];
      WrittenAt(es, init, i, v);
      assert Writes(init, i) ==> Writes(ops, i) by {
        if Writes(init, i) {
          var k :| 0 <= k < |init| && init[k].at == i;
          assert ops[k].at == i;
        }
      }
      if Writes(ops, i) && ops[|ops|-1].at != i {
        var k :| 0 <= k < |ops| && ops[k].at == i;
        assert init[k].at == i;
      }
    }
  }

  /** Every pending write sets an entry of a touched device to its value after the update, and every
      touched entry that takes the state has one. */
  ghost predicate Pending(dm: Drives, es: seq<Entry>, drives: seq<Fid>, st: State, deviceEvent: bool, ops: seq<PutKV>) {
    && (forall k :: 0 <= k < |ops| ==>
          && ops[k].at < |es| && Touched(dm, drives, es[ops[k].at].sdev) && Takes(es[ops[k].at], deviceEvent)
          && ops[k].entry == es[ops[k].at].(state := st))
    && (forall i :: 0 <= i < |es| && Touched(dm, drives, es[i].sdev) && Takes(es[i], deviceEvent) ==> Writes(ops, i))
  }

  lemma WritesPush(ops: seq<PutKV>, op: PutKV)
    ensures Writes(ops + [op], op.at)
    ensures forall j :: Writes(ops, j) ==> Writes(ops + [op], j)
  {
    assert (ops + [op])[|ops|].at == op.at;
    forall j | Writes(ops, j)
      ensures Writes(ops + [op], j)
    {
      var k :| 0 <= k < |ops| && ops[k].at == j;
      assert (ops + [op])[k].at == j;
    }
  }

  lemma TouchedPush(dm: Drives, drives: seq<Fid>, d: Fid, sdev: Fid)
    ensures Touched(dm, drives + [d], sdev) <==> Touched(dm, drives, sdev) || ToSdev(dm, d) == sdev
  {
    assert forall k :: 0 <= k < |drives| ==> (drives + [d])[k] == drives[k];
    assert (drives + [d])[|drives|] == d;
  }

  lemma PendingPush(dm: Drives, es: seq<Entry>, drives: seq<Fid>, d: Fid, st: State, deviceEvent: bool,
                    ops: seq<PutKV>, more: seq<PutKV>)
    requires Pending(dm, es, drives, st, deviceEvent, ops) && Pending(dm, es, [d], st, deviceEvent, more)
    ensures Pending(dm, es, drives + [d], st, deviceEvent, ops + more)
  {
    forall i | 0 <= i < |es|
      ensures Touched(dm, drives + [d], es[i].sdev) <==> Touched(dm, drives, es[i].sdev) || Touched(dm, [d], es[i].sdev)
    {
      TouchedPush(dm, drives, d, es[i].sdev);
      TouchedPush(dm, [], d, es[i].sdev);
      assert [] + [d] == [d];
    }
    forall i | 0 <= i < |es| && Touched(dm, drives + [d], es[i].sdev) && Takes(es[i], deviceEvent)
      ensures Writes(ops + more, i)
    {
      if Touched(dm, drives, es[i].sdev) {
        var k :| 0 <= k < |ops| && ops[k].at == i;
        assert (ops + more)[k].at == i;
      } else {
        var k :| 0 <= k < |more| && more[k].at == i;
        assert (ops + more)[|ops| + k].at == i;
      }
    }
  }

  /** The pending writes carried out amount to one update of each entry. */
  lemma Settled(dm: Drives, es: seq<Entry>, drives: seq<Fid>, st: State, deviceEvent: bool, ops: seq<PutKV>)
    requires Pending(dm, es, drives, st, deviceEvent, ops)
    ensures Written(es, ops) == Updated(dm, es, drives, st, deviceEvent)
  {
    forall i | 0 <= i < |es|
      ensures Written(es, ops)[i] == After(dm, es[i], drives, st, deviceEvent)
    {
      WrittenAt(es, ops, i, es[i].(state := st));
    }
  }

  class DriveStore {
    const dm: Drives
    var entries: seq<Entry>

    constructor (drives: Drives, es: seq<Entry>)
      ensures dm == drives && entries == es
    {
      dm := drives;
      entries := es;
    }

    /** `get_sdev_state_update` for the device of one drive: nothing is written yet. */
    method SdevStateUpdate(d: Fid, st: State, deviceEvent: bool) returns (ops: seq<PutKV>)
      ensures Pending(dm, entries, [d], st, deviceEvent, ops)
    {
      ops := [];
      var sdev := ToSdev(dm, d);
      var i := 0;
      while i < |entries|
        invariant 0 <= i <= |entries|
        invariant forall k :: 0 <= k < |ops| ==>
                    && ops[k].at < i && entries[ops[k].at].sdev == sdev && Takes(entries[ops[k].at], deviceEvent)
                    && ops[k].entry == entries[ops[k].at].(state := st)
        invariant forall j :: 0 <= j < i && entries[j].sdev == sdev && Takes(entries[j], deviceEvent) ==> Writes(ops, j)
      {
        var e := entries[i];
        if e.sdev == sdev && !(!deviceEvent && Sticky(e.state)) {
          WritesPush(ops, PutKV(i, e.(state := st)));
          ops := ops + [PutKV(i, e.(state := st))];
        }
        i := i + 1;
      }
      forall i | 0 <= i < |entries|
        ensures Touched(dm, [d], entries[i].sdev) <==> entries[i].sdev == sdev
      {
        TouchedPush(dm, [], d, entries[i].sdev);
        assert [] + [d] == [d];
      }
    }

    /** All reads come first and all writes after them, and a device may be written more than once: the
        outcome is that of updating each entry once. */
    method UpdateDriveState(drives: seq<Fid>, h: Health, deviceEvent: bool) returns (raised: bool)
      modifies this
      ensures raised <==> h.Stopped? && drives != []
      ensures raised ==> entries == old(entries)
      ensures !raised && StateOf(h).Some? ==> entries == Updated(dm, old(entries), drives, StateOf(h).value, deviceEvent)
      ensures drives == [] ==> entries == old(entries)
    {
      var ops := [];
      var i := 0;
      while i < |drives|
        invariant 0 <= i <= |drives|
        invariant entries == old(entries)
        invariant StateOf(h).Some? ==> Pending(dm, entries, drives[..i], StateOf(h).value, deviceEvent, ops)
        invariant StateOf(h).None? ==> i == 0 && ops == []
      {
        if StateOf(h).None? {
          return true;
        }
        var more := SdevStateUpdate(drives[i], StateOf(h).value, deviceEvent);
        PendingPush(dm, entries, drives[..i], drives[i], StateOf(h).value, deviceEvent, ops, more);
        assert drives[..i] + [drives[i]] == drives[..i+1];
        ops := ops + more;
        i := i + 1;
      }
      assert drives[..i] == drives;
      Write(ops);
      if StateOf(h).Some? {
        Settled(dm, old(entries), drives, StateOf(h).value, deviceEvent, ops);
      }
      raised := false;
    }

    method Write(ops: seq<PutKV>)
      requires InRange(entries, ops)
      modifies this
      ensures entries == Written(old(entries), ops)
    {
      var n := 0;
      while n < |ops|
        invariant 0 <= n <= |ops|
        invariant entries == Written(old(entries), ops[..n])
      {
        assert ops[..n+1][..n] == ops[..n];
        entries := entries[ops[n].at := ops[n].entry];
        n := n + 1;
      }
      assert ops[..n] == ops;
    }

    method SdevState(d: Fid) returns (n: Note)
      ensures n == SdevNote(entries, ToSdev(dm, d))
    {
      var sdev, i := ToSdev(dm, d), 0;
      while i < |entries|
        invariant 0 <= i <= |entries|
        invariant SdevNote(entries, sdev) == SdevNote(entries[i..], sdev)
      {
        if entries[i].sdev == sdev {
          return NoteOf(entries[i].state);
        }
        i := i + 1;
      }
      return NcOnline;
    }

    /** `_generate_sub_disks`: stores the state of the drives under a process and returns their notes. */
    method GenerateSubDisks(note: Note, disks: seq<Fid>, mkfs: bool, updateKv: bool) returns (notes: seq<(Fid, Note)>)
      modifies this
      ensures entries == Apply(dm, old(entries), ProcessEvent(disks, note, mkfs, updateKv))
      ensures notes == if MkfsDown(ProcessEvent(disks, note, mkfs, updateKv)) then [] else Notes(dm, entries, disks)
    {
      var state := if note.NcFailed? then FailureHandling.Offline else HealthOf(note);
      var down := mkfs && !state.Ok?;
      var list := if down then [] else disks;
      if list != [] {
        if !down && updateKv {
          var raised := UpdateDriveState(list, state, false);
        }
      }
      assert disks == [] ==> forall i :: 0 <= i < |entries| ==>
                               After(dm, entries[i], disks, StateOf(DiskHealth(note)).value, false) == entries[i];
      notes := [];
      var k := 0;
      while k < |list|
        invariant 0 <= k <= |list|
        invariant entries == Apply(dm, old(entries), ProcessEvent(disks, note, mkfs, updateKv))
        invariant notes == Notes(dm, entries, list[..k])
      {
        var n := SdevState(list[k]);
        notes := notes + [(list[k], n)];
        k := k + 1;
      }
      assert list[..k] == list;
    }
  }
}
