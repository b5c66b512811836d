/** States of storage devices kept in the KV store and the notes sent about drives
    (hax/hax/util.py, hax/hax/motr/__init__.py), with one event after the other; `DriveRaces` interleaves
    them. */
module DriveStates {
  import opened Fids
  import FailureHandling

  type Health = FailureHandling.Health

  /** `M0Unknown` is the state a device is configured with. */
  datatype State = M0Unknown | Online | Offline | DtmRecovering | Failed | Repairing | Repaired | Rebalancing

  datatype Note =
    NcUnknown | NcOnline | NcFailed | NcTransient | NcRepair | NcRepaired | NcRebalance | NcDtmRecovering

  /** An entry `.../sdevs/<fid>`; an entry is identified by its position, as its key never changes. */
  datatype Entry = Entry(sdev: Fid, state: State)

  /** Which device each configured drive stands for. */
  type Drives = map<Fid, Fid>

  const NO_FID := Fid(0, 0)

  function ToSdev(dm: Drives, drive: Fid): Fid {
    if drive in dm then dm[drive] else NO_FID
  }

  predicate Sticky(s: State) {
    s.Failed? || s.Repairing? || s.Repaired? || s.Rebalancing?
  }

  /** None stands for the KeyError. */
  function StateOf(h: Health): Option<State> {
    match h
    case Ok => Some(Online)
    case Unknown => Some(Offline)
    case Recovering => Some(DtmRecovering)
    case Failed => Some(State.Failed)
    case Offline => Some(State.Offline)
    case Repair => Some(Repairing)
    case Repaired => Some(State.Repaired)
    case Rebalance => Some(Rebalancing)
    case Stopped => None
  }

  function HealthOf(n: Note): Health {
    match n
    case NcFailed => FailureHandling.Failed
    case NcOnline => FailureHandling.Ok
    case NcTransient => FailureHandling.Offline
    case NcDtmRecovering => FailureHandling.Recovering
    case NcRepair => FailureHandling.Repair
    case NcRepaired => FailureHandling.Repaired
    case NcRebalance => FailureHandling.Rebalance
    case NcUnknown => FailureHandling.Unknown
  }

  /** The note for a stored state; a device still recovering counts as online. */
  function NoteOf(s: State): Note {
    match s
    case M0Unknown => NcOnline
    case DtmRecovering => NcOnline
    case Online => NcOnline
    case Offline => NcTransient
    case Failed => NcFailed
    case Repairing => NcRepair
    case Repaired => NcRepaired
    case Rebalancing => NcRebalance
  }

  // ---------------------------------------------------------------- one update, entry by entry

  predicate Touched(dm: Drives, drives: seq<Fid>, sdev: Fid) {
    exists k :: 0 <= k < |drives| && ToSdev(dm, drives[k]) == sdev
  }

  predicate Takes(e: Entry, deviceEvent: bool) {
    deviceEvent || !Sticky(e.state)
  }

  function After(dm: Drives, e: Entry, drives: seq<Fid>, st: State, deviceEvent: bool): Entry {
    if Touched(dm, drives, e.sdev) && Takes(e, deviceEvent) then e.(state := st) else e
  }

  function Updated(dm: Drives, es: seq<Entry>, drives: seq<Fid>, st: State, deviceEvent: bool): (r: seq<Entry>)
    ensures |r| == |es| && forall i :: 0 <= i < |r| ==> r[i].sdev == es[i].sdev
  {
    seq(|es|, i requires 0 <= i < |es| => After(dm, es[i], drives, st, deviceEvent))
  }

  /** The state `get_sdev_state` reports, from the first entry of the device. */
  function SdevNote(es: seq<Entry>, sdev: Fid): Note {
    if es == [] then NcOnline
    else if es[0].sdev == sdev then NoteOf(es[0].state)
    else SdevNote(es[1..], sdev)
  }

  /** The notes tell the sticky states, online and offline apart, and a note read back as a health stands
      for the state it was made from. */
  lemma NoteTellsState(s: State)
    ensures Sticky(s) || s.Online? || s.Offline? ==> StateOf(HealthOf(NoteOf(s))) == Some(s)
    ensures s.M0Unknown? || s.DtmRecovering? ==> NoteOf(s) == NoteOf(Online)
    ensures StateOf(HealthOf(NcDtmRecovering)) == Some(DtmRecovering) && StateOf(HealthOf(NcUnknown)) == Some(Offline)
  {
  }

  /** The note of the state stored for a health is the note of that health, except that a recovering device
      counts as online. */
  lemma HealthTellsNote(n: Note)
    requires !n.NcUnknown?
    ensures StateOf(HealthOf(n)).Some?
    ensures NoteOf(StateOf(HealthOf(n)).value) == if n.NcDtmRecovering? then NcOnline else n
  {
  }

  // ---------------------------------------------------------------- events

  /** A drive event names a drive; a process event carries the drives under the process. */
  datatype Event =
    | DriveEvent(drive: Fid, health: Health)
    | ProcessEvent(drives: seq<Fid>, note: Note, mkfs: bool, updateKv: bool)

  /** Failure of a process only takes its drives offline. */
  function DiskHealth(n: Note): (h: Health)
    ensures !h.Failed? && !h.Stopped?
  {
    if n.NcFailed? then FailureHandling.Offline else HealthOf(n)
  }

  predicate MkfsDown(e: Event) {
    e.ProcessEvent? && e.mkfs && !DiskHealth(e.note).Ok?
  }

  /** A drive event with an unknown health is skipped, and one with a stopped health raises before
      anything is written. */
  function Apply(dm: Drives, es: seq<Entry>, e: Event): (r: seq<Entry>)
    ensures |r| == |es| && forall i :: 0 <= i < |r| ==> r[i].sdev == es[i].sdev
  {
    match e
    case DriveEvent(d, h) =>
      if h.Unknown? || h.Stopped? then es else Updated(dm, es, [d], StateOf(h).value, true)
    case ProcessEvent(drives, n, mkfs, updateKv) =>
      if MkfsDown(e) || !updateKv then es else Updated(dm, es, drives, StateOf(DiskHealth(n)).value, false)
  }

  /** The drive notes sent with a process event. */
  function Notes(dm: Drives, es: seq<Entry>, drives: seq<Fid>): seq<(Fid, Note)> {
    seq(|drives|, k requires 0 <= k < |drives| => (drives[k], SdevNote(es, ToSdev(dm, drives[k]))))
  }

  function Run(dm: Drives, es: seq<Entry>, evs: seq<Event>): (r: seq<Entry>)
    ensures |r| == |es| && forall i :: 0 <= i < |r| ==> r[i].sdev == es[i].sdev
  {
    if evs == [] then es else Apply(dm, Run(dm, es, evs[..|evs|-1]), evs[|evs|-1])
  }

  /** A drive event with a known health other than stopped leaves every entry of its device in the state of
      that health, whatever it was before, and no other entry changed. */
  lemma DriveEventStores(dm: Drives, es: seq<Entry>, d: Fid, h: Health, i: nat)
    requires i < |es| && !h.Unknown? && !h.Stopped?
    ensures StateOf(h).Some?
    ensures es[i].sdev == ToSdev(dm, d) ==> Apply(dm, es, DriveEvent(d, h))[i].state == StateOf(h).value
    ensures es[i].sdev != ToSdev(dm, d) ==> Apply(dm, es, DriveEvent(d, h))[i] == es[i]
    ensures d !in dm && es[i].sdev != Fid(0, 0) ==> Apply(dm, es, DriveEvent(d, h))[i] == es[i]
  {
    assert [d][0] == d;
  }

  /** A process event that is to be written, and is not that of a mkfs process going down, leaves the devices
      of its drives in the state of the process, or offline if the process failed; but not those in a sticky
      state, nor other devices.  Any other process event changes nothing. */
  lemma ProcessEventStores(dm: Drives, es: seq<Entry>, e: Event, i: nat)
    requires i < |es| && e.ProcessEvent?
    ensures var written := e.updateKv && (!e.mkfs || e.note.NcOnline?);
            Apply(dm, es, e)[i].state ==
            if written && Touched(dm, e.drives, es[i].sdev) && !Sticky(es[i].state)
            then (if e.note.NcFailed? then Offline else StateOf(HealthOf(e.note)).value)
            else es[i].state
  {
  }

  predicate DriveEventOn(dm: Drives, e: Event, sdev: Fid) {
    e.DriveEvent? && ToSdev(dm, e.drive) == sdev
  }

  /** A sticky state survives every run without a drive event on its device. */
  lemma {:induction false} StickyStays(dm: Drives, es: seq<Entry>, evs: seq<Event>, i: nat)
    requires i < |es| && Sticky(es[i].state)
    requires forall k :: 0 <= k < |evs| ==> !DriveEventOn(dm, evs[k], es[i].sdev)
    ensures Run(dm, es, evs)[i] == es[i]
    decreases |evs|
  {
    if evs != [] {
      StickyStays(dm, es, evs[..|evs|-1], i);
      var last := evs[|evs|-1];
      assert !DriveEventOn(dm, last, es[i].sdev);
    }
  }

  function DriveEvents(evs: seq<Event>): seq<Event> {
    if evs == [] then []
    else DriveEvents(evs[..|evs|-1]) + if evs[|evs|-1].DriveEvent? then [evs[|evs|-1]] else []
  }

  /** Process events whose status would itself be a sticky device state. */
  predicate Plain(e: Event) {
    e.ProcessEvent? ==> !e.note.NcRepair? && !e.note.NcRepaired? && !e.note.NcRebalance?
  }

  predicate Agree(a: State, b: State) {
    Sticky(a) || Sticky(b) ==> a == b
  }

  lemma AgreeStep(dm: Drives, es: seq<Entry>, fs: seq<Entry>, e: Event, i: nat)
    requires i < |es| == |fs| && es[i].sdev == fs[i].sdev && Agree(es[i].state, fs[i].state) && Plain(e)
    ensures e.DriveEvent? ==> Agree(Apply(dm, es, e)[i].state, Apply(dm, fs, e)[i].state)
    ensures e.ProcessEvent? ==> Agree(Apply(dm, es, e)[i].state, fs[i].state)
  {
  }

  /** Process events are invisible to the sticky states: leaving them all out of a run leads to the same
      devices being failed, repairing, repaired or rebalancing. */
  lemma {:induction false} StickyAsIfAlone(dm: Drives, es: seq<Entry>, evs: seq<Event>, i: nat)
    requires i < |es| && forall k :: 0 <= k < |evs| ==> Plain(evs[k])
    ensures Agree(Run(dm, es, evs)[i].state, Run(dm, es, DriveEvents(evs))[i].state)
    decreases |evs|
  {
    if evs != [] {
      var init, last := evs[..|evs|-1], evs[|evs|-1];
      StickyAsIfAlone(dm, es, init, i);
      AgreeStep(dm, Run(dm, es, init), Run(dm, es, DriveEvents(init)), last, i);
      if last.DriveEvent? {
        assert DriveEvents(evs)[..|DriveEvents(evs)|-1] == DriveEvents(init);
      } else {
        assert DriveEvents(evs) == DriveEvents(init);
      }
    }
  }

  /** Exactly when a process event leaves a device, until then in a transient state, in a sticky one. */
  lemma ProcessEventSticksIff(dm: Drives, es: seq<Entry>, e: Event, i: nat)
    requires i < |es| && !Sticky(es[i].state) && e.ProcessEvent?
    ensures Sticky(Apply(dm, es, e)[i].state) <==>
              Touched(dm, e.drives, es[i].sdev) && e.updateKv && !e.mkfs && !Plain(e)
  {
  }

  lemma {:induction false} SdevNoteIsFirst(es: seq<Entry>, sdev: Fid, i: nat)
    requires i < |es| && es[i].sdev == sdev && forall j :: 0 <= j < i ==> es[j].sdev != sdev
    ensures SdevNote(es, sdev) == NoteOf(es[i].state)
  {
    if i > 0 {
      SdevNoteIsFirst(es[1..], sdev, i - 1);
    }
  }

  /** After a process event that is written, the note of a drive is that of its sticky state if its device
      had one, and otherwise that of the process. */
  lemma NoteAfterProcessEvent(dm: Drives, es: seq<Entry>, e: Event, k: nat, i: nat)
    requires e.ProcessEvent? && e.updateKv && !MkfsDown(e) && k < |e.drives| && i < |es|
    requires es[i].sdev == ToSdev(dm, e.drives[k]) && forall j :: 0 <= j < i ==> es[j].sdev != es[i].sdev
    ensures Notes(dm, Apply(dm, es, e), e.drives)[k] ==
            (e.drives[k], if Sticky(es[i].state) then NoteOf(es[i].state)
                          else NoteOf(StateOf(DiskHealth(e.note)).value))
  {
    var es' := Apply(dm, es, e);
    assert Touched(dm, e.drives, es[i].sdev);
    forall j | 0 <= j < i
      ensures es'[j].sdev != es'[i].sdev
    {
      assert es'[j].sdev == es[j].sdev;
    }
    SdevNoteIsFirst(es', es[i].sdev, i);
  }
}
