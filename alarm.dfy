/** The active-alarm table: MaxAlarms parallel slots of alarm id and
    activation epoch, where id 0 marks a free slot. */
module Alarms {
  import opened CTypes
  import opened Wrappers
  import Seqs

  const MaxAlarms := 20
  const OriginMask: bv16 := 0xFF00
  const ErrorIdMask: bv16 := 0x00FF

  // Values of alarm_origin_t.
  const OriginUnknown: bv16 := 0
  const OriginKoster: bv16 := 0x1000
  const OriginTest1: bv16 := 0xF000
  const OriginTest2: bv16 := 0xF100

  function ErrorIdOf(id: bv16): bv16 {
    id & ErrorIdMask
  }

  function OriginOf(id: bv16): bv16 {
    id & OriginMask
  }

  /** The alarm id: error id in the low byte, origin in the high byte. */
  function AlarmId(errorId: bv8, origin: bv16): (id: bv16)
    ensures ErrorIdOf(id) == errorId as bv16
    ensures OriginOf(id) == OriginOf(origin)
  {
    ((errorId as bv16) & ErrorIdMask) | (origin & OriginMask)
  }

  const TypeAIds: set<bv16> := {0x1002, 0x1003, 0x1008, 0x1009, 0x100A, 0x100B, 0x100C, 0x100D, 0x100F, 0x1011, 0x1012, 0x1013, 0x1014}
  const TypeBIds: set<bv16> := {0x1001, 0x1004, 0x1005, 0x1006, 0x1007, 0x100E, 0x1010, 0x1015, 0x1016, 0x1017}

  /** AlarmGetType: 'A' (critical), 'B', or 'U' for an unlisted id. */
  function GetType(id: bv16): (c: char)
    ensures c == 'A' <==> id in TypeAIds
    ensures c == 'B' <==> id in TypeBIds
    ensures c != 'A' && c != 'B' ==> c == 'U'
    ensures c != 'U' ==> OriginOf(id) == OriginKoster && 0x1001 <= id <= 0x1017
  {
    if id == 0x1002 || id == 0x1003 || id == 0x1008 || id == 0x1009 || id == 0x100A || id == 0x100B
      || id == 0x100C || id == 0x100D || id == 0x100F || id == 0x1011 || id == 0x1012 || id == 0x1013
      || id == 0x1014
    then 'A'
    else if id == 0x1001 || id == 0x1004 || id == 0x1005 || id == 0x1006 || id == 0x1007 || id == 0x100E
      || id == 0x1010 || id == 0x1015 || id == 0x1016 || id == 0x1017
    then 'B'
    else 'U'
  }

  /** Alarms raised from a test origin are never classified, so an active
      Test1 alarm is not a type-A alarm. */
  lemma TestOriginsUnclassified(errorId: bv8)
    ensures GetType(AlarmId(errorId, OriginTest1)) == 'U'
    ensures GetType(AlarmId(errorId, OriginTest2)) == 'U'
    ensures GetType(0) == 'U'
  {
    assert OriginOf(AlarmId(errorId, OriginTest1)) == OriginTest1;
    assert OriginOf(AlarmId(errorId, OriginTest2)) == OriginTest2;
  }

  /** One slot as AlarmWalk hands it to its callback. */
  datatype Alarm = Alarm(id: bv16, epoch: uint32)

  /** The two parallel arrays as values. */
  datatype Slots = Slots(ids: seq<bv16>, times: seq<uint32>)

  predicate Sized(t: Slots) {
    |t.ids| == MaxAlarms && |t.times| == MaxAlarms
  }

  predicate IsFree(id: bv16) {
    id == 0
  }

  /** Whether a slot holds exactly the alarm id `id`. */
  function Holds(id: bv16): bv16 -> bool {
    x => x == id
  }

  /** What AlarmSet returns and the table it leaves. */
  datatype SetOutcome = SetOutcome(rc: int, notify: bool, after: Slots)

  /** AlarmSet on alarm id `id`: activating takes the lowest free slot,
      clearing empties the lowest slot holding exactly that id. */
  function SetSpec(t: Slots, active: bool, id: bv16, epoch: uint32): (o: SetOutcome)
    requires Sized(t)
    ensures Sized(o.after)
    ensures o.rc == 0 || o.rc == -1
    ensures o.notify <==> o.rc == 0
    ensures o.rc == -1 ==> o.after == t
    ensures active ==> (o.rc == 0 <==> 0 in t.ids)
    ensures active && o.rc == 0 ==> exists k :: (0 <= k < MaxAlarms && t.ids[k] == 0
      && (forall j :: 0 <= j < k ==> t.ids[j] != 0)
      && o.after == Slots(t.ids[k := id], t.times[k := epoch]))
    ensures !active ==> (o.rc == 0 <==> id in t.ids)
    ensures !active && o.rc == 0 ==> exists k :: (0 <= k < MaxAlarms && t.ids[k] == id
      && (forall j :: 0 <= j < k ==> t.ids[j] != id)
      && o.after == Slots(t.ids[k := 0], t.times[k := 0]))
  {
    if active then
      match Seqs.First(t.ids, IsFree)
      case None => SetOutcome(-1, false, t)
      case Some(k) => SetOutcome(0, true, Slots(t.ids[k := id], t.times[k := epoch]))
    else
      match Seqs.First(t.ids, Holds(id))
      case None => SetOutcome(-1, false, t)
      case Some(k) => SetOutcome(0, true, Slots(t.ids[k := 0], t.times[k := 0]))
  }

  /** Activation does not look for the id already being present: with a
      free slot left, activating a present id stores it a second time. */
  lemma ActivateDuplicates(t: Slots, id: bv16, epoch: uint32)
    requires Sized(t) && id != 0 && id in t.ids && 0 in t.ids
    ensures exists i, j :: (0 <= i < j < MaxAlarms
      && SetSpec(t, true, id, epoch).after.ids[i] == id && SetSpec(t, true, id, epoch).after.ids[j] == id)
  {
    var after := SetSpec(t, true, id, epoch).after.ids;
    var k := Seqs.First(t.ids, IsFree).value;
    assert after == t.ids[k := id];
    var m :| 0 <= m < MaxAlarms && t.ids[m] == id;
    assert after[k] == id && after[m] == id && k != m;
    if k < m {
      assert 0 <= k < m < MaxAlarms && after[k] == id && after[m] == id;
    } else {
      assert 0 <= m < k < MaxAlarms && after[m] == id && after[k] == id;
    }
  }

  /** For a non-zero id a notification goes out exactly when the id array
      changed. */
  lemma NotifyIffChanged(t: Slots, active: bool, id: bv16, epoch: uint32)
    requires Sized(t) && id != 0
    ensures SetSpec(t, active, id, epoch).notify <==> SetSpec(t, active, id, epoch).after.ids != t.ids
  {
    var o := SetSpec(t, active, id, epoch);
    if o.rc == 0 {
      var k :| 0 <= k < MaxAlarms && o.after.ids[k] != t.ids[k];
    }
  }

  /** The id 0 is arguably not an alarm, but AlarmSet accepts it: clearing
      it matches a free slot and reports success with a notification. */
  lemma ClearZeroMatchesFreeSlot(t: Slots, epoch: uint32)
    requires Sized(t) && 0 in t.ids
    ensures SetSpec(t, false, 0, epoch).rc == 0 && SetSpec(t, false, 0, epoch).notify
    ensures SetSpec(t, false, 0, epoch).after.ids == t.ids
  {
    var o := SetSpec(t, false, 0, epoch);
    var k :| 0 <= k < MaxAlarms && t.ids[k] == 0 && o.after.ids == t.ids[k := 0];
    assert t.ids[k := 0] == t.ids;
  }

  /** Whether an alarm id carries the error id `e` in its low byte. */
  function HasErrorId(e: bv16): bv16 -> bool {
    x => ErrorIdOf(x) == e
  }

  /** AlarmIsActive: the origin of the first slot whose error-id byte is
      `errorId`, or None. */
  function IsActiveSpec(ids: seq<bv16>, errorId: bv8): (origin: Option<bv16>)
    ensures origin.None? <==> forall i :: 0 <= i < |ids| ==> ErrorIdOf(ids[i]) != errorId as bv16
    ensures origin.Some? ==> exists k :: (0 <= k < |ids| && ErrorIdOf(ids[k]) == errorId as bv16
      && (forall j :: 0 <= j < k ==> ErrorIdOf(ids[j]) != errorId as bv16)
      && origin.value == OriginOf(ids[k]))
  {
    match Seqs.First(ids, HasErrorId(errorId as bv16))
    case None => None
    case Some(k) => Some(OriginOf(ids[k]))
  }

  /** A successful activation makes the error id active. */
  lemma ActiveAfterActivate(t: Slots, errorId: bv8, origin: bv16, epoch: uint32)
    requires Sized(t)
    requires SetSpec(t, true, AlarmId(errorId, origin), epoch).rc == 0
    ensures IsActiveSpec(SetSpec(t, true, AlarmId(errorId, origin), epoch).after.ids, errorId).Some?
  {
    var id := AlarmId(errorId, origin);
    var k := Seqs.First(t.ids, IsFree).value;
    assert SetSpec(t, true, id, epoch).after.ids[k] == id;
  }

  /** As written the scan also matches free slots: error id 0 is reported
      active, with origin 0, whenever a slot is free. */
  lemma IsActiveZeroOnFreeSlot(ids: seq<bv16>)
    requires 0 in ids
    ensures IsActiveSpec(ids, 0).Some?
  {
    var k :| 0 <= k < |ids| && ids[k] == 0;
    assert ErrorIdOf(ids[k]) == 0;
  }

  predicate HasTypeA(ids: seq<bv16>) {
    exists i :: 0 <= i < |ids| && GetType(ids[i]) == 'A'
  }

  /** Only Koster-origin alarms can make the type-A check true. */
  lemma TypeAOnlyFromKoster(ids: seq<bv16>)
    requires forall i :: 0 <= i < |ids| ==> OriginOf(ids[i]) != OriginKoster
    ensures !HasTypeA(ids)
  {
  }

  function SlotList(t: Slots): (s: seq<Alarm>)
    requires Sized(t)
    ensures |s| == MaxAlarms
    ensures forall i :: 0 <= i < MaxAlarms ==> s[i] == Alarm(t.ids[i], t.times[i])
  {
    seq(MaxAlarms, i requires 0 <= i < MaxAlarms => Alarm(t.ids[i], t.times[i]))
  }

  predicate Occupied(a: Alarm) {
    a.id != 0
  }

  /** The walk stops once the callback answers non-zero. */
  function StopsOn(cb: Alarm -> int): Alarm -> bool {
    a => cb(a) != 0
  }

  /** AlarmWalk: the occupied slots in index order, up to and including the
      first one the callback answers non-zero for, and that answer (or 0). */
  function WalkSpec(alarms: seq<Alarm>, cb: Alarm -> int): (r: (int, seq<Alarm>))
    ensures forall a :: a in r.1 ==> Occupied(a) && a in alarms
    ensures |r.1| <= |Seqs.Filter(alarms, Occupied)| && (r.0 != 0 ==> r.1 != [])
    ensures r.1 == Seqs.Filter(alarms, Occupied)[..|r.1|]
    ensures forall j :: 0 <= j < |r.1| - 1 ==> cb(r.1[j]) == 0
    ensures r.0 != 0 <==> exists a :: a in alarms && Occupied(a) && cb(a) != 0
    ensures r.0 != 0 ==> r.0 == cb(r.1[|r.1| - 1])
    ensures r.0 == 0 ==> r.1 == Seqs.Filter(alarms, Occupied)
  {
    var occ := Seqs.Filter(alarms, Occupied);
    var v := Seqs.Visited(occ, StopsOn(cb));
    Seqs.FilterMembers(alarms, Occupied);
    Seqs.VisitedPrefix(occ, StopsOn(cb));
    assert forall j :: 0 <= j < |v| ==> v[j] == occ[j];
    assert forall j :: 0 <= j < |v| - 1 ==> !StopsOn(cb)(v[j]);
    assert Seqs.Halts(occ, StopsOn(cb)) <==> exists a :: a in occ && cb(a) != 0 by {
      if exists a :: a in occ && cb(a) != 0 {
        var a :| a in occ && cb(a) != 0;
        var j :| 0 <= j < |occ| && occ[j] == a;
        assert StopsOn(cb)(occ[j]);
      }
    }
    (if v == [] then 0 else cb(v[|v| - 1]), v)
  }

  class AlarmTable {
    const ids: array<bv16>
    const times: array<uint32>

    ghost predicate Valid() {
      ids.Length == MaxAlarms && times.Length == MaxAlarms && ids as object != times as object
    }

    function Contents(): (t: Slots)
      reads ids, times
      requires Valid()
      ensures Sized(t)
    {
      Slots(ids[..], times[..])
    }

    constructor ()
      ensures Valid() && Contents() == Slots(seq(MaxAlarms, _ => 0), seq(MaxAlarms, _ => 0))
    {
      ids := new bv16[MaxAlarms](_ => 0);
      times := new uint32[MaxAlarms](_ => 0);
    }

    /** AlarmInit: every slot free, every time zero. */
    method Init()
      requires Valid()
      modifies ids, times
      ensures Contents() == Slots(seq(MaxAlarms, _ => 0), seq(MaxAlarms, _ => 0))
    {
      for i := 0 to MaxAlarms
        invariant forall j :: 0 <= j < i ==> ids[j] == 0 && times[j] == 0
      {
        ids[i] := 0;
        times[i] := 0;
      }
    }

    /** AlarmSet with the clock reading `epoch`; `notify` says whether the
        alarm message is published. */
    method Set(active: bool, errorId: bv8, origin: bv16, epoch: uint32) returns (rc: int, notify: bool)
      requires Valid()
      modifies ids, times
      ensures SetOutcome(rc, notify, Contents()) == SetSpec(old(Contents()), active, AlarmId(errorId, origin), epoch)
    {
      var id := AlarmId(errorId, origin);
      rc := -1;
      var firstFree: int := 0xFFFF_FFFF;
      notify := false;
      var i := 0;
      while i < MaxAlarms
        invariant 0 <= i <= MaxAlarms
        invariant ids[..] == old(ids[..]) && times[..] == old(times[..])
        invariant rc == -1 && !notify
        invariant firstFree == 0xFFFF_FFFF <==> forall j :: 0 <= j < i ==> ids[j] != 0
        invariant firstFree != 0xFFFF_FFFF ==>
          0 <= firstFree < i && ids[firstFree] == 0 && forall j :: 0 <= j < firstFree ==> ids[j] != 0
        invariant !active ==> forall j :: 0 <= j < i ==> ids[j] != id
      {
        var idI := ids[i];
        if idI == 0 && firstFree == 0xFFFF_FFFF {
          firstFree := i;
        }
        if idI == id {
          if !active {
            ids[i] := 0;
            times[i] := 0;
            notify := true;
            rc := 0;
            Seqs.FirstIs(old(ids[..]), Holds(id), i);
            break;
          }
        }
        i := i + 1;
      }
      if firstFree < MaxAlarms && active {
        Seqs.FirstIs(old(ids[..]), IsFree, firstFree);
        ids[firstFree] := id;
        times[firstFree] := epoch;
        notify := true;
        rc := 0;
      }
    }

    /** AlarmActiveTypeAAlarms. */
    method ActiveTypeA() returns (r: bool)
      requires Valid()
      ensures r == HasTypeA(ids[..])
    {
      r := false;
      for i := 0 to MaxAlarms
        invariant forall j :: 0 <= j < i ==> GetType(ids[j]) != 'A'
      {
        if GetType(ids[i]) == 'A' {
          r := true;
          assert GetType(ids[..][i]) == 'A';
          return;
        }
      }
    }

    /** AlarmWalk with a callback `cb`; `visited` lists the slots handed to it. */
    method Walk(cb: Alarm -> int) returns (rc: int, visited: seq<Alarm>)
      requires Valid()
      ensures (rc, visited) == WalkSpec(SlotList(Contents()), cb)
    {
      ghost var all := SlotList(Contents());
      rc := 0;
      visited := [];
      var i := 0;
      while i < MaxAlarms && rc == 0
        invariant 0 <= i <= MaxAlarms
        invariant visited == Seqs.Filter(all[..i], Occupied)
        invariant Seqs.Visited(visited, StopsOn(cb)) == visited
        invariant rc != 0 <==> Seqs.Halts(visited, StopsOn(cb))
        invariant rc != 0 ==> visited != [] && rc == cb(visited[|visited| - 1])
      {
        var alarm := Alarm(ids[i], times[i]);
        assert alarm == all[i];
        assert all[..i + 1] == all[..i] + [alarm];
        Seqs.VisitedFilterSnoc(all[..i], alarm, Occupied, StopsOn(cb));
        if alarm.id != 0 {
          rc := cb(alarm);
          visited := visited + [alarm];
        }
        i := i + 1;
      }
      if rc != 0 {
        Seqs.VisitedFilterPrefix(all, i, Occupied, StopsOn(cb));
      } else {
        assert all[..i] == all;
        if visited != [] {
          assert !StopsOn(cb)(visited[|visited| - 1]);
        }
      }
      assert visited == Seqs.Visited(Seqs.Filter(all, Occupied), StopsOn(cb));
    }

    /** AlarmIsActive; the origin is what the call writes through a
        non-NULL origin pointer. */
    method IsActive(errorId: bv8) returns (active: bool, origin: Option<bv16>)
      requires Valid()
      ensures active <==> origin.Some?
      ensures origin == IsActiveSpec(ids[..], errorId)
    {
      active, origin := false, None;
      for i := 0 to MaxAlarms
        invariant forall j :: 0 <= j < i ==> ErrorIdOf(ids[j]) != errorId as bv16
      {
        if ErrorIdOf(ids[i]) == errorId as bv16 {
          active := true;
          origin := Some(OriginOf(ids[i]));
          Seqs.FirstIs(ids[..], HasErrorId(errorId as bv16), i);
          return;
        }
      }
    }
  }
}
