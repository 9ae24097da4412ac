/** Snapshots and backups of volumes, and the filtered, date-ordered
    snapshot list the snapshot tab shows. */
module VolumeSnapshots {
  import opened Common
  import opened Text
  import opened Volumes
  import Seqs

  datatype Snapshot = Snapshot(
    id: string,
    name: string,
    description: Option<string>,
    volumeId: string,
    createdAt: string,
    metadata: map<string, string>)

  /** The index of the first volume with the given id (`Array.prototype.find`). */
  function FindVolume(vols: seq<Volume>, id: string): (r: Option<nat>)
    ensures r.None? <==> forall i :: 0 <= i < |vols| ==> vols[i].id != id
    ensures r.Some? ==> r.value < |vols| && vols[r.value].id == id
    ensures r.Some? ==> forall j :: 0 <= j < r.value ==> vols[j].id != id
    decreases |vols|
  {
    if |vols| == 0 then None
    else if vols[0].id == id then Some(0)
    else match FindVolume(vols[1..], id)
      case None => None
      case Some(k) => Some(k + 1)
  }

  /** The zone recorded on a new snapshot: the zone of the first volume with
      that id, or "-" when there is none or its zone is empty. */
  function SourceZone(vols: seq<Volume>, volumeId: string): (z: string)
    ensures z != ""
    ensures (forall i :: 0 <= i < |vols| ==> vols[i].id != volumeId) ==> z == "-"
    ensures forall i :: 0 <= i < |vols| && vols[i].id == volumeId && vols[i].zone != "" ==>
      (forall j :: 0 <= j < i ==> vols[j].id != volumeId) ==> z == vols[i].zone
    ensures forall i :: 0 <= i < |vols| && vols[i].id == volumeId && vols[i].zone == "" ==>
      (forall j :: 0 <= j < i ==> vols[j].id != volumeId) ==> z == "-"
  {
    match FindVolume(vols, volumeId)
    case None => "-"
    case Some(i) => if vols[i].zone == "" then "-" else vols[i].zone
  }

  /** Snapshot creation: needs a volume id and a non-blank name, else nothing
      changes; the new snapshot goes in front of the list. */
  function MakeSnapshot(snaps: seq<Snapshot>, vols: seq<Volume>, volumeId: string, name: string,
                        description: string, id: string, now: string): (r: seq<Snapshot>)
    ensures volumeId == "" || IsBlank(name) ==> r == snaps
    ensures volumeId != "" && !IsBlank(name) ==>
      && |r| == |snaps| + 1
      && r[1..] == snaps
      && r[0].id == id
      && r[0].name == Trim(name)
      && r[0].volumeId == volumeId
      && r[0].createdAt == now
      && r[0].description == (if description == "" then None else Some(description))
      && r[0].metadata.Keys == {"createdBy", "sourceZone"}
      && r[0].metadata["createdBy"] == "user"
      && r[0].metadata["sourceZone"] == SourceZone(vols, volumeId)
  {
    if volumeId == "" || Trim(name) == "" then snaps
    else
      var s := Snapshot(id, Trim(name), if description == "" then None else Some(description),
                        volumeId, now, map["createdBy" := "user", "sourceZone" := SourceZone(vols, volumeId)]);
      [s] + snaps
  }

  datatype SortOrder = Newest | Oldest

  /** `a` may come before `b` in the list shown for the given order. */
  predicate InOrder(order: SortOrder, a: Snapshot, b: Snapshot) {
    match order
    case Newest => !Less(a.createdAt, b.createdAt)
    case Oldest => !Less(b.createdAt, a.createdAt)
  }

  predicate Sorted(xs: seq<Snapshot>, order: SortOrder) {
    forall i, j :: 0 <= i < j < |xs| ==> InOrder(order, xs[i], xs[j])
  }

  lemma InOrderTransitive(order: SortOrder, a: Snapshot, b: Snapshot, c: Snapshot)
    requires InOrder(order, a, b) && InOrder(order, b, c)
    ensures InOrder(order, a, c)
  {
    if order == Newest {
      NotLessTransitive(a.createdAt, b.createdAt, c.createdAt);
    } else {
      NotLessTransitive(c.createdAt, b.createdAt, a.createdAt);
    }
  }

  lemma InOrderTotal(order: SortOrder, a: Snapshot, b: Snapshot)
    ensures InOrder(order, a, b) || InOrder(order, b, a)
  {
    NotLessTotal(a.createdAt, b.createdAt);
  }

  /** A sorted list stays sorted under a new head that may precede all of it. */
  lemma SortedCons(x: Snapshot, xs: seq<Snapshot>, order: SortOrder)
    requires Sorted(xs, order)
    requires forall j :: 0 <= j < |xs| ==> InOrder(order, x, xs[j])
    ensures Sorted([x] + xs, order)
  {
    var ys := [x] + xs;
    forall i, j | 0 <= i < j < |ys|
      ensures InOrder(order, ys[i], ys[j])
    {
      assert ys[j] == xs[j - 1];
      if i > 0 {
        assert ys[i] == xs[i - 1];
      }
    }
  }

  /** The case of `Insert` where `x` goes in front. */
  lemma InsertInFront(x: Snapshot, xs: seq<Snapshot>, order: SortOrder)
    requires Sorted(xs, order) && |xs| > 0 && InOrder(order, x, xs[0])
    ensures Sorted([x] + xs, order)
  {
    forall j | 0 <= j < |xs|
      ensures InOrder(order, x, xs[j])
    {
      if j > 0 {
        InOrderTransitive(order, x, xs[0], xs[j]);
      }
    }
    SortedCons(x, xs, order);
  }

  /** The case of `Insert` where the head stays in front of the list that
      `x` was inserted into. */
  lemma InsertBehindHead(x: Snapshot, xs: seq<Snapshot>, rest: seq<Snapshot>, order: SortOrder)
    requires Sorted(xs, order) && |xs| > 0 && InOrder(order, xs[0], x)
    requires Sorted(rest, order) && multiset(rest) == multiset(xs[1..]) + multiset{x}
    ensures Sorted([xs[0]] + rest, order)
    ensures multiset([xs[0]] + rest) == multiset(xs) + multiset{x}
  {
    assert xs == [xs[0]] + xs[1..];
    forall j | 0 <= j < |rest|
      ensures InOrder(order, xs[0], rest[j])
    {
      assert rest[j] in multiset(rest);
      if rest[j] != x {
        assert rest[j] in multiset(xs[1..]);
        var m :| 0 <= m < |xs[1..]| && xs[1..][m] == rest[j];
        assert xs[m + 1] == rest[j];
      }
    }
    SortedCons(xs[0], rest, order);
  }

  /** Inserts `x` into a sorted list, keeping it sorted. */
  function Insert(x: Snapshot, xs: seq<Snapshot>, order: SortOrder): (r: seq<Snapshot>)
    requires Sorted(xs, order)
    ensures Sorted(r, order)
    ensures multiset(r) == multiset(xs) + multiset{x}
    decreases |xs|
  {
    if |xs| == 0 then [x]
    else if InOrder(order, x, xs[0]) then
      InsertInFront(x, xs, order);
      [x] + xs
    else
      InOrderTotal(order, x, xs[0]);
      var rest := Insert(x, xs[1..], order);
      InsertBehindHead(x, xs, rest, order);
      [xs[0]] + rest
  }

  /** Orders a list of snapshots by creation time. */
  function Sort(xs: seq<Snapshot>, order: SortOrder): (r: seq<Snapshot>)
    ensures Sorted(r, order)
    ensures multiset(r) == multiset(xs)
    decreases |xs|
  {
    if |xs| == 0 then []
    else
      assert xs == [xs[0]] + xs[1..];
      Insert(xs[0], Sort(xs[1..], order), order)
  }

  /** The volume filter of the snapshot table; an empty filter shows all. */
  predicate OfVolume(s: Snapshot, volumeFilter: string) {
    volumeFilter == "" || s.volumeId == volumeFilter
  }

  /** The snapshots the volume filter keeps, in list order. */
  function ForVolume(snaps: seq<Snapshot>, volumeFilter: string): seq<Snapshot> {
    Seqs.Filter(snaps, (s: Snapshot) => OfVolume(s, volumeFilter))
  }

  /** The snapshot tab's list: the snapshots of the selected volume (all of
      them when no volume is selected), newest or oldest first. */
  function SnapshotView(snaps: seq<Snapshot>, volumeFilter: string, order: SortOrder): (r: seq<Snapshot>)
    ensures Sorted(r, order)
    ensures forall s :: multiset(r)[s] == if OfVolume(s, volumeFilter) then multiset(snaps)[s] else 0
    ensures forall i :: 0 <= i < |r| ==> r[i] in snaps && OfVolume(r[i], volumeFilter)
    ensures forall i :: 0 <= i < |snaps| && OfVolume(snaps[i], volumeFilter) ==> snaps[i] in r
  {
    var kept := ForVolume(snaps, volumeFilter);
    var r := Sort(kept, order);
    Seqs.PermutedFilter(snaps, (s: Snapshot) => OfVolume(s, volumeFilter), kept, r);
    r
  }

  /** A snapshot just taken is listed both under its volume's filter and with
      no filter, whichever order is chosen. */
  lemma NewSnapshotShown(snaps: seq<Snapshot>, vols: seq<Volume>, volumeId: string, name: string,
                         description: string, id: string, now: string, order: SortOrder)
    requires volumeId != "" && !IsBlank(name)
    ensures var after := MakeSnapshot(snaps, vols, volumeId, name, description, id, now);
      && after[0].id == id
      && after[0] in SnapshotView(after, volumeId, order)
      && after[0] in SnapshotView(after, "", order)
  {
    var after := MakeSnapshot(snaps, vols, volumeId, name, description, id, now);
    assert OfVolume(after[0], volumeId) && OfVolume(after[0], "");
  }

  // ---------------------------------------------------------------------------
  // Backups
  // ---------------------------------------------------------------------------

  datatype Schedule = OneTime | Recurring

  datatype Recurrence = Daily | Weekly

  datatype BackupStatus = Succeeded | Running | Failed | Scheduled

  datatype Backup = Backup(
    id: string,
    volumeId: string,
    createdAt: string,
    schedule: Schedule,
    recurrence: Option<Recurrence>,
    retention: int,
    status: BackupStatus)

  /** Backup scheduling: needs a volume, else nothing changes; the new backup
      goes in front of the list, scheduled, with a cadence exactly when it
      recurs. */
  function CreateBackup(backups: seq<Backup>, volumeId: string, schedule: Schedule, recurrence: Recurrence,
                        retention: int, id: string, now: string): (r: seq<Backup>)
    ensures volumeId == "" ==> r == backups
    ensures volumeId != "" ==>
      && |r| == |backups| + 1
      && r[1..] == backups
      && r[0].id == id
      && r[0].volumeId == volumeId
      && r[0].createdAt == now
      && r[0].schedule == schedule
      && (r[0].recurrence.Some? <==> schedule == Recurring)
      && (schedule == Recurring ==> r[0].recurrence == Some(recurrence))
      && r[0].retention == retention
      && r[0].status == Scheduled
  {
    if volumeId == "" then backups
    else [Backup(id, volumeId, now, schedule, if schedule == Recurring then Some(recurrence) else None,
                 retention, Scheduled)] + backups
  }
}
