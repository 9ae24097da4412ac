/** The block-storage volume registry and its simulated lifecycle: the
    create-volume form and its validator, and the create, attach, detach and
    extend operations. Each operation is two steps: a "begin" step that
    validates and writes an interim status, and a "complete" step (the
    source's timer callback) that writes the final state of one volume by id.
    Here the begin step returns the completion it schedules, and `Complete`
    applies it. */
module Volumes {
  import opened Common
  import opened Text
  import opened Compute
  import Seqs

  datatype VolumeStatus = Available | InUse | Creating | Extending | Error

  datatype VolumeType = Standard | Performance | Cold

  datatype Volume = Volume(
    id: string,
    name: string,
    sizeGb: int,
    volumeType: VolumeType,
    zone: string,
    description: Option<string>,
    metadata: map<string, string>,
    encrypted: bool,
    encryptionAlgo: Option<string>,
    status: VolumeStatus,
    attachedTo: Option<string>,
    createdAt: string)

  /** The invariant every operation keeps: an in-use volume names the
      (non-empty) id of the instance it is attached to. */
  predicate InUseIsAttached(v: Volume) {
    v.status == InUse ==> v.attachedTo.Some? && v.attachedTo.value != ""
  }

  predicate AllInUseAttached(vols: seq<Volume>) {
    forall i :: 0 <= i < |vols| ==> InUseIsAttached(vols[i])
  }

  /** The converse, which the operations do NOT keep (see
      `ExtendLeavesAttachedVolumeAvailable`). */
  predicate AllAttachedInUse(vols: seq<Volume>) {
    forall i :: 0 <= i < |vols| ==> vols[i].attachedTo.Some? ==> vols[i].status == InUse
  }

  /** The volumes the page starts with; `dbInstance` is the id of the second
      mock compute instance, to which the database volume is attached. */
  function SeedVolumes(dbId: string, logsId: string, dbInstance: string, now: string): (r: seq<Volume>)
    requires dbInstance != ""
    ensures |r| == 2 && r[0].status == InUse && r[1].status == Available
    ensures AllInUseAttached(r) && AllAttachedInUse(r)
  {
    [ Volume(dbId, "db-data", 100, Performance, "us-east-1a", Some("Primary database volume"),
             map["role" := "db", "env" := "prod"], true, Some("AES-256"), InUse, Some(dbInstance), now),
      Volume(logsId, "logs-archive", 500, Cold, "us-east-1b", None,
             map[], false, None, Available, None, now) ]
  }

  // ---------------------------------------------------------------------------
  // Create-volume form
  // ---------------------------------------------------------------------------

  /** The validator's error record: a message for each field whose check
      fails, `None` for the others. */
  datatype FormErrors = FormErrors(
    name: Option<string>,
    size: Option<string>,
    volumeType: Option<string>,
    zone: Option<string>,
    algorithm: Option<string>)
  {
    /** The record has no keys, i.e. `Object.keys(errors).length` is 0. */
    predicate IsEmpty() {
      name.None? && size.None? && volumeType.None? && zone.None? && algorithm.None?
    }
  }

  /** The create-volume dialog's fields; `volumeType` is `None` when no type
      is selected. */
  datatype VolumeForm = VolumeForm(
    name: string,
    sizeGb: int,
    volumeType: Option<VolumeType>,
    zone: string,
    description: string,
    metadata: map<string, string>,
    encrypted: bool,
    algorithm: string)

  /** The dialog's state when the page opens and after a create completes. */
  const InitialForm := VolumeForm("", 20, Some(Standard), "us-east-1a", "", map[], false, "AES-256")

  const NameRequired := "Nama volume wajib diisi"
  const SizeTooSmall := "Ukuran minimal 1GB"
  const TypeRequired := "Tipe volume wajib dipilih"
  const ZoneRequired := "Zona ketersediaan wajib dipilih"
  const AlgorithmRequired := "Algoritma enkripsi wajib saat enkripsi aktif"

  /** Every check of the validator passes. */
  predicate ValidForm(f: VolumeForm) {
    && !IsBlank(f.name)
    && f.sizeGb >= 1
    && f.volumeType.Some?
    && f.zone != ""
    && (!f.encrypted || f.algorithm != "")
  }

  /** The validator: an error for each field whose check fails. */
  function Validate(f: VolumeForm): (e: FormErrors)
    ensures e.name.Some? <==> IsBlank(f.name)
    ensures e.size.Some? <==> f.sizeGb < 1
    ensures e.volumeType.Some? <==> f.volumeType.None?
    ensures e.zone.Some? <==> f.zone == ""
    ensures e.algorithm.Some? <==> f.encrypted && f.algorithm == ""
    ensures e.IsEmpty() <==> ValidForm(f)
  {
    FormErrors(
      if Trim(f.name) == "" then Some(NameRequired) else None,
      if f.sizeGb < 1 then Some(SizeTooSmall) else None,
      if f.volumeType.None? then Some(TypeRequired) else None,
      if f.zone == "" then Some(ZoneRequired) else None,
      if f.encrypted && f.algorithm == "" then Some(AlgorithmRequired) else None)
  }

  /** The initial form fails validation on its name only, so submitting it
      creates nothing. */
  lemma InitialFormNeedsName()
    ensures var e := Validate(InitialForm);
      e.name == Some(NameRequired) && e.size.None? && e.volumeType.None? && e.zone.None? && e.algorithm.None?
  {
    assert IsBlank(InitialForm.name);
  }

  /** The key/value pair being typed into the metadata row of the dialog. */
  datatype MetadataDraft = MetadataDraft(key: string, value: string)

  const EmptyDraft := MetadataDraft("", "")

  /** Adds the draft pair to the form's metadata and clears the draft; a
      blank key changes neither. The key is stored as typed, untrimmed. */
  function AddMetadata(meta: map<string, string>, draft: MetadataDraft): (r: (map<string, string>, MetadataDraft))
    ensures IsBlank(draft.key) ==> r == (meta, draft)
    ensures !IsBlank(draft.key) ==>
      && r.0.Keys == meta.Keys + {draft.key}
      && r.0[draft.key] == draft.value
      && (forall k :: k in meta && k != draft.key ==> r.0[k] == meta[k])
      && r.1 == EmptyDraft
  {
    if Trim(draft.key) == "" then (meta, draft)
    else (meta[draft.key := draft.value], EmptyDraft)
  }

  // ---------------------------------------------------------------------------
  // Two-step operations
  // ---------------------------------------------------------------------------

  /** The timer callback an operation schedules, with the values it captured. */
  datatype Completion =
    | CreateDone(volumeId: string)
    | AttachDone(volumeId: string, target: string)
    | DetachDone(volumeId: string)
    | ExtendDone(volumeId: string, newSize: int)

  /** What a begin step establishes about the completion it schedules: an
      attach always has a target. */
  predicate Schedulable(c: Completion) {
    c.AttachDone? ==> c.target != ""
  }

  /** The volume list right after a begin step, and the completion scheduled
      (`None` when the step was rejected). */
  datatype Step = Step(volumes: seq<Volume>, scheduled: Option<Completion>)

  /** Gives every volume with the given id the given status, nothing else. */
  function SetStatus(vols: seq<Volume>, id: string, s: VolumeStatus): (r: seq<Volume>)
    ensures |r| == |vols|
    ensures forall i :: 0 <= i < |vols| && vols[i].id != id ==> r[i] == vols[i]
    ensures forall i :: 0 <= i < |vols| && vols[i].id == id ==> r[i] == vols[i].(status := s)
  {
    Seqs.MapWhere(vols, (v: Volume) => v.id == id, (v: Volume) => v.(status := s))
  }

  function NewVolume(f: VolumeForm, id: string, now: string): Volume
    requires f.volumeType.Some?
  {
    Volume(id, Trim(f.name), f.sizeGb, f.volumeType.value, f.zone,
           if f.description == "" then None else Some(f.description),
           f.metadata, f.encrypted, if f.encrypted then Some(f.algorithm) else None,
           Creating, None, now)
  }

  /** Create: a form with errors changes nothing; otherwise the new volume,
      in status creating and unattached, is put in front of the list. */
  function BeginCreate(vols: seq<Volume>, f: VolumeForm, id: string, now: string): (r: Step)
    ensures !Validate(f).IsEmpty() ==> r == Step(vols, None)
    ensures Validate(f).IsEmpty() ==>
      && r.scheduled == Some(CreateDone(id))
      && |r.volumes| == |vols| + 1
      && r.volumes[1..] == vols
      && var v := r.volumes[0];
      && v.id == id
      && v.name == Trim(f.name)
      && v.sizeGb == f.sizeGb
      && Some(v.volumeType) == f.volumeType
      && v.zone == f.zone
      && v.description == (if f.description == "" then None else Some(f.description))
      && v.metadata == f.metadata
      && v.encrypted == f.encrypted
      && (v.encryptionAlgo.Some? <==> f.encrypted)
      && (f.encrypted ==> v.encryptionAlgo == Some(f.algorithm))
      && v.status == Creating
      && v.attachedTo == None
      && v.createdAt == now
    ensures AllInUseAttached(vols) ==> AllInUseAttached(r.volumes)
    ensures r.scheduled.Some? ==> Schedulable(r.scheduled.value)
  {
    if !ValidForm(f) then Step(vols, None)
    else Step([NewVolume(f, id, now)] + vols, Some(CreateDone(id)))
  }

  /** The volumes a volume can be attached to: the running instances, in
      their original order. */
  function AttachTargets(instances: seq<ComputeInstance>): (r: seq<ComputeInstance>)
    ensures forall i :: 0 <= i < |r| ==> r[i].status == Running && r[i] in instances
    ensures forall i :: 0 <= i < |instances| && instances[i].status == Running ==> instances[i] in r
    ensures Seqs.IsSubsequence(r, instances)
    ensures forall x :: multiset(r)[x] == if x.status == Running then multiset(instances)[x] else 0
  {
    Seqs.Filter(instances, (x: ComputeInstance) => x.status == Running)
  }

  /** Attach: needs a selected volume and a target instance, else nothing
      changes; the volume goes to the interim status creating. */
  function BeginAttach(vols: seq<Volume>, selected: Option<Volume>, target: string): (r: Step)
    ensures selected.None? || target == "" ==> r == Step(vols, None)
    ensures selected.Some? && target != "" ==>
      && r.scheduled == Some(AttachDone(selected.value.id, target))
      && r.volumes == SetStatus(vols, selected.value.id, Creating)
    ensures AllInUseAttached(vols) ==> AllInUseAttached(r.volumes)
    ensures r.scheduled.Some? ==> Schedulable(r.scheduled.value)
  {
    if selected.None? || target == "" then Step(vols, None)
    else Step(SetStatus(vols, selected.value.id, Creating), Some(AttachDone(selected.value.id, target)))
  }

  /** Detach: needs a volume to detach, else nothing changes; the volume goes
      to the interim status creating. */
  function BeginDetach(vols: seq<Volume>, target: Option<Volume>): (r: Step)
    ensures target.None? ==> r == Step(vols, None)
    ensures target.Some? ==>
      && r.scheduled == Some(DetachDone(target.value.id))
      && r.volumes == SetStatus(vols, target.value.id, Creating)
    ensures AllInUseAttached(vols) ==> AllInUseAttached(r.volumes)
    ensures r.scheduled.Some? ==> Schedulable(r.scheduled.value)
  {
    if target.None? then Step(vols, None)
    else Step(SetStatus(vols, target.value.id, Creating), Some(DetachDone(target.value.id)))
  }

  /** The largest size a volume can be extended to, in GB. */
  const CapacityMax := 2048

  /** The extend dialog's validity test, against the size the volume had when
      the dialog was opened. */
  predicate ExtendValid(dialogVol: Option<Volume>, newSize: int) {
    dialogVol.Some? && newSize > dialogVol.value.sizeGb && newSize <= CapacityMax
  }

  /** Extend: accepted exactly when current size < new size <= 2048; a
      rejection changes nothing; an accepted request marks the volume
      extending. */
  function BeginExtend(vols: seq<Volume>, dialogVol: Option<Volume>, newSize: int): (r: Step)
    ensures r.scheduled.Some? <==> dialogVol.Some? && dialogVol.value.sizeGb < newSize <= 2048
    ensures r.scheduled.None? ==> r.volumes == vols
    ensures r.scheduled.Some? ==>
      && r.scheduled.value == ExtendDone(dialogVol.value.id, newSize)
      && r.volumes == SetStatus(vols, dialogVol.value.id, Extending)
    ensures AllInUseAttached(vols) ==> AllInUseAttached(r.volumes)
    ensures r.scheduled.Some? ==> Schedulable(r.scheduled.value)
  {
    if !ExtendValid(dialogVol, newSize) then Step(vols, None)
    else Step(SetStatus(vols, dialogVol.value.id, Extending), Some(ExtendDone(dialogVol.value.id, newSize)))
  }

  /** The final write a completion makes to one matching volume. */
  function Finish(v: Volume, c: Completion): Volume {
    match c
    case CreateDone(_) => v.(status := Available)
    case AttachDone(_, target) => v.(status := InUse, attachedTo := Some(target))
    case DetachDone(_) => v.(status := Available, attachedTo := None)
    case ExtendDone(_, size) => v.(status := Available, sizeGb := size)
  }

  /** The timer callback: every volume with the completion's id gets its
      final state; every other volume is left exactly as it is. */
  function Complete(vols: seq<Volume>, c: Completion): (r: seq<Volume>)
    ensures |r| == |vols|
    ensures forall i :: 0 <= i < |vols| && vols[i].id != c.volumeId ==> r[i] == vols[i]
    ensures forall i :: 0 <= i < |vols| && vols[i].id == c.volumeId ==> r[i] == Finish(vols[i], c)
    ensures forall i :: 0 <= i < |vols| && vols[i].id == c.volumeId ==>
      && r[i].id == vols[i].id && r[i].name == vols[i].name
      && r[i].volumeType == vols[i].volumeType && r[i].zone == vols[i].zone
      && r[i].description == vols[i].description && r[i].metadata == vols[i].metadata
      && r[i].encrypted == vols[i].encrypted && r[i].encryptionAlgo == vols[i].encryptionAlgo
      && r[i].createdAt == vols[i].createdAt
      && r[i].status == (if c.AttachDone? then InUse else Available)
      && r[i].sizeGb == (if c.ExtendDone? then c.newSize else vols[i].sizeGb)
      && r[i].attachedTo == (match c
                             case AttachDone(_, t) => Some(t)
                             case DetachDone(_) => None
                             case _ => vols[i].attachedTo)
  {
    Seqs.MapWhere(vols, (v: Volume) => v.id == c.volumeId, (v: Volume) => Finish(v, c))
  }

  /** Every completion a begin step can schedule keeps the invariant. */
  lemma CompletePreservesInvariant(vols: seq<Volume>, c: Completion)
    requires AllInUseAttached(vols) && Schedulable(c)
    ensures AllInUseAttached(Complete(vols, c))
  {
    var r := Complete(vols, c);
    forall i | 0 <= i < |r|
      ensures InUseIsAttached(r[i])
    {
      assert InUseIsAttached(vols[i]);
    }
  }

  /** A completion for the volume at the head of the list, whose id no
      other volume has, rewrites the head only. */
  lemma CompleteFreshHead(v: Volume, vols: seq<Volume>, c: Completion)
    requires v.id == c.volumeId
    requires forall i :: 0 <= i < |vols| ==> vols[i].id != c.volumeId
    ensures Complete([v] + vols, c) == [Finish(v, c)] + vols
  {
    var r := Complete([v] + vols, c);
    forall j | 0 <= j < |r|
      ensures r[j] == ([Finish(v, c)] + vols)[j]
    {
      if j > 0 {
        assert ([v] + vols)[j] == vols[j - 1];
      }
    }
  }

  /** Create then complete with a fresh id: the new volume is available,
      unattached, and the rest of the list is untouched. */
  lemma CreateThenComplete(vols: seq<Volume>, f: VolumeForm, id: string, now: string)
    requires ValidForm(f)
    requires forall i :: 0 <= i < |vols| ==> vols[i].id != id
    ensures BeginCreate(vols, f, id, now).scheduled == Some(CreateDone(id))
    ensures Complete(BeginCreate(vols, f, id, now).volumes, CreateDone(id))
            == [NewVolume(f, id, now).(status := Available)] + vols
  {
    var v := NewVolume(f, id, now);
    assert BeginCreate(vols, f, id, now) == Step([v] + vols, Some(CreateDone(id)));
    CompleteFreshHead(v, vols, CreateDone(id));
  }

  /** Attach then complete: the volume is in use and attached to the target;
      every volume with another id is unchanged. */
  lemma AttachThenComplete(vols: seq<Volume>, selected: Volume, target: string, i: int)
    requires target != "" && 0 <= i < |vols| && vols[i].id == selected.id
    ensures var s := BeginAttach(vols, Some(selected), target);
      && s.scheduled.Some?
      && var r := Complete(s.volumes, s.scheduled.value);
      && r[i] == vols[i].(status := InUse, attachedTo := Some(target))
      && (forall j :: 0 <= j < |vols| && vols[j].id != selected.id ==> r[j] == vols[j])
  {
  }

  /** Detach then complete: the volume is available and unattached. */
  lemma DetachThenComplete(vols: seq<Volume>, target: Volume, i: int)
    requires 0 <= i < |vols| && vols[i].id == target.id
    ensures var s := BeginDetach(vols, Some(target));
      && s.scheduled.Some?
      && var r := Complete(s.volumes, s.scheduled.value);
      && r[i] == vols[i].(status := Available, attachedTo := None)
  {
  }

  /** Extending an attached volume leaves it available but still attached:
      "attached implies in use" does not survive the operations, which is why
      only the one-way invariant is claimed. */
  lemma ExtendLeavesAttachedVolumeAvailable(vols: seq<Volume>, i: int, newSize: int)
    requires 0 <= i < |vols| && vols[i].attachedTo.Some?
    requires vols[i].sizeGb < newSize <= CapacityMax
    ensures var s := BeginExtend(vols, Some(vols[i]), newSize);
      && s.scheduled.Some?
      && var r := Complete(s.volumes, s.scheduled.value);
      && r[i].status == Available && r[i].attachedTo == vols[i].attachedTo
      && r[i].sizeGb == newSize
      && !AllAttachedInUse(r)
  {
    var s := BeginExtend(vols, Some(vols[i]), newSize);
    var r := Complete(s.volumes, s.scheduled.value);
    assert r[i].attachedTo.Some? && r[i].status != InUse;
  }
}
