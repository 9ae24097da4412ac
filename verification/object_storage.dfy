/** Object-storage bookkeeping: containers, the objects of the selected
    container, simulated uploads and pre-signed URLs. */
module ObjectStorage {
  import opened Common
  import opened Text
  import Seqs

  datatype Container = Container(
    id: string,
    name: string,
    objectCount: int,
    sizeBytes: int,
    metadata: map<string, string>,
    isPublic: bool,
    createdAt: string)

  datatype StorageObject = StorageObject(
    id: string,
    name: string,
    sizeBytes: int,
    contentType: string,
    lastModified: string,
    etag: string,
    metadata: map<string, string>)

  // ---------------------------------------------------------------------------
  // Containers and objects
  // ---------------------------------------------------------------------------

  /** Container creation: a blank name changes nothing; otherwise one empty
      container with the trimmed name is appended. */
  function CreateContainer(cs: seq<Container>, name: string, isPublic: bool, id: string, now: string): (r: seq<Container>)
    ensures IsBlank(name) ==> r == cs
    ensures !IsBlank(name) ==>
      && |r| == |cs| + 1
      && r[..|cs|] == cs
      && var c := r[|cs|];
      && c.id == id
      && c.name == Trim(name)
      && c.objectCount == 0
      && c.sizeBytes == 0
      && c.metadata == map[]
      && c.isPublic == isPublic
      && c.createdAt == now
  {
    if Trim(name) == "" then cs
    else cs + [Container(id, Trim(name), 0, 0, map[], isPublic, now)]
  }

  /** Container deletion: with no container chosen nothing changes; otherwise
      exactly the containers with the chosen id go, the rest keep their order. */
  function DeleteContainer(cs: seq<Container>, target: Option<Container>): (r: seq<Container>)
    ensures target.None? ==> r == cs
    ensures target.Some? ==>
      && (forall i :: 0 <= i < |r| ==> r[i].id != target.value.id && r[i] in cs)
      && (forall i :: 0 <= i < |cs| && cs[i].id != target.value.id ==> cs[i] in r)
      && Seqs.IsSubsequence(r, cs)
      && ((forall i :: 0 <= i < |cs| ==> cs[i].id != target.value.id) ==> r == cs)
      && (forall c :: multiset(r)[c] == if c.id != target.value.id then multiset(cs)[c] else 0)
  {
    if target.None? then cs
    else Seqs.Filter(cs, (c: Container) => c.id != target.value.id)
  }
  /** Deleting a container right after creating it, when its id is new,
      gives back the list as it was. */
  lemma CreateThenDeleteContainer(cs: seq<Container>, name: string, isPublic: bool, id: string, now: string)
    requires !IsBlank(name)
    requires forall i :: 0 <= i < |cs| ==> cs[i].id != id
    ensures var r := CreateContainer(cs, name, isPublic, id, now);
      |r| == |cs| + 1 && DeleteContainer(r, Some(r[|cs|])) == cs
  {
    var r := CreateContainer(cs, name, isPublic, id, now);
    Seqs.FilterDropsLast(cs, r[|cs|], (c: Container) => c.id != r[|cs|].id);
    assert r == cs + [r[|cs|]];
  }


  /** Object deletion: exactly the object with that id goes, the rest keep
      their order. */
  function DeleteObject(objects: seq<StorageObject>, id: string): (r: seq<StorageObject>)
    ensures forall i :: 0 <= i < |r| ==> r[i].id != id && r[i] in objects
    ensures forall i :: 0 <= i < |objects| && objects[i].id != id ==> objects[i] in r
    ensures Seqs.IsSubsequence(r, objects)
    ensures (forall i :: 0 <= i < |objects| ==> objects[i].id != id) ==> r == objects
    ensures forall o :: multiset(r)[o] == if o.id != id then multiset(objects)[o] else 0
  {
    Seqs.Filter(objects, (o: StorageObject) => o.id != id)
  }

  // ---------------------------------------------------------------------------
  // Uploads
  // ---------------------------------------------------------------------------

  datatype UploadStatus = Pending | Uploading | Completed | Failed

  /** An upload in the upload list; `file` is the name of the dropped file. */
  datatype UploadFile = UploadFile(id: string, file: string, progress: int, status: UploadStatus)

  /** Adds one pending upload at 0% per dropped file, after the existing ones;
      `ids[k]` is the id drawn for `files[k]`. */
  function AddFiles(uploads: seq<UploadFile>, files: seq<string>, ids: seq<string>): (r: seq<UploadFile>)
    requires |ids| == |files|
    ensures |r| == |uploads| + |files|
    ensures r[..|uploads|] == uploads
    ensures forall k :: 0 <= k < |files| ==>
      r[|uploads| + k] == UploadFile(ids[k], files[k], 0, Pending)
  {
    uploads + seq(|files|, k requires 0 <= k < |files| => UploadFile(ids[k], files[k], 0, Pending))
  }

  /** A drop on the upload area. The drop handler is memoised once, so it runs
      the first render's `handleFilesAdded`, whose upload list is still empty:
      the uploads already listed are replaced by the dropped files. */
  function DropFiles(uploads: seq<UploadFile>, files: seq<string>, ids: seq<string>): (r: seq<UploadFile>)
    requires |ids| == |files|
    ensures |r| == |files|
    ensures forall k :: 0 <= k < |files| ==> r[k] == UploadFile(ids[k], files[k], 0, Pending)
  {
    AddFiles([], files, ids)
  }

  /** A drop loses every upload listed before it, where the Browse button
      keeps them. */
  lemma DropDiscardsListedUploads(uploads: seq<UploadFile>, files: seq<string>, ids: seq<string>)
    requires |ids| == |files| && |uploads| > 0
    ensures |DropFiles(uploads, files, ids)| < |AddFiles(uploads, files, ids)|
    ensures DropFiles(uploads, files, ids) != AddFiles(uploads, files, ids)
    ensures AddFiles(uploads, files, ids)[..|uploads|] == uploads
  {
  }

  /** The interval timer driving one upload: the progress it has counted so
      far and whether it is still scheduled. */
  datatype UploadTimer = UploadTimer(uploadId: string, progress: int, running: bool)

  /** The timer started for a freshly added upload. */
  function StartUpload(uploadId: string): UploadTimer {
    UploadTimer(uploadId, 0, true)
  }

  /** What a timer can look like: a multiple of ten between 0 and 100, still
      running exactly while below 100. */
  predicate TimerInvariant(t: UploadTimer) {
    0 <= t.progress <= 100 && t.progress % 10 == 0 && (t.running <==> t.progress < 100)
  }

  /** One tick of a running timer: ten more percent written to the upload with
      its id, status uploading below 100 and completed at 100, and the timer
      cleared once it reaches 100. */
  function Tick(uploads: seq<UploadFile>, t: UploadTimer): (r: (seq<UploadFile>, UploadTimer))
    requires t.running
    ensures r.1 == t.(progress := t.progress + 10, running := t.progress + 10 < 100)
    ensures |r.0| == |uploads|
    ensures forall i :: 0 <= i < |uploads| && uploads[i].id != t.uploadId ==> r.0[i] == uploads[i]
    ensures forall i :: 0 <= i < |uploads| && uploads[i].id == t.uploadId ==>
      && r.0[i].id == uploads[i].id && r.0[i].file == uploads[i].file
      && r.0[i].progress == t.progress + 10
      && (r.0[i].status == Completed <==> t.progress + 10 >= 100)
      && (r.0[i].status == Uploading <==> t.progress + 10 < 100)
    ensures TimerInvariant(t) ==> TimerInvariant(r.1) && r.1.progress <= 100
  {
    var p := t.progress + 10;
    var status := if p < 100 then Uploading else Completed;
    (Seqs.MapWhere(uploads, (u: UploadFile) => u.id == t.uploadId, (u: UploadFile) => u.(progress := p, status := status)),
     t.(progress := p, running := p < 100))
  }

  /** `n` ticks of a timer (the timer must still be running before each). */
  function RunTicks(uploads: seq<UploadFile>, t: UploadTimer, n: nat): (r: (seq<UploadFile>, UploadTimer))
    requires TimerInvariant(t) && n * 10 <= 100 - t.progress
    ensures |r.0| == |uploads|
    ensures TimerInvariant(r.1) && r.1.uploadId == t.uploadId
    ensures r.1.progress == t.progress + 10 * n
    ensures forall i :: 0 <= i < |uploads| && uploads[i].id != t.uploadId ==> r.0[i] == uploads[i]
    ensures n > 0 ==> forall i :: 0 <= i < |uploads| && uploads[i].id == t.uploadId ==>
      && r.0[i].id == uploads[i].id && r.0[i].file == uploads[i].file
      && r.0[i].progress == r.1.progress
      && (r.0[i].status == Completed <==> r.1.progress == 100)
      && (r.0[i].status == Uploading <==> r.1.progress < 100)
    decreases n
  {
    if n == 0 then (uploads, t)
    else
      var step := Tick(uploads, t);
      RunTicks(step.0, step.1, n - 1)
  }

  /** A fresh upload completes after exactly ten ticks, at 100%, and its timer
      is then cleared; after fewer ticks it is still uploading. */
  lemma {:induction false} UploadTakesTenTicks(uploads: seq<UploadFile>, uploadId: string, n: nat)
    requires 1 <= n <= 10
    ensures var r := RunTicks(uploads, StartUpload(uploadId), n);
      && r.1.progress == 10 * n
      && (r.1.running <==> n < 10)
      && forall i :: 0 <= i < |uploads| && uploads[i].id == uploadId ==>
           && r.0[i].progress == 10 * n
           && (r.0[i].status == Completed <==> n == 10)
           && (r.0[i].status == Uploading <==> n < 10)
  {
    var r := RunTicks(uploads, StartUpload(uploadId), n);
    assert TimerInvariant(r.1);
  }

  /** Ten ticks of a fresh timer complete the one row carrying its id and
      leave every other row as it was. */
  lemma TicksCompleteOwnRow(rows: seq<UploadFile>, j: int, uploadId: string, n: nat)
    requires 0 <= j < |rows| && rows[j].id == uploadId && n == 10
    requires forall i :: 0 <= i < |rows| && i != j ==> rows[i].id != uploadId
    ensures var done := RunTicks(rows, StartUpload(uploadId), n);
      && |done.0| == |rows|
      && done.0[j] == rows[j].(progress := 100, status := Completed)
      && (forall i :: 0 <= i < |rows| && i != j ==> done.0[i] == rows[i])
      && !done.1.running
  {
    var done := RunTicks(rows, StartUpload(uploadId), n);
    assert done.0[j].status == Completed;
  }

  /** An added file, uploaded by its own timer with a fresh id, ends as a
      completed upload at 100% after ten ticks; every other row is unchanged. */
  lemma AddedFileCompletes(uploads: seq<UploadFile>, files: seq<string>, ids: seq<string>, k: int)
    requires |ids| == |files| && 0 <= k < |files|
    requires forall i :: 0 <= i < |uploads| ==> uploads[i].id != ids[k]
    requires forall j :: 0 <= j < |ids| && j != k ==> ids[j] != ids[k]
    ensures var added := AddFiles(uploads, files, ids);
      var done := RunTicks(added, StartUpload(ids[k]), 10);
      && |done.0| == |added|
      && done.0[|uploads| + k] == UploadFile(ids[k], files[k], 100, Completed)
      && (forall i :: 0 <= i < |added| && i != |uploads| + k ==> done.0[i] == added[i])
      && !done.1.running
  {
    var added := AddFiles(uploads, files, ids);
    var j := |uploads| + k;
    forall i | 0 <= i < |added| && i != j
      ensures added[i].id != ids[k]
    {
      if i >= |uploads| {
        assert added[i] == UploadFile(ids[i - |uploads|], files[i - |uploads|], 0, Pending);
      } else {
        assert added[i] == added[..|uploads|][i];
      }
    }
    TicksCompleteOwnRow(added, j, ids[k], 10);
  }


  // ---------------------------------------------------------------------------
  // Pre-signed URLs
  // ---------------------------------------------------------------------------

  datatype Permission = Read | Write | ReadWrite

  /** A pre-signed URL; times are milliseconds since the epoch. */
  datatype PreSignedUrl = PreSignedUrl(
    id: string,
    url: string,
    containerId: string,
    objectName: string,
    permission: Permission,
    expiresAt: int,
    createdAt: int,
    isRevoked: bool)

  const UrlPrefix := "https://storage.example.com/"
  const MillisPerHour := 3600000

  /** The container segment of a new URL: the selected container's name, or
      what a template literal makes of `undefined` when none is selected. */
  function ContainerSegment(selected: Option<Container>): string {
    if selected.Some? then selected.value.name else "undefined"
  }

  /** The address handed out for an object: its container and name under the
      storage host, with a `tok-` token as the query. */
  function UrlFor(selected: Option<Container>, objectName: string, tokenSuffix: string): (url: string)
    ensures url == UrlPrefix + ContainerSegment(selected) + "/" + objectName + "?token=tok-" + tokenSuffix
  {
    var path := UrlPrefix + ContainerSegment(selected) + "/" + objectName;
    assert "?token=" + "tok-" == "?token=tok-";
    assert path + "?token=" + ("tok-" + tokenSuffix) == path + ("?token=" + "tok-") + tokenSuffix;
    path + "?token=" + ("tok-" + tokenSuffix)
  }

  /** URL creation: a blank object name changes nothing; otherwise one
      unrevoked URL is appended, expiring `hours` after `now`.
      `tokenSuffix` is the random part of the token id. */
  function CreateUrl(urls: seq<PreSignedUrl>, selected: Option<Container>, objectName: string,
                     permission: Permission, hours: int, id: string, tokenSuffix: string, now: int): (r: seq<PreSignedUrl>)
    ensures IsBlank(objectName) ==> r == urls
    ensures !IsBlank(objectName) ==>
      && |r| == |urls| + 1
      && r[..|urls|] == urls
      && var u := r[|urls|];
      && u.id == id
      && u.url == UrlPrefix + ContainerSegment(selected) + "/" + objectName + "?token=tok-" + tokenSuffix
      && u.containerId == (if selected.Some? then selected.value.id else "")
      && u.objectName == objectName
      && u.permission == permission
      && !u.isRevoked
      && u.createdAt == now
      && u.expiresAt - u.createdAt == hours * MillisPerHour
      && (hours > 0 ==> u.expiresAt > u.createdAt)
  {
    if Trim(objectName) == "" then urls
    else
      var url := UrlFor(selected, objectName, tokenSuffix);
      var containerId := if selected.Some? then selected.value.id else "";
      urls + [PreSignedUrl(id, url, containerId, objectName, permission, now + hours * MillisPerHour, now, false)]
  }

  /** Revocation: every URL with that id is revoked; every other URL, and
      every other field, is unchanged. */
  function RevokeUrl(urls: seq<PreSignedUrl>, id: string): (r: seq<PreSignedUrl>)
    ensures |r| == |urls|
    ensures forall i :: 0 <= i < |urls| && urls[i].id != id ==> r[i] == urls[i]
    ensures forall i :: 0 <= i < |urls| && urls[i].id == id ==> r[i] == urls[i].(isRevoked := true)
  {
    Seqs.MapWhere(urls, (u: PreSignedUrl) => u.id == id, (u: PreSignedUrl) => u.(isRevoked := true))
  }

  /** Revoking a URL right after creating it, with a new id, revokes exactly
      that URL and leaves the earlier ones as they were. */
  lemma CreateThenRevokeUrl(urls: seq<PreSignedUrl>, selected: Option<Container>, objectName: string,
                            permission: Permission, hours: int, id: string, tokenSuffix: string, now: int)
    requires !IsBlank(objectName)
    requires forall i :: 0 <= i < |urls| ==> urls[i].id != id
    ensures var created := CreateUrl(urls, selected, objectName, permission, hours, id, tokenSuffix, now);
      var r := RevokeUrl(created, id);
      && |r| == |urls| + 1
      && r[..|urls|] == urls
      && r[|urls|] == created[|urls|].(isRevoked := true)
  {
    var created := CreateUrl(urls, selected, objectName, permission, hours, id, tokenSuffix, now);
    var r := RevokeUrl(created, id);
    forall i | 0 <= i < |urls|
      ensures r[i] == urls[i]
    {
      assert created[i] == created[..|urls|][i];
    }
    assert r[..|urls|] == urls;
  }

  /** Revoking twice is the same as revoking once. */
  lemma RevokeIdempotent(urls: seq<PreSignedUrl>, id: string)
    ensures RevokeUrl(RevokeUrl(urls, id), id) == RevokeUrl(urls, id)
  {
    var once := RevokeUrl(urls, id);
    var twice := RevokeUrl(once, id);
    assert forall i :: 0 <= i < |urls| ==> twice[i] == once[i];
  }

  /** Revocation never un-revokes anything and never touches another id. */
  lemma RevokeMonotone(urls: seq<PreSignedUrl>, id: string, other: string)
    requires other != id
    ensures var r := RevokeUrl(urls, id);
      forall i :: 0 <= i < |urls| ==> (urls[i].isRevoked ==> r[i].isRevoked) && (urls[i].id == other ==> r[i] == urls[i])
  {
  }
}
