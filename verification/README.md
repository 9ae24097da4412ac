# Cloud console core, modelled in Dafny

This project models the state logic of a cloud administration console: the
Block Storage page (volumes, snapshots, backups), the Object Storage page
(containers, objects, uploads, pre-signed URLs), the Compute page (instance
list with search, status filter and pagination; the create-instance form;
SSH key pairs; hypervisor usage) and the log filter of the Monitoring page.
Every handler of these pages becomes a pure function from the current lists
and form values to the new lists. The console's own side effects are passed
in as parameters: generated ids, the current time, `Math.random()` samples
and the timer callbacks.

Timers are modelled as two steps. Every Block Storage operation that finishes
after a `setTimeout` is split into a `Begin…` function and `Volumes.Complete`.
`Begin…` returns the immediate list and the completion it schedules, and
`Volumes.Complete` applies that completion to whatever list exists when the
timer fires. Because `Complete` accepts any list, interleaved operations can
be expressed as well. An upload's `setInterval` is modelled the same way, as
`ObjectStorage.Tick` applied once per interval.

Modules:

- `Common`: the `Option` type and the badge colours.
- `Seqs`: the list primitives the handlers use. These are `filter`, an
  update-in-place `map`, and JavaScript `slice`. The module also defines the
  subsequence order that filtering produces.
- `Text`: the string primitives. These are `trim` (with JavaScript's
  white-space set), ASCII `toLowerCase`/`toUpperCase`, `includes`, the
  `<` order (compared by code point), `split(sep)[0]`, and decimal rendering and parsing.
- `Compute`: the instance record and its status.
- `Volumes`: the volume life cycle, the creation form validation and the
  timer completions.
- `VolumeSnapshots`: snapshots, their filtered and sorted view, and backups.
- `ObjectStorage`: containers, objects, uploads and pre-signed URLs.
- `InstanceList`: the filtered, paginated instance table.
- `CreateInstance`: the new-instance form.
- `Keypairs`: SSH key pairs.
- `Hypervisors`: the hypervisor refresh and chart data.
- `Monitoring`: the log filter and badge colours.

The model follows the code where it departs from what one might expect:

- One might expect a volume to be in use exactly when it is attached. The
  extend completion sets an attached volume back to `available` and keeps its
  attachment. Only the direction "in use ⇒ attached" is preserved, and
  `Volumes.ExtendLeavesAttachedVolumeAvailable` proves that the converse
  fails.
- The status dropdown of the instance list has a placeholder. Choosing it
  sets the filter to the empty string, and since no status equals `''` the
  list becomes empty. `InstanceList.FilterInstances` keeps that behaviour.
- Choosing the status filter that is already selected is a React same-value
  update. No effect runs, so the page is not reset
  (`InstanceList.SetStatusFilter`).
- A pre-signed URL created while no container is selected contains the text
  `undefined` where the container name goes (`ObjectStorage.CreateUrl`).
- The Delete button on a container row calls the dialog's close function
  instead of opening it, so the confirmation dialog is unreachable from the
  table. The delete handler itself is modelled as written.

## Model

| member | source | states |
|---|---|---|
| Compute.StatusNameInjective | src/views/admin/compute/variables/computeData.ts:1 | the four instance statuses have distinct names, so filtering by the name selects exactly one status |
| Seqs.Filter | src/views/admin/compute/components/InstanceList.tsx:56-72 | `Array.filter` keeps every copy of each element that satisfies the predicate and no copy of any other, in their original order (a subsequence); it keeps everything when all satisfy it |
| Seqs.SubsequenceTransitive | src/views/admin/compute/components/InstanceList.tsx:56-72 | filtering twice (search, then status) still yields a subsequence of the loaded data |
| Seqs.Slice | src/views/admin/compute/components/InstanceList.tsx:90 | JavaScript `slice`: a negative bound counts from the end, both bounds are clamped to the list, and the result is the elements between the clamped bounds, or empty when they cross |
| Text.Trim | src/views/admin/volume/index.tsx:161 | `trim()` cuts the input into a white-space prefix, the result and a white-space suffix; the result neither starts nor ends with white space, and is empty exactly when the input is blank |
| Text.ContainsAtOffset | src/views/admin/monitoring/index.tsx:314 | `includes` holds exactly when the needle occurs at some offset of the text |
| Text.LowerOfUpper | src/views/admin/monitoring/index.tsx:314 | lower-casing erases any earlier upper-casing, so the filter is insensitive to the case of its input |
| Text.LessTransitive | src/views/admin/volume/index.tsx:299 | the string `<` used to compare creation times is transitive |
| Text.LessTotal | src/views/admin/volume/index.tsx:299 | any two different creation times are ordered one way or the other |
| Text.BeforeFirst | src/views/admin/compute/components/Keypairs.tsx:89 | `split('T')[0]` is the longest prefix without the separator, and is the whole string when the separator is absent |
| Text.ParseNatToString | src/views/admin/compute/components/Keypairs.tsx:84 | decimal rendering of a counter is reversible, so distinct numbers give distinct ids |
| Volumes.SeedVolumes | src/views/admin/volume/index.tsx:117-140 | the two seed volumes (one in use, one available) satisfy "in use ⇔ attached" in both directions |
| Volumes.Validate | src/views/admin/volume/index.tsx:159-167 | each field gets its message exactly when it is invalid (blank name, size below 1, no type, no zone, encryption on without an algorithm), and no message means the form is valid |
| Volumes.InitialFormNeedsName | src/views/admin/volume/index.tsx:147-167 | the freshly opened form is rejected only because its name is empty |
| Volumes.AddMetadata | src/views/admin/volume/index.tsx:169-173 | a blank key (after trimming) changes nothing; otherwise the pair is stored under the key as typed, replacing any earlier value for it, other keys keep their values, and the draft is cleared |
| Volumes.BeginCreate | src/views/admin/volume/index.tsx:175-198 | an invalid form changes nothing; a valid one prepends a `creating`, unattached volume with the trimmed name, the form's size, type, zone, metadata and encryption, the description as typed (absent when empty), and schedules its completion |
| Volumes.AttachTargets | src/views/admin/volume/index.tsx:210 | the attach dialog offers every copy of each running instance and nothing else, in order |
| Volumes.BeginAttach | src/views/admin/volume/index.tsx:218-226 | without a selected instance nothing happens; otherwise only the chosen volume becomes `creating` and the attach to that instance is scheduled |
| Volumes.BeginDetach | src/views/admin/volume/index.tsx:235-240 | only the chosen volume becomes `creating` and its detach is scheduled; other volumes are untouched |
| Volumes.BeginExtend | src/views/admin/volume/index.tsx:251-265 | an extension is accepted exactly when the new size is larger than the current one and at most 2048 GB; then only that volume becomes `extending` |
| Volumes.Complete | src/views/admin/volume/index.tsx:197-265 | a timer callback changes only the volume with its id: create makes it available, attach sets it in use with its target, detach clears the target and extend sets the new size and availability |
| Volumes.CompletePreservesInvariant | src/views/admin/volume/index.tsx:218-265 | every completion keeps "in use ⇒ attached" for all volumes |
| Volumes.CreateThenComplete | src/views/admin/volume/index.tsx:175-198 | after a valid creation and its completion the new volume is first, available, unattached and holds the form's values, and the old list follows unchanged |
| Volumes.AttachThenComplete | src/views/admin/volume/index.tsx:218-226 | after an attach and its completion the volume is in use and attached to the chosen instance |
| Volumes.DetachThenComplete | src/views/admin/volume/index.tsx:235-240 | after a detach and its completion the volume is available and attached to nothing |
| Volumes.ExtendLeavesAttachedVolumeAvailable | src/views/admin/volume/index.tsx:258-265 | extending an attached volume ends with it available yet still attached, so "attached ⇒ in use" does not hold |
| VolumeSnapshots.FindVolume | src/views/admin/volume/index.tsx:289 | `find` returns the first volume with the id, or nothing when no volume has it |
| VolumeSnapshots.SourceZone | src/views/admin/volume/index.tsx:289 | the snapshot records the zone of the first volume with the id, or `-` when no volume has the id or that volume's zone is empty |
| VolumeSnapshots.MakeSnapshot | src/views/admin/volume/index.tsx:278-291 | without a chosen volume or with a blank name nothing changes; otherwise a snapshot of that volume with the trimmed name is prepended, the description is kept as typed or absent when empty, and the metadata holds exactly the creator `user` and the source zone |
| VolumeSnapshots.NewSnapshotShown | src/views/admin/volume/index.tsx:278-301 | a snapshot just taken appears in the list filtered by its volume and in the unfiltered list, in either order |
| VolumeSnapshots.InOrderTransitive | src/views/admin/volume/index.tsx:299 | the newest-first and oldest-first orders on creation times are transitive |
| VolumeSnapshots.Sort | src/views/admin/volume/index.tsx:299 | sorting returns a permutation of the snapshots ordered by creation time in the chosen direction |
| VolumeSnapshots.SnapshotView | src/views/admin/volume/index.tsx:296-301 | the table shows each snapshot of the filtered volume (every snapshot when no filter is set) exactly as often as it is in the list, and no other snapshot, sorted in the chosen direction |
| VolumeSnapshots.CreateBackup | src/views/admin/volume/index.tsx:312-322 | without a volume nothing changes; otherwise a `scheduled` backup is prepended, with a recurrence exactly when the schedule is recurring |
| ObjectStorage.CreateContainer | src/views/admin/objectStorage/index.tsx:166-187 | a blank name changes nothing; otherwise one empty container with the trimmed name is appended after the existing ones |
| ObjectStorage.DeleteContainer | src/views/admin/objectStorage/index.tsx:189-196 | without a target nothing changes; otherwise exactly the containers with the target's id are removed; the rest keep all their copies and their order |
| ObjectStorage.CreateThenDeleteContainer | src/views/admin/objectStorage/index.tsx:166-196 | deleting a container right after creating it (with a new id) restores the previous list |
| ObjectStorage.DeleteObject | src/views/admin/objectStorage/index.tsx:550 | exactly the objects with the given id are removed; the rest keep all their copies and their order |
| ObjectStorage.AddFiles | src/views/admin/objectStorage/index.tsx:232-246 | the Browse Files path: one pending upload at progress 0 is appended per chosen file, in order, after the existing uploads |
| ObjectStorage.DropFiles | src/views/admin/objectStorage/index.tsx:225-230 | a drop runs the handler memoised at the first render, so the list becomes exactly one pending upload per dropped file, whatever was listed before |
| ObjectStorage.DropDiscardsListedUploads | src/views/admin/objectStorage/index.tsx:225-246 | with uploads already listed, a drop yields a shorter list than Browse Files with the same files, and only Browse keeps the earlier uploads |
| ObjectStorage.AddedFileCompletes | src/views/admin/objectStorage/index.tsx:232-265 | an added file with a fresh id ends, after its timer's ten ticks, as a completed upload at 100 with its timer cleared, and every other row is unchanged |
| ObjectStorage.Tick | src/views/admin/objectStorage/index.tsx:248-263 | one interval adds 10 to the upload's progress, marks it completed at 100 and stops the timer then; other uploads are unchanged |
| ObjectStorage.RunTicks | src/views/admin/objectStorage/index.tsx:248-263 | the timer invariant (progress is ten times the tick count, and the timer runs below 100) holds after any number of ticks |
| ObjectStorage.UploadTakesTenTicks | src/views/admin/objectStorage/index.tsx:248-263 | an upload is still uploading after fewer than ten intervals and completed at 100 after exactly ten |
| ObjectStorage.CreateUrl | src/views/admin/objectStorage/index.tsx:268-292 | a blank object name changes nothing; otherwise an active URL is appended whose address joins the endpoint, container and object and whose expiry is the current time plus the requested hours |
| ObjectStorage.RevokeUrl | src/views/admin/objectStorage/index.tsx:294-299 | only URLs with the id become revoked; everything else is unchanged |
| ObjectStorage.RevokeIdempotent | src/views/admin/objectStorage/index.tsx:294-299 | revoking twice is the same as revoking once |
| ObjectStorage.CreateThenRevokeUrl | src/views/admin/objectStorage/index.tsx:268-299 | revoking a just-created URL with a new id revokes exactly that URL and leaves the earlier ones unchanged |
| ObjectStorage.RevokeMonotone | src/views/admin/objectStorage/index.tsx:294-299 | a revoked URL stays revoked after any other revocation |
| InstanceList.FilterInstances | src/views/admin/compute/components/InstanceList.tsx:56-72 | the table shows exactly the instances whose name or id contains the query ignoring case, or whose IP contains it, and whose status name equals the filter (`All` matches every status); they appear in loaded order with every copy kept, and with no query and `All` the list is the data |
| InstanceList.StatusFilterSelectsOneStatus | src/views/admin/compute/components/InstanceList.tsx:68-70 | choosing one status with no query shows every copy of the instances in that status and nothing else |
| InstanceList.SetQuery | src/views/admin/compute/components/InstanceList.tsx:56-74 | typing a different query recomputes the filtered list from the data and returns to page 1; typing the same query changes nothing |
| InstanceList.SetStatusFilter | src/views/admin/compute/components/InstanceList.tsx:56-74 | choosing another status recomputes the list and returns to page 1; choosing the current one changes nothing |
| InstanceList.Load | src/views/admin/compute/components/InstanceList.tsx:48-74 | loading installs the data, keeps the search query and status filter, shows the data through those filters and returns to page 1; with no filters the whole data is shown |
| InstanceList.CreateInstance | src/views/admin/compute/components/InstanceList.tsx:76-80 | a new instance goes in front of the data, the filtered list is recomputed and page 1 is shown |
| InstanceList.TotalPages | src/views/admin/compute/components/InstanceList.tsx:88 | the page count is the least number of six-row pages that holds every filtered instance |
| InstanceList.CurrentItems | src/views/admin/compute/components/InstanceList.tsx:89-90 | a valid page shows at most six consecutive filtered instances, starting at row (page-1)·6 |
| InstanceList.ChangePage | src/views/admin/compute/components/InstanceList.tsx:92-96 | the page changes exactly when the requested page is between 1 and the page count |
| InstanceList.ShowingRange | src/views/admin/compute/components/InstanceList.tsx:199 | the "showing a to b of n" line names the first and last row of the current page |
| InstanceList.CreatedInstanceShownFirst | src/views/admin/compute/components/InstanceList.tsx:76-90 | with no query and the `All` filter, a created instance is the first row of page 1 |
| CreateInstance.ResetForm | src/views/admin/compute/components/CreateInstanceModal.tsx:83-89 | the form returns to its defaults, and a reset form cannot be submitted |
| CreateInstance.Submit | src/views/admin/compute/components/CreateInstanceModal.tsx:39-66 | submission is refused exactly when the name is empty; otherwise the record is a `Pending` `custom` instance with no IP or uptime, an `i-` id with the random suffix, and the form's name, region, image and CPU and RAM labels |
| CreateInstance.CpuLabelRoundTrip | src/views/admin/compute/components/CreateInstanceModal.tsx:59 | the CPU label is the vCPU count followed by ` vCPU`, and the count can be read back from it |
| CreateInstance.RamLabelRoundTrip | src/views/admin/compute/components/CreateInstanceModal.tsx:60 | the RAM label is the size followed by ` GB`, and the size can be read back from it |
| Keypairs.GeneratedType | src/views/admin/compute/components/Keypairs.tsx:88 | a generated key's type is `RSA ` followed by the key size for RSA, and the chosen algorithm followed by a space otherwise |
| Keypairs.DatePart | src/views/admin/compute/components/Keypairs.tsx:89 | the created date is the part of the ISO timestamp before `T` |
| Keypairs.Generate | src/views/admin/compute/components/Keypairs.tsx:81-103 | an empty name changes nothing; otherwise one key is appended after the existing ones, carrying the name, a `kp-` id from the clock, the fingerprint, the generated type and the date part of the timestamp |
| Keypairs.Import | src/views/admin/compute/components/Keypairs.tsx:105-128 | an empty name or public key changes nothing; otherwise one key of type `Imported` with the name is appended after the existing ones |
| Keypairs.Assign | src/views/admin/compute/components/Keypairs.tsx:130-141 | the key list never changes; the assignment is reported as done exactly when an instance was chosen |
| Keypairs.Delete | src/views/admin/compute/components/Keypairs.tsx:143-150 | exactly the keys with the id are removed; every other key keeps all its copies and its order |
| Keypairs.ImportThenDelete | src/views/admin/compute/components/Keypairs.tsx:105-150 | deleting a freshly imported key by its id restores the previous list, provided no earlier key has that id |
| Keypairs.GenerateThenDelete | src/views/admin/compute/components/Keypairs.tsx:81-150 | deleting a freshly generated key by its id restores the previous list, provided no earlier key has that id |
| Hypervisors.Percent | src/views/admin/compute/components/Hypervisors.tsx:124-125 | `Math.floor(Math.random() * 100)` gives an integer from 0 to 99, the floor of the scaled sample |
| Hypervisors.Refresh | src/views/admin/compute/components/Hypervisors.tsx:120-128 | every node keeps its identity, status and disk usage and gets new CPU and RAM figures from its two samples |
| Hypervisors.ChartData | src/views/admin/compute/components/Hypervisors.tsx:92-118 | the chart has one category per node and three series (CPU, RAM, disk) holding each node's figures in node order |
| Hypervisors.RefreshKeepsLayout | src/views/admin/compute/components/Hypervisors.tsx:120-154 | a refresh keeps the node count, the chart categories and the disk series, and every CPU and RAM value it plots is below 100 |
| Hypervisors.CpuBarColor | src/views/admin/compute/components/Hypervisors.tsx:213 | the CPU bar is red exactly above 80 % and blue otherwise |
| Hypervisors.RamBarColor | src/views/admin/compute/components/Hypervisors.tsx:215 | the RAM bar is red exactly above 80 % and purple otherwise |
| Hypervisors.StatusColor | src/views/admin/compute/components/Hypervisors.tsx:201 | the status badge is green for Up, red for Down and orange otherwise |
| Monitoring.FilterLogs | src/views/admin/monitoring/index.tsx:314 | the table shows exactly the entries whose message or source contains the filter text ignoring case, every copy kept, in order |
| Monitoring.EmptyFilterKeepsAll | src/views/admin/monitoring/index.tsx:314 | an empty filter shows every entry |
| Monitoring.MatchIgnoresCase | src/views/admin/monitoring/index.tsx:314 | an entry passes a filter text exactly when it passes the same text upper-cased |
| Monitoring.FilterIgnoresCase | src/views/admin/monitoring/index.tsx:314 | upper-casing the filter text does not change the result |
| Monitoring.LevelColor | src/views/admin/monitoring/index.tsx:320 | info is blue, warning orange and error red |
| Monitoring.ServiceColor | src/views/admin/monitoring/index.tsx:226 | active is green, warning yellow and down red |

## Left out

- Rendering, Chakra UI layout, toasts, dialog open/close state and loading spinners are presentation only. They have no effect on the lists.
- Form fields that are cleared after a snapshot, container, URL or key is created are view state. They are not modelled.
- Timer delays, `setTimeout` and `setInterval` scheduling, and React batching are not modelled. Each timer is represented by the completion it applies, and the caller decides when it fires.
- Random ids (`randomId`, `Date.now()` suffixes, key fingerprints) are parameters. Their format is not modelled.
- Dates and times are parameters: ISO strings, or milliseconds for URL expiry. Local-time formatting and daylight-saving effects are not modelled.
- Numeric inputs are integers. `NaN`, fractional sizes and the number field's own clamping are not modelled.
- VolumeSnapshots.Sort: the source's comparator never returns 0, so JavaScript's order for equal timestamps is unspecified. The contract claims only a sorted permutation.
- Text.Less: compares characters by code point, while JavaScript compares UTF-16 code units. The two agree on the ISO timestamps being compared.
- Text.ToLower: maps only ASCII letters. JavaScript's full Unicode case mapping is not modelled.
- Hypervisors.TotalNodes: carries no contract of its own. The node count it shows is covered by Hypervisors.RefreshKeepsLayout.
- The restore, copy-to-clipboard, container-selection and object-preview actions only show a toast, copy text or change which dialog is visible. They are not modelled.
- `formatBytes`, the dashboard and quota widgets, the network pages and the mock data files other than the instance record type are not part of this model.

## Findings

| source | as written | input that shows it | evidently intended | confidence | as-written member | corrected member |
|---|---|---|---|---|---|---|
| src/views/admin/objectStorage/index.tsx:225-230 | the drop handler is memoised with no dependencies, so it calls the first render's `handleFilesAdded`, whose upload list is the initial empty list; a drop replaces the listed uploads with the dropped files | one upload already listed, then a drop of one file: the list holds only the dropped file | a drop appends to the listed uploads, as Browse Files does (line 446) | not executed; high, from the closure rules of `useCallback` | ObjectStorage.DropFiles, ObjectStorage.DropDiscardsListedUploads | ObjectStorage.AddFiles, ObjectStorage.AddedFileCompletes |
