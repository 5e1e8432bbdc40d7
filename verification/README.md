# A verified model of the CAPI provider for Vates

The repository is a Cluster API infrastructure provider for Xen Orchestra. This
project models its two hard cores, and the small functions that feed them, and
proves what they promise.

**The manifest merger** (`hack/cilium-manifest/main.go`) turns several Helm
renders into one Go template. The tool checks four renders at run time; here
the same is proved for every base render, every list of variants and every
truth assignment.

| file | content |
|---|---|
| `ManifestDiff.dfy` | longest common subsequences, the table in an `array2`, the walk, hunks and their meaning |
| `ManifestTemplate.dfy` | a lexer and an interpreter for the template actions the tool writes; brace escaping |
| `ManifestMerge.dfy` | bags of hunks, overlap, the one ordering of a mergeable bag, the woven text |
| `ManifestRender.dfy` | what the merged template prints |
| `ManifestTool.dfy` | the merge as the tool runs it: the pending prefix, the emitter, the sort, the overlap test |

**The XOMachine lifecycle** is a crash-tolerant protocol between a versioned
Kubernetes object and Xen Orchestra. Creation is a state machine: one step is
one remote call with its answer, and a run is any interleaving of the workers
of any number of machines, of other users and of crashes between two calls. A
write carries the version it was based on and is refused when that is stale, or
is accepted with its answer lost. A read may return any version not older than
the last one read. A create may take effect and answer an error. Deletion is
imperative code against an object `XenOrchestra` whose calls answer as badly as
their contracts allow.

| file | content |
|---|---|
| `VmAdoption.dfy` | markers, adoptable and foreign VMs in a listing |
| `VmNaming.dfy` | Machine IDs |
| `VmAddress.dfy` | recording and resolving the machine's address |
| `MachineProtocol.dfy` | the state machine |
| `MachineSafety.dfy`, `MachineRuns.dfy` | the invariant, step by step |
| `MachineTheorems.dfy` | the promises over all runs, and the runs that show their limits |
| `MachineWrites.dfy` | what each call does and what answers are possible; where recorded addresses come from |
| `MachineDuplicates.dfy` | exactly when a machine gets a second VM or another providerID |
| `MachineFinalizer.dfy` | when the finalizer goes, over all runs |
| `MachineProgress.dfy` | every reachable state can still lead to readiness, or to deletion |
| `MachineDeletion.dfy` | stop, detach, shut down, delete, drop the finalizer |
| `ClusterEndpoint.dfy` | XOCluster endpoint discovery, on top of the machine theorems |
| `ClusterConditions.dfy` | the Ready condition that is persisted, and the one that never is |
| `Conditions.dfy` | condition lists and their transition times |
| `MainDisk.dfy` | the choice of the OS disk |
| `CloudConfig.dfy` | SSH keys and kube-vip in a parsed cloud-config |
| `XoStrings.dfy` | a task path in an error, the name filter |
| `Options.dfy`, `Strings.dfy` | shared definitions |

## Assumptions of the machine theorems

They are conditions in `MachineProtocol` and, for the last one, in `MachineDeletion`.

- A listing that succeeds is complete and correct for its filter (`Accurate`). A
  lookup that fails is followed by a create all the same; `SecondVmExactly` says
  what comes of that.
- The effect of a create is atomic with the call: it is there when the call has
  answered, or never.
- UIDs are non-empty and never reused (`NewMachine`).
- Other users never write a marker of their own accord, and do not rename,
  edit or remove a machine's VM until a worker has read its providerID or its
  deletion (`XoChanges`, `Settled`).
- One worker per object, and reads that may lag but never go back (`seen`).
- Other users of the API server mark the object for deletion or write fields
  that are not modelled (`External`). Nobody else writes the status, the
  providerID in the spec, or this provider's finalizer.
- `XenOrchestra.OthersAct`: during a deletion pass nobody brings the deleted VM
  back. Others may attach volumes to it; what they attach is recorded, and only
  such a volume can be lost.

## Where the code falls short of a promise

- Two hunks that only touch are refused although they do not overlap
  (`TouchingHunksRefused`), and a change at the very end of the render is
  refused (`EndOfRenderRefused`). `ManifestTool.Merge` states exactly when merging fails.
- "At most one VM" is broken by a create after a failed lookup.
  `SecondVmExactly` says exactly when, and `BlindCreateDuplicates` is a run with
  two VMs. Even a recorded providerID can then be replaced:
  `ProviderIdChangesExactly` says exactly when, and
  `BlindCreateReplacesProviderId` is such a run.
- A machine without a recorded providerID is deleted without looking for a VM:
  `DeletionCanOrphan` is a run that leaves one behind, and
  `DeletionLeavesNothing` says exactly when none is.
- The XOCluster endpoint is write-once only with fresh reads;
  `StaleReadMovesEndpoint` says exactly when a stale read changes any field of it.
- The XOCluster condition set when its credentials cannot be resolved
  (`internal/controller/xocluster_controller.go:165`) stays in memory, since no
  status write follows: `CredentialsNeverPersisted`, for every run.
- The comment at `internal/controller/xomachine/naming.go:36-37` says that two
  Machines of a namespace never share an ID. `SharedId` says exactly when they do.
- `diskOrder` subtracts positions: `DiskOrderOverflows` says exactly when two
  positions come out in the wrong order, `DiskOrderOverflowExample` is such a
  pair, and `MainDiskOfAnyOrder` exactly when
  the order of the API's answer does not matter.
- The two cloud-config enrichments do not commute on a document that is no map
  and gets keys: on a text with an empty document `Inject` panics (a write to a
  nil map) unless the keys went in first, and without any text it changes
  nothing unless the keys went in first, when it misses the runcmd section.
- Without a V1 client `ResolveVMIP` returns the main address unfiltered.

## Model

| member | source | states |
|---|---|---|
| ManifestDiff.LcsIsLongest | hack/cilium-manifest/main.go:312-325 | The recurrence behind the table is the true maximum: some common subsequence has that length and none is longer, with subsequences defined by position lists. |
| ManifestDiff.WithinBoundedByLcs | hack/cilium-manifest/main.go:317-325 | Any sequence found in both inputs is at most that long, taking equal heads together without loss. |
| ManifestDiff.LcsAtStep | hack/cilium-manifest/main.go:319-323 | The values of a cell's three neighbours determine the cell. |
| ManifestDiff.FillRow | hack/cilium-manifest/main.go:318-324 | One pass of the inner loop fills a row with the lengths for all its suffix pairs and leaves the other rows alone. |
| ManifestDiff.FillTable | hack/cilium-manifest/main.go:313-325 | Every cell of the finished table holds the true length for its pair of suffixes. |
| ManifestDiff.HunkEndIsFirst | hack/cilium-manifest/main.go:337-346 | Skipping lines one by one on the side the table favours, an open hunk ends at the first pair of equal lines, or at the end of both inputs if there is none. |
| ManifestDiff.HunkEndKeepsLcs | hack/cilium-manifest/main.go:341-345 | Closing a hunk by following the table loses no common line. |
| ManifestDiff.WalkHunk | hack/cilium-manifest/main.go:337-346 | The inner loop, reading the table, stops exactly there. |
| ManifestDiff.HunkPrefersInsertion | hack/cilium-manifest/main.go:341-345 | Where skipping a line on either side loses nothing, the line of the variant is skipped first. |
| ManifestDiff.Diff | hack/cilium-manifest/main.go:311-352 | The two nested loops over the table yield the hunks of the specification. |
| ManifestDiff.DiffFromCorrect | hack/cilium-manifest/main.go:309-352 | From any reachable pair of positions the hunks are in order, never touch, are never empty, turn the one suffix into the other and keep a longest common subsequence. |
| ManifestDiff.DiffIsOptimal | hack/cilium-manifest/main.go:309-352 | Applying the hunks to a gives b, and no well-formed hunk list that turns a into b keeps more lines of a. |
| ManifestTemplate.Escape | hack/cilium-manifest/main.go:366-377 | The loop over the slice escapes each line in its place. |
| ManifestTemplate.RunEscaped | hack/cilium-manifest/main.go:363-377 | In any open block, and before any text that does not start with a brace, an escaped line prints the line. |
| ManifestTemplate.EscapeRoundTrip | hack/cilium-manifest/main.go:363-377 | Lexing and executing an escaped line gives the line back, for every line and all data. |
| ManifestTemplate.EscapeExactly | hack/cilium-manifest/main.go:363-377 | A line is escaped piece by piece: a run of braces that contains a double one becomes a quoted-string action, everything else stays. |
| ManifestTemplate.ConditionsAreFields | hack/cilium-manifest/main.go:130-153 | A dot before letters and digits is a field, so the conditions of the tool are. |
| ManifestTemplate.NoDelimiterOutside | hack/cilium-manifest/main.go:363-365 | No double brace is left outside the inserted quoted-string actions, nor across their borders. |
| ManifestTemplate.NoOtherOpening | hack/cilium-manifest/main.go:271-282 | With an action of the merger written in front of an escaped line, only that action and the inserted ones open. |
| ManifestTemplate.LexAction | hack/cilium-manifest/main.go:271-282 | A control action is read up to its own closing delimiter even when a brace follows it. |
| ManifestTemplate.RunLine | hack/cilium-manifest/main.go:271-282 | An escaped line with its newline prints exactly that in an active block and nothing elsewhere, whatever follows. |
| ManifestTemplate.NestedBlocks | hack/cilium-manifest/main.go:271-299 | A block inside another prints when both conditions hold. |
| ManifestTemplate.UnclosedBlock | hack/cilium-manifest/main.go:271-299 | A block that is not closed is an error for the template engine. |
| ManifestTemplate.StrayEnd | hack/cilium-manifest/main.go:271-299 | So is an end without a block. |
| ManifestMerge.LinesRoundTrip | hack/cilium-manifest/main.go:354-358 | Splitting a render and joining the lines gives the render back, trailing newline included; `Lines` itself promises that no line holds a newline. |
| ManifestMerge.LinesUnique | hack/cilium-manifest/main.go:354-358 | Any non-empty list of lines without newlines is what its joined text is split into, so the split is the only such one. |
| ManifestMerge.SortedChain | hack/cilium-manifest/main.go:263-269 | On sorted hunks the comparison of neighbours finds a clash exactly when some pair of hunks, however far apart, overlaps or touches. |
| ManifestMerge.ApartIsBag | hack/cilium-manifest/main.go:264-269 | Whether hunks clash is a property of the bag, not of the list. |
| ManifestMerge.ChainUnique | hack/cilium-manifest/main.go:263-269 | A mergeable bag has only one ordering, so the stability of the sort cannot matter. |
| ManifestMerge.SortGivesOrdering | hack/cilium-manifest/main.go:263-269 | Any sort by start gives that ordering exactly when no two hunks clash. |
| ManifestRender.PatchIsApply | hack/cilium-manifest/main.go:243-254 | Applying hunks one after the other is patching the base with them as an unordered set. |
| ManifestRender.RunHunk | hack/cilium-manifest/main.go:284-299 | The block of a hunk prints the variant's lines when its condition holds and the base lines otherwise, for insertions, deletions and replacements. |
| ManifestRender.RunBody | hack/cilium-manifest/main.go:283-306 | Under any truth assignment the template of ordered hunks prints the base with the enabled ones applied. |
| ManifestRender.MergedTemplateRenders | hack/cilium-manifest/main.go:251-307 | Main theorem: for every base, variants that merge and truth assignment, executing the template gives the base patched with exactly the hunks of the enabled variants. |
| ManifestRender.BaseRenderReproduced | hack/cilium-manifest/main.go:130-153 | With every condition false the template gives the base render back byte for byte. |
| ManifestRender.VariantRenderReproduced | hack/cilium-manifest/main.go:130-153 | With distinct conditions and only one of them true it gives that variant's render back byte for byte. |
| ManifestRender.MergeResultOfBag | hack/cilium-manifest/main.go:263-269 | The result of merging, template or error, depends only on the bag of hunks. |
| ManifestRender.VariantOrderIrrelevant | hack/cilium-manifest/main.go:255-263 | Listing the variants in another order changes neither the template nor the error. |
| ManifestRender.DiffApart | hack/cilium-manifest/main.go:258-269 | Hunks of a single diff never clash with each other. |
| ManifestRender.SingleVariantMerges | hack/cilium-manifest/main.go:264-305 | One variant never clashes and fails to merge exactly when its diff reaches the end of the base. |
| ManifestRender.InsertionTemplate | hack/cilium-manifest/main.go:284-299 | The merged template of an inserted line, word for word. |
| ManifestRender.DeletionTemplate | hack/cilium-manifest/main.go:284-299 | The same for a deleted line. |
| ManifestRender.ReplacementTemplate | hack/cilium-manifest/main.go:284-299 | The same for a replaced line. |
| ManifestRender.TouchingHunksRefused | hack/cilium-manifest/main.go:264-269 | Two variants that change no line in common and are refused because their hunks touch. |
| ManifestRender.EndOfRenderRefused | hack/cilium-manifest/main.go:302-305 | A variant that is refused because it only adds a last line. |
| ManifestTool.EmitLines | hack/cilium-manifest/main.go:277-282 | The pending prefix lands in front of the first emitted line, or stays pending when there is none. |
| ManifestTool.EmitHunk | hack/cilium-manifest/main.go:286-299 | Writing a hunk adds its block to the text, with the closing action still pending. |
| ManifestTool.SortByStart | hack/cilium-manifest/main.go:263 | A permutation sorted by start, nothing promised about equal starts. |
| ManifestTool.CollectHunks | hack/cilium-manifest/main.go:256-262 | The hunks of every variant's diff, each with its variant's condition. |
| ManifestTool.FindOverlap | hack/cilium-manifest/main.go:264-269 | The first hunk that no kept line separates from the one before it, if there is any. |
| ManifestTool.FoundIsFirst | hack/cilium-manifest/main.go:264-269 | On sorted hunks that pair clashes on the first line on which any two hunks do. |
| ManifestTool.TouchingClash | hack/cilium-manifest/main.go:264-269 | For two touching hunks the error names both conditions, in order, and the line on which they touch, counted from one. |
| ManifestTool.OrderHunks | hack/cilium-manifest/main.go:263-269 | Sorting and testing gives the one ordering of the hunks, or the error of the first clash. |
| ManifestTool.Weave | hack/cilium-manifest/main.go:275-302 | The text written plus what is pending is the template of the ordered hunks, and something is pending at the end exactly when a hunk reaches the end of the base. |
| ManifestTool.WeaveBody | hack/cilium-manifest/main.go:271-306 | The joined lines are the template, or a hunk reaches the end of the base. |
| ManifestTool.Merge | hack/cilium-manifest/main.go:255-307 | Computes the merge the theorems are about; fails exactly when two hunks of all the variants overlap or touch, or one reaches the end of the base; an overlap error names the conditions of two hunks that clash and the first line on which any two do. |
| VmAdoption.MarkerInjective | internal/controller/xomachine/vm_ops.go:568-584 | Markers of non-empty UIDs are equal exactly for equal UIDs. |
| VmAdoption.MarkersExactly | internal/controller/xomachine/vm_ops.go:568-584 | A description is a marker exactly when it is the literal prefix followed by a non-empty UID. |
| VmAdoption.FirstAdoptable | internal/controller/xomachine/vm_ops.go:610-628 | What is adopted is a listed VM with the marker (and the name), and nothing is adopted exactly when no listed VM has both. |
| VmAdoption.AdoptableVM | internal/controller/xomachine/vm_ops.go:614-628 | The loop returns the first entry with the marker and, when a name is given, that name; it returns one exactly when there is such an entry and the marker is not empty. |
| VmAdoption.ForeignVMCount | internal/controller/xomachine/naming.go:121-133 | The loop counts the positions that hold exactly the name without the marker of the machine. |
| VmAdoption.ForeignOrOwn | internal/controller/xomachine/naming.go:117-133 | All listed VMs are foreign exactly when all carry the name and none is adoptable. |
| VmNaming.MachineID | internal/controller/xomachine/naming.go:38-57 | The loop and the switch cut a name to its suffix exactly in the recognized shapes. |
| VmNaming.IdExactly | internal/controller/xomachine/naming.go:24-57 | The ID is the last five characters exactly when they are from the random alphabet and follow a dash, or are the whole name, or end a name of 63 characters; else it is the name. |
| VmNaming.SharedId | internal/controller/xomachine/naming.go:24-57 | Two names share an ID exactly when they are equal or both end with the same recognized suffix. |
| VmNaming.SharedIdExample | internal/controller/xomachine/naming.go:36-37 | Two different names that share an ID. |
| VmAddress.WithNodeAddressProperties | internal/controller/xomachine/vm_ops.go:787-817 | Recording an address keeps every other entry, records a non-empty address, and never turns a usable list into an unusable one. |
| VmAddress.AddressStatus.SetNodeAddress | internal/controller/xomachine/vm_ops.go:798-817 | The in-place edit, and the answer whether it changed anything. |
| VmAddress.NodeIPv4Exactly | internal/controller/xomachine/vm_ops.go:745-758 | An address is usable exactly when it holds a dot and starts with neither link-local prefix. |
| VmAddress.FirstUsable | internal/controller/xomachine/vm_ops.go:721-726 | A picked address was reported, is a usable IPv4 address, and no usable one comes before it; none is picked exactly when none is usable. |
| VmAddress.ResolveVMIPNow | internal/controller/xomachine/vm_ops.go:767-785 | Every non-empty result is a usable address that was reported. |
| VmAddress.LookupsFitDeadline | internal/controller/xomachine/vm_ops.go:712-741 | With these waits a lookup can start before the deadline exactly when it is among the first 18. |
| VmAddress.ResolveVMIP | internal/controller/xomachine/vm_ops.go:698-743 | The retry loop ends after at most 18 lookups, returns the first usable address any lookup reports, and gives up exactly at the first wait that is cancelled or reaches the deadline. |
| MachineSafety.LocalStepKeepsMachine | internal/controller/xomachine_reconcile.go:194-277 | No step on an object, conflicting or lost writes included, rewrites a VM name, loses a providerID or readiness, or leaves a worker with a copy it did not read. |
| MachineSafety.LocalStepKeepsLink | internal/controller/xomachine/vm_ops.go:531-566 | Nor does it record a VM that was not made for the machine, and the status half of saveProviderID is reached only with the ID in the spec. |
| MachineRuns.NothingMade | internal/controller/xomachine/vm_ops.go:65-81 | An accurate lookup that finds nothing proves that no VM was ever made for the machine. |
| MachineRuns.CreateKeepsLink | internal/controller/xomachine/vm_ops.go:82-101 | A create makes a second VM only after a failed lookup. |
| MachineRuns.DeleteInv | internal/controller/xomachine_reconcile.go:541-551 | Deleting a machine's VM leaves the VMs of all other machines to them. |
| MachineRuns.RunInv | internal/controller/xomachine_reconcile.go:65-192 | The invariant holds in every state of every run. |
| MachineTheorems.AtMostOneVm | internal/controller/xomachine/vm_ops.go:65-101 | In every run the VMs ever made with a machine's marker are at most one more than the creates issued after a failed lookup, so at most one without such creates; `MachineDuplicates.SecondVmExactly` is exact. |
| MachineDuplicates.SecondByCreate | internal/controller/xomachine/vm_ops.go:73-82 | A create that takes effect where there is a VM already was issued after a failed lookup. |
| MachineDuplicates.SecondVmExactly | internal/controller/xomachine/vm_ops.go:65-101 | In every run at most one VM ever carries a machine's marker, unless at some step a create took effect after a failed lookup although there was a VM already; and exactly then there are two. |
| MachineDuplicates.ProviderIdStays | internal/controller/xomachine/vm_ops.go:531-566 | Without such a step a recorded providerID never changes. |
| MachineDuplicates.ProviderIdChangesExactly | internal/controller/xomachine/vm_ops.go:549-564 | A recorded providerID changes exactly when a save that holds another VM is accepted over it. |
| MachineTheorems.ProviderIdNeverChanges | internal/controller/xomachine/vm_ops.go:531-566 | A recorded providerID names the same VM for ever after, as long as no second VM is made for the machine. |
| MachineTheorems.RecordedVmIsOwn | internal/controller/xomachine/vm_ops.go:568-628 | Every VM a machine records was created with its own marker, and two machines never record the same VM. |
| MachineTheorems.VmNameWriteOnce | internal/controller/xomachine_reconcile.go:252-277 | A recorded VM name never changes, whatever was read and however the naming changed. |
| MachineTheorems.CreateCarriesRecordedName | internal/controller/xomachine_reconcile.go:252-277 | Every create ever sent carries the name already persisted for its machine, and the machine's marker. |
| MachineTheorems.ReadyIsComplete | internal/controller/xomachine_reconcile.go:348-488 | A ready machine has a providerID in its spec and its status, is provisioned, has a non-empty InternalIP, and stays so, address refreshes included. |
| MachineTheorems.AnyReadIsSound | internal/controller/xomachine_reconcile.go:475-485 | The same holds for every version any reader may still see. |
| MachineTheorems.IdsAgree | internal/controller/xomachine/vm_ops.go:531-566 | As long as at most one VM was made for a machine, the two recorded IDs are equal in every version that has the one of the status. |
| MachineWrites.AcceptedSave | internal/controller/xomachine/vm_ops.go:531-566 | An accepted write of saveProviderID puts its VM into the spec, or into the status, on the retry after a conflict as well, and changes nothing else. |
| MachineWrites.AcceptedWrite | internal/controller/xomachine_reconcile.go:194-277 | Any other accepted write changes what it is named after and nothing else; one that makes the machine ready records the resolved address as its only one, and a refresh has the address in the list. |
| MachineWrites.AfterOk | internal/controller/xomachine_reconcile.go:65-192 | Where the worker goes after each accepted write, holding the object the server answered. |
| MachineWrites.AfterConflict | internal/controller/xomachine/vm_ops.go:533-564 | A conflict comes exactly from an old version; the finalizer and both halves of saveProviderID are tried once more, after a read. |
| MachineWrites.AfterReadAgain | internal/controller/xomachine/vm_ops.go:538-543 | The retry saves the same VM to the version that was read again. |
| MachineWrites.AnyAnswer | internal/controller/xomachine_reconcile.go:194-277 | Every answer that fits the version of the worker is possible for every write. |
| MachineWrites.ReadStarts | internal/controller/xomachine_controller.go:53-67 | A reconcile starts with the deletion, if this provider has a finalizer to drop, else with its own finalizer. |
| MachineWrites.PathChosen | internal/controller/xomachine_reconcile.go:65-192 | A machine with a providerID never looks for a VM, and one without looks for it only under a recorded name. |
| MachineWrites.AccurateExactly | internal/controller/xomachine/vm_ops.go:601-612 | A listing is complete for the VMs whose name contains the filter, correct for all it lists, and free in the rest. |
| MachineWrites.LookupDoes | internal/controller/xomachine/vm_ops.go:65-101 | A VM is adopted exactly when a listed one has the marker and the name; when there is none a create follows, unless one was tried before. |
| MachineWrites.CreateDoes | internal/controller/xomachine/vm_ops.go:82-101 | A create asks for the recorded name and the marker, and an answered one goes on with the VM it made. |
| MachineWrites.AnyCreate | internal/controller/xomachine/vm_ops.go:82-101 | A create may take effect under any new ID, answered or not, or fail without an effect. |
| MachineWrites.AnyDelete | internal/controller/xomachine_reconcile.go:541-551 | A delete may remove the VM whatever it answers; success, a 404 and the quirk let the deletion go on, any other error ends the reconcile. |
| MachineWrites.OthersMayTouchOwn | internal/controller/xomachine/vm_ops.go:586-628 | The assumption about other users leaves them free to edit or remove a VM once its machine has read its providerID or its deletion. |
| MachineWrites.AddressWasGiven | internal/controller/xomachine/vm_ops.go:787-912 | In every run each address in any version of an object is an InternalIP that an earlier accepted write was given. |
| MachineTheorems.BlindCreateDuplicates | internal/controller/xomachine/vm_ops.go:601-606 | A run in which one failed lookup leads to two VMs with one marker. |
| MachineTheorems.BlindCreateReplacesProviderId | internal/controller/xomachine/vm_ops.go:539-562 | A run in which a recorded providerID is replaced by that of a second VM, after a lost answer, a stale read and one failed lookup. |
| MachineTheorems.DeletionCanOrphan | internal/controller/xomachine_reconcile.go:497-556 | A run in which a machine without a providerID is deleted while its VM stays. |
| MachineFinalizer.LocalStepKeepsFinalizer | internal/controller/xomachine_reconcile.go:194-216 | No step on an object, stale reads and conflicting writes included, drops the finalizer from a version that is not cleared for it: the write is based on the persisted version or refused. |
| MachineFinalizer.RunFinalizers | internal/controller/xomachine_reconcile.go:490-570 | That holds in every state of every run: the finalizer is there before anything is provisioned, and goes only from a cleared object. |
| MachineFinalizer.AnsweredIsGone | internal/controller/xomachine_reconcile.go:541-551 | When a delete is taken for done, the VM is not there, except for the bare-task quirk. |
| MachineFinalizer.ExcusedInPass | internal/controller/xomachine_reconcile.go:497-518 | A pass that may drop the finalizer without a delete went on, itself, without a usable providerID or a client. |
| MachineFinalizer.FinalizerGoesLast | internal/controller/xomachine_reconcile.go:490-570 | In every run, if a machine is gone and its object recorded a VM, then before the step in which it went a delete of that very VM was answered with success, a 404 or the quirk, or that very pass had gone on without a usable providerID or a client. |
| MachineFinalizer.DeletionLeavesNothing | internal/controller/xomachine_reconcile.go:497-556 | When the pass that dropped the finalizer had a usable providerID and a client wherever one was recorded, and at most one VM was ever made, the delete of every VM of a machine that is gone was accepted exactly when the object recorded a VM or none was ever made. |
| MachineProgress.CanBecomeReady | internal/controller/xomachine_reconcile.go:65-192 | From every reachable state, whatever was lost before, a machine that is not being deleted can become ready without a failed lookup. |
| MachineProgress.CanBeDeleted | internal/controller/xomachine_reconcile.go:490-570 | From every reachable state a machine with its finalizer can be deleted, with the VM it recorded removed and its delete accepted. |
| MachineDeletion.HardShutdownVM | internal/controller/xomachine/vm_ops.go:435-462 | It reports success exactly when the answers to the shutdown and to its task confirm it. A shutdown is issued for this VM and no other; without faults the VM, if there is one, is halted afterwards. |
| MachineDeletion.StopVMIfNotDetachable | internal/controller/xomachine/vm_ops.go:473-495 | A shutdown is issued exactly for a VM found paused or suspended, and it asks for a retry exactly when the read fails or such a shutdown is not confirmed. Without faults a paused or suspended VM is halted afterwards and any other is as before; no running VM is shut down with a volume attached. |
| MachineDeletion.TagExactly | internal/controller/xomachine/vm_ops.go:345-349 | A tag marks a persistent volume exactly when it is the literal prefix followed by any text. |
| MachineDeletion.Inventory.VolumesAreTagged | internal/controller/xomachine/vm_ops.go:374-387 | A disk is a persistent volume exactly when one of its tags has that form; the promises below about volumes are about such disks. |
| MachineDeletion.DetachPersistentVolumes | internal/controller/xomachine/vm_ops.go:374-429 | When it reports success the VM is gone or no persistent volume is attached to it but those that others attached during the pass; VBDs of disks without the tag are never removed; it asks for a retry exactly when a call is refused. |
| MachineDeletion.DetachListed | internal/controller/xomachine/vm_ops.go:403-428 | So does the loop over the listed VBDs, in any order and with others acting after each removal. |
| MachineDeletion.NoVolumeDisks | internal/controller/xomachine/vm_ops.go:377-387 | An empty list of tagged disks means that no VBD attaches a persistent volume. |
| MachineDeletion.ReleaseVolumes | internal/controller/xomachine_reconcile.go:520-533 | Stopping and detaching leave the VM gone or without a persistent volume but those attached by others during the pass; without faults they succeed from any of the four power states. |
| MachineDeletion.ShutDownAndDelete | internal/controller/xomachine_reconcile.go:535-551 | The delete that follows destroys no other volume, even when the shutdown fails; without faults the VM is halted when it is deleted. |
| MachineDeletion.DeleteMachineVm | internal/controller/xomachine_reconcile.go:520-551 | Every persistent volume that is destroyed, and every one attached when the delete is issued, was attached by others during this very pass; success means the VM is gone or its delete was accepted; a retry means that a read, a removal or the delete was refused or that a paused VM was not stopped; no other VM is touched. |
| MachineDeletion.ReconcileDelete | internal/controller/xomachine_reconcile.go:490-570 | With a providerID that names a VM and a client, the finalizer is dropped only once the VM is gone or its delete was accepted, and success means that it is dropped; when no connection can be made it stays; without them no call is made. From any power state one fault-free pass completes, keeps every disk with a volume tag, shuts no VM down with a volume attached while it runs, and deletes it halted. |
| MachineDeletion.DeletionRun | internal/controller/xomachine_reconcile.go:490-570 | Over any number of passes with arbitrary faults and crashes every disk with a volume tag that is destroyed was attached by others during one of these passes, only VBDs of such disks of this VM are removed, and no other VM is stopped or deleted; without faults one pass with a connection drops the finalizer. |
| ClusterEndpoint.DiscoverControlPlaneEndpoint | internal/controller/xocluster_controller.go:264-305 | The loop returns the endpoint of the first machine that offers one, none before it offering any. |
| ClusterEndpoint.OfferExactly | internal/controller/xocluster_controller.go:264-305 | A machine offers an endpoint exactly when it is a ready XOMachine of the cluster with an InternalIP or ExternalIP, and then the first such address at port 6443. |
| ClusterEndpoint.DiscoveredEndpointHasHost | internal/controller/xocluster_controller.go:264-305 | For machines read as any version of any protocol run, an endpoint is found exactly when a ready control plane machine of the cluster was read, and its host is never empty. |
| ClusterEndpoint.ClusterStatus.SettleEndpoint | internal/controller/xocluster_controller.go:112-132 | The endpoint afterwards, when a requeue is asked for, and when a failed listing ends the reconcile without a change. |
| ClusterEndpoint.ClusterStatus.Reconcile | internal/controller/xocluster_controller.go:112-140 | The whole status afterwards, the Ready condition included. |
| ClusterEndpoint.EndpointWriteOnce | internal/controller/xocluster_controller.go:106-146 | With fresh reads a persisted endpoint never changes over any run, host, port and subnet; a ready cluster has one and stays ready; and the Ready condition is True exactly when the cluster is ready. |
| ClusterEndpoint.MergeMoves | internal/controller/xocluster_controller.go:142 | A merge patch of the endpoint changes what is persisted exactly when a field is written that differs. |
| ClusterEndpoint.MergeExactly | internal/controller/xocluster_controller.go:142 | The merge patch of an endpoint, case by case: unchanged, dropped, merged field by field, sent whole, or refused without a host or a port. |
| ClusterEndpoint.PatchedFields | internal/controller/xocluster_controller.go:142 | Of the other fields those that the reconcile left as it read them stay as they are persisted. |
| ClusterEndpoint.StaleReadMovesEndpoint | internal/controller/xocluster_controller.go:142 | The reconcile changes a persisted endpoint exactly when it had read none with a host and finds one whose host, port or subnet differs both from what was read and from what is persisted. |
| ClusterEndpoint.StaleReadExample | internal/controller/xocluster_controller.go:142 | Two such cases: another host, and another port of the same host. |
| ClusterConditions.ReconcileNormal | internal/controller/xocluster_controller.go:112-168 | What is written does not depend on the credentials; nothing is written when a listing that is needed fails, else one write is sent; a requeue, the credentials error and going on each have their exact cause; when the credentials cannot be resolved the condition that says so is set in memory, on top of what was written. |
| ClusterConditions.WrittenCondition | internal/controller/xocluster_controller.go:133-140 | The condition that is written says whether there is an endpoint, with the reason and message for it. |
| ClusterConditions.CredentialsNeverPersisted | internal/controller/xocluster_controller.go:162-168 | In every run, stale reads included, no persisted Ready condition ever gives that reason. |
| ClusterConditions.CredentialsOnlyInMemory | internal/controller/xocluster_controller.go:162-168 | The copy in memory does give it. |
| Conditions.ConditionList.SetCondition | internal/controller/xomachine/status.go:24-44 | The edit through a pointer leaves the list of the specification. |
| Conditions.ConditionList.SetClusterCondition | internal/controller/xocluster_controller.go:690-711 | So does the XOCluster variant, so the two agree. |
| Conditions.FindAfterSet | internal/controller/xomachine/status.go:22-44 | A call changes the condition of its own type only, and no type ever occurs twice. |
| Conditions.TransitionTime | internal/controller/xomachine/status.go:22-44 | The time of a condition is the time of the call exactly when the status changed or the type is new; every other entry stays in its place. |
| Conditions.HistoryRecorded | internal/controller/xomachine/status.go:22-44 | After any calls on an empty list each type has the status, reason and message of its last call and the time of the latest call that changed its status. |
| MainDisk.DiskOrderIsPreorder | internal/controller/xomachine/vm_ops.go:313-331 | Total, transitive, and zero exactly for equal keys, whenever the differences of the positions fit 64 bits. |
| MainDisk.DiskOrderExactly | internal/controller/xomachine/vm_ops.go:313-331 | Lower positions first, a disk with a position before one without, then the device names as in a dictionary. |
| MainDisk.CompareIsDictionary | internal/controller/xomachine/vm_ops.go:329-331 | The comparison of names goes by the first character that differs, or by the shorter name. |
| MainDisk.DecimalParses | internal/controller/xomachine/vm_ops.go:333-343 | Decimal numbers are read as positions, with either sign, exactly when they fit 64 bits. |
| MainDisk.OnlyDecimalsParse | internal/controller/xomachine/vm_ops.go:333-343 | Nothing but digits after an optional sign is read. |
| MainDisk.DiskOrderOverflows | internal/controller/xomachine/vm_ops.go:319-322 | Two positions come out in their own order exactly when their difference fits 64 bits. |
| MainDisk.DiskOrderOverflowExample | internal/controller/xomachine/vm_ops.go:319-322 | Two positions that come out the wrong way round. |
| MainDisk.FindMainDisk | internal/controller/xomachine/vm_ops.go:274-300 | The two loops compute the specified choice. |
| MainDisk.MainDiskIsEligible | internal/controller/xomachine/vm_ops.go:268-300 | Among two or more disks the choice is never a CD or config drive, and there is none exactly when all are such. |
| MainDisk.ChoiceIsCandidate | internal/controller/xomachine/vm_ops.go:268-300 | The choice is a bootable eligible disk, or without one an eligible disk that no other precedes; there is none only if there is no such disk. |
| MainDisk.ChoiceIsFirstLowest | internal/controller/xomachine/vm_ops.go:286-300 | Without a bootable disk the choice is the first in the list of those that no other precedes. |
| MainDisk.ConfigDriveExactly | internal/controller/xomachine/vm_ops.go:268-284 | A config drive is a disk whose name label holds one of the two names in any case. |
| MainDisk.MainDiskOfAnyOrder | internal/controller/xomachine/vm_ops.go:268-300 | Every order of the API's answer gives the same disk exactly when at most one disk qualifies. |
| MainDisk.DistinctKeysSuffice | internal/controller/xomachine/vm_ops.go:268-300 | At most one bootable disk and distinct keys are enough for that. |
| CloudConfig.MergeSSHKeys | internal/bootstrap/cloudinit.go:62-106 | The loops over the parsed list and the keys give the merged document of the specification. |
| CloudConfig.MissingAddsOnce | internal/bootstrap/cloudinit.go:89-94 | Each missing key is added once, everything else occurs as often as before. |
| CloudConfig.KeysInOrder | internal/bootstrap/cloudinit.go:89-94 | Keys are added in their order, one after the other. |
| CloudConfig.MergeKeepsPrefix | internal/bootstrap/cloudinit.go:60-98 | The existing list stays as a prefix, every key ends up in the list, and the rest of the document is untouched. |
| CloudConfig.MergeIdempotent | internal/bootstrap/cloudinit.go:60-98 | Merging the same keys again changes nothing. |
| CloudConfig.InjectAroundKubeadm | internal/kubevip/inject.go:100-121 | The search loop and the appends give the list of the specification. |
| CloudConfig.KubeadmExactly | internal/kubevip/inject.go:100-112 | A command runs kubeadm exactly when it is a text that contains one of the two commands. |
| CloudConfig.Inject | internal/kubevip/inject.go:54-98 | The edits in place give the document of the specification; they succeed exactly without any text or when a command of the document runs kubeadm. |
| CloudConfig.InjectionSucceeds | internal/kubevip/inject.go:54-98 | Injection succeeds exactly without any text or when the runcmd list of the document holds a kubeadm command, panics exactly on a text without a map, and misses runcmd exactly when the document has no such list. |
| CloudConfig.InjectedDocument | internal/kubevip/inject.go:66-98 | The files are the old list followed by the two scripts, the commands are the old list with the two around kubeadm, and every other section is unchanged. |
| CloudConfig.InjectionFails | internal/kubevip/inject.go:100-112 | A list of commands is refused exactly when none of them runs kubeadm. |
| CloudConfig.InjectionSurrounds | internal/kubevip/inject.go:100-121 | The two commands stand directly around the first kubeadm command, and taking them out gives the old list back. |
| CloudConfig.EnrichmentsCommute | internal/bootstrap/cloudinit.go:62-106 | The two enrichments commute, failures included, exactly when the document is a map or there are no keys. |
| XoStrings.ExtractionExact | internal/controller/xomachine/xo_compat.go:32-48 | A path is extracted exactly from the messages that carry it: after the last marker, bare or between quotes, up to the first closing parenthesis. |
| XoStrings.FailsWithoutMarker | internal/controller/xomachine/xo_compat.go:32-38 | Without the marker there is no path, and that is the error. |
| XoStrings.FailsAfterMarker | internal/controller/xomachine/xo_compat.go:38-48 | After the last marker it fails exactly without a closing parenthesis, or with nothing but quotes before the first one; each has its own error. |
| XoStrings.PathRoundTrip | internal/controller/xomachine/xo_compat.go:29-48 | A path with no closing parenthesis, outer quote or marker comes back from any message whose tail has no second marker, quoted or bare. |
| XoStrings.FilterReadsBack | internal/controller/xomachine/naming.go:107-115 | For every name the value of the filter ends at its first unescaped quote, which is its last character, and reads back as the name. |
| XoStrings.FilterInjective | internal/controller/xomachine/naming.go:107-115 | Different names give different filters. |

## Left out

- MachineTheorems.ProviderIdNeverChanges: says nothing once a second VM was made; `MachineDuplicates.ProviderIdChangesExactly` does.
- MachineTheorems.AtMostOneVm: counts every create after a failed lookup, also one without an effect; `MachineDuplicates.SecondVmExactly` does not.
- MachineDeletion.ReconcileDelete: one pass over one unversioned copy of the object; stale reads, conflicting writes and repeated passes are in `MachineFinalizer.FinalizerGoesLast`.
- MachineDeletion.DetachPersistentVolumes: the volume tag of a disk and what a VBD attaches are fixed for the run.
- ClusterEndpoint.ClusterStatus.Reconcile: what follows the status write is in `ClusterConditions.ReconcileNormal` up to the credentials; the addons are not modelled.
- CloudConfig.MergeSSHKeys: starts from the parsed document; YAML parsing and printing, and their errors, are left out.
- MainDisk.DiskOrderIsPreorder: `strings.ToLower` in the drive test is modelled for ASCII letters.
- VmAddress.ResolveVMIP: time passes only in lookups and waits, in whole milliseconds.
- The header of the manifest, the sentinels of the API server endpoint, running Helm and writing files. The header's `-}}` trims blanks at the start of the body, so the theorems speak of the body alone.
- Template actions other than `if`, `if not`, `else`, `end` and quoted brace runs.
- The creation protocol is a relation over remote calls, not a set of methods: the methods of the source are interrupted, interleaved and restarted at every call, which a method contract cannot say.
- Telling 404 and unmarshal errors by their text: errors are a datatype assumed exact.
- The contents of conditions inside the protocol: their writes are there, as writes that may conflict.
- Finalizers of other controllers, and the pool part of a providerID.
- The nil entries of a VM listing.
- The V1 calls around a create: disk resize, CPUs, boot order, tags, network interfaces.
- Credentials, connection, bootstrap data, templates, pools and IPAM, except as reasons to stop.
- Whole VM names: prefixes and the distribution part are straight printing.
- Addons, events, watches and logging.
