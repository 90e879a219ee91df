# Local-archive writer of cosign, in Dafny

This project models the writer in `pkg/oci/layout/write.go` of cosign. The writer copies a signed
container image, or a signed image index, into a local archive in the OCI Image Layout format, together
with the entity's side-artifacts: its signatures, its attestations and its `"sbom"` attachment.

The model works at these levels:

- **Archive** (`archive.dfy`). A `Disk` class holds the layouts on a file system as
  `layouts: map<string, seq<Entry>>`, keyed by the path string as the caller gave it (a `layout.Path` names a directory).
  Each layout is an append-only sequence of entries. Every entry carries a kind annotation (`Image`,
  `ImageIndex`, `Signatures`, `Attestations`, `Sboms`), an image-ref annotation and an opaque payload.
  The collaborators `layout.FromPath`, `layout.Write(path, empty.Index)` and `AppendImage`/`AppendIndex`
  are members of `Disk`. Their failures come from a `Faults` value supplied by the caller. `Related` is how
  a reader finds the entries of one image ref.
- **References** (`references.dfy`). A reference is `Nil` or a `(registry, name)` pair. `GetImageRef`
  strips one leading `"<registry>/"`.
- **Entity** (`entity.dfy`). A signed entity has three getters. `Signatures()` and `Attestations()` yield
  `Err` or `Ok(Listing)`. A `Listing` is what `Get()` returns: a list that may be nil, plus an error flag.
  `Attachment(name)` yields `Err` or `Ok(blob)`, and a missing name gives `NotFound`. `IsEmpty` holds only
  of a nil list.
- **Writer** (`layout_write.dfy`). `WriteSignedImage`, `WriteSignedImageIndex`, `WriteSignedEntity` and
  `AppendImage` are imperative methods on a `Disk`. They follow the source's early returns. Each is proved
  to change `disk.layouts` exactly as a function of `WriteSpec` says (`write_spec.dfy`), and to return
  what that function says.
- **Properties** (`write_properties.dfy`). Lemmas about those functions, covering both write paths:
  - when a call succeeds, and exactly what it appends;
  - the order of entries;
  - the shared image ref;
  - the error paths, and the lack of rollback;
  - the swallowed sbom lookup;
  - append-only behaviour, and duplication when a call is repeated.

One might expect the image ref never to start with `"<registry>/"` when the full name does.
`strings.TrimPrefix` removes only one copy, so the name `"r/r/x"` with registry `"r"` gives `"r/x"`.
`References.StripsOnlyOnce` records this case.

## Model

| member | source | states |
|---|---|---|
| References.GetImageRef | pkg/oci/layout/write.go:125-133 | fails exactly on a nil reference, with NilReference; if the full name starts with `registry + "/"` then `registry + "/" + result == name`, otherwise the result is the name unchanged; the result is always a suffix of the name |
| References.TrimPrefix | pkg/oci/layout/write.go:131 | removes one leading prefix when present (prefix + result == s), otherwise returns s unchanged |
| References.ImageRefOfComposedName | pkg/oci/layout/write.go:129-132 | round trip: the image ref of the name `registry + "/" + relative` is `relative` |
| References.StripsOnlyOnce | pkg/oci/layout/write.go:129-132 | only one registry prefix is stripped: `("r", "r/r/x")` gives `"r/x"`, which still starts with `"r/"` |
| Entity.IsEmpty | pkg/oci/layout/write.go:110-113 | holds exactly of a nil list, whatever error Get() reported and even for a non-nil list of length zero; what this means for the write calls is proved in `ExpectedKinds` and `SideEntriesOnSuccess` |
| Archive.Probe | pkg/oci/layout/write.go:33-34 | opening a layout succeeds only when one is present and no fault occurs; "does not exist" is reported exactly when none is present and no other fault occurs |
| Archive.Disk.FromPath | pkg/oci/layout/write.go:33 | layout.FromPath on the disk: succeeds iff a layout is at the path and no fault is injected; NotExist iff none is there and no fault |
| Archive.Disk.Write | pkg/oci/layout/write.go:36 | layout.Write with an empty index: on success the path holds an empty layout, on failure nothing changes and the fault is returned |
| Archive.Disk.Append | pkg/oci/layout/write.go:65 | AppendImage/AppendIndex: on success exactly one entry is added at the end of the layout at the path, on failure nothing changes |
| Archive.Related | pkg/oci/layout/write.go:120-122 | the entries a reader finds for an image ref: no more of them than the layout holds, each one in the layout and carrying that image-ref annotation; that they keep the layout's order follows from `RelatedAppend` |
| Archive.RelatedAppend | pkg/oci/layout/write.go:120-122 | looking up an image ref in a concatenation looks it up in each part |
| Archive.RelatedAll | pkg/oci/layout/write.go:120-122 | a run of entries that all carry the image ref is found whole |
| WriteSpec.AppendEffect | pkg/oci/layout/write.go:120-122 | one backend append succeeds iff no fault is injected for its kind; it adds the entry on success and nothing on failure |
| WriteSpec.AppendImageEffect | pkg/oci/layout/write.go:115-123 | appendImage fails with NilReference and appends nothing on a nil reference; it succeeds iff the reference is non-nil and the append works, and then adds one entry with the given kind and the reference's image ref |
| WriteSpec.SignaturesEffect | pkg/oci/layout/write.go:76-84 | the signatures step appends at most one entry, of kind Signatures, with the reference's image ref, and none for a nil reference |
| WriteSpec.AttestationsEffect | pkg/oci/layout/write.go:87-95 | the attestations step appends at most one entry, of kind Attestations, with the reference's image ref |
| WriteSpec.SbomEffect | pkg/oci/layout/write.go:99-105 | the sbom step appends at most one entry, of kind Sboms, with the reference's image ref |
| WriteSpec.EntityEffect | pkg/oci/layout/write.go:74-107 | writeSignedEntity appends at most three entries, and none for a nil reference |
| WriteSpec.EntityEffectIsSideBatch | pkg/oci/layout/write.go:80-105 | the side entries come in the order signatures, attestations, sbom; each kind appears at most once; all carry the reference's image ref |
| WriteSpec.ImageEffect | pkg/oci/layout/write.go:42-46 | after opening, WriteSignedImage appends nothing or starts with the image entry annotated with the image ref; success always appends something |
| WriteSpec.IndexEffect | pkg/oci/layout/write.go:60-71 | after opening, WriteSignedImageIndex appends nothing or starts with the index entry annotated with the image ref; success always appends something |
| WriteSpec.OpenStep | pkg/oci/layout/write.go:33-40 | an existing layout is opened; a missing one is created when the create works; any other open error, or a create error, aborts with that error |
| WriteSpec.Finish | pkg/oci/layout/write.go:38-40 | when the open step fails, the call appends nothing and returns an error |
| WriteSpec.ImageOutcome | pkg/oci/layout/write.go:32-47 | a successful WriteSignedImage leaves a layout at the path, had a non-nil reference and appended between 1 and 4 entries |
| WriteSpec.IndexOutcome | pkg/oci/layout/write.go:50-72 | a successful WriteSignedImageIndex leaves a layout at the path, had a non-nil reference and appended between 1 and 4 entries |
| LayoutWrite.WriteSignedImage | pkg/oci/layout/write.go:32-47 | the method returns ImageOutcome's result and leaves exactly ImageOutcome's layouts: old entries, then the appended ones; other path strings untouched |
| LayoutWrite.WriteSignedImageIndex | pkg/oci/layout/write.go:50-72 | the method returns IndexOutcome's result and leaves exactly IndexOutcome's layouts |
| LayoutWrite.WriteSignedEntity | pkg/oci/layout/write.go:74-107 | the method returns EntityEffect's result and extends the layout at the path by exactly EntityEffect's entries |
| LayoutWrite.AppendImage | pkg/oci/layout/write.go:115-123 | the method returns AppendImageEffect's result and extends the layout by exactly its entries |
| WriteProperties.SideArtifacts | pkg/oci/layout/write.go:74-113 | writeSignedEntity succeeds iff both getters succeed and every append the entity calls for works; it then appends the non-empty signatures, the non-empty attestations and the sbom if found, in that order |
| WriteProperties.SignaturesStep | pkg/oci/layout/write.go:76-84 | the signatures step succeeds iff Get() succeeds and, for a non-empty list, its append works; on success it has appended the list exactly when the list is non-nil; on failure it has appended nothing |
| WriteProperties.AttestationsStep | pkg/oci/layout/write.go:87-95 | a Get() error gives the bare "getting atts" error and appends nothing; otherwise the step succeeds iff the append of a non-empty list works, and on success it has appended the list exactly when it is non-nil; a failed step appends nothing |
| WriteProperties.SbomStep | pkg/oci/layout/write.go:99-105 | the sbom step fails only when the sbom is found and its append fails, with that error wrapped; on success it has appended the sbom exactly when the lookup succeeded; a failed step appends nothing |
| WriteProperties.Decompose | pkg/oci/layout/write.go:43-71 | a call that gets past its primary append appends the primary entry followed by writeSignedEntity's entries and returns its result; any other call appends nothing and fails |
| WriteProperties.SuccessfulWrite | pkg/oci/layout/write.go:32-107 | both writes succeed exactly when the open, the reference, the primary append and the side-artifact step all succeed, and then append exactly the expected entries |
| WriteProperties.ExpectedKinds | pkg/oci/layout/write.go:110-113 | the expected entries include signatures (or attestations) iff Get() yields a non-nil list, and include the sbom iff its lookup succeeds |
| WriteProperties.SideEntriesOnSuccess | pkg/oci/layout/write.go:80-103 | on success, a Signatures or Attestations entry is present iff Get() yielded a non-nil list, including a zero-length one and whatever error Get() reported; a Sboms entry is present iff the lookup succeeded |
| WriteProperties.NilReferenceAppendsNothing | pkg/oci/layout/write.go:43-44 | a nil reference fails both writes and leaves the entries at the path unchanged; the image path reports it wrapped, the index path (lines 61-64) unwrapped |
| WriteProperties.SignaturesReadFailure | pkg/oci/layout/write.go:76-79 | a signatures read error fails the call, wrapped with its cause, and the primary entry already appended stays |
| WriteProperties.AttestationsReadFailure | pkg/oci/layout/write.go:87-90 | an attestations read error fails the call with a message that drops the cause; no attestation or sbom entry is appended, while the primary and signatures stay |
| WriteProperties.SbomLookupFailureInEntity | pkg/oci/layout/write.go:99-102 | with a failed sbom lookup, writeSignedEntity does exactly what it does for an entity without attachments, and appends no Sboms entry |
| WriteProperties.SbomLookupFailureSwallowed | pkg/oci/layout/write.go:99-102 | a failed sbom lookup, whatever its error, gives the same outcome as an entity with no attachments, and no Sboms entry |
| WriteProperties.SbomAppendFailureReported | pkg/oci/layout/write.go:103-105 | a found sbom whose append fails makes the call fail with that error wrapped, after all expected entries except the sbom were appended |
| WriteProperties.FailureIsStrictPrefix | pkg/oci/layout/write.go:33-105 | no rollback: when both reads succeed, a failed call with a non-nil reference appends a proper prefix of what a successful call appends. Once the primary is written, that prefix is exactly the expected entries whose appends had no fault, and it ends just before the first expected entry whose append fails (the signatures, attestations or sbom append). A failed open or primary append leaves nothing. The read failures are covered by `SignaturesReadFailure` and `AttestationsReadFailure`, and a nil reference, which fails with nothing appended, by `NilReferenceAppendsNothing` |
| WriteProperties.SideFailureStops | pkg/oci/layout/write.go:76-105 | a failing writeSignedEntity (both reads succeeding) has appended the expected side entries in front of its first faulty append, each without a fault, and stops there |
| WriteProperties.AppendOnly | pkg/oci/layout/write.go:65 | no call removes or rewrites entries: the writer only appends (here, and through appendImage at line 120), so each existing layout keeps its entries as a prefix, and the layouts at other path strings are unchanged |
| WriteProperties.WriteRepeats | pkg/oci/layout/write.go:65 | repeating a successful write appends the same entries a second time (no deduplication) |
| WriteProperties.ReaderFindsBatch | pkg/oci/layout/write.go:120-122 | entries appended with one image ref are found whole after the earlier ones for that image ref |
| WriteProperties.CallIsBatch | pkg/oci/layout/write.go:43-105 | a successful call appends 1 to 4 entries: the primary first, then signatures, attestations and sbom in that order, each at most once, all with the same image ref |
| WriteProperties.WrittenEntitiesAreFound | pkg/oci/layout/write.go:66 | after a successful write, looking up the reference's image ref finds everything the call appended, after what was there before |

## Left out

- Paths are compared as strings and are not normalised, because the writer hands them to
  `layout.FromPath` and `layout.Write` as given. `out`, `out/` and `./out` name one directory but are three
  keys of `Disk.layouts`. So "other paths untouched" (`AppendOnly`, the write methods) holds for path
  strings, and for directories only when the other path names a different directory.
- The getters of the signed entity (`Signatures()`, `Attestations()`, `Attachment(name)`) belong to
  the `oci` package, which is not part of this model. They are fields of `SignedEntity`. `Attachment` is a
  map lookup that gives `Err(NotFound)` for a name the map lacks.
- `cmd/cosign/cli/remote_load.go` is not part of this model. That file holds command wiring, reference
  parsing, the network fetch, platform narrowing and forwarding to remote-registry writers.
- The on-disk OCI layout is not modelled: `index.json`, blobs, digests and hashing. An append is an opaque
  addition of `(kind, image ref, payload)` to a sequence.
- A failed append is modelled as adding nothing. A real backend can leave orphan blobs when it fails
  after writing blobs but before updating the index.
- Collaborator failures are inputs, given by `Faults`: an open error other than "does not exist", a
  create error, and failing appends per kind. Within one call each kind is appended at most once, so
  "per kind" can express any pattern of failing appends. A fault that depends on timing or on file-system
  state beyond the layout map is not modelled.
- `layout.Write` over an existing layout is not modelled. The writer calls it only when `FromPath`
  reports that the layout does not exist.
- Error-message text and the annotation key and value strings are not modelled. These are constants
  declared outside `write.go`. The model keeps the kind of failure and its wrapping structure
  (`Wrapped`, or `Bare` where the cause is dropped).
- Reference internals (`RegistryStr`, `Name`) are not modelled. The registry and the full name are plain
  inputs.
- The contents of images, signatures, attestations and attachments are not modelled, and neither are
  signing and verification. These are opaque digests.
- Concurrent writers to the same path are not modelled, because each call is sequential.
