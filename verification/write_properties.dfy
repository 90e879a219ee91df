/** What the layout writer promises, stated over the functions of WriteSpec, which the methods of
    LayoutWrite are proved to follow. Most lemmas cover both write paths at once: Call(Image, ...) is
    WriteSignedImage and Call(ImageIndex, ...) is WriteSignedImageIndex. */
module WriteProperties {
  import opened Wrappers
  import opened Errors
  import opened References
  import opened Entity
  import opened Archive
  import opened WriteSpec

  /** The kinds a primary entry can have. */
  predicate IsPrimary(kind: Kind)
  {
    kind == Image || kind == ImageIndex
  }

  /** The write call whose primary entry has the given kind. */
  function Call(primary: Kind, present: bool, se: SignedEntity, ref: Reference, faults: Faults): Outcome
    requires IsPrimary(primary)
  {
    if primary == Image then ImageOutcome(present, se, ref, faults) else IndexOutcome(present, se, ref, faults)
  }

  /** The run holding e when b holds, and nothing otherwise. */
  function Opt(b: bool, e: Entry): seq<Entry>
  {
    if b then [e] else []
  }

  /** True when some entry of es has the given kind. */
  predicate HasKind(es: seq<Entry>, kind: Kind)
  {
    exists e | e in es :: e.kind == kind
  }

  /** The side entries a successful call appends, derived from the entity alone: the signatures
      unless they are empty, then the attestations unless they are empty, then the sbom when its
      lookup succeeds, all annotated with imageRef. */
  function ExpectedSides(se: SignedEntity, imageRef: string): seq<Entry>
    requires se.signatures.Ok? && se.attestations.Ok?
  {
    var sigs, atts, sbom := se.signatures.value, se.attestations.value, se.Attachment(SbomName);
    Opt(!IsEmpty(sigs), Entry(Signatures, imageRef, SignatureSet(sigs)))
      + Opt(!IsEmpty(atts), Entry(Attestations, imageRef, SignatureSet(atts)))
      + Opt(sbom.Ok?, Entry(Sboms, imageRef, AttachmentBlob(if sbom.Ok? then sbom.value else 0)))
  }

  /** The entries a successful call appends: the primary of the given kind, then the side entries. */
  function Expected(primary: Kind, se: SignedEntity, ref: Reference): seq<Entry>
    requires ref.Named? && se.signatures.Ok? && se.attestations.Ok?
  {
    [Entry(primary, GetImageRef(ref).value, Manifest(se.content))] + ExpectedSides(se, GetImageRef(ref).value)
  }

  /** When the side-artifact step succeeds: both getters succeed and no append the entity calls for
      fails. A failed sbom lookup does not count against it. */
  predicate SidesSucceed(se: SignedEntity, faults: Faults)
  {
    se.signatures.Ok? && se.attestations.Ok?
    && (!IsEmpty(se.signatures.value) ==> Signatures !in faults.append)
    && (!IsEmpty(se.attestations.value) ==> Attestations !in faults.append)
    && (se.Attachment(SbomName).Ok? ==> Sboms !in faults.append)
  }

  /** True when the call gets as far as the side-artifact step: the layout opens or is created, the
      reference is not nil and the primary append works. */
  predicate PrimaryWritten(primary: Kind, present: bool, ref: Reference, faults: Faults)
  {
    !OpenStep(present, faults).OpenFailed? && ref.Named? && primary !in faults.append
  }

  /** The signatures step succeeds unless Get() fails or the append of a non-empty list fails; when
      it succeeds it has appended the list exactly when the list is non-nil. */
  lemma SignaturesStep(se: SignedEntity, ref: Reference, faults: Faults)
    requires ref.Named?
    ensures var r, sigs := SignaturesEffect(se, ref, faults), se.signatures;
      (r.result.Ok? <==> sigs.Ok? && (!IsEmpty(sigs.value) ==> Signatures !in faults.append))
      && (r.result.Err? ==> r.appended == [])
      && (r.result.Ok? ==> r.appended == Opt(!IsEmpty(sigs.value), Entry(Signatures, GetImageRef(ref).value, SignatureSet(sigs.value))))
  {
  }

  /** The attestations step succeeds unless Get() fails, reported without its cause, or the append
      of a non-empty list fails; when it succeeds it has appended the list exactly when the list is
      non-nil. */
  lemma AttestationsStep(se: SignedEntity, ref: Reference, faults: Faults)
    requires ref.Named?
    ensures var r, atts := AttestationsEffect(se, ref, faults), se.attestations;
      (atts.Err? ==> r == Fail(Bare(GettingAtts)))
      && (r.result.Err? ==> r.appended == [])
      && (r.result.Ok? <==> atts.Ok? && (!IsEmpty(atts.value) ==> Attestations !in faults.append))
      && (r.result.Ok? ==> r.appended == Opt(!IsEmpty(atts.value), Entry(Attestations, GetImageRef(ref).value, SignatureSet(atts.value))))
  {
  }

  /** The sbom step fails only when the sbom is found and its append fails; when it succeeds it has
      appended the sbom exactly when the lookup succeeded. */
  lemma SbomStep(se: SignedEntity, ref: Reference, faults: Faults)
    requires ref.Named?
    ensures var r, sbom := SbomEffect(se, ref, faults), se.Attachment(SbomName);
      (sbom.Ok? && Sboms in faults.append ==> r == Fail(Wrapped(AppendingAttachments, Collaborator(IoError(faults.append[Sboms])))))
      && (r.result.Ok? <==> (sbom.Ok? ==> Sboms !in faults.append))
      && (r.result.Err? ==> r.appended == [])
      && (r.result.Ok? ==> r.appended == Opt(sbom.Ok?, Entry(Sboms, GetImageRef(ref).value, AttachmentBlob(if sbom.Ok? then sbom.value else 0))))
  {
  }

  /** writeSignedEntity succeeds exactly when SidesSucceed holds, and then appends the expected side
      entries. */
  lemma {:induction false} SideArtifacts(se: SignedEntity, ref: Reference, faults: Faults)
    requires ref.Named?
    ensures EntityEffect(se, ref, faults).result.Ok? <==> SidesSucceed(se, faults)
    ensures SidesSucceed(se, faults) ==> EntityEffect(se, ref, faults).appended == ExpectedSides(se, GetImageRef(ref).value)
  {
    SignaturesStep(se, ref, faults);
    AttestationsStep(se, ref, faults);
    SbomStep(se, ref, faults);
    ThenThree(SignaturesEffect(se, ref, faults), AttestationsEffect(se, ref, faults), SbomEffect(se, ref, faults));
  }

  /** A call that gets past its primary append appends the primary entry followed by what the
      side-artifact step appends, and returns what that step returns; any other call fails having
      appended nothing. */
  lemma Decompose(primary: Kind, present: bool, se: SignedEntity, ref: Reference, faults: Faults)
    requires IsPrimary(primary)
    ensures var o, rest := Call(primary, present, se, ref, faults), EntityEffect(se, ref, faults);
      if PrimaryWritten(primary, present, ref, faults)
      then o.appended == [Entry(primary, GetImageRef(ref).value, Manifest(se.content))] + rest.appended
           && o.result == rest.result
      else o.appended == [] && o.result.Err?
  {
  }

  /** A call succeeds exactly when nothing it depends on fails, and then appends exactly the
      expected entries. */
  lemma {:induction false} SuccessfulWrite(primary: Kind, present: bool, se: SignedEntity, ref: Reference, faults: Faults)
    requires IsPrimary(primary)
    ensures Call(primary, present, se, ref, faults).result.Ok?
        <==> PrimaryWritten(primary, present, ref, faults) && SidesSucceed(se, faults)
    ensures PrimaryWritten(primary, present, ref, faults) && SidesSucceed(se, faults) ==>
      Call(primary, present, se, ref, faults).appended == Expected(primary, se, ref)
  {
    Decompose(primary, present, se, ref, faults);
    if ref.Named? {
      SideArtifacts(se, ref, faults);
    }
  }

  /** The expected entries hold a signature or attestation entry exactly when Get() yields a
      non-nil list, and an sbom entry exactly when its lookup succeeds. */
  lemma ExpectedKinds(primary: Kind, se: SignedEntity, ref: Reference)
    requires IsPrimary(primary) && ref.Named? && se.signatures.Ok? && se.attestations.Ok?
    ensures HasKind(Expected(primary, se, ref), Signatures) <==> se.signatures.value.list.Some?
    ensures HasKind(Expected(primary, se, ref), Attestations) <==> se.attestations.value.list.Some?
    ensures HasKind(Expected(primary, se, ref), Sboms) <==> se.Attachment(SbomName).Ok?
  {
    var imageRef := GetImageRef(ref).value;
    var sigs, atts, sbom := se.signatures.value, se.attestations.value, se.Attachment(SbomName);
    var s0 := Opt(true, Entry(primary, imageRef, Manifest(se.content)));
    var s1 := Opt(!IsEmpty(sigs), Entry(Signatures, imageRef, SignatureSet(sigs)));
    var s2 := Opt(!IsEmpty(atts), Entry(Attestations, imageRef, SignatureSet(atts)));
    var s3 := Opt(sbom.Ok?, Entry(Sboms, imageRef, AttachmentBlob(if sbom.Ok? then sbom.value else 0)));
    assert Expected(primary, se, ref) == s0 + (s1 + s2 + s3);
    HasKindOfRuns(s0, s1, s2, s3, Signatures);
    HasKindOfRuns(s0, s1, s2, s3, Attestations);
    HasKindOfRuns(s0, s1, s2, s3, Sboms);
    HasKindOpt(true, s0[0]);
    HasKindOpt(!IsEmpty(sigs), Entry(Signatures, imageRef, SignatureSet(sigs)));
    HasKindOpt(!IsEmpty(atts), Entry(Attestations, imageRef, SignatureSet(atts)));
    HasKindOpt(sbom.Ok?, Entry(Sboms, imageRef, AttachmentBlob(if sbom.Ok? then sbom.value else 0)));
  }

  /** Opt(b, e) has an entry of some kind exactly when b holds and e has that kind. */
  lemma HasKindOpt(b: bool, e: Entry)
    ensures forall kind :: HasKind(Opt(b, e), kind) <==> b && e.kind == kind
  {
    if b {
      assert e in Opt(b, e);
    }
  }

  /** An entry of some kind is in four consecutive runs exactly when it is in one of them. */
  lemma HasKindOfRuns(s0: seq<Entry>, s1: seq<Entry>, s2: seq<Entry>, s3: seq<Entry>, kind: Kind)
    ensures HasKind(s0 + (s1 + s2 + s3), kind)
        <==> HasKind(s0, kind) || HasKind(s1, kind) || HasKind(s2, kind) || HasKind(s3, kind)
  {
    HasKindAppend(s0, s1 + s2 + s3, kind);
    HasKindAppend(s1 + s2, s3, kind);
    HasKindAppend(s1, s2, kind);
  }

  /** An entry of some kind is in a concatenation exactly when it is in one of the parts. */
  lemma HasKindAppend(a: seq<Entry>, b: seq<Entry>, kind: Kind)
    ensures HasKind(a + b, kind) <==> HasKind(a, kind) || HasKind(b, kind)
  {
    if HasKind(a, kind) {
      var x :| x in a && x.kind == kind;
      assert x in a + b;
    }
    if HasKind(b, kind) {
      var x :| x in b && x.kind == kind;
      assert x in a + b;
    }
  }

  /** On success a signature or attestation entry is present exactly when Get() yielded a non-nil
      list, even one of length zero and whatever error Get() reported; the sbom entry is present
      exactly when its lookup succeeded. */
  lemma {:induction false} SideEntriesOnSuccess(primary: Kind, present: bool, se: SignedEntity, ref: Reference, faults: Faults)
    requires IsPrimary(primary) && Call(primary, present, se, ref, faults).result.Ok?
    ensures se.signatures.Ok? && se.attestations.Ok?
    ensures HasKind(Call(primary, present, se, ref, faults).appended, Signatures) <==> se.signatures.value.list.Some?
    ensures HasKind(Call(primary, present, se, ref, faults).appended, Attestations) <==> se.attestations.value.list.Some?
    ensures HasKind(Call(primary, present, se, ref, faults).appended, Sboms) <==> se.Attachment(SbomName).Ok?
  {
    SuccessfulWrite(primary, present, se, ref, faults);
    ExpectedKinds(primary, se, ref);
  }

  /** A nil reference fails both writes before anything is appended (the layout may still have been
      created, empty). The image path reports the failure wrapped, the index path unwrapped. */
  lemma NilReferenceAppendsNothing(layouts: map<string, seq<Entry>>, path: string, se: SignedEntity, faults: Faults)
    ensures var o := ImageOutcome(path in layouts, se, Nil, faults);
      o.result.Err? && o.appended == [] && At(Apply(layouts, path, o), path) == At(layouts, path)
    ensures var o := IndexOutcome(path in layouts, se, Nil, faults);
      o.result.Err? && o.appended == [] && At(Apply(layouts, path, o), path) == At(layouts, path)
    ensures !OpenStep(path in layouts, faults).OpenFailed? ==>
      ImageOutcome(path in layouts, se, Nil, faults).result == Err(Wrapped(AppendingSignedImage, NilReference))
      && IndexOutcome(path in layouts, se, Nil, faults).result == Err(NilReference)
  {
  }

  /** A failure to read the signatures ends the call with that error wrapped; the primary entry
      already appended stays. */
  lemma SignaturesReadFailure(primary: Kind, present: bool, se: SignedEntity, ref: Reference, faults: Faults)
    requires IsPrimary(primary) && se.signatures.Err?
    ensures Call(primary, present, se, ref, faults).result.Err?
    ensures PrimaryWritten(primary, present, ref, faults) ==>
      var o := Call(primary, present, se, ref, faults);
      o.result == Err(Wrapped(GettingSignatures, Collaborator(se.signatures.error)))
      && o.appended == [Entry(primary, GetImageRef(ref).value, Manifest(se.content))]
  {
    Decompose(primary, present, se, ref, faults);
  }

  /** A failure to read the attestations ends the call with an error that drops its cause; the
      primary and the signatures already appended stay, and nothing after them is appended. */
  lemma AttestationsReadFailure(primary: Kind, present: bool, se: SignedEntity, ref: Reference, faults: Faults)
    requires IsPrimary(primary) && se.signatures.Ok? && se.attestations.Err?
    ensures Call(primary, present, se, ref, faults).result.Err?
    ensures !HasKind(Call(primary, present, se, ref, faults).appended, Attestations)
    ensures !HasKind(Call(primary, present, se, ref, faults).appended, Sboms)
    ensures var sigs := se.signatures.value;
      PrimaryWritten(primary, present, ref, faults) && (!IsEmpty(sigs) ==> Signatures !in faults.append) ==>
      var o := Call(primary, present, se, ref, faults);
      var imageRef := GetImageRef(ref).value;
      o.result == Err(Bare(GettingAtts))
      && o.appended == [Entry(primary, imageRef, Manifest(se.content))]
                       + Opt(!IsEmpty(sigs), Entry(Signatures, imageRef, SignatureSet(sigs)))
  {
    Decompose(primary, present, se, ref, faults);
    var o := Call(primary, present, se, ref, faults);
    if PrimaryWritten(primary, present, ref, faults) {
      var sigs := SignaturesEffect(se, ref, faults);
      SignaturesStep(se, ref, faults);
      AttestationsStep(se, ref, faults);
      ThenThree(sigs, AttestationsEffect(se, ref, faults), SbomEffect(se, ref, faults));
      assert sigs.appended + [] == sigs.appended;
      assert EntityEffect(se, ref, faults).appended == sigs.appended;
      assert |sigs.appended| <= 1 && (|sigs.appended| == 1 ==> sigs.appended[0].kind == Signatures);
      assert forall x | x in o.appended :: x.kind == primary || x.kind == Signatures;
    }
  }

  /** A failed sbom lookup leaves writeSignedEntity doing exactly what it does for an entity without
      attachments, which appends signatures and attestations only. */
  lemma SbomLookupFailureInEntity(se: SignedEntity, ref: Reference, faults: Faults)
    requires se.Attachment(SbomName).Err?
    ensures EntityEffect(se, ref, faults) == EntityEffect(se.(attachments := map[]), ref, faults)
    ensures forall x | x in EntityEffect(se, ref, faults).appended :: x.kind != Sboms
  {
    var bare := se.(attachments := map[]);
    SameListsSameSteps(se, bare, ref, faults);
    assert SbomEffect(se, ref, faults) == SbomEffect(bare, ref, faults) == Effect([], Ok(()));
    NoSbomStepNoSbomEntry(SignaturesEffect(se, ref, faults), AttestationsEffect(se, ref, faults), ref);
  }

  /** When the sbom step appends nothing, the signatures and attestations steps append no sbom. */
  lemma NoSbomStepNoSbomEntry(sigs: Effect, atts: Effect, ref: Reference)
    requires AtMostOne(sigs.appended, Signatures, ref) && AtMostOne(atts.appended, Attestations, ref)
    ensures forall x | x in Then(sigs, Then(atts, Effect([], Ok(())))).appended :: x.kind != Sboms
  {
    ThenThree(sigs, atts, Effect([], Ok(())));
    OnlyKind(sigs.appended, Signatures, ref);
    OnlyKind(atts.appended, Attestations, ref);
    assert sigs.appended + atts.appended + [] == sigs.appended + atts.appended;
  }

  /** A run of at most one entry of some kind holds entries of that kind only. */
  lemma OnlyKind(es: seq<Entry>, kind: Kind, ref: Reference)
    requires AtMostOne(es, kind, ref)
    ensures forall x | x in es :: x.kind == kind
  {
    if es != [] {
      assert es == [es[0]];
    }
  }

  /** The signatures and attestations steps depend on the entity's two lists only. */
  lemma SameListsSameSteps(se: SignedEntity, other: SignedEntity, ref: Reference, faults: Faults)
    requires se.signatures == other.signatures && se.attestations == other.attestations
    ensures SignaturesEffect(se, ref, faults) == SignaturesEffect(other, ref, faults)
    ensures AttestationsEffect(se, ref, faults) == AttestationsEffect(other, ref, faults)
  {
  }

  /** A failed sbom lookup, whatever its error, is indistinguishable from an entity without
      attachments: the call appends no sbom entry and reports no error for it. */
  lemma SbomLookupFailureSwallowed(primary: Kind, present: bool, se: SignedEntity, ref: Reference, faults: Faults)
    requires IsPrimary(primary) && se.Attachment(SbomName).Err?
    ensures Call(primary, present, se, ref, faults) == Call(primary, present, se.(attachments := map[]), ref, faults)
    ensures !HasKind(Call(primary, present, se, ref, faults).appended, Sboms)
  {
    SbomLookupFailureInEntity(se, ref, faults);
    Decompose(primary, present, se, ref, faults);
    Decompose(primary, present, se.(attachments := map[]), ref, faults);
  }

  /** An sbom that is found is appended without any emptiness check, and a failure of that append is
      reported, after the earlier entries have been written. */
  lemma SbomAppendFailureReported(primary: Kind, present: bool, se: SignedEntity, ref: Reference, faults: Faults)
    requires IsPrimary(primary) && se.Attachment(SbomName).Ok? && Sboms in faults.append
    requires PrimaryWritten(primary, present, ref, faults) && SidesSucceed(se, faults.(append := faults.append - {Sboms}))
    ensures var o := Call(primary, present, se, ref, faults);
      o.result == Err(Wrapped(AppendingAttachments, Collaborator(IoError(faults.append[Sboms]))))
      && o.appended + [Entry(Sboms, GetImageRef(ref).value, AttachmentBlob(se.Attachment(SbomName).value))]
         == Expected(primary, se, ref)
  {
    Decompose(primary, present, se, ref, faults);
    var sigs, atts, sbom := SignaturesEffect(se, ref, faults), AttestationsEffect(se, ref, faults), SbomEffect(se, ref, faults);
    SignaturesStep(se, ref, faults);
    AttestationsStep(se, ref, faults);
    SbomStep(se, ref, faults);
    ThenThree(sigs, atts, sbom);
    var primaryEntry := Entry(primary, GetImageRef(ref).value, Manifest(se.content));
    var sbomEntry := Entry(Sboms, GetImageRef(ref).value, AttachmentBlob(se.Attachment(SbomName).value));
    assert EntityEffect(se, ref, faults).appended == sigs.appended + atts.appended;
    assert Expected(primary, se, ref) == [primaryEntry] + (sigs.appended + atts.appended + [sbomEntry]);
  }

  /** There is no rollback: a call that fails, at whatever step, leaves exactly the entries appended
      before that step, a proper prefix of what the call appends when it succeeds. Once the primary
      is written, that prefix ends just before the first expected entry whose append fails: every
      entry in it was appended without a fault, and the next one is the append that failed. */
  lemma FailureIsStrictPrefix(primary: Kind, present: bool, se: SignedEntity, ref: Reference, faults: Faults)
    requires IsPrimary(primary) && ref.Named? && se.signatures.Ok? && se.attestations.Ok?
    requires Call(primary, present, se, ref, faults).result.Err?
    ensures Call(primary, present, se, ref, faults).appended < Expected(primary, se, ref)
    ensures var o, exp := Call(primary, present, se, ref, faults), Expected(primary, se, ref);
      PrimaryWritten(primary, present, ref, faults) ==>
        |o.appended| < |exp| && exp[|o.appended|].kind in faults.append
        && forall j | 0 <= j < |o.appended| :: exp[j].kind !in faults.append
  {
    Decompose(primary, present, se, ref, faults);
    var o, exp := Call(primary, present, se, ref, faults), Expected(primary, se, ref);
    if PrimaryWritten(primary, present, ref, faults) {
      var head := Entry(primary, GetImageRef(ref).value, Manifest(se.content));
      SideFailureStops(se, ref, faults);
      PrefixAfterHead(head, EntityEffect(se, ref, faults).appended, ExpectedSides(se, GetImageRef(ref).value), faults);
    } else {
      assert o.appended == [];
    }
  }

  /** Putting one fault-free entry in front of a run and of the sequence it is a fault-free proper
      prefix of keeps it one, still ending just before a faulty entry. */
  lemma PrefixAfterHead(head: Entry, run: seq<Entry>, full: seq<Entry>, faults: Faults)
    requires head.kind !in faults.append
    requires |run| < |full| && full[|run|].kind in faults.append
    requires forall j | 0 <= j < |run| :: run[j] == full[j] && full[j].kind !in faults.append
    ensures var r, f := [head] + run, [head] + full;
      r < f && f[|r|].kind in faults.append && forall j | 0 <= j < |r| :: f[j].kind !in faults.append
  {
    var r, f := [head] + run, [head] + full;
    assert forall j | 1 <= j < |r| :: r[j] == run[j - 1] && f[j] == full[j - 1];
    assert r == f[..|r|];
  }

  /** A failing writeSignedEntity stops at its first failing append: the entries it appended are
      the expected side entries before that append, each appended without a fault. */
  lemma SideFailureStops(se: SignedEntity, ref: Reference, faults: Faults)
    requires ref.Named? && se.signatures.Ok? && se.attestations.Ok?
    requires EntityEffect(se, ref, faults).result.Err?
    ensures var r, sides := EntityEffect(se, ref, faults), ExpectedSides(se, GetImageRef(ref).value);
      |r.appended| < |sides| && sides[|r.appended|].kind in faults.append
      && forall j | 0 <= j < |r.appended| :: r.appended[j] == sides[j] && sides[j].kind !in faults.append
  {
    var sigs, atts, sbom := SignaturesEffect(se, ref, faults), AttestationsEffect(se, ref, faults), SbomEffect(se, ref, faults);
    SignaturesStep(se, ref, faults);
    AttestationsStep(se, ref, faults);
    SbomStep(se, ref, faults);
    ThenThree(sigs, atts, sbom);
    var imageRef := GetImageRef(ref).value;
    var e1 := Opt(!IsEmpty(se.signatures.value), Entry(Signatures, imageRef, SignatureSet(se.signatures.value)));
    var e2 := Opt(!IsEmpty(se.attestations.value), Entry(Attestations, imageRef, SignatureSet(se.attestations.value)));
    var lookup := se.Attachment(SbomName);
    var e3 := Opt(lookup.Ok?, Entry(Sboms, imageRef, AttachmentBlob(if lookup.Ok? then lookup.value else 0)));
    assert Settled(sigs, e1, faults);
    assert Settled(atts, e2, faults);
    assert Settled(sbom, e3, faults);
    StepsStop(sigs, atts, sbom, e1, e2, e3, faults);
  }

  /** A step measured against the entries it should append: on success it appended them all, none
      with a fault; on failure it appended nothing, and the one entry it should have appended is
      the one whose append failed. */
  predicate Settled(step: Effect, should: seq<Entry>, faults: Faults)
  {
    if step.result.Ok? then step.appended == should && forall j | 0 <= j < |should| :: should[j].kind !in faults.append
    else step.appended == [] && |should| == 1 && should[0].kind in faults.append
  }

  /** Three settled steps run in a row and failing stop in front of the first faulty entry. */
  lemma StepsStop(a: Effect, b: Effect, c: Effect, s1: seq<Entry>, s2: seq<Entry>, s3: seq<Entry>, faults: Faults)
    requires Settled(a, s1, faults) && Settled(b, s2, faults) && Settled(c, s3, faults)
    requires Then(a, Then(b, c)).result.Err?
    ensures var r, whole := Then(a, Then(b, c)).appended, s1 + s2 + s3;
      |r| < |whole| && whole[|r|].kind in faults.append
      && forall j | 0 <= j < |r| :: r[j] == whole[j] && whole[j].kind !in faults.append
  {
    ThenThree(a, b, c);
    Associative(s1, s2, s3);
    if a.result.Err? {
      StopsBefore([], s1[0], s2 + s3, faults);
      assert s1 == [] + [s1[0]];
    } else if b.result.Err? {
      assert s1 + [] == s1;
      StopsBefore(s1, s2[0], s3, faults);
      assert s2 == [s2[0]];
    } else {
      assert s1 + s2 + [] == s1 + s2;
      StopsBefore(s1 + s2, s3[0], [], faults);
      assert s3 == [s3[0]] && s1 + s2 + s3 == s1 + s2 + [s3[0]] + [];
    }
  }

  /** A fault-free run followed by a faulty entry: the run is a proper prefix of the whole, and the
      whole's entry just after the run is the faulty one. */
  lemma StopsBefore(run: seq<Entry>, faulty: Entry, tail: seq<Entry>, faults: Faults)
    requires forall j | 0 <= j < |run| :: run[j].kind !in faults.append
    requires faulty.kind in faults.append
    ensures var whole := run + [faulty] + tail;
      |run| < |whole| && whole[|run|].kind in faults.append
      && forall j | 0 <= j < |run| :: run[j] == whole[j] && whole[j].kind !in faults.append
  {
  }

  /** A call never changes or removes entries: every layout keeps its old entries as a prefix, and
      layouts at other path strings are untouched. */
  lemma AppendOnly(layouts: map<string, seq<Entry>>, path: string, o: Outcome)
    ensures layouts.Keys <= Apply(layouts, path, o).Keys
    ensures forall p | p in layouts :: At(layouts, p) <= At(Apply(layouts, path, o), p)
    ensures forall p | p != path :: p in layouts <==> p in Apply(layouts, path, o)
    ensures forall p | p != path && p in layouts :: Apply(layouts, path, o)[p] == layouts[p]
  {
  }

  /** Writing the same entity twice appends its entries twice: there is no deduplication. */
  lemma {:induction false} WriteRepeats(primary: Kind, layouts: map<string, seq<Entry>>, path: string, se: SignedEntity, ref: Reference, faults: Faults)
    requires IsPrimary(primary) && Call(primary, path in layouts, se, ref, faults).result.Ok?
    ensures var first := Call(primary, path in layouts, se, ref, faults);
      var after := Apply(layouts, path, first);
      var second := Call(primary, path in after, se, ref, faults);
      second.result.Ok? && second.appended == first.appended
      && At(Apply(after, path, second), path) == At(layouts, path) + first.appended + first.appended
  {
    var first := Call(primary, path in layouts, se, ref, faults);
    var after := Apply(layouts, path, first);
    Decompose(primary, path in layouts, se, ref, faults);
    assert path in after;
    assert OpenStep(path in after, faults) == Opened;
    Decompose(primary, path in after, se, ref, faults);
  }

  /** A batch of entries that all carry one image ref is found whole, after the entries that were
      there before, by a reader looking that image ref up. */
  lemma {:induction false} ReaderFindsBatch(layouts: map<string, seq<Entry>>, path: string, o: Outcome, imageRef: string)
    requires o.isOpen
    requires forall i | 0 <= i < |o.appended| :: o.appended[i].imageRef == imageRef
    ensures Related(At(Apply(layouts, path, o), path), imageRef) == Related(At(layouts, path), imageRef) + o.appended
  {
    assert At(Apply(layouts, path, o), path) == At(layouts, path) + o.appended;
    RelatedAppend(At(layouts, path), o.appended, imageRef);
    assert forall e | e in o.appended :: e.imageRef == imageRef;
    RelatedAll(o.appended, imageRef);
  }

  /** Every successful call appends one batch: its primary entry first, then signatures,
      attestations and the sbom in that order, each at most once, all carrying the image ref of the
      reference. */
  lemma CallIsBatch(primary: Kind, present: bool, se: SignedEntity, ref: Reference, faults: Faults)
    requires IsPrimary(primary) && Call(primary, present, se, ref, faults).result.Ok?
    ensures ref.Named? && Batch(Call(primary, present, se, ref, faults).appended, primary, GetImageRef(ref).value)
  {
    Decompose(primary, present, se, ref, faults);
    EntityEffectIsSideBatch(se, ref, faults);
    var o := Call(primary, present, se, ref, faults);
    assert o.appended[1..] == EntityEffect(se, ref, faults).appended;
  }

  /** After a successful write, looking up the image ref of its reference finds everything it
      appended, after what was already there for that image ref. */
  lemma WrittenEntitiesAreFound(primary: Kind, layouts: map<string, seq<Entry>>, path: string, se: SignedEntity, ref: Reference, faults: Faults)
    requires IsPrimary(primary) && Call(primary, path in layouts, se, ref, faults).result.Ok?
    ensures var o := Call(primary, path in layouts, se, ref, faults);
      Related(At(Apply(layouts, path, o), path), GetImageRef(ref).value)
        == Related(At(layouts, path), GetImageRef(ref).value) + o.appended
  {
    var o := Call(primary, path in layouts, se, ref, faults);
    var imageRef := GetImageRef(ref).value;
    CallIsBatch(primary, path in layouts, se, ref, faults);
    assert forall i | 0 <= i < |o.appended| :: o.appended[i].imageRef == imageRef by {
      forall i | 0 <= i < |o.appended| ensures o.appended[i].imageRef == imageRef {
        if i > 0 {
          assert o.appended[i] == o.appended[1..][i - 1];
        }
      }
    }
    ReaderFindsBatch(layouts, path, o, imageRef);
  }
}
