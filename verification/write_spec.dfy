/** What one call of the layout writer does, as functions of its inputs: the entries it appends to the
    layout at its path, in order, and the result it returns. The methods in LayoutWrite are proved to
    do exactly this. */
module WriteSpec {
  import opened Wrappers
  import opened Errors
  import opened References
  import opened Entity
  import opened Archive

  /** The file-system failures of one call: an open error other than "does not exist", a failure to
      create the layout, and the appends that fail, by the kind they would add. */
  datatype Faults = Faults(open: Option<nat>, create: Option<nat>, append: map<Kind, nat>)

  /** The fault injected into the append of the given kind, if any. */
  function AppendFault(faults: Faults, kind: Kind): (f: Option<nat>)
    ensures f.Some? <==> kind in faults.append
  {
    if kind in faults.append then Some(faults.append[kind]) else None
  }

  /** A run of steps on an opened layout: the entries it appended, then what it returned. */
  datatype Effect = Effect(appended: seq<Entry>, result: Result<(), Error>)

  /** A step that appends nothing and fails with e. */
  function Fail(e: Error): Effect
  {
    Effect([], Err(e))
  }

  /** The first step, then the rest unless the first returned an error (an early return). */
  function Then(first: Effect, rest: Effect): (r: Effect)
    ensures r.appended == first.appended || r.appended == first.appended + rest.appended
  {
    if first.result.Err? then first else Effect(first.appended + rest.appended, rest.result)
  }

  /** Three steps in a row stop at the first error and otherwise append what all three append. */
  lemma ThenThree(a: Effect, b: Effect, c: Effect)
    ensures Then(a, Then(b, c))
      == if a.result.Err? then a
         else if b.result.Err? then Effect(a.appended + b.appended, b.result)
         else Effect(a.appended + b.appended + c.appended, c.result)
  {
    Associative(a.appended, b.appended, c.appended);
  }

  /** A step whose error, if any, is wrapped with a context prefix. */
  function Wrap(e: Effect, context: Context): Effect
  {
    if e.result.Err? then Effect(e.appended, Err(Wrapped(context, e.result.error))) else e
  }

  /** The side entries of one call: kinds after the primary in call order (signatures, attestations,
      sbom), each at most once, all carrying the same image ref. */
  predicate SideBatch(es: seq<Entry>, imageRef: string)
  {
    |es| <= 3 &&
    (forall i | 0 <= i < |es| :: es[i].imageRef == imageRef && Rank(es[i].kind) > 0) &&
    (forall i, j | 0 <= i < j < |es| :: Rank(es[i].kind) < Rank(es[j].kind))
  }

  /** All entries of one call: the primary of the given kind first, then a side batch, all carrying
      the same image ref. */
  predicate Batch(es: seq<Entry>, primary: Kind, imageRef: string)
  {
    1 <= |es| <= 4 && es[0].kind == primary && es[0].imageRef == imageRef && SideBatch(es[1..], imageRef)
  }

  /** A run of at most one entry, of the given kind, carrying the given image ref. */
  predicate AtMostOneOf(es: seq<Entry>, kind: Kind, imageRef: string)
  {
    |es| <= 1 && (|es| == 1 ==> es[0].kind == kind && es[0].imageRef == imageRef)
  }

  /** A step that appends at most one entry, of the given kind, and only for a non-nil reference. */
  predicate AtMostOne(es: seq<Entry>, kind: Kind, ref: Reference)
  {
    if ref.Nil? then es == [] else AtMostOneOf(es, kind, GetImageRef(ref).value)
  }

  /** A side batch stays one when an entry of a later kind with the same image ref is added. */
  lemma SideBatchSnoc(es: seq<Entry>, e: Entry, imageRef: string)
    requires SideBatch(es, imageRef) && |es| < 3
    requires e.imageRef == imageRef && Rank(e.kind) > 0
    requires forall i | 0 <= i < |es| :: Rank(es[i].kind) < Rank(e.kind)
    ensures SideBatch(es + [e], imageRef)
  {
    var r := es + [e];
    assert forall i | 0 <= i < |es| :: r[i] == es[i];
    assert r[|es|] == e;
  }

  /** The signatures, attestations and sbom steps, each appending at most one entry of its kind, add
      up to a side batch after each of them. */
  lemma SideSteps(a: seq<Entry>, b: seq<Entry>, c: seq<Entry>, imageRef: string)
    requires AtMostOneOf(a, Signatures, imageRef)
    requires AtMostOneOf(b, Attestations, imageRef)
    requires AtMostOneOf(c, Sboms, imageRef)
    ensures SideBatch(a, imageRef)
    ensures SideBatch(a + b, imageRef)
    ensures SideBatch(a + b + c, imageRef)
  {
    if b == [] {
      assert a + b == a;
    } else {
      assert b == [b[0]];
      SideBatchSnoc(a, b[0], imageRef);
    }
    if c == [] {
      assert a + b + c == a + b;
    } else {
      assert c == [c[0]];
      SideBatchSnoc(a + b, c[0], imageRef);
    }
  }

  /** One backend append (AppendImage or AppendIndex) of entry e. */
  function AppendEffect(e: Entry, faults: Faults): (r: Effect)
    ensures r.result.Ok? <==> e.kind !in faults.append
    ensures r.appended == if r.result.Ok? then [e] else []
  {
    match AppendFault(faults, e.kind)
    case Some(code) => Fail(Collaborator(IoError(code)))
    case None => Effect([e], Ok(()))
  }

  /** appendImage: computes the image ref of ref, then appends payload with the two annotations. */
  function AppendImageEffect(payload: Payload, ref: Reference, kind: Kind, faults: Faults): (r: Effect)
    ensures ref.Nil? ==> r == Fail(NilReference)
    ensures r.result.Ok? <==> ref.Named? && kind !in faults.append
    ensures r.appended == if r.result.Ok? then [Entry(kind, GetImageRef(ref).value, payload)] else []
  {
    match GetImageRef(ref)
    case Err(err) => Fail(err)
    case Ok(imageRef) => AppendEffect(Entry(kind, imageRef, payload), faults)
  }

  /** The signatures step of writeSignedEntity. */
  function SignaturesEffect(se: SignedEntity, ref: Reference, faults: Faults): (r: Effect)
    ensures AtMostOne(r.appended, Signatures, ref)
  {
    match se.signatures
    case Err(f) => Fail(Wrapped(GettingSignatures, Collaborator(f)))
    case Ok(sigs) =>
      if IsEmpty(sigs) then Effect([], Ok(()))
      else Wrap(AppendImageEffect(SignatureSet(sigs), ref, Signatures, faults), AppendingSignatures)
  }

  /** The attestations step of writeSignedEntity; a read error is reported without its cause. */
  function AttestationsEffect(se: SignedEntity, ref: Reference, faults: Faults): (r: Effect)
    ensures AtMostOne(r.appended, Attestations, ref)
  {
    match se.attestations
    case Err(_) => Fail(Bare(GettingAtts))
    case Ok(atts) =>
      if IsEmpty(atts) then Effect([], Ok(()))
      else Wrap(AppendImageEffect(SignatureSet(atts), ref, Attestations, faults), AppendingAtts)
  }

  /** The sbom step of writeSignedEntity; a failed lookup ends the call with success. */
  function SbomEffect(se: SignedEntity, ref: Reference, faults: Faults): (r: Effect)
    ensures AtMostOne(r.appended, Sboms, ref)
  {
    match se.Attachment(SbomName)
    case Err(_) => Effect([], Ok(()))
    case Ok(sbom) => Wrap(AppendImageEffect(AttachmentBlob(sbom), ref, Sboms, faults), AppendingAttachments)
  }

  /** writeSignedEntity: signatures, then attestations, then the sbom, stopping at the first error.
      It appends a side batch for the reference's image ref, and nothing for a nil reference. */
  function EntityEffect(se: SignedEntity, ref: Reference, faults: Faults): (r: Effect)
    ensures ref.Nil? ==> r.appended == []
    ensures |r.appended| <= 3
  {
    Then(SignaturesEffect(se, ref, faults), Then(AttestationsEffect(se, ref, faults), SbomEffect(se, ref, faults)))
  }

  /** writeSignedEntity appends a side batch for the reference's image ref. */
  lemma EntityEffectIsSideBatch(se: SignedEntity, ref: Reference, faults: Faults)
    requires ref.Named?
    ensures SideBatch(EntityEffect(se, ref, faults).appended, GetImageRef(ref).value)
  {
    var sigs := SignaturesEffect(se, ref, faults);
    var atts := AttestationsEffect(se, ref, faults);
    var sbom := SbomEffect(se, ref, faults);
    ThenThree(sigs, atts, sbom);
    SideSteps(sigs.appended, atts.appended, sbom.appended, GetImageRef(ref).value);
  }

  /** The body of WriteSignedImage after the layout is open: the image through appendImage, then the
      side-artifacts. */
  function ImageEffect(si: SignedEntity, ref: Reference, faults: Faults): (r: Effect)
    ensures r.appended != [] ==> ref.Named? && r.appended[0] == Entry(Image, GetImageRef(ref).value, Manifest(si.content))
    ensures r.result.Ok? ==> r.appended != []
  {
    Then(Wrap(AppendImageEffect(Manifest(si.content), ref, Image, faults), AppendingSignedImage),
         EntityEffect(si, ref, faults))
  }

  /** The body of WriteSignedImageIndex after the layout is open: the image ref is computed first and
      its error returned unwrapped, then the index is appended, then the side-artifacts. */
  function IndexEffect(sii: SignedEntity, ref: Reference, faults: Faults): (r: Effect)
    ensures r.appended != [] ==> ref.Named? && r.appended[0] == Entry(ImageIndex, GetImageRef(ref).value, Manifest(sii.content))
    ensures r.result.Ok? ==> r.appended != []
  {
    match GetImageRef(ref)
    case Err(err) => Fail(err)
    case Ok(imageRef) =>
      Then(Wrap(AppendEffect(Entry(ImageIndex, imageRef, Manifest(sii.content)), faults), AppendingSignedImageIndex),
           EntityEffect(sii, ref, faults))
  }

  /** How opening a layout ends: it was there, it was created empty, or the call fails. */
  datatype OpenOutcome = Opened | Created | OpenFailed(error: Error)

  /** Open the layout at the path; when it does not exist create it; any other error aborts. */
  function OpenStep(present: bool, faults: Faults): (r: OpenOutcome)
    ensures r.Opened? <==> present && faults.open.None?
    ensures r.Created? <==> !present && faults.open.None? && faults.create.None?
    ensures r.OpenFailed? ==> r.error == Collaborator(IoError(if faults.open.Some? then faults.open.value else faults.create.value))
  {
    match Probe(present, faults.open)
    case Ok(_) => Opened
    case Err(NotExist) =>
      if faults.create.Some? then OpenFailed(Collaborator(IoError(faults.create.value))) else Created
    case Err(f) => OpenFailed(Collaborator(f))
  }

  /** A whole call: whether a layout is open at the path afterwards, what was appended, the result. */
  datatype Outcome = Outcome(isOpen: bool, appended: seq<Entry>, result: Result<(), Error>)

  /** The open step followed, if it succeeded, by the body. */
  function Finish(open: OpenOutcome, body: Effect): (o: Outcome)
    ensures !o.isOpen ==> o.appended == [] && o.result.Err?
  {
    match open
    case OpenFailed(err) => Outcome(false, [], Err(err))
    case _ => Outcome(true, body.appended, body.result)
  }

  /** WriteSignedImage on a path where a layout is present or not. On success it appends one batch
      headed by the image. */
  function ImageOutcome(present: bool, si: SignedEntity, ref: Reference, faults: Faults): (o: Outcome)
    ensures o.result.Ok? ==> o.isOpen && ref.Named? && 1 <= |o.appended| <= 4
  {
    Finish(OpenStep(present, faults), ImageEffect(si, ref, faults))
  }

  /** WriteSignedImageIndex on a path where a layout is present or not. On success it appends one
      batch headed by the index. */
  function IndexOutcome(present: bool, sii: SignedEntity, ref: Reference, faults: Faults): (o: Outcome)
    ensures o.result.Ok? ==> o.isOpen && ref.Named? && 1 <= |o.appended| <= 4
  {
    Finish(OpenStep(present, faults), IndexEffect(sii, ref, faults))
  }

  /** The layouts after a call with outcome o on path: unchanged if no layout could be opened,
      otherwise the layout at path (empty if just created) extended by what was appended. */
  function Apply(layouts: map<string, seq<Entry>>, path: string, o: Outcome): map<string, seq<Entry>>
  {
    if o.isOpen then Extend(layouts[path := At(layouts, path)], path, o.appended) else layouts
  }
}
