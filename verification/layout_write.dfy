/** The writer of local archives: WriteSignedImage and WriteSignedImageIndex copy a signed entity and
    its side-artifacts into the OCI image layout at a path, creating the layout if it is missing. Each
    method is proved to change the file system exactly as the matching function of WriteSpec says. */
module LayoutWrite {
  import opened Wrappers
  import opened Errors
  import opened References
  import opened Entity
  import opened Archive
  import opened WriteSpec

  /** Copies a signed image into the layout at path: its manifest first, then whatever
      signatures, attestations and sbom it carries, all tagged with the image ref. */
  method WriteSignedImage(disk: Disk, path: string, si: SignedEntity, ref: Reference, faults: Faults)
    returns (r: Result<(), Error>)
    modifies disk
    ensures var o := ImageOutcome(old(path in disk.layouts), si, ref, faults);
      r == o.result && disk.layouts == Apply(old(disk.layouts), path, o)
  {
    var layout := disk.FromPath(path, faults.open);
    if layout == Err(NotExist) {
      // no layout yet: create an empty one
      layout := disk.Write(path, faults.create);
    }
    if layout.Err? {
      return Err(Collaborator(layout.error));
    }
    ghost var ready := disk.layouts;
    assert ready == old(disk.layouts)[path := At(old(disk.layouts), path)];

    var appended := AppendImage(disk, path, Manifest(si.content), ref, Image, faults);
    if appended.Err? {
      return Err(Wrapped(AppendingSignedImage, appended.error));
    }
    r := WriteSignedEntity(disk, path, si, ref, faults);
    ExtendTwice(ready, path, AppendImageEffect(Manifest(si.content), ref, Image, faults).appended,
      EntityEffect(si, ref, faults).appended);
  }

  /** The image-index counterpart of WriteSignedImage: the index manifest first, then the same
      side artifacts, all tagged with the image ref. */
  method WriteSignedImageIndex(disk: Disk, path: string, sii: SignedEntity, ref: Reference, faults: Faults)
    returns (r: Result<(), Error>)
    modifies disk
    ensures var o := IndexOutcome(old(path in disk.layouts), sii, ref, faults);
      r == o.result && disk.layouts == Apply(old(disk.layouts), path, o)
  {
    var layout := disk.FromPath(path, faults.open);
    if layout == Err(NotExist) {
      // no layout yet: create an empty one
      layout := disk.Write(path, faults.create);
    }
    if layout.Err? {
      return Err(Collaborator(layout.error));
    }
    ghost var ready := disk.layouts;
    assert ready == old(disk.layouts)[path := At(old(disk.layouts), path)];

    var imageRef := GetImageRef(ref);
    if imageRef.Err? {
      return Err(imageRef.error);
    }
    var entry := Entry(ImageIndex, imageRef.value, Manifest(sii.content));
    var appended := disk.Append(path, entry, AppendFault(faults, ImageIndex));
    if appended.Err? {
      return Err(Wrapped(AppendingSignedImageIndex, Collaborator(appended.error)));
    }
    r := WriteSignedEntity(disk, path, sii, ref, faults);
    ExtendTwice(ready, path, [entry], EntityEffect(sii, ref, faults).appended);
  }

  /** Appends the signatures and attestations that are not empty, then the "sbom" attachment if it
      can be fetched. The first error ends the call; what was appended before it stays. */
  method WriteSignedEntity(disk: Disk, path: string, se: SignedEntity, ref: Reference, faults: Faults)
    returns (r: Result<(), Error>)
    requires path in disk.layouts
    modifies disk
    ensures var e := EntityEffect(se, ref, faults);
      r == e.result && disk.layouts == Extend(old(disk.layouts), path, e.appended)
  {
    ghost var before := disk.layouts;
    ghost var sigsStep := SignaturesEffect(se, ref, faults);
    ghost var attsStep := AttestationsEffect(se, ref, faults);
    ghost var sbomStep := SbomEffect(se, ref, faults);
    ThenThree(sigsStep, attsStep, sbomStep);

    var sigs := se.signatures;
    if sigs.Err? {
      return Err(Wrapped(GettingSignatures, Collaborator(sigs.error)));
    }
    if !IsEmpty(sigs.value) {
      var appended := AppendImage(disk, path, SignatureSet(sigs.value), ref, Signatures, faults);
      if appended.Err? {
        return Err(Wrapped(AppendingSignatures, appended.error));
      }
    }
    assert sigsStep.result.Ok? && disk.layouts == Extend(before, path, sigsStep.appended);
    ghost var afterSigs := disk.layouts;

    var atts := se.attestations;
    if atts.Err? {
      assert sigsStep.appended + attsStep.appended == sigsStep.appended;
      return Err(Bare(GettingAtts));
    }
    if !IsEmpty(atts.value) {
      var appended := AppendImage(disk, path, SignatureSet(atts.value), ref, Attestations, faults);
      if appended.Err? {
        ExtendTwice(before, path, sigsStep.appended, attsStep.appended);
        return Err(Wrapped(AppendingAtts, appended.error));
      }
    }
    assert attsStep.result.Ok? && disk.layouts == Extend(afterSigs, path, attsStep.appended);
    ExtendTwice(before, path, sigsStep.appended, attsStep.appended);
    ghost var afterAtts := disk.layouts;

    var sbom := se.Attachment(SbomName);
    if sbom.Err? {
      // a failed lookup ends the call successfully
      assert attsStep.appended + sbomStep.appended == attsStep.appended;
      return Ok(());
    }
    var appended := AppendImage(disk, path, AttachmentBlob(sbom.value), ref, Sboms, faults);
    ExtendTwice(before, path, sigsStep.appended + attsStep.appended, sbomStep.appended);
    Associative(sigsStep.appended, attsStep.appended, sbomStep.appended);
    if appended.Err? {
      return Err(Wrapped(AppendingAttachments, appended.error));
    }
    return Ok(());
  }

  /** appendImage: appends payload to the layout at path, annotated with kind and the reference's
      image ref. */
  method AppendImage(disk: Disk, path: string, payload: Payload, ref: Reference, kind: Kind, faults: Faults)
    returns (r: Result<(), Error>)
    requires path in disk.layouts
    modifies disk
    ensures var e := AppendImageEffect(payload, ref, kind, faults);
      r == e.result && disk.layouts == Extend(old(disk.layouts), path, e.appended)
  {
    var imageRef := GetImageRef(ref);
    if imageRef.Err? {
      return Err(imageRef.error);
    }
    var appended := disk.Append(path, Entry(kind, imageRef.value, payload), AppendFault(faults, kind));
    if appended.Err? {
      return Err(Collaborator(appended.error));
    }
    return Ok(());
  }
}
