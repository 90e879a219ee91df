/** The signed entity the writer copies: an image or an image index with its side-artifacts. Contents
    are opaque; each is identified by a digest. */
module Entity {
  import opened Wrappers
  import opened Errors

  /** One signature or attestation layer, identified by its digest. */
  type Layer = nat

  /** What Get() of a signature or attestation set yields: the list (None for a nil slice) and
      whether Get() also reported an error. */
  datatype Listing = Listing(list: Option<seq<Layer>>, getFailed: bool)

  /** isEmpty: a set counts as empty exactly when Get() yields a nil list. The error of Get() is
      ignored, and a non-nil list of length zero is not empty. */
  predicate IsEmpty(s: Listing)
  {
    s.list.None?
  }

  /** A signed image or image index. The getters Signatures(), Attestations() and Attachment(name)
      are the fields below; a name missing from attachments yields NotFound. */
  datatype SignedEntity = SignedEntity(
    content: nat,
    signatures: Result<Listing, Fault>,
    attestations: Result<Listing, Fault>,
    attachments: map<string, Result<nat, Fault>>)
  {
    /** The attachment of the given name, or the error its lookup reports. */
    function Attachment(name: string): Result<nat, Fault>
    {
      if name in attachments then attachments[name] else Err(NotFound)
    }
  }

  /** The name of the one attachment the writer copies. */
  const SbomName: string := "sbom"
}
