/** The local archives: OCI image layouts on a file system, each an append-only sequence of entries
    carrying a kind annotation and an image-ref annotation. Blob storage, hashing and the index.json
    format are not modelled. */
module Archive {
  import opened Wrappers
  import opened Errors
  import opened Entity

  /** The values of the kind annotation. */
  datatype Kind = Image | ImageIndex | Signatures | Attestations | Sboms

  /** The position a kind takes among the entries written by one call. */
  function Rank(k: Kind): (n: nat)
    ensures n <= 3
    ensures n == 0 <==> k == Image || k == ImageIndex
  {
    match k
    case Image => 0
    case ImageIndex => 0
    case Signatures => 1
    case Attestations => 2
    case Sboms => 3
  }

  /** The manifest added by an append: the entity itself, a signature or attestation set, or an
      attachment. */
  datatype Payload = Manifest(digest: nat) | SignatureSet(listing: Listing) | AttachmentBlob(digest: nat)

  /** One descriptor in a layout's index, with its two annotations. */
  datatype Entry = Entry(kind: Kind, imageRef: string, payload: Payload)

  /** The entries of the layout at path, or none if there is no layout there. */
  function At(layouts: map<string, seq<Entry>>, path: string): (es: seq<Entry>)
    ensures path in layouts ==> es == layouts[path]
    ensures path !in layouts ==> es == []
  {
    if path in layouts then layouts[path] else []
  }

  /** The layouts with es added at the end of the layout at path. */
  function Extend(layouts: map<string, seq<Entry>>, path: string, es: seq<Entry>): (r: map<string, seq<Entry>>)
    requires path in layouts
    ensures es == [] ==> r == layouts
    ensures r.Keys == layouts.Keys && r[path] == layouts[path] + es
  {
    assert layouts[path] + [] == layouts[path];
    layouts[path := layouts[path] + es]
  }

  /** Extending by two runs in turn extends by their concatenation. */
  lemma ExtendTwice(layouts: map<string, seq<Entry>>, path: string, a: seq<Entry>, b: seq<Entry>)
    requires path in layouts
    ensures Extend(Extend(layouts, path, a), path, b) == Extend(layouts, path, a + b)
  {
    var once := Extend(layouts, path, a);
    Associative(layouts[path], a, b);
    assert Extend(once, path, b) == layouts[path := layouts[path] + (a + b)];
  }

  /** What layout.FromPath reports for a path: an injected I/O fault, or else NotExist when no layout
      is there. */
  function Probe(present: bool, fault: Option<nat>): (r: Result<(), Fault>)
    ensures r.Ok? <==> present && fault.None?
    ensures r == Err(NotExist) <==> !present && fault.None?
  {
    if fault.Some? then Err(IoError(fault.value))
    else if present then Ok(())
    else Err(NotExist)
  }

  /** The entries a reader finds for one image ref: those whose image-ref annotation equals it, in
      archive order. */
  function Related(entries: seq<Entry>, imageRef: string): (r: seq<Entry>)
    ensures |r| <= |entries|
    ensures forall e | e in r :: e in entries && e.imageRef == imageRef
  {
    if entries == [] then []
    else (if entries[0].imageRef == imageRef then [entries[0]] else []) + Related(entries[1..], imageRef)
  }

  /** Looking up an image ref in two consecutive runs of entries looks it up in each. */
  lemma {:induction false} RelatedAppend(a: seq<Entry>, b: seq<Entry>, imageRef: string)
    ensures Related(a + b, imageRef) == Related(a, imageRef) + Related(b, imageRef)
  {
    if a == [] {
      assert a + b == b;
    } else {
      var head := if a[0].imageRef == imageRef then [a[0]] else [];
      assert (a + b)[0] == a[0] && (a + b)[1..] == a[1..] + b;
      assert Related(a + b, imageRef) == head + Related(a[1..] + b, imageRef);
      RelatedAppend(a[1..], b, imageRef);
      Associative(head, Related(a[1..], imageRef), Related(b, imageRef));
    }
  }

  /** Concatenation of entry runs is associative. */
  lemma Associative(x: seq<Entry>, y: seq<Entry>, z: seq<Entry>)
    ensures x + (y + z) == (x + y) + z
  {
  }

  /** A run whose entries all carry the image ref is found whole. */
  lemma {:induction false} RelatedAll(es: seq<Entry>, imageRef: string)
    requires forall e | e in es :: e.imageRef == imageRef
    ensures Related(es, imageRef) == es
  {
    if es != [] {
      assert es[0] in es;
      assert forall e | e in es[1..] :: e in es;
      RelatedAll(es[1..], imageRef);
    }
  }

  /** The file system holding the layouts, keyed by path string, as the caller spells it. */
  class Disk {
    var layouts: map<string, seq<Entry>>

    constructor (initial: map<string, seq<Entry>>)
      ensures layouts == initial
    {
      layouts := initial;
    }

    /** layout.FromPath: opens the layout at path. */
    function FromPath(path: string, fault: Option<nat>): (r: Result<(), Fault>)
      reads this
      ensures r.Ok? <==> path in layouts && fault.None?
      ensures r == Err(NotExist) <==> path !in layouts && fault.None?
    {
      Probe(path in layouts, fault)
    }

    /** layout.Write(path, empty.Index): creates an empty layout at path unless a fault is injected. */
    method Write(path: string, fault: Option<nat>) returns (r: Result<(), Fault>)
      modifies this
      ensures r.Ok? <==> fault.None?
      ensures r.Err? ==> r.error == IoError(fault.value)
      ensures layouts == if fault.None? then old(layouts)[path := []] else old(layouts)
    {
      if fault.Some? {
        return Err(IoError(fault.value));
      }
      layouts := layouts[path := []];
      return Ok(());
    }

    /** AppendImage and AppendIndex: add one entry at the end of the layout at path unless a fault is
        injected; a failed append adds nothing. */
    method Append(path: string, e: Entry, fault: Option<nat>) returns (r: Result<(), Fault>)
      requires path in layouts
      modifies this
      ensures r.Ok? <==> fault.None?
      ensures r.Err? ==> r.error == IoError(fault.value)
      ensures layouts == if fault.None? then old(layouts)[path := old(layouts)[path] + [e]] else old(layouts)
    {
      if fault.Some? {
        return Err(IoError(fault.value));
      }
      layouts := layouts[path := layouts[path] + [e]];
      return Ok(());
    }
  }
}
