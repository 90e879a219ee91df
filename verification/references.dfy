/** Image references and the registry-relative image reference the writer stores as an annotation. */
module References {
  import opened Wrappers
  import opened Errors

  /** A parsed image reference, reduced to what the writer reads of it: the registry host and the
      full name. Nil is the nil reference. */
  datatype Reference = Nil | Named(registry: string, name: string)

  /** Go's strings.TrimPrefix: removes one leading occurrence of prefix, if there is one. */
  function TrimPrefix(s: string, prefix: string): (r: string)
    ensures prefix <= s ==> prefix + r == s
    ensures !(prefix <= s) ==> r == s
  {
    if prefix <= s then s[|prefix|..] else s
  }

  /** The image-ref annotation: the full name with one leading "<registry>/" removed.
      Fails only on the nil reference, and then with NilReference. */
  function GetImageRef(ref: Reference): (r: Result<string, Error>)
    ensures r.Err? <==> ref.Nil?
    ensures r.Err? ==> r.error == NilReference
    ensures ref.Named? && ref.registry + "/" <= ref.name ==> ref.registry + "/" + r.value == ref.name
    ensures ref.Named? && !(ref.registry + "/" <= ref.name) ==> r.value == ref.name
    ensures r.Ok? ==> |r.value| <= |ref.name| && r.value == ref.name[|ref.name| - |r.value|..]
  {
    if ref.Nil? then Err(NilReference)
    else Ok(TrimPrefix(ref.name, ref.registry + "/"))
  }

  /** Composing a full name from a registry and a relative part and then taking its image ref gives
      the relative part back. */
  lemma {:induction false} ImageRefOfComposedName(registry: string, relative: string)
    ensures GetImageRef(Named(registry, registry + "/" + relative)) == Ok(relative)
  {
    var p := registry + "/";
    var name := p + relative;
    assert name[..|p|] == p;
    assert p <= name;
    assert name[|p|..] == relative;
  }

  /** Only one prefix is stripped: a name that repeats the registry host keeps the second copy, so
      the result may still begin with "<registry>/". */
  lemma StripsOnlyOnce()
    ensures GetImageRef(Named("r", "r/r/x")) == Ok("r/x")
    ensures "r" + "/" <= "r/x"
  {
    assert "r/" <= "r/r/x";
    assert "r/r/x"[2..] == "r/x";
  }
}
