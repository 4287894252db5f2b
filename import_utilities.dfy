/** `ImportUtilities.map_worksheet_values`, which renames the columns of a worksheet row and
    translates the content model leniently, and `ImportUtilities.dereference`, which locates an
    object in the Fedora object store. */
module ImportUtilities {
  import opened PyStr
  import opened PyTree
  import opened Worksheet

  // ----- map_worksheet_values -----

  /** `map`: the columns the lenient variant keeps, and their target fields. */
  function Column(key: string): (r: Option<string>)
    ensures r.Some? ==> r.value in Targets
  {
    match key
    case "content_model" => Some("field_model")
    case "pid" => Some("field_pid")
    case "collection_pid" => Some("field_member_of")
    case "page_of" => Some("field_member_of")
    case "sequence" => Some("field_weight")
    case _ => None
  }

  const Targets: set<string> := {"field_model", "field_pid", "field_member_of", "field_weight"}

  /** `map_worksheet_values(line)`: the row is folded into the renamed fields, then a
      `field_model` is replaced by its translation, `None` for an unknown model. */
  method MapWorksheetValues(line: Row) returns (cleaned: Cleaned)
    ensures forall k :: k in cleaned ==> k in Targets
    ensures forall t :: t in cleaned <==> LastValue(Column, line, t).Some?
    ensures forall t :: t in cleaned && t != "field_model" ==> cleaned[t] == LastValue(Column, line, t)
    ensures "field_model" in cleaned ==>
      cleaned["field_model"] == ContentModel(LastValue(Column, line, "field_model").value)
  {
    cleaned := CollectRow(Column, line);
    if "field_model" in cleaned {
      cleaned := cleaned["field_model" := ContentModel(cleaned["field_model"].value)];
    }
  }

  /** A row whose only columns are ones the map does not know comes out empty. */
  lemma UnknownColumnsDropped(line: Row)
    requires forall i :: 0 <= i < |line| ==> Column(line[i].0).None?
    ensures Collect(Column, line) == map[]
  {
    CollectIsLast(Column, line);
    forall t | t in Collect(Column, line)
      ensures false
    {
    }
  }

  // ----- dereference -----

  /** The object-store directory template: each `#` takes the next character of the hash. */
  const Template: string := "##"

  /** The identifier as a Fedora URI: `+` becomes `/` under `info:fedora/`. */
  function FedoraUri(identifier: string): (full: string)
    ensures StartsWith(full, "info:fedora/")
    ensures |full| == |"info:fedora/"| + |identifier|
    ensures forall i :: 0 <= i < |identifier| ==>
      full[|"info:fedora/"| + i] == (if identifier[i] == '+' then '/' else identifier[i])
    ensures '+' !in full
  {
    var slashed := ReplaceChar(identifier, '+', "/");
    var full := "info:fedora/" + slashed;
    assert '+' !in "info:fedora/";
    assert forall i :: 0 <= i < |full| ==> full[i] in "info:fedora/" || full[i] in slashed;
    full
  }

  /** The template filled from the hash: each `#` in turn takes the next hash character, until
      the hash runs out. */
  function Filled(pattern: string, hash: string): (r: string)
    ensures |r| == |pattern|
    decreases |pattern|
  {
    if pattern == [] || hash == [] then pattern
    else if pattern[0] == '#' then [hash[0]] + Filled(pattern[1..], hash[1..])
    else [pattern[0]] + Filled(pattern[1..], hash)
  }

  /** With a hash of two characters or more, the template becomes its first two; a shorter hash
      leaves the remaining `#` in place. */
  lemma FilledTemplate(hash: string)
    ensures |hash| >= 2 ==> Filled(Template, hash) == hash[..2]
    ensures |hash| == 1 ==> Filled(Template, hash) == [hash[0], '#']
    ensures hash == [] ==> Filled(Template, hash) == Template
  {
    if |hash| >= 1 {
      assert Template[1..] == "#";
      assert Filled("#", hash[1..]) == (if |hash| >= 2 then [hash[1]] else "#");
    }
  }

  /** The identifier as the suffix of the path: URL-quoted, then every `_` as `%5F`. */
  function EncodedId(full: string, quote: string -> string): (encoded: string)
    ensures '_' !in encoded
  {
    assert '_' !in "%5F";
    ReplaceChar(quote(full), '_', "%5F")
  }

  /** `dereference(identifier)`, with `md5` standing for the hexadecimal MD5 digest and `quote`
      for `urllib.parse.quote(..., safe='')`: the filled template, `/`, and the encoded
      identifier. */
  method Dereference(identifier: string, md5: string -> string, quote: string -> string)
    returns (path: string)
    ensures path == Filled(Template, md5(FedoraUri(identifier))) + "/" + EncodedId(FedoraUri(identifier), quote)
  {
    var full := FedoraUri(identifier);
    var filled := FillTemplate(md5(full));
    var encoded := ReplaceChar(quote(full), '_', "%5F");
    path := filled + "/" + encoded;
  }

  /** The pattern loop of `dereference`: a copy of the template, in which each `#` in turn is
      overwritten by the next hash character while both last. */
  method FillTemplate(hash: string) returns (filled: string)
    ensures filled == Filled(Template, hash)
  {
    var result := new char[|Template|](i requires 0 <= i < |Template| => Template[i]);
    var patternOffset, hashOffset := 0, 0;
    while patternOffset < result.Length && hashOffset < |hash|
      invariant 0 <= patternOffset <= result.Length && 0 <= hashOffset <= |hash|
      invariant result[patternOffset..] == Template[patternOffset..]
      invariant Filled(Template, hash) == result[..patternOffset] + Filled(Template[patternOffset..], hash[hashOffset..])
      decreases result.Length - patternOffset
    {
      assert Template[patternOffset..][1..] == Template[patternOffset + 1..];
      if result[patternOffset] == '#' {
        result[patternOffset] := hash[hashOffset];
        hashOffset := hashOffset + 1;
      }
      patternOffset := patternOffset + 1;
    }
    filled := result[..];
  }

  /** For an MD5 digest, which has 32 characters, the path is the digest's first two
      characters, `/`, and an encoded identifier without `_`. */
  lemma DereferenceShape(identifier: string, md5: string -> string, quote: string -> string)
    requires |md5(FedoraUri(identifier))| >= 2
    ensures var path := Filled(Template, md5(FedoraUri(identifier))) + "/" + EncodedId(FedoraUri(identifier), quote);
      path[..3] == md5(FedoraUri(identifier))[..2] + "/" && '_' !in path[3..]
  {
    FilledTemplate(md5(FedoraUri(identifier)));
    var path := Filled(Template, md5(FedoraUri(identifier))) + "/" + EncodedId(FedoraUri(identifier), quote);
    assert path[3..] == EncodedId(FedoraUri(identifier), quote);
  }
}
