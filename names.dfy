/** How `ModsTransformer.parse_name` encodes a MODS `name` element as
    `relatorCode:vocabulary:displayName`. The entries of the element are visited in document
    order; `@type` sets the vocabulary, `namePart` the display name and a non-string `role`
    the role label, each later entry overriding an earlier one. */
module NameParsing {
  import opened PyStr
  import opened PyTree
  import opened Relators

  /** The state `parse_name` keeps while it visits the entries. */
  datatype NameParts = NameParts(role: string, name: Node, vocab: string)

  /** Before any entry: no role, the empty name and the corporate vocabulary. */
  const Initial: NameParts := NameParts("", Text(""), "corporate_body")

  /** `type_map[value]`: only the two MODS name types are known; `None` and any other string
      are missing keys, and a list or dict cannot be a key at all. */
  function VocabFor(value: Node): (r: Result<string>)
    ensures r.Ok? <==> value == Text("corporate") || value == Text("personal")
    ensures r.Ok? ==> r.value in {"corporate_body", "person"}
    ensures value.Text? && r.Err? ==> r.error == KeyError(value.s)
    ensures (value.List? || value.Dict?) ==> r == Err(TypeError)
  {
    match value
    case Text(s) =>
      if s == "corporate" then Ok("corporate_body")
      else if s == "personal" then Ok("person")
      else Err(KeyError(s))
    case Null => Err(KeyError("None"))
    case _ => Err(TypeError)
  }

  /** The role label read from a `role` value that is not a string: a list whose first item is
      a dict stands for that dict, anything else for the empty dict; its `roleTerm`, a string or
      the `#text` of a dict, is capitalized. */
  function RoleFrom(value: Node): (r: Result<string>)
    requires !value.Text?
    ensures value == List([]) ==> r == Err(IndexError)
    ensures !value.List? ==> r == Ok("")
    ensures value.List? && value.items != [] && !value.items[0].Dict? ==> r == Ok("")
    ensures value.List? && value.items != [] && value.items[0].Dict? ==>
      var term := GetOr(value.items[0].entries, "roleTerm", Dict([]));
      (term.Text? ==> r == Ok(Capitalize(term.s))) &&
      (term.Dict? && GetOr(term.entries, "#text", Text("")).Text? ==>
        r == Ok(Capitalize(GetOr(term.entries, "#text", Text("")).s))) &&
      (term.Dict? && !GetOr(term.entries, "#text", Text("")).Text? ==> r == Err(AttributeError)) &&
      (!term.Text? && !term.Dict? ==> r == Err(AttributeError))
    ensures r.Ok? ==> r.value == Capitalize(r.value)
  {
    if value.List? && value.items == [] then Err(IndexError)
    else
      var d := if value.List? && value.items[0].Dict? then value.items[0].entries else [];
      var term := GetOr(d, "roleTerm", Dict([]));
      CapitalizeIdempotent(if term.Text? then term.s else "");
      if term.Text? then Ok(Capitalize(term.s))
      else
        match Get(term, "#text", Text(""))
        case Err(e) => Err(e)
        case Ok(t) =>
          if t.Text? then
            CapitalizeIdempotent(t.s);
            Ok(Capitalize(t.s))
          else Err(AttributeError)
  }

  /** One entry of the loop of `parse_name`. A string `role` is skipped. */
  function NameStep(p: NameParts, key: string, value: Node): Result<NameParts> {
    if key == "@type" then
      match VocabFor(value)
      case Ok(v) => Ok(p.(vocab := v))
      case Err(e) => Err(e)
    else if key == "namePart" then Ok(p.(name := value))
    else if key == "role" && !value.Text? then
      match RoleFrom(value)
      case Ok(r) => Ok(p.(role := r))
      case Err(e) => Err(e)
    else Ok(p)
  }

  /** The loop of `parse_name` over the entries, from state `p`; the first failing entry
      raises. */
  function NameFold(es: Entries, p: NameParts): Result<NameParts>
    decreases |es|
  {
    if es == [] then Ok(p)
    else
      match NameStep(p, es[0].0, es[0].1)
      case Ok(q) => NameFold(es[1..], q)
      case Err(e) => Err(e)
  }

  /** `parse_name(input)`: only a dict has `items`; the role falls back to `Editor` through
      `RelatorCode`, and the name is formatted with `str`. */
  function ParsedName(input: Node): Result<string> {
    if !input.Dict? then Err(AttributeError)
    else
      match NameFold(input.entries, Initial)
      case Ok(p) => Ok(Encoded(p))
      case Err(e) => Err(e)
  }

  // ----- A reference reading of the loop: the last entry of each kind decides. -----

  /** Whether `(key, value)` counts as an entry of the kind `kind`: the entries that set the
      vocabulary, the name, or the role. */
  predicate OfKind(kind: string, key: string, value: Node) {
    key == kind && (kind != "role" || !value.Text?)
  }

  /** The value of the last entry of kind `kind`, if any. */
  function Last(es: Entries, kind: string): (r: Option<Node>)
    ensures r.Some? ==> exists i :: (0 <= i < |es| && es[i] == (kind, r.value) &&
      OfKind(kind, es[i].0, es[i].1) && forall j :: i < j < |es| ==> !OfKind(kind, es[j].0, es[j].1))
    ensures r.None? ==> forall i :: 0 <= i < |es| ==> !OfKind(kind, es[i].0, es[i].1)
    decreases |es|
  {
    if es == [] then None
    else
      var r := Last(es[1..], kind);
      assert forall i :: 1 <= i < |es| ==> es[i] == es[1..][i - 1];
      if r.Some? then r
      else if OfKind(kind, es[0].0, es[0].1) then Some(es[0].1)
      else None
  }

  /** An entry the loop accepts: a known `@type` and a readable non-string `role`. */
  predicate Accepted(key: string, value: Node) {
    (key == "@type" ==> VocabFor(value).Ok?) && (key == "role" && !value.Text? ==> RoleFrom(value).Ok?)
  }

  /** Every entry is accepted. */
  predicate AllAccepted(es: Entries) {
    forall i :: 0 <= i < |es| ==> Accepted(es[i].0, es[i].1)
  }

  /** The value of `r`, or `d` when it failed. */
  function ValueOr<T>(r: Result<T>, d: T): T {
    if r.Ok? then r.value else d
  }

  /** The state after the loop, read from the last entry of each kind. */
  function Settled(es: Entries, p: NameParts): NameParts {
    var role := match Last(es, "role") case Some(v) => ValueOr(RoleFrom(v), p.role) case None => p.role;
    var name := match Last(es, "namePart") case Some(v) => v case None => p.name;
    var vocab := match Last(es, "@type") case Some(v) => ValueOr(VocabFor(v), p.vocab) case None => p.vocab;
    NameParts(role, name, vocab)
  }

  /** The encoded form of a final state. */
  function Encoded(p: NameParts): string {
    RelatorCode(p.role) + ":" + p.vocab + ":" + Str(p.name)
  }

  /** The loop succeeds exactly when every entry is accepted, and then each part comes from the
      last entry that sets it. */
  lemma {:induction false} NameFoldSettles(es: Entries, p: NameParts)
    ensures NameFold(es, p).Ok? <==> AllAccepted(es)
    ensures NameFold(es, p).Ok? ==> NameFold(es, p).value == Settled(es, p)
    decreases |es|
  {
    if es != [] {
      var rest := es[1..];
      assert forall i :: 1 <= i < |es| ==> es[i] == rest[i - 1];
      var s := NameStep(p, es[0].0, es[0].1);
      if s.Ok? {
        NameFoldSettles(rest, s.value);
        assert Accepted(es[0].0, es[0].1);
      }
    }
  }

  /** The encoded name, read from the last `@type`, `namePart` and non-string `role` entries;
      it exists exactly when `input` is a dict whose entries are all accepted. */
  lemma ParsedNameParts(es: Entries)
    ensures ParsedName(Dict(es)).Ok? <==> AllAccepted(es)
    ensures AllAccepted(es) ==> ParsedName(Dict(es)) == Ok(Encoded(Settled(es, Initial)))
  {
    NameFoldSettles(es, Initial);
  }

  /** The vocabulary is `corporate_body` without an `@type`, and otherwise follows the last
      one: `personal` gives `person` and `corporate` gives `corporate_body`. */
  lemma VocabularyOfName(es: Entries)
    ensures Last(es, "@type").None? ==> Settled(es, Initial).vocab == "corporate_body"
    ensures Last(es, "@type") == Some(Text("personal")) ==> Settled(es, Initial).vocab == "person"
    ensures Last(es, "@type") == Some(Text("corporate")) ==> Settled(es, Initial).vocab == "corporate_body"
  {
  }

  /** A role that is not in the table, once capitalized, is encoded as `relators:edt`. */
  lemma UnknownRoleIsEditor(p: NameParts)
    requires RelatorLookup(p.role).None?
    ensures Encoded(p) == "relators:edt:" + p.vocab + ":" + Str(p.name)
  {
  }

  /** A role found in the table is encoded by its own code. */
  lemma KnownRoleIsCoded(p: NameParts)
    requires RelatorLookup(p.role).Some?
    ensures Encoded(p) == RelatorLookup(p.role).value + ":" + p.vocab + ":" + Str(p.name)
  {
  }

  /** Without a usable role entry the empty role is looked up, which the table maps to
      `relators:att`. */
  lemma NoRoleIsAttributed(es: Entries)
    requires Last(es, "role").None?
    ensures Settled(es, Initial).role == ""
    ensures Encoded(Settled(es, Initial)) == "relators:att:" + Settled(es, Initial).vocab + ":" +
      Str(Settled(es, Initial).name)
  {
    EmptyRoleIsAttributed();
  }

  /** A string `role` changes nothing: the result is that of the same element without it. */
  lemma StringRoleIgnored(es: Entries, term: string)
    ensures ParsedName(Dict([("role", Text(term))] + es)) == ParsedName(Dict(es))
  {
    var xs := [("role", Text(term))] + es;
    assert xs[1..] == es;
  }

  /** A `role` written as a single dict is read as the empty dict, so its `roleTerm` is lost and
      the role is the empty one. */
  lemma DictRoleIsEmpty(es: Entries, role: Entries)
    ensures Settled(es + [("role", Dict(role))], Initial).role == ""
  {
    var xs := es + [("role", Dict(role))];
    assert xs[|xs| - 1] == ("role", Dict(role));
    assert Last(xs, "role") == Some(Dict(role));
  }

  /** A role given as a list whose first item is a dict with a string `roleTerm` is that term,
      capitalized. */
  lemma ListRoleTerm(es: Entries, d: Entries, more: seq<Node>, term: string)
    requires GetOr(d, "roleTerm", Dict([])) == Text(term)
    ensures Settled(es + [("role", List([Dict(d)] + more))], Initial).role == Capitalize(term)
  {
    LastRoleIs(es, List([Dict(d)] + more));
  }

  /** A role given as a list whose first item is a dict whose `roleTerm` is a dict with a string
      `#text` is that text, capitalized. */
  lemma ListRoleText(es: Entries, d: Entries, e: Entries, more: seq<Node>, text: string)
    requires GetOr(d, "roleTerm", Dict([])) == Dict(e) && GetOr(e, "#text", Text("")) == Text(text)
    ensures Settled(es + [("role", List([Dict(d)] + more))], Initial).role == Capitalize(text)
  {
    LastRoleIs(es, List([Dict(d)] + more));
  }

  /** A role given as a list whose first item is no dict is read as the empty dict: the role
      is the empty one. */
  lemma ListRoleNotDict(es: Entries, first: Node, more: seq<Node>)
    requires !first.Dict?
    ensures Settled(es + [("role", List([first] + more))], Initial).role == ""
  {
    LastRoleIs(es, List([first] + more));
  }

  /** A non-string role appended last is the last role. */
  lemma LastRoleIs(es: Entries, v: Node)
    requires !v.Text?
    ensures Last(es + [("role", v)], "role") == Some(v)
  {
    var xs := es + [("role", v)];
    assert xs[|xs| - 1] == ("role", v);
  }
}
