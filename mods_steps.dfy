/** What `ModsTransformer.extract_from_mods` computes, step by step, as functions on the parsed
    record and the summary built so far. Each step either gives the next summary or the
    exception that ends the extraction. */
module ModsSteps {
  import opened PyStr
  import opened PyTree
  import opened DateRepair
  import opened NameParsing

  /** The summary: target field name to value. Values are strings, except where the source
      copies a node of the record as it is. */
  type Summary = map<string, Node>

  /** The targets of the field table. */
  const FieldTargets: set<string> := {
    "field_abstract", "field_edtf_date_issued", "field_publisher", "title", "field_genre",
    "field_resource_type", "field_access_condition", "field_edtf_date_other",
    "field_edtf_date_created", "field_location", "field_edtf_copyright_date", "field_issuance",
    "field_edition", "field_identifier", "field_subtitle"
  }

  /** The keys the `subject` step writes. */
  const SubjectKeys: set<string> := {"field_geographic_subject", "field_subject"}

  /** The keys the `titleInfo` step writes. */
  const TitleKeys: set<string> := {"title", "field_subtitle", "field_alternative_title"}

  /** The keys the string children, `originInfo`, `subject`, `relatedItem` and `titleInfo`
      write. */
  const EarlyKeys: set<string> := FieldTargets + SubjectKeys + {"field_related_item"} + TitleKeys

  /** The keys the `location`, `physicalDescription` and `typeOfResource` steps write. */
  const LateKeys: set<string> :=
    {"field_location", "field_physical_description", "field_extent", "field_resource_type"}

  /** Every key an extraction can write. */
  const Targets: set<string> := EarlyKeys + LateKeys + {"field_linked_agent"}

  /** `get_fields()[key]`: the summary field a MODS element name is stored under. */
  function Field(key: string): (r: Option<string>)
    ensures r.Some? ==> r.value in FieldTargets
    ensures key in {"note", "abstract"} ==> r == Some("field_abstract")
  {
    match key
    case "note" => Some("field_abstract")
    case "abstract" => Some("field_abstract")
    case "dateIssued" => Some("field_edtf_date_issued")
    case "publisher" => Some("field_publisher")
    case "title" => Some("title")
    case "genre" => Some("field_genre")
    case "typeOfResource" => Some("field_resource_type")
    case "accessCondition" => Some("field_access_condition")
    case "dateOther" => Some("field_edtf_date_other")
    case "dateCreated" => Some("field_edtf_date_created")
    case "place" => Some("field_location")
    case "copyrightDate" => Some("field_edtf_copyright_date")
    case "issuance" => Some("field_issuance")
    case "edition" => Some("field_edition")
    case "identifier" => Some("field_identifier")
    case "sub_title" => Some("field_subtitle")
    case _ => None
  }

  /** `after` has every key of `before`, and differs from it only on keys in `written`. */
  predicate Keeps(before: Summary, after: Summary, written: set<string>) {
    (forall k :: k in before ==> k in after) &&
    (forall k :: k in after && k !in written ==> k in before && after[k] == before[k])
  }

  /** The outcome of a step as a method reports it: no error and the step's summary, or the
      step's exception. */
  predicate Reached(r: Result<Summary>, err: Option<PyError>, summary: Summary) {
    match r
    case Ok(s) => err.None? && summary == s
    case Err(e) => err == Some(e)
  }

  // ----- Plain string children -----

  /** A child element holding only text, other than an attribute. */
  predicate IsStringEntry(e: (string, Node)) {
    e.1.Text? && !StartsWith(e.0, "@")
  }

  /** Each string child is stored, its lines joined with spaces, under its field; a child name
      with no field raises `KeyError`. */
  function StringFields(es: Entries, sm: Summary): Result<Summary>
    decreases |es|
  {
    if es == [] then Ok(sm)
    else if IsStringEntry(es[0]) then
      match Field(es[0].0)
      case None => Err(KeyError(es[0].0))
      case Some(f) => StringFields(es[1..], sm[f := Text(JoinLines(es[0].1.s))])
    else StringFields(es[1..], sm)
  }

  /** The record once its string children are deleted. */
  function NonString(es: Entries): (r: Entries)
    ensures forall i :: 0 <= i < |r| ==> !IsStringEntry(r[i])
    ensures forall e :: e in r ==> e in es
    ensures forall i :: 0 <= i < |es| && !IsStringEntry(es[i]) ==> es[i] in r
    decreases |es|
  {
    if es == [] then []
    else
      var rest := NonString(es[1..]);
      assert forall i :: 1 <= i < |es| ==> es[i] == es[1..][i - 1];
      (if IsStringEntry(es[0]) then [] else [es[0]]) + rest
  }

  /** Deleting the string children keeps the order of the others. */
  lemma {:induction false} NonStringAppend(a: Entries, b: Entries)
    ensures NonString(a + b) == NonString(a) + NonString(b)
    decreases |a|
  {
    if a != [] {
      assert (a + b)[0] == a[0] && (a + b)[1..] == a[1..] + b;
      NonStringUnfold(a + b);
      NonStringUnfold(a);
      NonStringAppend(a[1..], b);
    } else {
      assert a + b == b;
    }
  }

  /** One step of `NonString`. */
  lemma NonStringUnfold(es: Entries)
    requires es != []
    ensures NonString(es) == (if IsStringEntry(es[0]) then [] else [es[0]]) + NonString(es[1..])
  {
  }

  // ----- originInfo -----

  /** Each child of one `originInfo` is stored as it is under its field. */
  function OriginEntries(es: Entries, sm: Summary): Result<Summary>
    decreases |es|
  {
    if es == [] then Ok(sm)
    else
      match Field(es[0].0)
      case None => Err(KeyError(es[0].0))
      case Some(f) => OriginEntries(es[1..], sm[f := es[0].1])
  }

  /** Each `originInfo` in turn; one that is not a dict has no `items`. */
  function OriginItems(items: seq<Node>, sm: Summary): Result<Summary>
    decreases |items|
  {
    if items == [] then Ok(sm)
    else if !items[0].Dict? then Err(AttributeError)
    else
      var next :- OriginEntries(items[0].entries, sm);
      OriginItems(items[1..], next)
  }

  function OriginInfo(es: Entries, sm: Summary): Result<Summary> {
    var items :- Coerced(es, "originInfo", List([]));
    OriginItems(items, sm)
  }

  // ----- subject -----

  /** The values of a dict that are not `None`, in order. */
  function NonNullValues(es: Entries): (r: seq<Node>)
    ensures forall i :: 0 <= i < |r| ==> !r[i].Null?
    ensures forall v :: v in r ==> exists i :: 0 <= i < |es| && es[i].1 == v
    ensures forall i :: 0 <= i < |es| && !es[i].1.Null? ==> es[i].1 in r
    decreases |es|
  {
    if es == [] then []
    else
      var rest := NonNullValues(es[1..]);
      assert forall i :: 1 <= i < |es| ==> es[i] == es[1..][i - 1];
      (if es[0].1.Null? then [] else [es[0].1]) + rest
  }

  /** The non-`None` values keep their order. */
  lemma {:induction false} NonNullValuesAppend(a: Entries, b: Entries)
    ensures NonNullValues(a + b) == NonNullValues(a) + NonNullValues(b)
    decreases |a|
  {
    if a != [] {
      assert (a + b)[0] == a[0] && (a + b)[1..] == a[1..] + b;
      NonNullValuesAppend(a[1..], b);
    } else {
      assert a + b == b;
    }
  }

  /** The children of the `subject` dict: `geographic` and `topic` are copied, and a
      `hierarchicalGeographic` dict is stored as its non-`None` values joined with `,`. */
  function SubjectEntries(es: Entries, sm: Summary): Result<Summary>
    decreases |es|
  {
    if es == [] then Ok(sm)
    else
      var (k, v) := es[0];
      if k == "geographic" then SubjectEntries(es[1..], sm["field_geographic_subject" := v])
      else if k == "topic" then SubjectEntries(es[1..], sm["field_subject" := v])
      else if k == "hierarchicalGeographic" then
        if !v.Dict? then Err(AttributeError)
        else
          var joined :- JoinTexts(",", NonNullValues(v.entries));
          SubjectEntries(es[1..], sm["field_geographic_subject" := Text(joined)])
      else SubjectEntries(es[1..], sm)
  }

  /** `mods.get('subject', {}).items()`: a repeated or empty `subject` has no `items`. */
  function Subjects(es: Entries, sm: Summary): Result<Summary> {
    var subject := GetOr(es, "subject", Dict([]));
    if !subject.Dict? then Err(AttributeError) else SubjectEntries(subject.entries, sm)
  }

  // ----- relatedItem -----

  /** `item.get('titleInfo', {}).get('title', '')`. */
  function RelatedTitle(item: Node): Result<Node> {
    var info :- Get(item, "titleInfo", Dict([]));
    Get(info, "title", Text(""))
  }

  /** The related titles appended, in order, to `acc`. */
  function RelatedFold(items: seq<Node>, acc: seq<Node>): Result<seq<Node>>
    decreases |items|
  {
    if items == [] then Ok(acc)
    else
      var t :- RelatedTitle(items[0]);
      RelatedFold(items[1..], acc + [t])
  }

  /** The related titles joined with `|`. */
  function RelatedJoin(es: Entries): Result<string> {
    var items :- Coerced(es, "relatedItem", Dict([]));
    var titles :- RelatedFold(items, []);
    JoinTexts("|", titles)
  }

  /** `field_related_item` is always written. */
  function Related(es: Entries, sm: Summary): Result<Summary> {
    var joined :- RelatedJoin(es);
    Ok(sm["field_related_item" := Text(joined)])
  }

  // ----- titleInfo -----

  /** One `titleInfo`: its non-`None` title becomes `title` unless one is there already; the
      subtitle branch tests a key that MODS does not use; an `alternative` title is stored as
      the alternative title. Anything but a dict has no `get`. */
  function TitleStep(t: Node, sm: Summary): Result<Summary> {
    if !t.Dict? then Err(AttributeError)
    else
      var es := t.entries;
      var title := GetOr(es, "title", Null);
      var sm1 := if "title" !in sm && title != Null then sm["title" := title] else sm;
      var sm2 :=
        if "field_subtitle" !in sm1 && Truthy(GetOr(es, "field_subtitle", Null))
        then sm1["field_subtitle" := GetOr(es, "subtitle", Text(""))] else sm1;
      Ok(if GetOr(es, "@type", Text("")) == Text("alternative") && title != Null
         then sm2["field_alternative_title" := title] else sm2)
  }

  function TitleFold(items: seq<Node>, sm: Summary): Result<Summary>
    decreases |items|
  {
    if items == [] then Ok(sm)
    else
      var next :- TitleStep(items[0], sm);
      TitleFold(items[1..], next)
  }

  /** `mods['titleInfo']` is required: without it the extraction raises `KeyError`. */
  function TitleItems(es: Entries): Result<seq<Node>> {
    match Lookup(es, "titleInfo")
    case None => Err(KeyError("titleInfo"))
    case Some(v) => if v.Dict? then Ok([v]) else Members(v)
  }

  function Titles(es: Entries, sm: Summary): Result<Summary> {
    var items :- TitleItems(es);
    TitleFold(items, sm)
  }

  // ----- location -----

  /** `(location or {}).get('location', {}).get('physicalLocation', '')`. */
  function LocationOf(item: Node): Result<Node> {
    var inner :- Get(Or(item, Dict([])), "location", Dict([]));
    Get(inner, "physicalLocation", Text(""))
  }

  /** Each location is appended to `locs` and `field_location` is rewritten with the join so
      far, so a location that is not a string fails at its own turn. */
  function LocationFold(items: seq<Node>, locs: seq<Node>, sm: Summary): Result<Summary>
    decreases |items|
  {
    if items == [] then Ok(sm)
    else
      var loc :- LocationOf(items[0]);
      var joined :- JoinTexts("|", locs + [loc]);
      LocationFold(items[1..], locs + [loc], sm["field_location" := Text(joined)])
  }

  function Locations(es: Entries, sm: Summary): Result<Summary> {
    var items :- Coerced(es, "location", Dict([]));
    LocationFold(items, [], sm)
  }

  // ----- physicalDescription and typeOfResource -----

  /** The `#text` of `physicalDescription.form`, then `physicalDescription.extent`, both copied
      as they are. */
  function Physical(es: Entries, sm: Summary): Result<Summary> {
    var description := GetOr(es, "physicalDescription", Dict([]));
    var form :- Get(description, "form", Dict([]));
    var text :- Get(form, "#text", Text(""));
    var extent :- Get(description, "extent", Text(""));
    Ok(sm["field_physical_description" := text]["field_extent" := extent])
  }

  /** `(mods.get('typeOfResource') or {}).get('#text', '')`. */
  function ResourceKind(es: Entries): Result<Node> {
    Get(Or(GetOr(es, "typeOfResource", Null), Dict([])), "#text", Text(""))
  }

  function ResourceType(es: Entries, sm: Summary): Result<Summary> {
    var kind :- ResourceKind(es);
    Ok(sm["field_resource_type" := kind])
  }

  // ----- name -----

  /** The loop over the `name` items: `encode` of each item appended, in order, to `acc`; the
      first failure ends it. `encode` is `parse_name` (`ParsedName`). */
  function NamesFold(items: seq<Node>, acc: seq<string>, encode: Node -> Result<string>): Result<seq<string>>
    decreases |items|
  {
    if items == [] then Ok(acc)
    else
      var n :- encode(items[0]);
      NamesFold(items[1..], acc + [n], encode)
  }

  /** The encoded names joined with `|`. */
  function LinkedAgents(es: Entries): Result<string> {
    var items :- Coerced(es, "name", List([]));
    var names :- NamesFold(items, [], ParsedName);
    Ok(Join("|", names))
  }

  /** `field_linked_agent` is always written. */
  function Names(es: Entries, sm: Summary): Result<Summary> {
    var joined :- LinkedAgents(es);
    Ok(sm["field_linked_agent" := Text(joined)])
  }

  // ----- dates -----

  /** The summary fields that hold EDTF dates: those whose name contains `edtf`. */
  predicate IsEdtfKey(k: string) {
    Contains(k, "edtf")
  }

  /** A stored value after `fix_dates`: only a value a rule stores replaces it. */
  function Repaired(v: Node, isEdtf: string -> bool): Node {
    if v.Text? then
      match RepairDate(v.s, isEdtf)
      case Stored(d) => Text(d)
      case _ => v
    else v
  }

  /** `fix_dates` on every EDTF field; a value that is not a string has no `strip`. */
  function DatePass(sm: Summary, isEdtf: string -> bool): Result<Summary> {
    if exists k :: k in sm && IsEdtfKey(k) && !sm[k].Text? then Err(AttributeError)
    else Ok(map k | k in sm :: if IsEdtfKey(k) then Repaired(sm[k], isEdtf) else sm[k])
  }

  /** The date pass succeeds with `m` when every EDTF field is a string and `m` holds the
      repaired EDTF fields and every other field as it was. */
  lemma DatePassDone(sm: Summary, m: Summary, isEdtf: string -> bool)
    requires m.Keys == sm.Keys
    requires forall k :: k in sm && IsEdtfKey(k) ==> sm[k].Text?
    requires forall k :: k in sm ==> m[k] == if IsEdtfKey(k) then Repaired(sm[k], isEdtf) else sm[k]
    ensures DatePass(sm, isEdtf) == Ok(m)
  {
    var r := map k | k in sm :: if IsEdtfKey(k) then Repaired(sm[k], isEdtf) else sm[k];
    assert r.Keys == m.Keys;
    assert forall k :: k in r ==> r[k] == m[k];
    assert r == m;
  }

  /** Part way through the date pass: the keys outside `todo` are done, so an EDTF field among
      them holds a string and now its repaired value; every other field is as it was. */
  predicate DateProgress(s0: Summary, sm: Summary, todo: set<string>, isEdtf: string -> bool) {
    todo <= s0.Keys && sm.Keys == s0.Keys &&
    (forall k :: k in s0 ==>
      sm[k] == if k !in todo && IsEdtfKey(k) then Repaired(s0[k], isEdtf) else s0[k]) &&
    (forall k :: k in s0 && k !in todo && IsEdtfKey(k) ==> s0[k].Text?)
  }

  /** Fixing one more EDTF field that holds a string, or passing over a field that is no EDTF
      field, moves the date pass one key on. */
  lemma DateProgressStep(s0: Summary, sm: Summary, todo: set<string>, key: string, isEdtf: string -> bool)
    requires DateProgress(s0, sm, todo, isEdtf) && key in todo
    ensures sm[key] == s0[key]
    ensures IsEdtfKey(key) && sm[key].Text? ==>
      DateProgress(s0, sm[key := Repaired(sm[key], isEdtf)], todo - {key}, isEdtf)
    ensures !IsEdtfKey(key) ==> DateProgress(s0, sm, todo - {key}, isEdtf)
  {
  }

  /** One EDTF field that is not a string fails the whole pass. */
  lemma DatePassFails(sm: Summary, k: string, isEdtf: string -> bool)
    requires k in sm && IsEdtfKey(k) && !sm[k].Text?
    ensures DatePass(sm, isEdtf) == Err(AttributeError)
  {
  }

  // ----- the whole extraction -----

  /** `originInfo`, `subject`, `relatedItem` and `titleInfo`, in that order. */
  function EarlySteps(rest: Entries, sm: Summary): Result<Summary> {
    var sm1 :- OriginInfo(rest, sm);
    var sm2 :- Subjects(rest, sm1);
    var sm3 :- Related(rest, sm2);
    Titles(rest, sm3)
  }

  /** `location`, `physicalDescription` and `typeOfResource`, in that order. */
  function LateSteps(rest: Entries, sm: Summary): Result<Summary> {
    var sm1 :- Locations(rest, sm);
    var sm2 :- Physical(rest, sm1);
    ResourceType(rest, sm2)
  }

  /** The steps after the string children, on the record without them: the early and late
      steps, the `name` step, then the date pass. */
  function Harvest(rest: Entries, sm: Summary, isEdtf: string -> bool): Result<Summary> {
    var early :- EarlySteps(rest, sm);
    var late :- LateSteps(rest, early);
    var named :- Names(rest, late);
    DatePass(named, isEdtf)
  }

  /** `extract_from_mods` on the parsed document: its `mods` root must exist and be a dict. */
  function Extract(doc: Entries, isEdtf: string -> bool): Result<Summary> {
    match Lookup(doc, "mods")
    case None => Err(KeyError("mods"))
    case Some(root) =>
      if !root.Dict? then Err(AttributeError)
      else
        var sm :- StringFields(root.entries, map[]);
        Harvest(NonString(root.entries), sm, isEdtf)
  }
}
