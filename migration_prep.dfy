/** `MigrationPrepper.map_worksheet_values`: the strict variant, which also keeps `title` and
    fails on a content model it cannot translate. */
module MigrationPrep {
  import opened PyStr
  import opened PyTree
  import opened Worksheet

  /** `map`: the columns the strict variant keeps, and their target fields. */
  function Column(key: string): (r: Option<string>)
    ensures r.Some? ==> r.value in Targets
  {
    match key
    case "content_model" => Some("field_model")
    case "pid" => Some("field_pid")
    case "collection_pid" => Some("field_member_of")
    case "page_of" => Some("field_member_of")
    case "sequence" => Some("field_weight")
    case "title" => Some("title")
    case _ => None
  }

  const Targets: set<string> := {"field_model", "field_pid", "field_member_of", "field_weight", "title"}

  /** `map_worksheet_values(line)`: the row is folded into the renamed fields, then a
      `field_model` is replaced by its translation; an unknown model raises `KeyError`. Every
      other field holds its cell unchanged, and no field holds `None`. */
  method MapWorksheetValues(line: Row) returns (r: Result<Cleaned>)
    ensures r.Err? <==> (LastValue(Column, line, "field_model").Some? &&
      ContentModel(LastValue(Column, line, "field_model").value).None?)
    ensures r.Err? ==> r.error == KeyError(LastValue(Column, line, "field_model").value)
    ensures r.Ok? ==> forall k :: k in r.value ==> k in Targets && r.value[k].Some?
    ensures r.Ok? ==> forall t :: t in r.value <==> LastValue(Column, line, t).Some?
    ensures r.Ok? ==> forall t :: t in r.value && t != "field_model" ==> r.value[t] == LastValue(Column, line, t)
    ensures r.Ok? && "field_model" in r.value ==>
      r.value["field_model"] == ContentModel(LastValue(Column, line, "field_model").value)
  {
    var cleaned := CollectRow(Column, line);
    r := Ok(cleaned);
    if "field_model" in cleaned {
      var model := cleaned["field_model"].value;
      var name := ContentModel(model);
      if name.None? {
        r := Err(KeyError(model));
      } else {
        r := Ok(cleaned["field_model" := name]);
      }
    }
  }

  /** The columns the map does not know, such as `nid`, `dublin_core` and `mods`, never reach
      a field: replacing their cells changes nothing. */
  lemma {:induction false} UnknownColumnsIgnored(line: Row, other: Row)
    requires |line| == |other|
    requires forall i :: 0 <= i < |line| ==> line[i].0 == other[i].0
    requires forall i :: 0 <= i < |line| && Column(line[i].0).Some? ==> line[i].1 == other[i].1
    ensures Collect(Column, line) == Collect(Column, other)
    decreases |line|
  {
    if line != [] {
      UnknownColumnsIgnored(line[..|line| - 1], other[..|other| - 1]);
    }
  }

  /** A known content model in the `content_model` column comes out translated; a blank one
      leaves no `field_model` at all. */
  lemma ModelColumn(id: string)
    requires Strip(id) != ""
    ensures LastValue(Column, [("content_model", Some(id))], "field_model") == Some(id)
    ensures LastValue(Column, [("content_model", None)], "field_model").None?
  {
    var line := [("content_model", Some(id))];
    assert line[..0] == [];
    var blank: Row := [("content_model", None)];
    assert blank[..0] == [];
  }
}
