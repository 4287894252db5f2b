/** What the two `map_worksheet_values` variants share: a worksheet row, the blank test, the
    fold of the row into renamed columns, and the content-model table. */
module Worksheet {
  import opened PyStr
  import opened PyTree

  /** A worksheet row in column order: column name and cell, `None` for an SQL `NULL`. */
  type Row = seq<(string, Option<string>)>

  /** The renamed row: target field to cell. A cell is `None` only where a content model has
      no translation. */
  type Cleaned = map<string, Option<string>>

  /** A cell that is `None` or holds only whitespace. */
  predicate IsBlank(v: Option<string>) {
    v.None? || Strip(v.value) == ""
  }

  /** Whether `column` sends entry `e` to field `t` and the entry is not blank. */
  predicate Sends(column: string -> Option<string>, e: (string, Option<string>), t: string) {
    column(e.0) == Some(t) && !IsBlank(e.1)
  }

  /** The loop of `map_worksheet_values` over the first columns of the row: each non-blank
      column the map knows is written under its target, later columns overwriting earlier
      ones. */
  function Collect(column: string -> Option<string>, line: Row): (r: Cleaned)
    ensures forall t :: t in r ==> r[t].Some?
    decreases |line|
  {
    if line == [] then map[]
    else
      var e := line[|line| - 1];
      var acc := Collect(column, line[..|line| - 1]);
      if column(e.0).Some? && !IsBlank(e.1) then acc[column(e.0).value := e.1] else acc
  }

  /** No column of the row is sent to `t` with a non-blank cell. */
  predicate NoSender(column: string -> Option<string>, line: Row, t: string) {
    forall i :: 0 <= i < |line| ==> !Sends(column, line[i], t)
  }

  /** Column `i` is the last one of the row that `column` sends to `t` with a non-blank cell. */
  predicate LastSender(column: string -> Option<string>, line: Row, t: string, i: nat) {
    i < |line| && Sends(column, line[i], t) && forall j :: i < j < |line| ==> !Sends(column, line[j], t)
  }

  /** The cell of the last non-blank column that `column` sends to `t`, if any. */
  function LastValue(column: string -> Option<string>, line: Row, t: string): (r: Option<string>)
    ensures r.Some? ==> exists i: nat :: LastSender(column, line, t, i) && line[i].1 == Some(r.value)
    ensures r.None? ==> NoSender(column, line, t)
    decreases |line|
  {
    if line == [] then None
    else
      var e := line[|line| - 1];
      var front := line[..|line| - 1];
      if Sends(column, e, t) then
        assert LastSender(column, line, t, |line| - 1);
        Some(e.1.value)
      else
        LastSenderExtend(column, line, t);
        NoSenderExtend(column, line, t);
        LastValue(column, front, t)
  }

  /** A last column that is not sent to `t` changes nothing about which column is the last one
      sent there. */
  lemma LastSenderExtend(column: string -> Option<string>, line: Row, t: string)
    requires line != [] && !Sends(column, line[|line| - 1], t)
    ensures forall i: nat :: LastSender(column, line[..|line| - 1], t, i) ==>
      LastSender(column, line, t, i) && line[..|line| - 1][i] == line[i]
  {
    var front := line[..|line| - 1];
    forall i: nat | LastSender(column, front, t, i)
      ensures LastSender(column, line, t, i) && front[i] == line[i]
    {
      forall j | i < j < |line|
        ensures !Sends(column, line[j], t)
      {
        if j < |front| {
          assert front[j] == line[j];
        }
      }
    }
  }

  /** Nor does it make a row with no column sent to `t` have one. */
  lemma NoSenderExtend(column: string -> Option<string>, line: Row, t: string)
    requires line != [] && !Sends(column, line[|line| - 1], t)
    ensures NoSender(column, line[..|line| - 1], t) ==> NoSender(column, line, t)
  {
    var front := line[..|line| - 1];
    if NoSender(column, front, t) {
      forall i | 0 <= i < |front|
        ensures !Sends(column, line[i], t)
      {
        assert front[i] == line[i];
      }
    }
  }

  /** The fold writes exactly the fields some non-blank mapped column reaches, and each holds the
      cell of the last such column. */
  lemma {:induction false} CollectIsLast(column: string -> Option<string>, line: Row)
    ensures forall t :: t in Collect(column, line) <==> LastValue(column, line, t).Some?
    ensures forall t :: t in Collect(column, line) ==> Collect(column, line)[t] == LastValue(column, line, t)
    decreases |line|
  {
    if line != [] {
      CollectIsLast(column, line[..|line| - 1]);
    }
  }

  /** The loop both variants share: each column the map knows, unless its cell is blank, is
      written under its target. */
  method CollectRow(column: string -> Option<string>, line: Row) returns (cleaned: Cleaned)
    ensures forall t :: t in cleaned <==> LastValue(column, line, t).Some?
    ensures forall t :: t in cleaned ==> cleaned[t] == LastValue(column, line, t)
  {
    cleaned := map[];
    var i := 0;
    while i < |line|
      invariant 0 <= i <= |line|
      invariant cleaned == Collect(column, line[..i])
    {
      assert line[..i + 1][..i] == line[..i];
      var (key, value) := line[i];
      var target := column(key);
      if target.Some? {
        // A `None` cell counts as the empty string.
        var text := if value.None? then "" else value.value;
        if Strip(text) != "" {
          cleaned := cleaned[target.value := value];
        }
      }
      i := i + 1;
    }
    assert line[..i] == line;
    CollectIsLast(column, line);
  }

  /** `content_map`: Islandora 7 content models to their Drupal model names. */
  function ContentModel(id: string): Option<string> {
    match id
    case "islandora:collectionCModel" => Some("Collection")
    case "islandora:sp_large_image_cmodel" => Some("Image")
    case "islandora:sp-audioCModel" => Some("Audio")
    case "islandora:pageCModel" => Some("Page")
    case "islandora:bd_pageCModel" => Some("Page")
    case "islandora:bookCModel" => Some("Paged Content")
    case "islandora:compoundCModel" => Some("Compound Object")
    case "islandora:sp_pdf" => Some("Digital Document")
    case "islandora:sp_basic_image" => Some("Image")
    case "islandora:newspaperCModel" => Some("Newspaper")
    case "islandora:newspaperIssueCModel" => Some("Publication Issue")
    case "islandora:newspaperPageCModel" => Some("Page")
    case "islandora:oralhistoriesCModel" => Some("Compound Object")
    case "islandora:sp_videoCModel" => Some("Video")
    case "ir:thesisCModel" => Some("Digital Document")
    case "islandora:rootSerialCModel" => Some("Compound Object")
    case "islandora:intermediateCModel" => Some("Compound Object")
    case "ir:citationCModel" => Some("Citation")
    case "islandora:audioCModel|islandora:sp-audioCModel" => Some("Audio")
    case "islandora:slideCModel|islandora:sp_large_image_cmodel" => Some("Image")
    case "islandora:videoCModel|islandora:sp_videoCModel" => Some("Video")
    case "islandora:audioCModel" => Some("Audio")
    case _ => None
  }
}
