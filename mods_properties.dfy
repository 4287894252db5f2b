/** What an extraction promises: which keys it can write, which steps leave which keys alone,
    how the joined fields and the title are chosen, and where it fails. */
module ModsProperties {
  import opened PyStr
  import opened PyTree
  import opened NameParsing
  import opened ModsSteps

  // ----- Which keys each step writes -----

  lemma KeepsChain(a: Summary, b: Summary, c: Summary, w1: set<string>, w2: set<string>)
    requires Keeps(a, b, w1) && Keeps(b, c, w2)
    ensures Keeps(a, c, w1 + w2)
  {
  }

  /** The string children write only fields of the table, and succeed exactly when every one
      of them has a field. */
  lemma {:induction false} StringFieldsWrites(es: Entries, sm: Summary)
    ensures StringFields(es, sm).Ok? <==> forall i :: 0 <= i < |es| && IsStringEntry(es[i]) ==> Field(es[i].0).Some?
    ensures StringFields(es, sm).Ok? ==> Keeps(sm, StringFields(es, sm).value, FieldTargets)
    decreases |es|
  {
    if es != [] {
      var rest := es[1..];
      assert forall i :: 1 <= i < |es| ==> es[i] == rest[i - 1];
      if IsStringEntry(es[0]) {
        if Field(es[0].0).Some? {
          StringFieldsWrites(rest, sm[Field(es[0].0).value := Text(JoinLines(es[0].1.s))]);
        }
      } else {
        StringFieldsWrites(rest, sm);
      }
    }
  }

  /** The children of one `originInfo` write only fields of the table, and succeed exactly when
      each child, attributes included, has a field. */
  lemma {:induction false} OriginEntriesWrites(es: Entries, sm: Summary)
    ensures OriginEntries(es, sm).Ok? <==> forall i :: 0 <= i < |es| ==> Field(es[i].0).Some?
    ensures OriginEntries(es, sm).Ok? ==> Keeps(sm, OriginEntries(es, sm).value, FieldTargets)
    decreases |es|
  {
    if es != [] {
      var rest := es[1..];
      assert forall i :: 1 <= i < |es| ==> es[i] == rest[i - 1];
      if Field(es[0].0).Some? {
        OriginEntriesWrites(rest, sm[Field(es[0].0).value := es[0].1]);
      }
    }
  }

  lemma {:induction false} OriginItemsWrites(items: seq<Node>, sm: Summary)
    ensures OriginItems(items, sm).Ok? ==> Keeps(sm, OriginItems(items, sm).value, FieldTargets)
    decreases |items|
  {
    if items != [] && items[0].Dict? {
      OriginEntriesWrites(items[0].entries, sm);
      var next := OriginEntries(items[0].entries, sm);
      if next.Ok? {
        OriginItemsWrites(items[1..], next.value);
      }
    }
  }

  lemma {:induction false} SubjectEntriesWrites(es: Entries, sm: Summary)
    ensures SubjectEntries(es, sm).Ok? ==> Keeps(sm, SubjectEntries(es, sm).value, SubjectKeys)
    decreases |es|
  {
    if es != [] {
      var (k, v) := es[0];
      if k == "geographic" {
        SubjectEntriesWrites(es[1..], sm["field_geographic_subject" := v]);
      } else if k == "topic" {
        SubjectEntriesWrites(es[1..], sm["field_subject" := v]);
      } else if k == "hierarchicalGeographic" {
        if v.Dict? {
          var joined := JoinTexts(",", NonNullValues(v.entries));
          if joined.Ok? {
            SubjectEntriesWrites(es[1..], sm["field_geographic_subject" := Text(joined.value)]);
          }
        }
      } else {
        SubjectEntriesWrites(es[1..], sm);
      }
    }
  }

  lemma {:induction false} TitleFoldWrites(items: seq<Node>, sm: Summary)
    ensures TitleFold(items, sm).Ok? ==> Keeps(sm, TitleFold(items, sm).value, TitleKeys)
    decreases |items|
  {
    if items != [] {
      var next := TitleStep(items[0], sm);
      if next.Ok? {
        TitleFoldWrites(items[1..], next.value);
      }
    }
  }

  lemma {:induction false} LocationFoldWrites(items: seq<Node>, locs: seq<Node>, sm: Summary)
    ensures LocationFold(items, locs, sm).Ok? ==> Keeps(sm, LocationFold(items, locs, sm).value, {"field_location"})
    decreases |items|
  {
    if items != [] {
      var loc := LocationOf(items[0]);
      if loc.Ok? {
        var joined := JoinTexts("|", locs + [loc.value]);
        if joined.Ok? {
          LocationFoldWrites(items[1..], locs + [loc.value], sm["field_location" := Text(joined.value)]);
        }
      }
    }
  }

  /** The EDTF keys of a summary. */
  function EdtfKeys(sm: Summary): set<string> {
    set k | k in sm && IsEdtfKey(k)
  }

  /** The date pass keeps the keys, leaves every other field alone, and replaces each EDTF field
      by its repaired value; it fails exactly when an EDTF field holds something other than a
      string. */
  lemma DatePassWrites(sm: Summary, isEdtf: string -> bool)
    ensures DatePass(sm, isEdtf).Ok? <==> forall k :: k in sm && IsEdtfKey(k) ==> sm[k].Text?
    ensures DatePass(sm, isEdtf).Ok? ==>
      var r := DatePass(sm, isEdtf).value;
      r.Keys == sm.Keys && Keeps(sm, r, EdtfKeys(sm)) &&
      forall k :: k in sm && IsEdtfKey(k) ==> r[k] == Repaired(sm[k], isEdtf)
  {
  }

  lemma OriginInfoWrites(rest: Entries, sm: Summary)
    ensures OriginInfo(rest, sm).Ok? ==> Keeps(sm, OriginInfo(rest, sm).value, FieldTargets)
  {
    var items := Coerced(rest, "originInfo", List([]));
    if items.Ok? {
      OriginItemsWrites(items.value, sm);
    }
  }

  lemma SubjectsWrites(rest: Entries, sm: Summary)
    ensures Subjects(rest, sm).Ok? ==> Keeps(sm, Subjects(rest, sm).value, SubjectKeys)
  {
    var subject := GetOr(rest, "subject", Dict([]));
    if subject.Dict? {
      SubjectEntriesWrites(subject.entries, sm);
    }
  }

  lemma TitlesWrites(rest: Entries, sm: Summary)
    ensures Titles(rest, sm).Ok? ==> Keeps(sm, Titles(rest, sm).value, TitleKeys)
  {
    var items := TitleItems(rest);
    if items.Ok? {
      TitleFoldWrites(items.value, sm);
    }
  }

  lemma LocationsWrites(rest: Entries, sm: Summary)
    ensures Locations(rest, sm).Ok? ==> Keeps(sm, Locations(rest, sm).value, {"field_location"})
  {
    var items := Coerced(rest, "location", Dict([]));
    if items.Ok? {
      LocationFoldWrites(items.value, [], sm);
    }
  }

  lemma EarlyStepsWrite(rest: Entries, sm: Summary)
    requires EarlySteps(rest, sm).Ok?
    ensures Keeps(sm, EarlySteps(rest, sm).value, EarlyKeys)
  {
    var sm1 := OriginInfo(rest, sm).value;
    OriginInfoWrites(rest, sm);
    var sm2 := Subjects(rest, sm1).value;
    SubjectsWrites(rest, sm1);
    KeepsChain(sm, sm1, sm2, FieldTargets, SubjectKeys);
    var sm3 := Related(rest, sm2).value;
    KeepsChain(sm, sm2, sm3, FieldTargets + SubjectKeys, {"field_related_item"});
    TitlesWrites(rest, sm3);
    KeepsChain(sm, sm3, Titles(rest, sm3).value, FieldTargets + SubjectKeys + {"field_related_item"}, TitleKeys);
  }

  lemma LateStepsWrite(rest: Entries, sm: Summary)
    requires LateSteps(rest, sm).Ok?
    ensures Keeps(sm, LateSteps(rest, sm).value, LateKeys)
  {
    var sm1 := Locations(rest, sm).value;
    LocationsWrites(rest, sm);
    var sm2 := Physical(rest, sm1).value;
    var sm3 := LateSteps(rest, sm).value;
    assert Keeps(sm1, sm3, {"field_physical_description", "field_extent", "field_resource_type"});
    KeepsChain(sm, sm1, sm3, {"field_location"}, {"field_physical_description", "field_extent", "field_resource_type"});
  }

  /** After the string children, the steps add only known target fields. */
  lemma HarvestKeys(rest: Entries, sm: Summary, isEdtf: string -> bool)
    requires Harvest(rest, sm, isEdtf).Ok?
    ensures forall k :: k in Harvest(rest, sm, isEdtf).value ==> k in sm || k in Targets
  {
    var early := EarlySteps(rest, sm).value;
    var late := LateSteps(rest, early).value;
    var named := Names(rest, late).value;
    EarlyStepsWrite(rest, sm);
    LateStepsWrite(rest, early);
    DatePassWrites(named, isEdtf);
  }

  /** Every key of an extracted summary is one of the known target fields. */
  lemma ExtractKeys(doc: Entries, isEdtf: string -> bool)
    requires Extract(doc, isEdtf).Ok?
    ensures forall k :: k in Extract(doc, isEdtf).value ==> k in Targets
  {
    var root := Lookup(doc, "mods").value;
    var sm := StringFields(root.entries, map[]).value;
    StringFieldsWrites(root.entries, map[]);
    HarvestKeys(NonString(root.entries), sm, isEdtf);
  }

  // ----- What the joined and chosen fields hold -----

  /** The titles of the related items, in order, or the first failure reading one. */
  function RelatedTitles(items: seq<Node>): Result<seq<Node>>
    decreases |items|
  {
    if items == [] then Ok([])
    else
      var t :- RelatedTitle(items[0]);
      var more :- RelatedTitles(items[1..]);
      Ok([t] + more)
  }

  /** The related-title fold appends the titles of the items to `acc`, failing exactly when
      reading one of them fails. */
  lemma {:induction false} RelatedFoldAppends(items: seq<Node>, acc: seq<Node>)
    ensures RelatedFold(items, acc).Ok? <==> RelatedTitles(items).Ok?
    ensures RelatedTitles(items).Ok? ==> RelatedFold(items, acc).value == acc + RelatedTitles(items).value
    decreases |items|
  {
    if items != [] && RelatedTitle(items[0]).Ok? {
      var t := RelatedTitle(items[0]).value;
      RelatedFoldAppends(items[1..], acc + [t]);
      if RelatedTitles(items[1..]).Ok? {
        assert acc + [t] + RelatedTitles(items[1..]).value == acc + ([t] + RelatedTitles(items[1..]).value);
      }
    }
  }

  /** The related titles are read in document order: they exist exactly when every item's
      title can be read, and then the `i`-th is the `i`-th item's title. */
  lemma {:induction false} RelatedTitlesInOrder(items: seq<Node>)
    ensures RelatedTitles(items).Ok? <==> forall i :: 0 <= i < |items| ==> RelatedTitle(items[i]).Ok?
    ensures RelatedTitles(items).Ok? ==>
      |RelatedTitles(items).value| == |items| &&
      forall i :: 0 <= i < |items| ==> RelatedTitles(items).value[i] == RelatedTitle(items[i]).value
    decreases |items|
  {
    if items != [] {
      var tail := items[1..];
      RelatedTitlesInOrder(tail);
      assert forall i :: 1 <= i < |items| ==> items[i] == tail[i - 1];
    }
  }

  /** The encodings of the items, in order, or the first failure encoding one. */
  function Encodings(items: seq<Node>, encode: Node -> Result<string>): Result<seq<string>>
    decreases |items|
  {
    if items == [] then Ok([])
    else
      var n :- encode(items[0]);
      var more :- Encodings(items[1..], encode);
      Ok([n] + more)
  }

  /** The name loop fails exactly when encoding one of the items fails. */
  lemma {:induction false} NamesFoldSucceeds(items: seq<Node>, acc: seq<string>, encode: Node -> Result<string>)
    ensures NamesFold(items, acc, encode).Ok? <==> Encodings(items, encode).Ok?
    decreases |items|
  {
    if items != [] && encode(items[0]).Ok? {
      NamesFoldSucceeds(items[1..], acc + [encode(items[0]).value], encode);
    }
  }

  /** When every item can be encoded, the name loop appends their encodings to `acc`. */
  lemma {:induction false} NamesFoldAppends(items: seq<Node>, acc: seq<string>, encode: Node -> Result<string>)
    requires Encodings(items, encode).Ok?
    ensures NamesFold(items, acc, encode) == Ok(acc + Encodings(items, encode).value)
    decreases |items|
  {
    if items != [] {
      var n := encode(items[0]).value;
      var more := Encodings(items[1..], encode).value;
      NamesFoldAppends(items[1..], acc + [n], encode);
      assert acc + [n] + more == acc + ([n] + more);
    } else {
      assert acc + [] == acc;
    }
  }

  /** The items are encoded in document order: the encodings exist exactly when every item
      can be encoded, and then the `i`-th is the encoding of the `i`-th item. */
  lemma {:induction false} EncodingsInOrder(items: seq<Node>, encode: Node -> Result<string>)
    ensures Encodings(items, encode).Ok? <==> forall i :: 0 <= i < |items| ==> encode(items[i]).Ok?
    ensures Encodings(items, encode).Ok? ==>
      |Encodings(items, encode).value| == |items| &&
      forall i :: 0 <= i < |items| ==> Encodings(items, encode).value[i] == encode(items[i]).value
    decreases |items|
  {
    if items != [] {
      var tail := items[1..];
      EncodingsInOrder(tail, encode);
      assert forall i :: 1 <= i < |items| ==> items[i] == tail[i - 1];
    }
  }

  /** `field_linked_agent` holds the `|`-join of `parse_name` of every `name` item, in document
      order; the step fails exactly when one of them fails. */
  lemma LinkedAgentsJoin(es: Entries, sm: Summary)
    requires Coerced(es, "name", List([])).Ok?
    ensures var items := Coerced(es, "name", List([])).value;
      (Names(es, sm).Ok? <==> forall i :: 0 <= i < |items| ==> ParsedName(items[i]).Ok?) &&
      (Names(es, sm).Ok? ==>
        (Encodings(items, ParsedName).Ok? &&
         Names(es, sm).value == sm["field_linked_agent" := Text(Join("|", Encodings(items, ParsedName).value))]))
  {
    var items := Coerced(es, "name", List([])).value;
    NamesFoldSucceeds(items, [], ParsedName);
    EncodingsInOrder(items, ParsedName);
    if Encodings(items, ParsedName).Ok? {
      NamesFoldAppends(items, [], ParsedName);
      assert [] + Encodings(items, ParsedName).value == Encodings(items, ParsedName).value;
    }
  }

  /** The locations of the items, in order, or the first failure reading one. */
  function LocationValues(items: seq<Node>): Result<seq<Node>>
    decreases |items|
  {
    if items == [] then Ok([])
    else
      var loc :- LocationOf(items[0]);
      var more :- LocationValues(items[1..]);
      Ok([loc] + more)
  }

  /** After a successful location fold over at least one item, `field_location` holds the join
      of every location read so far; over none, the summary is as it was. */
  lemma {:induction false} LocationFoldJoins(items: seq<Node>, locs: seq<Node>, sm: Summary)
    requires LocationFold(items, locs, sm).Ok?
    ensures items == [] ==> LocationFold(items, locs, sm).value == sm
    ensures items != [] ==> (LocationValues(items).Ok? && JoinTexts("|", locs + LocationValues(items).value).Ok? &&
      LocationFold(items, locs, sm).value == sm["field_location" := Text(JoinTexts("|", locs + LocationValues(items).value).value)])
    decreases |items|
  {
    if items != [] {
      var loc := LocationOf(items[0]).value;
      var joined := JoinTexts("|", locs + [loc]).value;
      var next := sm["field_location" := Text(joined)];
      assert LocationFold(items, locs, sm) == LocationFold(items[1..], locs + [loc], next);
      LocationFoldJoins(items[1..], locs + [loc], next);
      if items[1..] != [] {
        var more := LocationValues(items[1..]).value;
        assert LocationValues(items) == Ok([loc] + more);
        assert locs + [loc] + more == locs + ([loc] + more);
      } else {
        assert LocationValues(items[1..]) == Ok([]);
        assert LocationValues(items) == Ok([loc] + []);
        assert locs + [loc] == locs + ([loc] + []);
      }
    }
  }

  /** The first non-`None` title among the `titleInfo` items. */
  function FirstTitle(items: seq<Node>): (r: Option<Node>)
    ensures r.Some? ==> r.value != Null
    decreases |items|
  {
    if items == [] then None
    else if items[0].Dict? && GetOr(items[0].entries, "title", Null) != Null then Some(GetOr(items[0].entries, "title", Null))
    else FirstTitle(items[1..])
  }

  /** A title already in the summary is never replaced; otherwise the first non-`None` title
      wins and later ones do not overwrite it. */
  lemma {:induction false} FirstTitleWins(items: seq<Node>, sm: Summary)
    requires TitleFold(items, sm).Ok?
    ensures "title" in sm ==> "title" in TitleFold(items, sm).value && TitleFold(items, sm).value["title"] == sm["title"]
    ensures "title" !in sm && FirstTitle(items).Some? ==>
      "title" in TitleFold(items, sm).value && TitleFold(items, sm).value["title"] == FirstTitle(items).value
    ensures "title" !in sm && FirstTitle(items).None? ==> "title" !in TitleFold(items, sm).value
    decreases |items|
  {
    if items != [] {
      var next := TitleStep(items[0], sm).value;
      FirstTitleWins(items[1..], next);
    }
  }

  /** `titleInfo` is required: a record without one fails to extract. */
  lemma MissingTitleFails(rest: Entries, sm: Summary)
    requires forall i :: 0 <= i < |rest| ==> rest[i].0 != "titleInfo"
    ensures EarlySteps(rest, sm).Err?
  {
    var sm1 := OriginInfo(rest, sm);
    if sm1.Ok? {
      var sm2 := Subjects(rest, sm1.value);
      if sm2.Ok? {
        var sm3 := Related(rest, sm2.value);
        if sm3.Ok? {
          assert TitleItems(rest) == Err(KeyError("titleInfo"));
        }
      }
    }
  }

  /** A `typeOfResource` given as plain text is deleted with the other string children before
      the `typeOfResource` step reads it, so that step writes the empty string. */
  lemma StringResourceTypeLost(es: Entries, sm: Summary)
    requires forall i :: 0 <= i < |es| && es[i].0 == "typeOfResource" ==> IsStringEntry(es[i])
    ensures ResourceType(NonString(es), sm) == Ok(sm["field_resource_type" := Text("")])
  {
    var rest := NonString(es);
    forall i | 0 <= i < |rest|
      ensures rest[i].0 != "typeOfResource"
    {
      assert rest[i] in es && !IsStringEntry(rest[i]);
      var j :| 0 <= j < |es| && es[j] == rest[i];
    }
    assert Lookup(rest, "typeOfResource").None?;
  }

  /** `field_related_item` is not an EDTF field, so the date pass leaves it alone. */
  lemma RelatedItemIsNoDate()
    ensures !IsEdtfKey("field_related_item")
  {
    var k := "field_related_item";
    if Contains(k, "edtf") {
      ContainsOccurs(k, "edtf");
      var i :| OccursAt(k, "edtf", i);
      OccursChar(k, "edtf", i, 1);
      OccursChar(k, "edtf", i, 2);
      assert false;
    }
  }

  /** The title fold leaves every field but the three title fields as it was. */
  lemma {:induction false} TitleFoldKeeps(items: seq<Node>, sm: Summary, k: string)
    requires TitleFold(items, sm).Ok? && k in sm
    requires k != "title" && k != "field_subtitle" && k != "field_alternative_title"
    ensures k in TitleFold(items, sm).value && TitleFold(items, sm).value[k] == sm[k]
    decreases |items|
  {
    if items != [] {
      TitleFoldKeeps(items[1..], TitleStep(items[0], sm).value, k);
    }
  }

  /** After the early steps, `field_related_item` holds the joined related titles. */
  lemma EarlyRelated(rest: Entries, sm: Summary)
    requires EarlySteps(rest, sm).Ok?
    ensures RelatedJoin(rest).Ok?
    ensures var early := EarlySteps(rest, sm).value;
      "field_related_item" in early && early["field_related_item"] == Text(RelatedJoin(rest).value)
  {
    var sm1 := OriginInfo(rest, sm).value;
    var sm2 := Subjects(rest, sm1).value;
    var sm3 := Related(rest, sm2).value;
    var items := TitleItems(rest).value;
    TitleFoldKeeps(items, sm3, "field_related_item");
  }

  /** The location fold leaves every field but `field_location` as it was. */
  lemma {:induction false} LocationFoldKeeps(items: seq<Node>, locs: seq<Node>, sm: Summary, k: string)
    requires LocationFold(items, locs, sm).Ok? && k in sm && k != "field_location"
    ensures k in LocationFold(items, locs, sm).value && LocationFold(items, locs, sm).value[k] == sm[k]
    decreases |items|
  {
    if items != [] {
      var loc := LocationOf(items[0]).value;
      var joined := JoinTexts("|", locs + [loc]).value;
      LocationFoldKeeps(items[1..], locs + [loc], sm["field_location" := Text(joined)], k);
    }
  }

  /** The date pass leaves every field that is not an EDTF field as it was. */
  lemma DatePassKeeps(sm: Summary, k: string, isEdtf: string -> bool)
    requires DatePass(sm, isEdtf).Ok? && k in sm && !IsEdtfKey(k)
    ensures k in DatePass(sm, isEdtf).value && DatePass(sm, isEdtf).value[k] == sm[k]
  {
  }

  /** The late steps keep every field other than the ones they write. */
  lemma LateStepsKeep(rest: Entries, sm: Summary, k: string)
    requires LateSteps(rest, sm).Ok? && k in sm
    requires k != "field_location" && k != "field_physical_description"
    requires k != "field_extent" && k != "field_resource_type"
    ensures k in LateSteps(rest, sm).value && LateSteps(rest, sm).value[k] == sm[k]
  {
    LocationFoldKeeps(Coerced(rest, "location", Dict([])).value, [], sm, k);
  }

  /** After the string children, `field_related_item` holds the `|`-join of the related
      titles of the record, in document order. */
  lemma HarvestRelatedItem(rest: Entries, sm: Summary, isEdtf: string -> bool)
    requires Harvest(rest, sm, isEdtf).Ok?
    ensures RelatedJoin(rest).Ok? && "field_related_item" in Harvest(rest, sm, isEdtf).value
    ensures Harvest(rest, sm, isEdtf).value["field_related_item"] == Text(RelatedJoin(rest).value)
  {
    var early := EarlySteps(rest, sm).value;
    var named := Names(rest, LateSteps(rest, early).value).value;
    EarlyRelated(rest, sm);
    LateStepsKeep(rest, early, "field_related_item");
    RelatedItemIsNoDate();
    DatePassKeeps(named, "field_related_item", isEdtf);
  }

  /** `field_related_item` is always in an extracted summary, and holds the `|`-join of the
      related titles of the record, in document order. */
  lemma ExtractRelatedItem(doc: Entries, isEdtf: string -> bool)
    requires Extract(doc, isEdtf).Ok?
    ensures Lookup(doc, "mods").Some? && Lookup(doc, "mods").value.Dict?
    ensures var rest := NonString(Lookup(doc, "mods").value.entries);
      RelatedJoin(rest).Ok? && "field_related_item" in Extract(doc, isEdtf).value &&
      Extract(doc, isEdtf).value["field_related_item"] == Text(RelatedJoin(rest).value)
  {
    var root := Lookup(doc, "mods").value;
    HarvestRelatedItem(NonString(root.entries), StringFields(root.entries, map[]).value, isEdtf);
  }
}
