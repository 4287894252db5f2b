/** The `ModsTransformer` object: its `summary` field is filled in place, step by step, by
    `extract_from_mods`, and each step is proved to leave exactly the summary its function in
    `ModsSteps` describes. */
module Transformer {
  import opened PyStr
  import opened PyTree
  import opened Relators
  import opened DateRepair
  import opened NameParsing
  import opened ModsSteps

  class ModsTransformer {
    /** The target field name to value map under construction. */
    var summary: Summary

    constructor()
      ensures summary == map[]
    {
      summary := map[];
    }

    /** `fix_dates(key)`: the value under `key` must exist and be a string; the rules run on
        its cleaned form and the first one that applies decides. A rule whose value is
        returned, a failed calendar parse and a value the EDTF check rejects leave the summary
        as it was. */
    method FixDates(key: string, isEdtf: string -> bool) returns (err: Option<PyError>)
      modifies this
      ensures key !in old(summary) ==> err == Some(KeyError(key)) && summary == old(summary)
      ensures key in old(summary) && !old(summary)[key].Text? ==>
        err == Some(AttributeError) && summary == old(summary)
      ensures key in old(summary) && old(summary)[key].Text? ==>
        err.None? && summary == old(summary)[key := Repaired(old(summary)[key], isEdtf)]
    {
      if key !in summary {
        return Some(KeyError(key));
      }
      var value := summary[key];
      if !value.Text? {
        return Some(AttributeError);
      }
      err := None;
      var date := Strip(value.s);
      var correction := Correction(date);
      if correction.Some? {
        date := correction.value;
      }
      date := ReplaceChar(ReplaceChar(date, ';', ""), ',', "");
      assert date == Cleaned(value.s);
      var stored := RunRules(date, isEdtf);
      if stored.Some? {
        summary := summary[key := Text(stored.value)];
      } else {
        assert summary[key := value] == summary;
      }
    }

    /** The rules of `fix_dates` in order, on the cleaned value: the value the first applicable
        rule stores, if it stores one. A rule that applies ends the cascade. */
    method RunRules(date: string, isEdtf: string -> bool) returns (stored: Option<string>)
      ensures stored.Some? <==> WordRules(date, isEdtf).Stored?
      ensures stored.Some? ==> stored.value == WordRules(date, isEdtf).value
    {
      var found := SearchWordYear(date, 0);
      if found.Some? {
        // `January 1973`, searched anywhere.
        return Some(WordYearValue(date, found.value));
      }
      var my := MonthYearMatch(date);
      if my.Some? && MonthNumber(my.value.0).Some? {
        // `Jan 1999`: the value is returned, not stored.
        return None;
      }
      var mr := MonthRangeMatch(date);
      if mr.Some? && MonthNumber(mr.value.0).Some? && MonthNumber(mr.value.1).Some? {
        // `November-December, 2010`: likewise.
        return None;
      }
      assert WordRules(date, isEdtf) == NumericRules(date, isEdtf);
      stored := RunNumericRules(date, isEdtf);
    }

    /** The `1982-83` and `February 27, 2010` rules, then the rest. */
    method RunNumericRules(date: string, isEdtf: string -> bool) returns (stored: Option<string>)
      ensures stored.Some? <==> NumericRules(date, isEdtf).Stored?
      ensures stored.Some? ==> stored.value == NumericRules(date, isEdtf).value
    {
      if ShortRange(date) {
        return Some(ShortRangeValue(date));
      }
      if FullDateMatch(date).Some? {
        stored := RunFullDate(date);
        return;
      }
      stored := RunFinalRules(date, isEdtf);
    }

    /** The `February 27, 2010` rule: `strptime` on the value, with its one correction. */
    method RunFullDate(date: string) returns (stored: Option<string>)
      ensures stored.Some? <==> FullDateRule(date).Stored?
      ensures stored.Some? ==> stored.value == FullDateRule(date).value
    {
      var fixed := date;
      if fixed == "February 29, 1990" {
        fixed := "February 28, 1990";
      }
      var parts := FullDateMatch(fixed);
      if parts.None? {
        return None;
      }
      // A date the calendar rejects is reported and not stored.
      stored := CalendarDate(parts.value.0, parts.value.1, parts.value.2);
    }

    /** The `1949-1965` and `ca.` rules, then the EDTF check. */
    method RunFinalRules(date: string, isEdtf: string -> bool) returns (stored: Option<string>)
      ensures stored.Some? <==> FinalRules(date, isEdtf).Stored?
      ensures stored.Some? ==> stored.value == FinalRules(date, isEdtf).value
    {
      if YearRange(date) {
        return Some(ReplaceChar(date, '-', "/"));
      }
      if Contains(date, "ca.") {
        ContainsVisible(date, "ca.");
        return Some(LastWord(date) + "~");
      }
      if isEdtf(date) {
        return Some(date);
      }
      return None;
    }

    /** `parse_name(input)`: the entries are visited in order, `@type` looked up in the type
        map, `namePart` copied and a non-string `role` read; the role is then coded, with
        `Editor` standing in for a role the table lacks. */
    method ParseName(input: Node) returns (r: Result<string>)
      ensures r == ParsedName(input)
    {
      if !input.Dict? {
        return Err(AttributeError);
      }
      var es := input.entries;
      var role, name, vocab := "", Text(""), "corporate_body";
      var i := 0;
      while i < |es|
        invariant 0 <= i <= |es|
        invariant NameFold(es, Initial) == NameFold(es[i..], NameParts(role, name, vocab))
      {
        assert es[i..][1..] == es[i + 1..];
        var (key, value) := es[i];
        if key == "@type" {
          var v := VocabFor(value);
          if v.Err? {
            return Err(v.error);
          }
          vocab := v.value;
        } else {
          if key == "namePart" {
            name := value;
          }
          if key == "role" && !value.Text? {
            var term := RoleFrom(value);
            if term.Err? {
              return Err(term.error);
            }
            role := term.value;
          }
        }
        i := i + 1;
      }
      r := Ok(RelatorCode(role) + ":" + vocab + ":" + Str(name));
    }

    // ----- The steps of `extract_from_mods` -----

    /** Each string child, in order, is stored under its field with its lines joined. */
    method StoreStrings(es: Entries) returns (err: Option<PyError>)
      modifies this
      ensures Reached(StringFields(es, old(summary)), err, summary)
    {
      var i := 0;
      while i < |es|
        invariant 0 <= i <= |es|
        invariant StringFields(es, old(summary)) == StringFields(es[i..], summary)
      {
        assert es[i..][1..] == es[i + 1..];
        if IsStringEntry(es[i]) {
          var f := Field(es[i].0);
          if f.None? {
            return Some(KeyError(es[i].0));
          }
          summary := summary[f.value := Text(JoinLines(es[i].1.s))];
        }
        i := i + 1;
      }
      return None;
    }

    /** The children of one `originInfo`, each stored as it is under its field. */
    method StoreOriginEntries(es: Entries) returns (err: Option<PyError>)
      modifies this
      ensures Reached(OriginEntries(es, old(summary)), err, summary)
    {
      var i := 0;
      while i < |es|
        invariant 0 <= i <= |es|
        invariant OriginEntries(es, old(summary)) == OriginEntries(es[i..], summary)
      {
        assert es[i..][1..] == es[i + 1..];
        var f := Field(es[i].0);
        if f.None? {
          return Some(KeyError(es[i].0));
        }
        summary := summary[f.value := es[i].1];
        i := i + 1;
      }
      return None;
    }

    /** Every `originInfo`, a single one counting as a list of one. */
    method StoreOriginInfo(rest: Entries) returns (err: Option<PyError>)
      modifies this
      ensures Reached(OriginInfo(rest, old(summary)), err, summary)
    {
      var items := Coerced(rest, "originInfo", List([]));
      if items.Err? {
        return Some(items.error);
      }
      var xs := items.value;
      var i := 0;
      while i < |xs|
        invariant 0 <= i <= |xs|
        invariant OriginItems(xs, old(summary)) == OriginItems(xs[i..], summary)
      {
        assert xs[i..][1..] == xs[i + 1..];
        if !xs[i].Dict? {
          return Some(AttributeError);
        }
        err := StoreOriginEntries(xs[i].entries);
        if err.Some? {
          return;
        }
        i := i + 1;
      }
      return None;
    }

    /** The children of `subject`. */
    method StoreSubjects(rest: Entries) returns (err: Option<PyError>)
      modifies this
      ensures Reached(Subjects(rest, old(summary)), err, summary)
    {
      var subject := GetOr(rest, "subject", Dict([]));
      if !subject.Dict? {
        return Some(AttributeError);
      }
      var es := subject.entries;
      var i := 0;
      while i < |es|
        invariant 0 <= i <= |es|
        invariant SubjectEntries(es, old(summary)) == SubjectEntries(es[i..], summary)
      {
        assert es[i..][1..] == es[i + 1..];
        var (k, v) := es[i];
        if k == "geographic" {
          summary := summary["field_geographic_subject" := v];
        } else if k == "topic" {
          summary := summary["field_subject" := v];
        } else if k == "hierarchicalGeographic" {
          if !v.Dict? {
            return Some(AttributeError);
          }
          var joined := JoinTexts(",", NonNullValues(v.entries));
          if joined.Err? {
            return Some(joined.error);
          }
          summary := summary["field_geographic_subject" := Text(joined.value)];
        }
        i := i + 1;
      }
      return None;
    }

    /** The related titles, collected in order and joined. */
    method StoreRelated(rest: Entries) returns (err: Option<PyError>)
      modifies this
      ensures Reached(Related(rest, old(summary)), err, summary)
    {
      var items := Coerced(rest, "relatedItem", Dict([]));
      if items.Err? {
        return Some(items.error);
      }
      var xs := items.value;
      var titles: seq<Node> := [];
      var i := 0;
      while i < |xs|
        invariant 0 <= i <= |xs|
        invariant RelatedFold(xs, []) == RelatedFold(xs[i..], titles)
      {
        assert xs[i..][1..] == xs[i + 1..];
        var t := RelatedTitle(xs[i]);
        if t.Err? {
          return Some(t.error);
        }
        titles := titles + [t.value];
        i := i + 1;
      }
      var joined := JoinTexts("|", titles);
      if joined.Err? {
        return Some(joined.error);
      }
      summary := summary["field_related_item" := Text(joined.value)];
      return None;
    }

    /** Every `titleInfo`, which must exist. */
    method StoreTitles(rest: Entries) returns (err: Option<PyError>)
      modifies this
      ensures Reached(Titles(rest, old(summary)), err, summary)
    {
      var items := TitleItems(rest);
      if items.Err? {
        return Some(items.error);
      }
      var xs := items.value;
      var i := 0;
      while i < |xs|
        invariant 0 <= i <= |xs|
        invariant TitleFold(xs, old(summary)) == TitleFold(xs[i..], summary)
      {
        assert xs[i..][1..] == xs[i + 1..];
        var t := xs[i];
        if !t.Dict? {
          return Some(AttributeError);
        }
        var title := GetOr(t.entries, "title", Null);
        if "title" !in summary && title != Null {
          summary := summary["title" := title];
        }
        if "field_subtitle" !in summary && Truthy(GetOr(t.entries, "field_subtitle", Null)) {
          summary := summary["field_subtitle" := GetOr(t.entries, "subtitle", Text(""))];
        }
        if GetOr(t.entries, "@type", Text("")) == Text("alternative") && title != Null {
          summary := summary["field_alternative_title" := title];
        }
        i := i + 1;
      }
      return None;
    }

    /** Every `location`; `field_location` is rewritten after each one. */
    method StoreLocations(rest: Entries) returns (err: Option<PyError>)
      modifies this
      ensures Reached(Locations(rest, old(summary)), err, summary)
    {
      var items := Coerced(rest, "location", Dict([]));
      if items.Err? {
        return Some(items.error);
      }
      var xs := items.value;
      var locs: seq<Node> := [];
      var i := 0;
      while i < |xs|
        invariant 0 <= i <= |xs|
        invariant LocationFold(xs, [], old(summary)) == LocationFold(xs[i..], locs, summary)
      {
        assert xs[i..][1..] == xs[i + 1..];
        var loc := LocationOf(xs[i]);
        if loc.Err? {
          return Some(loc.error);
        }
        locs := locs + [loc.value];
        var joined := JoinTexts("|", locs);
        if joined.Err? {
          return Some(joined.error);
        }
        summary := summary["field_location" := Text(joined.value)];
        i := i + 1;
      }
      return None;
    }

    /** `physicalDescription` and `typeOfResource`. */
    method StorePhysical(rest: Entries) returns (err: Option<PyError>)
      modifies this
      ensures Reached(Physical(rest, old(summary)), err, summary)
    {
      var description := GetOr(rest, "physicalDescription", Dict([]));
      var form := Get(description, "form", Dict([]));
      if form.Err? {
        return Some(form.error);
      }
      var text := Get(form.value, "#text", Text(""));
      if text.Err? {
        return Some(text.error);
      }
      summary := summary["field_physical_description" := text.value];
      // `description` has a `form`, so it is a dict and has an `extent` too.
      var extent := Get(description, "extent", Text(""));
      summary := summary["field_extent" := extent.value];
      return None;
    }

    method StoreResourceType(rest: Entries) returns (err: Option<PyError>)
      modifies this
      ensures Reached(ResourceType(rest, old(summary)), err, summary)
    {
      var kind := ResourceKind(rest);
      if kind.Err? {
        return Some(kind.error);
      }
      summary := summary["field_resource_type" := kind.value];
      return None;
    }

    /** Every `name`, encoded by `ParseName`, collected in order and joined. */
    method StoreNames(rest: Entries) returns (err: Option<PyError>)
      modifies this
      ensures Reached(Names(rest, old(summary)), err, summary)
    {
      var items := Coerced(rest, "name", List([]));
      if items.Err? {
        return Some(items.error);
      }
      var xs := items.value;
      var names: seq<string> := [];
      var i := 0;
      while i < |xs|
        invariant 0 <= i <= |xs|
        invariant NamesFold(xs, [], ParsedName) == NamesFold(xs[i..], names, ParsedName)
        invariant summary == old(summary)
      {
        assert xs[i..][1..] == xs[i + 1..];
        var n := ParseName(xs[i]);
        if n.Err? {
          return Some(n.error);
        }
        names := names + [n.value];
        i := i + 1;
      }
      summary := summary["field_linked_agent" := Text(Join("|", names))];
      return None;
    }

    /** The closing pass: `fix_dates` on every key whose name contains `edtf`. Keys are
        visited in an arbitrary order; the values are the same for every order. */
    method FixEdtfDates(isEdtf: string -> bool) returns (err: Option<PyError>)
      modifies this
      ensures Reached(DatePass(old(summary), isEdtf), err, summary)
    {
      ghost var s0 := summary;
      var todo := summary.Keys;
      while todo != {}
        invariant DateProgress(s0, summary, todo, isEdtf)
        decreases todo
      {
        var key :| key in todo;
        DateProgressStep(s0, summary, todo, key, isEdtf);
        if IsEdtfKey(key) {
          err := FixDates(key, isEdtf);
          if err.Some? {
            DatePassFails(s0, key, isEdtf);
            return;
          }
        }
        todo := todo - {key};
      }
      DatePassDone(s0, summary, isEdtf);
      return None;
    }

    /** `extract_from_mods` on the parsed document: the summary starts empty and the steps run
        in the source's order; the first exception ends the extraction. */
    method ExtractFromMods(doc: Entries, isEdtf: string -> bool) returns (r: Result<Summary>)
      modifies this
      ensures r == Extract(doc, isEdtf)
      ensures r.Ok? ==> summary == r.value
    {
      summary := map[];
      var root := Lookup(doc, "mods");
      if root.None? {
        return Err(KeyError("mods"));
      }
      if !root.value.Dict? {
        return Err(AttributeError);
      }
      var es := root.value.entries;
      var err := StoreStrings(es);
      if err.Some? {
        return Err(err.value);
      }
      var rest := NonString(es);
      r := HarvestRest(rest, isEdtf);
    }

    /** `originInfo`, `subject`, `relatedItem` and `titleInfo`, in that order. */
    method StoreEarly(rest: Entries) returns (err: Option<PyError>)
      modifies this
      ensures Reached(EarlySteps(rest, old(summary)), err, summary)
    {
      err := StoreOriginInfo(rest);
      if err.None? { err := StoreSubjects(rest); }
      if err.None? { err := StoreRelated(rest); }
      if err.None? { err := StoreTitles(rest); }
    }

    /** `location`, `physicalDescription` and `typeOfResource`, in that order. */
    method StoreLate(rest: Entries) returns (err: Option<PyError>)
      modifies this
      ensures Reached(LateSteps(rest, old(summary)), err, summary)
    {
      err := StoreLocations(rest);
      if err.None? { err := StorePhysical(rest); }
      if err.None? { err := StoreResourceType(rest); }
    }

    /** The steps after the string children, on the record without them. */
    method HarvestRest(rest: Entries, isEdtf: string -> bool) returns (r: Result<Summary>)
      modifies this
      ensures r == Harvest(rest, old(summary), isEdtf)
      ensures r.Ok? ==> summary == r.value
    {
      var err := StoreEarly(rest);
      if err.None? { err := StoreLate(rest); }
      if err.None? { err := StoreNames(rest); }
      if err.None? { err := FixEdtfDates(isEdtf); }
      r := if err.Some? then Err(err.value) else Ok(summary);
    }
  }
}
