/** Which child of the record decides each summary field: the folds over string children,
    `originInfo` children and `subject` children overwrite as they go, so the last child that
    writes a field decides it. */
module ModsLastWrite {
  import opened PyStr
  import opened PyTree
  import opened ModsSteps

  /** What one child writes, if anything: a field name and its value. */
  type Writer = ((string, Node)) -> Option<(string, Node)>

  /** A plain string child writes its joined lines under its field. */
  function StringWrite(e: (string, Node)): Option<(string, Node)> {
    if IsStringEntry(e) && Field(e.0).Some? then Some((Field(e.0).value, Text(JoinLines(e.1.s))))
    else None
  }

  /** An `originInfo` child writes itself under its field. */
  function OriginWrite(e: (string, Node)): Option<(string, Node)> {
    if Field(e.0).Some? then Some((Field(e.0).value, e.1)) else None
  }

  /** A `subject` child: `geographic` and `topic` are copied, and a readable
      `hierarchicalGeographic` writes its values joined with `,`. */
  function SubjectWrite(e: (string, Node)): Option<(string, Node)> {
    if e.0 == "geographic" then Some(("field_geographic_subject", e.1))
    else if e.0 == "topic" then Some(("field_subject", e.1))
    else if e.0 == "hierarchicalGeographic" && e.1.Dict? &&
      JoinTexts(",", NonNullValues(e.1.entries)).Ok?
    then Some(("field_geographic_subject", Text(JoinTexts(",", NonNullValues(e.1.entries)).value)))
    else None
  }

  /** Child `e` writes field `f`. */
  predicate WritesTo(write: Writer, e: (string, Node), f: string) {
    write(e).Some? && write(e).value.0 == f
  }

  /** The value the last child writing `f` writes, if any child does. */
  function LastWrite(es: Entries, write: Writer, f: string): (r: Option<Node>)
    ensures r.Some? ==> exists i :: 0 <= i < |es| && LastWriter(es, write, f, i) && write(es[i]).value.1 == r.value
    ensures r.None? ==> forall i :: 0 <= i < |es| ==> !WritesTo(write, es[i], f)
    decreases |es|
  {
    if es == [] then None
    else
      var r := LastWrite(es[1..], write, f);
      assert forall i :: 1 <= i < |es| ==> es[i] == es[1..][i - 1];
      if r.Some? then
        assert forall i :: 0 < i < |es| && LastWriter(es[1..], write, f, i - 1) ==> LastWriter(es, write, f, i);
        r
      else if WritesTo(write, es[0], f) then
        assert LastWriter(es, write, f, 0);
        Some(write(es[0]).value.1)
      else None
  }

  /** Child `i` writes `f` and no later child does. */
  predicate LastWriter(es: Entries, write: Writer, f: string, i: int) {
    0 <= i < |es| && WritesTo(write, es[i], f) && forall j :: i < j < |es| ==> !WritesTo(write, es[j], f)
  }

  /** Field `f` of `after` holds `w` when something was written, and is as in `before`
      otherwise. */
  predicate Decides(before: Summary, after: Summary, w: Option<Node>, f: string) {
    match w
    case Some(v) => f in after && after[f] == v
    case None => (f in after <==> f in before) && (f in before ==> after[f] == before[f])
  }

  /** The last write of a concatenation is that of its second part, unless it writes nothing. */
  lemma {:induction false} LastWriteAppend(a: Entries, b: Entries, write: Writer, f: string)
    ensures LastWrite(a + b, write, f) ==
      if LastWrite(b, write, f).Some? then LastWrite(b, write, f) else LastWrite(a, write, f)
    decreases |a|
  {
    if a == [] {
      assert a + b == b;
    } else {
      assert (a + b)[0] == a[0] && (a + b)[1..] == a[1..] + b;
      LastWriteAppend(a[1..], b, write, f);
    }
  }

  /** Two folds in a row: the later writes decide first. */
  lemma DecidesChain(s0: Summary, s1: Summary, s2: Summary, w1: Option<Node>, w2: Option<Node>, f: string)
    requires Decides(s0, s1, w1, f) && Decides(s1, s2, w2, f)
    ensures Decides(s0, s2, if w2.Some? then w2 else w1, f)
  {
  }

  /** Each field the string children fill holds the joined lines of the last child stored
      under it; the other fields are as they were. */
  lemma {:induction false} StringFieldsLast(es: Entries, sm: Summary, f: string)
    requires StringFields(es, sm).Ok?
    ensures Decides(sm, StringFields(es, sm).value, LastWrite(es, StringWrite, f), f)
    decreases |es|
  {
    if es != [] {
      var rest := es[1..];
      if IsStringEntry(es[0]) {
        StringFieldsLast(rest, sm[Field(es[0].0).value := Text(JoinLines(es[0].1.s))], f);
      } else {
        StringFieldsLast(rest, sm, f);
      }
    }
  }

  /** Within one `originInfo`, the last child stored under a field decides it. */
  lemma {:induction false} OriginEntriesLast(es: Entries, sm: Summary, f: string)
    requires OriginEntries(es, sm).Ok?
    ensures Decides(sm, OriginEntries(es, sm).value, LastWrite(es, OriginWrite, f), f)
    decreases |es|
  {
    if es != [] {
      OriginEntriesLast(es[1..], sm[Field(es[0].0).value := es[0].1], f);
    }
  }

  /** The children of every `originInfo`, in order. */
  function OriginChildren(items: seq<Node>): (r: Entries)
    ensures forall e :: e in r ==> exists i :: 0 <= i < |items| && items[i].Dict? && e in items[i].entries
    decreases |items|
  {
    if items == [] then []
    else
      var rest := OriginChildren(items[1..]);
      assert forall i :: 1 <= i < |items| ==> items[i] == items[1..][i - 1];
      (if items[0].Dict? then items[0].entries else []) + rest
  }

  /** Across several `originInfo` elements, the last child of any of them stored under a field
      decides it: a later `originInfo` overwrites an earlier one. */
  lemma {:induction false} OriginItemsLast(items: seq<Node>, sm: Summary, f: string)
    requires OriginItems(items, sm).Ok?
    ensures Decides(sm, OriginItems(items, sm).value, LastWrite(OriginChildren(items), OriginWrite, f), f)
    decreases |items|
  {
    if items != [] {
      var first := items[0].entries;
      var next := OriginEntries(first, sm).value;
      OriginEntriesLast(first, sm, f);
      OriginItemsLast(items[1..], next, f);
      LastWriteAppend(first, OriginChildren(items[1..]), OriginWrite, f);
      DecidesChain(sm, next, OriginItems(items, sm).value, LastWrite(first, OriginWrite, f),
        LastWrite(OriginChildren(items[1..]), OriginWrite, f), f);
    }
  }

  /** Within the `subject` dict, the last of `geographic` and `hierarchicalGeographic` decides
      the geographic subject, and the last `topic` the subject. */
  lemma {:induction false} SubjectEntriesLast(es: Entries, sm: Summary, f: string)
    requires SubjectEntries(es, sm).Ok?
    ensures Decides(sm, SubjectEntries(es, sm).value, LastWrite(es, SubjectWrite, f), f)
    decreases |es|
  {
    if es != [] {
      var (k, v) := es[0];
      var rest := es[1..];
      if k == "geographic" {
        SubjectEntriesLast(rest, sm["field_geographic_subject" := v], f);
      } else if k == "topic" {
        SubjectEntriesLast(rest, sm["field_subject" := v], f);
      } else if k == "hierarchicalGeographic" {
        var joined := JoinTexts(",", NonNullValues(v.entries)).value;
        SubjectEntriesLast(rest, sm["field_geographic_subject" := Text(joined)], f);
      } else {
        SubjectEntriesLast(rest, sm, f);
      }
    }
  }

  /** The same for the record's `subject` element. */
  lemma SubjectsLast(es: Entries, sm: Summary, f: string)
    requires Subjects(es, sm).Ok?
    ensures GetOr(es, "subject", Dict([])).Dict?
    ensures Decides(sm, Subjects(es, sm).value, LastWrite(GetOr(es, "subject", Dict([])).entries, SubjectWrite, f), f)
  {
    SubjectEntriesLast(GetOr(es, "subject", Dict([])).entries, sm, f);
  }

  /** A `hierarchicalGeographic` after a `geographic` replaces it: the stored geographic
      subject is the joined place names. */
  lemma HierarchicalAfterGeographic(g: Node, h: Entries, sm: Summary, places: string)
    requires JoinTexts(",", NonNullValues(h)) == Ok(places)
    ensures SubjectEntries([("geographic", g), ("hierarchicalGeographic", Dict(h))], sm) ==
      Ok(sm["field_geographic_subject" := Text(places)])
  {
    var es := [("geographic", g), ("hierarchicalGeographic", Dict(h))];
    var rest := [("hierarchicalGeographic", Dict(h))];
    var s1 := sm["field_geographic_subject" := g];
    assert es[1..] == rest && rest[1..] == [];
    assert SubjectEntries(rest, s1) == Ok(s1["field_geographic_subject" := Text(places)]);
    assert s1["field_geographic_subject" := Text(places)] == sm["field_geographic_subject" := Text(places)];
  }
}
