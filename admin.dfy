/**
 * The CSV export that every model admin gains (`jasmin_django_utils/admin.py`):
 * which fields may be exported, how the selected ids travel as one
 * comma-separated string from the changelist action to the export form and
 * back, and which lines the export writes.
 */
module Admin {
  import opened Results
  import opened Text

  // ---------------------------------------------------------------------
  // Field eligibility
  // ---------------------------------------------------------------------

  /** What `Model._meta.get_fields()` reports about one field. */
  datatype FieldMeta = FieldMeta(
    name: string,
    concrete: bool,
    isRelation: bool,
    oneToOne: bool,
    manyToOne: bool,
    hasRelatedModel: bool)

  /** A concrete field that is a plain column, a one-to-one, or a foreign key to a model. */
  predicate Exportable(f: FieldMeta) {
    f.concrete && (!f.isRelation || f.oneToOne || (f.manyToOne && f.hasRelatedModel))
  }

  /** `allowed_fields_for_export`: the names of the exportable fields, in model order. */
  function AllowedFields(fields: seq<FieldMeta>): (r: seq<string>)
    ensures |r| <= |fields|
    ensures forall n :: n in r <==> exists f :: f in fields && Exportable(f) && f.name == n
  {
    if fields == [] then []
    else if Exportable(fields[0]) then [fields[0].name] + AllowedFields(fields[1..])
    else AllowedFields(fields[1..])
  }

  /**
   * The filter keeps the order of `get_fields`: the allowed fields of a list
   * are those of its first part followed by those of the rest.
   */
  lemma {:induction false} AllowedFieldsConcat(a: seq<FieldMeta>, b: seq<FieldMeta>)
    ensures AllowedFields(a + b) == AllowedFields(a) + AllowedFields(b)
  {
    if a != [] {
      assert (a + b)[1..] == a[1..] + b;
      AllowedFieldsConcat(a[1..], b);
    } else {
      assert a + b == b;
    }
  }

  /** Every field is allowed exactly when every field is exportable. */
  lemma {:induction false} AllowedFieldsAll(fields: seq<FieldMeta>)
    ensures |AllowedFields(fields)| == |fields| <==> forall f :: f in fields ==> Exportable(f)
  {
    if fields != [] {
      AllowedFieldsAll(fields[1..]);
      assert forall f :: f in fields[1..] ==> f in fields;
      assert fields == [fields[0]] + fields[1..];
    }
  }

  // ---------------------------------------------------------------------
  // Ids between the changelist action and the export form
  // ---------------------------------------------------------------------

  /** `str(pk)` for each primary key, in queryset order. */
  function IdStrings(pks: seq<nat>): (r: seq<string>)
    ensures |r| == |pks|
    ensures forall i :: 0 <= i < |pks| ==> r[i] == DecimalString(pks[i])
  {
    if pks == [] then [] else [DecimalString(pks[0])] + IdStrings(pks[1..])
  }

  /** A printed primary key holds no comma, so ids can be comma-separated. */
  lemma IdStringsCommaFree(pks: seq<nat>)
    ensures forall i :: 0 <= i < |pks| ==> Free(IdStrings(pks)[i], ',')
  {
    forall i | 0 <= i < |pks|
      ensures Free(IdStrings(pks)[i], ',')
    {
      var s := DecimalString(pks[i]);
      assert forall j :: 0 <= j < |s| ==> IsDigit(s[j]);
    }
  }

  /** Different primary-key lists print differently. */
  lemma {:induction false} IdStringsInjective(a: seq<nat>, b: seq<nat>)
    requires IdStrings(a) == IdStrings(b)
    ensures a == b
  {
    forall i | 0 <= i < |a|
      ensures a[i] == b[i]
    {
      DecimalStringInjective(a[i], b[i]);
    }
  }

  /** The query value of the export link: the primary keys joined by `,`. */
  function IdsParameter(pks: seq<nat>): string {
    Join(",", IdStrings(pks))
  }

  /**
   * `export_selected_objects`: the export view's URL `base` with the selected
   * primary keys as its `ids` parameter.
   */
  function RedirectUrl(base: string, pks: seq<nat>): (r: string)
    ensures r == base + "?ids=" + IdsParameter(pks)
    ensures pks != [] ==> Split(r[|base| + 5..], ',') == IdStrings(pks)
  {
    var r := base + "?ids=" + IdsParameter(pks);
    if pks != [] then
      assert r[|base| + 5..] == IdsParameter(pks);
      IdStringsCommaFree(pks);
      SplitJoin(IdStrings(pks), ',');
      r
    else r
  }

  /** The redirect identifies the selection: two selections with the same link are equal. */
  lemma RedirectIdentifiesSelection(base: string, a: seq<nat>, b: seq<nat>)
    requires RedirectUrl(base, a) == RedirectUrl(base, b)
    ensures a == b
  {
    var u := RedirectUrl(base, a);
    assert IdsParameter(a) == u[|base| + 5..] == IdsParameter(b);
    if a != [] && b != [] {
      IdStringsInjective(a, b);
    }
  }

  /**
   * `RawIdWidget.render`'s value: a non-empty list of ids is shown
   * comma-joined, no ids or an empty list as the empty string.
   */
  function RenderValue(value: Option<seq<string>>): (r: string)
    ensures value.None? || value.value == [] ==> r == ""
    ensures value.Some? && |value.value| == 1 ==> r == value.value[0]
    ensures value.Some? && value.value != [] ==> r == Join(",", value.value)
    ensures value.Some? && value.value != [] ==>
              |r| == Sum(value.value) + |value.value| - 1
  {
    match value
    case None => ""
    case Some(ids) =>
      if ids != [] then
        JoinLength(",", ids);
        Join(",", ids)
      else ""
  }

  /**
   * `RawIdWidget.value_from_datadict`: a submitted non-empty string split on
   * `,`, and nothing when the field is missing or empty.
   */
  function ValueFromDatadict(data: map<string, string>, name: string): (r: Option<seq<string>>)
    ensures r.Some? <==> name in data && data[name] != ""
    ensures r.Some? ==> |r.value| == 1 + Occurrences(data[name], ',')
    ensures r.Some? ==> forall i :: 0 <= i < |r.value| ==> Free(r.value[i], ',')
  {
    if name in data && data[name] != "" then Some(Split(data[name], ',')) else None
  }

  /** Rendering what was submitted shows the submitted string again. */
  lemma SubmittedRendersBack(data: map<string, string>, name: string)
    ensures RenderValue(ValueFromDatadict(data, name)) == if name in data then data[name] else ""
  {
    if name in data && data[name] != "" {
      JoinSplit(data[name], ',');
    }
  }

  /**
   * Submitting what was rendered gives back the ids, when they hold no comma
   * and their join is not empty (`[""]` renders as `""`, which submits as nothing).
   */
  lemma RenderedSubmitsBack(data: map<string, string>, name: string, ids: seq<string>)
    requires ids != []
    requires forall i :: 0 <= i < |ids| ==> Free(ids[i], ',')
    requires RenderValue(Some(ids)) != ""
    requires name in data && data[name] == RenderValue(Some(ids))
    ensures ValueFromDatadict(data, name) == Some(ids)
  {
    SplitJoin(ids, ',');
  }

  // ---------------------------------------------------------------------
  // The export view
  // ---------------------------------------------------------------------

  /** The initial data of the export form on a GET. */
  datatype InitialData = InitialData(fields: seq<string>, objects: seq<string>)

  /**
   * `export_objects` on a GET: every allowed field is preselected and the
   * objects are the `ids` query parameter split on `,` (`[""]` without one).
   */
  function InitialForm(modelFields: seq<FieldMeta>, query: map<string, string>): (r: InitialData)
    ensures r.fields == AllowedFields(modelFields)
    ensures |r.objects| >= 1
    ensures forall i :: 0 <= i < |r.objects| ==> Free(r.objects[i], ',')
    ensures "ids" in query ==> |r.objects| == 1 + Occurrences(query["ids"], ',')
    ensures "ids" !in query ==> r.objects == [""]
    ensures Join(",", r.objects) == if "ids" in query then query["ids"] else ""
  {
    var ids := if "ids" in query then query["ids"] else "";
    JoinSplit(ids, ',');
    InitialData(AllowedFields(modelFields), Split(ids, ','))
  }

  /**
   * Following the export action's link preselects exactly the selected
   * objects, given the query parameters of the redirect URL.
   */
  lemma ActionPreselectsSelection(base: string, pks: seq<nat>, modelFields: seq<FieldMeta>)
    requires pks != []
    ensures InitialForm(modelFields, map["ids" := RedirectUrl(base, pks)[|base| + 5..]]).objects
         == IdStrings(pks)
  {
  }

  /** A line the CSV writer produces: the header, or one object's row. */
  datatype Line = Header(fields: seq<string>) | Row(values: map<string, string>)

  /** `{ k : getattr(obj, k) for k in selected_fields }` */
  function RowFor<O>(selected: seq<string>, getattr: (O, string) -> string, obj: O): (r: map<string, string>)
    ensures r.Keys == set k | k in selected
    ensures forall k :: k in r ==> r[k] == getattr(obj, k)
  {
    map k | k in selected :: getattr(obj, k)
  }

  /** The header is written only when more than one field is selected. */
  function HeaderLines(selected: seq<string>): seq<Line> {
    if |selected| > 1 then [Header(selected)] else []
  }

  /** One row per object, in the order the objects come. */
  function RowsOf<O>(selected: seq<string>, getattr: (O, string) -> string, objects: seq<O>): (r: seq<Line>)
    ensures |r| == |objects|
    ensures forall i :: 0 <= i < |objects| ==> r[i] == Row(RowFor(selected, getattr, objects[i]))
  {
    if objects == [] then []
    else RowsOf(selected, getattr, objects[..|objects| - 1])
         + [Row(RowFor(selected, getattr, objects[|objects| - 1]))]
  }

  /** What a valid export POST writes to the response. */
  function ExportLines<O>(selected: seq<string>, getattr: (O, string) -> string, objects: seq<O>): seq<Line> {
    HeaderLines(selected) + RowsOf(selected, getattr, objects)
  }

  /**
   * The export writes a header exactly when more than one field is selected,
   * and then exactly one row per object whose keys are the selected fields.
   */
  lemma ExportShape<O>(selected: seq<string>, getattr: (O, string) -> string, objects: seq<O>)
    ensures var lines := ExportLines(selected, getattr, objects);
      && (exists i :: 0 <= i < |lines| && lines[i].Header?) <==> |selected| > 1
    ensures var lines := ExportLines(selected, getattr, objects);
      |lines| == |objects| + (if |selected| > 1 then 1 else 0)
    ensures var lines := ExportLines(selected, getattr, objects);
      forall i :: 0 <= i < |lines| && lines[i].Row? ==> lines[i].values.Keys == set k | k in selected
  {
    var lines := ExportLines(selected, getattr, objects);
    var h := |HeaderLines(selected)|;
    assert forall i :: h <= i < |lines| ==> lines[i] == RowsOf(selected, getattr, objects)[i - h];
    if |selected| > 1 {
      assert lines[0].Header?;
    }
  }

  /** The response an export writes into: the lines written so far. */
  class ExportResponse {
    var lines: seq<Line>

    constructor ()
      ensures lines == []
    {
      lines := [];
    }

    /** `writer.writeheader()` */
    method WriteHeader(fields: seq<string>)
      modifies this
      ensures lines == old(lines) + [Header(fields)]
    {
      lines := lines + [Header(fields)];
    }

    /** `writer.writerow(row)` */
    method WriteRow(row: map<string, string>)
      modifies this
      ensures lines == old(lines) + [Row(row)]
    {
      lines := lines + [Row(row)];
    }
  }

  /**
   * `export_objects` on a valid POST: the header when more than one field is
   * selected, then one row per selected object.
   */
  method ExportObjects<O>(selected: seq<string>, getattr: (O, string) -> string, objects: seq<O>)
    returns (response: ExportResponse)
    ensures fresh(response)
    ensures response.lines == ExportLines(selected, getattr, objects)
  {
    response := new ExportResponse();
    if |selected| > 1 {
      response.WriteHeader(selected);
    }
    for i := 0 to |objects|
      invariant response.lines == HeaderLines(selected) + RowsOf(selected, getattr, objects[..i])
    {
      response.WriteRow(RowFor(selected, getattr, objects[i]));
      assert objects[..i + 1][..i] == objects[..i];
    }
    assert objects[..|objects|] == objects;
  }
}
