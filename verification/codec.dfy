/** The widget configuration codec of the CRM dashboard: the sanitizer that
    reduces live data options to storable `{ table, column }` references,
    the lookup of a reference in the registry, and the rehydrator that
    rebuilds live data options from a stored record. Whatever does not
    parse or resolve is dropped. The inputs on which the source throws (a
    null list entry, a stored entry without `jaql`) have no representation
    here. */
module Codec {
  import opened Js
  import opened Vendor
  import opened Expression
  import opened BestCRM

  /** A stored `value` entry: `{ agg, jaql: { table, column } }`. It has no
      title: the sanitizer never emits one. */
  datatype StoredValue = StoredValue(agg: Option<string>, jaql: JaqlRef)

  /** Sanitized data options: the reduced `category` entries
      (`{ jaql: { table, column } }`), the reduced `value` entries, and every
      other key as it was. */
  datatype StoredOptions = StoredOptions(
    category: Option<seq<JaqlRef>>,
    value: Option<seq<StoredValue>>,
    others: map<string, Passthrough>)

  /** A row of the widget table. */
  datatype Record = Record(
    widgetId: string,
    title: string,
    layout: Option<LayoutItem>,
    widgetOid: Option<string>,
    dashboardOid: Option<string>,
    jaql: Option<StoredOptions>,
    dataSourceTitle: Option<string>,
    chartType: Option<string>)

  /** The two keys the codec rewrites; every other key is copied. */
  const ListKeys: set<string> := {"category", "value"}

  /** `m` without the keys `category` and `value`. */
  function CopyOthers(m: map<string, Passthrough>): (r: map<string, Passthrough>)
    ensures r.Keys == m.Keys - ListKeys
    ensures forall key :: key in r ==> r[key] == m[key]
  {
    map key | key in m && key !in ListKeys :: m[key]
  }

  // ---------------------------------------------------------------------
  // sanitizeJaqlWidgetForSerialization

  /** A category entry becomes the reference its expression parses to. */
  function CategoryRef(a: Attribute): Option<JaqlRef> {
    ParseExpression(a.expression)
  }

  /** A value entry survives only with an attribute whose expression
      parses; its tag is `aggregation`, falling back to `agg`. */
  function ValueRef(m: Measure): (r: Option<StoredValue>)
    ensures r.Some? <==> m.attribute.Some? && ParseExpression(m.attribute.value.expression).Some?
    ensures r.Some? ==> r.value.jaql == ParseExpression(m.attribute.value.expression).value
    ensures r.Some? ==> r.value.agg == if Truthy(m.aggregation) then m.aggregation else m.agg
  {
    var aggregationType := Or(m.aggregation, m.agg);
    if m.attribute.Some? && Truthy(m.attribute.value.expression) then
      match ParseExpression(m.attribute.value.expression)
      case Some(ref) => Some(StoredValue(aggregationType, ref))
      case None => None
    else None
  }

  /** `sanitizeJaqlWidgetForSerialization`: absent options stay absent;
      each list is present exactly when it was; every key other than the
      two lists is copied. What becomes of the list entries is stated by
      `SanitizeEntries`. */
  function Sanitize(options: Option<DataOptions>): (r: Option<StoredOptions>)
    ensures options.None? <==> r.None?
    ensures r.Some? ==> (r.value.category.Some? <==> options.value.category.Some?)
    ensures r.Some? ==> (r.value.value.Some? <==> options.value.value.Some?)
    ensures r.Some? ==> r.value.others.Keys == options.value.others.Keys - ListKeys
    ensures r.Some? ==> forall key :: key in r.value.others ==> r.value.others[key] == options.value.others[key]
  {
    match options
    case None => None
    case Some(d) =>
      var category := match d.category
        case Some(attrs) => Some(FilterMap(attrs, CategoryRef))
        case None => None;
      var value := match d.value
        case Some(measures) => Some(FilterMap(measures, ValueRef))
        case None => None;
      Some(StoredOptions(category, value, CopyOthers(d.others)))
  }

  /** The sanitized lists hold no more entries than the live ones; every
      stored entry is the reduction of some live entry, and every live entry
      that reduces is stored. */
  lemma SanitizeEntries(d: DataOptions)
    ensures var r := Sanitize(Some(d)).value;
            r.category.Some? ==>
              var (inp, out) := (d.category.value, r.category.value);
              && |out| <= |inp|
              && (forall i :: 0 <= i < |out| ==> exists k :: 0 <= k < |inp| && CategoryRef(inp[k]) == Some(out[i]))
              && (forall k :: 0 <= k < |inp| && CategoryRef(inp[k]).Some? ==> CategoryRef(inp[k]).value in out)
    ensures var r := Sanitize(Some(d)).value;
            r.value.Some? ==>
              var (inp, out) := (d.value.value, r.value.value);
              && |out| <= |inp|
              && (forall i :: 0 <= i < |out| ==> exists k :: 0 <= k < |inp| && ValueRef(inp[k]) == Some(out[i]))
              && (forall k :: 0 <= k < |inp| && ValueRef(inp[k]).Some? ==> ValueRef(inp[k]).value in out)
  {
    if d.category.Some? { FilterMapEntries(d.category.value, CategoryRef); }
    if d.value.Some? { FilterMapEntries(d.value.value, ValueRef); }
  }

  /** Data options holding only the category list `attrs`. */
  function CategoryOnly(attrs: seq<Attribute>): DataOptions {
    DataOptions(Some(attrs), None, map[])
  }

  /** Sanitizing a category list works entry by entry, in order: the
      sanitized concatenation is the concatenation of the sanitized parts. */
  lemma SanitizeCategoryInOrder(a: seq<Attribute>, b: seq<Attribute>)
    ensures Sanitize(Some(CategoryOnly(a + b))).value.category.value
         == Sanitize(Some(CategoryOnly(a))).value.category.value
          + Sanitize(Some(CategoryOnly(b))).value.category.value
  {
    FilterMapAppend(a, b, CategoryRef);
  }

  /** A single category entry is kept, reduced to its reference, exactly
      when its expression parses. */
  lemma SanitizeCategoryEntry(a: Attribute)
    ensures Sanitize(Some(CategoryOnly([a]))).value.category.value
         == if ParseExpression(a.expression).Some? then [ParseExpression(a.expression).value] else []
  {
    FilterMapSingleton(a, CategoryRef);
  }

  /** `breakBy` is one of the copied keys: its live attributes are stored
      as they are, not reduced to references. */
  lemma SanitizeKeepsBreakBy(d: DataOptions, attrs: seq<Attribute>)
    requires "breakBy" in d.others && d.others["breakBy"] == AttrList(attrs)
    ensures Sanitize(Some(d)).value.others["breakBy"] == AttrList(attrs)
  {
  }

  // ---------------------------------------------------------------------
  // findAttributeByJaql

  /** `i` is the first dimension of `reg` named `table`. */
  predicate FirstDimension(reg: seq<Dimension>, table: string, i: int) {
    0 <= i < |reg| && reg[i].name == table && forall j :: 0 <= j < i ==> reg[j].name != table
  }

  /** `k` is the first field of `dim` named `column`. */
  predicate FirstField(dim: Dimension, column: string, k: int) {
    0 <= k < |dim.fields| && dim.fields[k].name == column && forall j :: 0 <= j < k ==> dim.fields[j].name != column
  }

  /** `findAttributeByJaql`: a field named `column` of a dimension named
      `table`, or nothing; which one is pinned down by the two lemmas
      below. */
  function FindAttributeByJaql(reg: seq<Dimension>, table: string, column: string): (r: Option<Attribute>)
    ensures r.Some? ==> r.value.name == column
    ensures r.Some? ==> exists i :: FirstDimension(reg, table, i) && r.value in reg[i].fields
    ensures (forall i :: 0 <= i < |reg| ==> reg[i].name != table) ==> r.None?
  {
    match Find(reg, (d: Dimension) => d.name == table)
    case None => None
    case Some(dim) => Find(dim.fields, (a: Attribute) => a.name == column)
  }

  /** The lookup returns the first field named `column` of the first
      dimension named `table`. */
  lemma FindAttributeFirst(reg: seq<Dimension>, table: string, column: string, i: nat, k: nat)
    requires FirstDimension(reg, table, i) && FirstField(reg[i], column, k)
    ensures FindAttributeByJaql(reg, table, column) == Some(reg[i].fields[k])
  {
    FindFirst(reg, (d: Dimension) => d.name == table, i);
    FindFirst(reg[i].fields, (a: Attribute) => a.name == column, k);
  }

  /** When the first dimension named `table` has no field named `column`,
      the lookup returns nothing, even if a later dimension of that name
      has one. */
  lemma FindAttributeMissing(reg: seq<Dimension>, table: string, column: string, i: nat)
    requires FirstDimension(reg, table, i)
    requires forall k :: 0 <= k < |reg[i].fields| ==> reg[i].fields[k].name != column
    ensures FindAttributeByJaql(reg, table, column).None?
  {
    FindFirst(reg, (d: Dimension) => d.name == table, i);
  }

  // ---------------------------------------------------------------------
  // rehydrateJaqlWidgetFromData

  /** A stored category reference, resolved against the registry. */
  function ResolveRef(reg: seq<Dimension>, ref: JaqlRef): Option<Attribute> {
    FindAttributeByJaql(reg, ref.table, ref.column)
  }

  /** `ResolveRef` against a fixed registry. */
  function Resolver(reg: seq<Dimension>): JaqlRef -> Option<Attribute> {
    ref => ResolveRef(reg, ref)
  }

  /** A stored value entry becomes the measure the constructor named by its
      tag builds over the resolved attribute, without a title; it is dropped
      when the attribute does not resolve or the tag names no constructor. */
  function RehydrateValue(reg: seq<Dimension>, f: MeasureFactory, v: StoredValue): (r: Option<Measure>)
    ensures r.Some? <==> ResolveRef(reg, v.jaql).Some? && v.agg.Some? && v.agg.value in f.tags
    ensures r.Some? ==> r.value.attribute == ResolveRef(reg, v.jaql)
    ensures r.Some? ==> r.value.aggregation == Some(f.tags[v.agg.value])
    ensures r.Some? ==> r.value.title.None? && r.value.agg.None?
  {
    match ResolveRef(reg, v.jaql)
    case None => None
    case Some(a) =>
      if v.agg.Some? && v.agg.value in f.tags then Some(Aggregate(f, v.agg.value, a, None)) else None
  }

  /** `RehydrateValue` against a fixed registry and factory. */
  function Rebuilder(reg: seq<Dimension>, f: MeasureFactory): StoredValue -> Option<Measure> {
    v => RehydrateValue(reg, f, v)
  }

  /** The live data options rebuilt from a record's stored `jaql`: each
      list is present exactly when it was stored, and the copied keys come
      back as stored. What becomes of the list entries is stated by
      `RehydrateEntries`. */
  function RehydrateOptions(reg: seq<Dimension>, f: MeasureFactory, jaql: Option<StoredOptions>): (r: DataOptions)
    ensures r.category.Some? <==> jaql.Some? && jaql.value.category.Some?
    ensures r.value.Some? <==> jaql.Some? && jaql.value.value.Some?
    ensures jaql.None? ==> r.others == map[]
    ensures jaql.Some? ==> r.others.Keys == jaql.value.others.Keys - ListKeys
    ensures jaql.Some? ==> forall key :: key in r.others ==> r.others[key] == jaql.value.others[key]
  {
    match jaql
    case None => DataOptions(None, None, map[])
    case Some(j) =>
      var category := match j.category
        case Some(refs) => Some(FilterMap(refs, Resolver(reg)))
        case None => None;
      var value := match j.value
        case Some(values) => Some(FilterMap(values, Rebuilder(reg, f)))
        case None => None;
      DataOptions(category, value, CopyOthers(j.others))
  }

  /** The rebuilt category list holds exactly the attributes the stored
      references resolve to; every rebuilt measure is untitled. */
  lemma RehydrateEntries(reg: seq<Dimension>, f: MeasureFactory, j: StoredOptions)
    ensures var r := RehydrateOptions(reg, f, Some(j));
            r.category.Some? ==>
              var (inp, out) := (j.category.value, r.category.value);
              && |out| <= |inp|
              && (forall i :: 0 <= i < |out| ==> exists k :: 0 <= k < |inp| && ResolveRef(reg, inp[k]) == Some(out[i]))
              && (forall k :: 0 <= k < |inp| && ResolveRef(reg, inp[k]).Some? ==> ResolveRef(reg, inp[k]).value in out)
    ensures var r := RehydrateOptions(reg, f, Some(j));
            r.value.Some? ==>
              forall i :: 0 <= i < |r.value.value| ==> r.value.value[i].title.None?
  {
    var r := RehydrateOptions(reg, f, Some(j));
    if j.category.Some? {
      assert r.category.value == FilterMap(j.category.value, Resolver(reg));
      ResolvedEntries(reg, j.category.value);
    }
    if j.value.Some? {
      var out := r.value.value;
      assert out == FilterMap(j.value.value, Rebuilder(reg, f));
      RebuiltUntitled(reg, f, j.value.value);
      assert forall i :: 0 <= i < |out| ==> out[i].title.None?;
    }
  }

  /** The attributes resolved from stored references are exactly those the
      references resolve to. */
  lemma ResolvedEntries(reg: seq<Dimension>, inp: seq<JaqlRef>)
    ensures var out := FilterMap(inp, Resolver(reg));
            && |out| <= |inp|
            && (forall i :: 0 <= i < |out| ==> exists k :: 0 <= k < |inp| && ResolveRef(reg, inp[k]) == Some(out[i]))
            && (forall k :: 0 <= k < |inp| && ResolveRef(reg, inp[k]).Some? ==> ResolveRef(reg, inp[k]).value in out)
  {
    FilterMapEntries(inp, Resolver(reg));
  }

  /** Every measure rebuilt from stored value entries is untitled. */
  lemma RebuiltUntitled(reg: seq<Dimension>, f: MeasureFactory, inp: seq<StoredValue>)
    ensures var out := FilterMap(inp, Rebuilder(reg, f));
            forall i :: 0 <= i < |out| ==> out[i].title.None?
  {
    var out := FilterMap(inp, Rebuilder(reg, f));
    FilterMapEntries(inp, Rebuilder(reg, f));
    forall i | 0 <= i < |out| ensures out[i].title.None? {
      var k :| 0 <= k < |inp| && Rebuilder(reg, f)(inp[k]) == Some(out[i]);
      assert RehydrateValue(reg, f, inp[k]) == Some(out[i]);
    }
  }

  /** `rehydrateJaqlWidgetFromData`: a chart widget with the record's id,
      title and chart type, the registry's data source, and the rebuilt
      data options. The stored data source title is not read. */
  function RehydrateJaqlWidget(reg: seq<Dimension>, f: MeasureFactory, record: Record): (w: Widget)
    ensures w.Chart? && w.widgetType == "chart"
    ensures w.id == record.widgetId && w.title == record.title && w.chartType == record.chartType
    ensures w.dataSource == Some(Source)
    ensures w.dataOptions == Some(RehydrateOptions(reg, f, record.jaql))
  {
    Chart(record.widgetId, record.title, "chart", record.chartType, Some(Source), Some(RehydrateOptions(reg, f, record.jaql)))
  }

  // ---------------------------------------------------------------------
  // Round trips

  /** `a` is found again from the reference its expression parses to. */
  predicate Resolves(reg: seq<Dimension>, a: Attribute) {
    CategoryRef(a).Some? && ResolveRef(reg, CategoryRef(a).value) == Some(a)
  }

  /** A measure the rehydrator rebuilds exactly: an attribute that resolves,
      a tag naming the constructor that stamps that same tag, no fallback
      tag and no title. */
  predicate RoundTrips(reg: seq<Dimension>, f: MeasureFactory, m: Measure) {
    && m.attribute.Some? && Resolves(reg, m.attribute.value)
    && Truthy(m.aggregation) && m.aggregation.value in f.tags && f.tags[m.aggregation.value] == m.aggregation.value
    && m.agg.None? && m.title.None?
  }

  /** Rehydrating the sanitized category list gives back every attribute
      that resolves, in order. */
  lemma {:induction false} CategoryRoundTrip(reg: seq<Dimension>, attrs: seq<Attribute>)
    requires forall k :: 0 <= k < |attrs| ==> Resolves(reg, attrs[k])
    ensures RehydrateOptions(reg, MeasureFactory(map[]), Sanitize(Some(CategoryOnly(attrs)))).category == Some(attrs)
  {
    FilterMapRoundTrip(attrs, CategoryRef, Resolver(reg));
  }

  /** Storing then reloading data options acts on each list entry by
      entry, and keeps the copied keys. */
  lemma StoreThenReload(reg: seq<Dimension>, f: MeasureFactory, d: DataOptions)
    ensures RehydrateOptions(reg, f, Sanitize(Some(d))) == DataOptions(
              if d.category.Some? then Some(FilterMap(FilterMap(d.category.value, CategoryRef), Resolver(reg))) else None,
              if d.value.Some? then Some(FilterMap(FilterMap(d.value.value, ValueRef), Rebuilder(reg, f))) else None,
              CopyOthers(d.others))
  {
    assert CopyOthers(CopyOthers(d.others)) == CopyOthers(d.others);
  }

  /** The reference `a` is stored as finds nothing on reload: its
      expression does not parse, or names no attribute of the registry. */
  predicate Unresolved(reg: seq<Dimension>, a: Attribute) {
    CategoryRef(a).None? || ResolveRef(reg, CategoryRef(a).value).None?
  }

  /** A one-entry category list comes back from storage when its entry
      resolves, and comes back empty when its reference finds nothing. */
  lemma SingleCategoryReload(reg: seq<Dimension>, a: Attribute)
    ensures Resolves(reg, a) ==> FilterMap(FilterMap([a], CategoryRef), Resolver(reg)) == [a]
    ensures Unresolved(reg, a) ==> FilterMap(FilterMap([a], CategoryRef), Resolver(reg)) == []
  {
    FilterMapSingleton(a, CategoryRef);
    match CategoryRef(a)
    case None =>
    case Some(ref) =>
      FilterMapSingleton(ref, Resolver(reg));
  }

  /** Data options holding one category entry and one measure: the entry
      comes back when it resolves and is dropped when its reference finds
      nothing, and keys other than the two lists come back as they were. */
  lemma OneEntryReload(reg: seq<Dimension>, f: MeasureFactory, a: Attribute, m: Measure, others: map<string, Passthrough>)
    requires others.Keys !! ListKeys
    requires Resolves(reg, a) || Unresolved(reg, a)
    ensures RehydrateOptions(reg, f, Sanitize(Some(DataOptions(Some([a]), Some([m]), others))))
         == DataOptions(Some(if Resolves(reg, a) then [a] else []),
                        Some(FilterMap(FilterMap([m], ValueRef), Rebuilder(reg, f))),
                        others)
  {
    StoreThenReload(reg, f, DataOptions(Some([a]), Some([m]), others));
    SingleCategoryReload(reg, a);
    assert CopyOthers(others) == others;
  }

  /** A measure that round-trips survives sanitizing and rehydrating. */
  lemma ValueRoundTrip(reg: seq<Dimension>, f: MeasureFactory, m: Measure)
    requires RoundTrips(reg, f, m)
    ensures ValueRef(m).Some? && RehydrateValue(reg, f, ValueRef(m).value) == Some(m)
  {
  }

  /** Rehydrated measures carry no title, so a titled measure never comes
      back as it was. */
  lemma TitledMeasureDoesNotRoundTrip(reg: seq<Dimension>, f: MeasureFactory, m: Measure)
    requires m.title.Some? && ValueRef(m).Some?
    ensures RehydrateValue(reg, f, ValueRef(m).value) != Some(m)
  {
  }

  /** Data options whose category attributes resolve and whose measures
      round-trip come back from storage unchanged, apart from the two list
      keys no longer appearing among the copied ones. */
  lemma {:induction false} OptionsRoundTrip(reg: seq<Dimension>, f: MeasureFactory, d: DataOptions)
    requires d.category.Some? ==> forall k :: 0 <= k < |d.category.value| ==> Resolves(reg, d.category.value[k])
    requires d.value.Some? ==> forall k :: 0 <= k < |d.value.value| ==> RoundTrips(reg, f, d.value.value[k])
    ensures RehydrateOptions(reg, f, Sanitize(Some(d))) == DataOptions(d.category, d.value, CopyOthers(d.others))
  {
    if d.category.Some? {
      FilterMapRoundTrip(d.category.value, CategoryRef, Resolver(reg));
    }
    if d.value.Some? {
      var ms := d.value.value;
      forall k | 0 <= k < |ms| ensures ValueRef(ms[k]).Some? && RehydrateValue(reg, f, ValueRef(ms[k]).value) == Some(ms[k]) {
        ValueRoundTrip(reg, f, ms[k]);
      }
      FilterMapRoundTrip(ms, ValueRef, Rebuilder(reg, f));
    }
    assert CopyOthers(CopyOthers(d.others)) == CopyOthers(d.others);
  }

  /** Every attribute of the registry that is not a date dimension is found
      again from its own expression. */
  lemma RegistryAttributeResolves(i: nat, k: nat)
    requires i < |AllDimensions| && k < |AllDimensions[i].fields|
    requires AllDimensions[i].fields[k].kind != DateDimension
    ensures Resolves(AllDimensions, AllDimensions[i].fields[k])
  {
    var dim := AllDimensions[i];
    ExpressionsParse(i, k);
    DimensionNamesAreDistinct();
    AllWellDeclared();
    assert FirstDimension(AllDimensions, dim.name, i);
    assert FirstField(dim, dim.fields[k].name, k);
    FindAttributeFirst(AllDimensions, dim.name, dim.fields[k].name, i, k);
  }

  /** A column no attribute of the opportunities dimension is named after
      resolves to nothing. */
  lemma OpportunitiesColumnMissing(column: string)
    requires forall k :: 0 <= k < |Opportunities.fields| ==> Opportunities.fields[k].name != column
    ensures FindAttributeByJaql(AllDimensions, "Opportunities", column) == None
  {
    DimensionNamesAreDistinct();
    assert AllDimensions[5].name == "Opportunities";
    assert FirstDimension(AllDimensions, "Opportunities", 5);
    FindAttributeMissing(AllDimensions, "Opportunities", column, 5);
  }

  /** The names of the opportunities attributes. */
  lemma OpportunitiesFieldNames()
    ensures forall k :: 0 <= k < |Opportunities.fields| ==>
              Opportunities.fields[k].name in ["isMTD", "isQTD", "isYTD", "Opportunity Id", "Opportunity Name", "Value", "Close Date", "Creation Date"]
  {
    assert Opportunities.fields == [IsMTD, IsQTD, IsYTD, OpportunityId, OpportunityName, Value, CloseDate, CreationDate];
  }

  /** No attribute of the opportunities dimension is named after either
      calendar column. */
  lemma CalendarColumnsMissing()
    ensures FindAttributeByJaql(AllDimensions, "Opportunities", "Close Date (Calendar)").None?
    ensures FindAttributeByJaql(AllDimensions, "Opportunities", "Creation Date (Calendar)").None?
  {
    OpportunitiesFieldNames();
    OpportunitiesColumnMissing("Close Date (Calendar)");
    OpportunitiesColumnMissing("Creation Date (Calendar)");
  }

  /** The sanitized form of the close-date dimension names the column
      "Close Date (Calendar)", which no attribute of its dimension carries as
      a name, so it finds nothing on reload. */
  lemma CloseDateDoesNotRoundTrip()
    ensures Unresolved(AllDimensions, CloseDate) && !Resolves(AllDimensions, CloseDate)
  {
    DateDimensionColumns();
    CalendarColumnsMissing();
  }

  /** Likewise for the creation-date dimension. */
  lemma CreationDateDoesNotRoundTrip()
    ensures Unresolved(AllDimensions, CreationDate) && !Resolves(AllDimensions, CreationDate)
  {
    DateDimensionColumns();
    CalendarColumnsMissing();
  }

  /** A close-date category is dropped on reload. */
  lemma CloseDateCategoryDropped()
    ensures RehydrateOptions(AllDimensions, MeasureFactory(map[]), Sanitize(Some(CategoryOnly([CloseDate])))).category == Some([])
  {
    CloseDateDoesNotRoundTrip();
    SingleCategoryReload(AllDimensions, CloseDate);
  }

  /** A reference to a table the registry does not hold is dropped, and the
      rest of the list survives. */
  lemma UnknownTableDropped(refs: seq<JaqlRef>, column: string)
    ensures RehydrateOptions(AllDimensions, MeasureFactory(map[]),
              Some(StoredOptions(Some([JaqlRef("Nonexistent", column)] + refs), None, map[]))).category
         == RehydrateOptions(AllDimensions, MeasureFactory(map[]),
              Some(StoredOptions(Some(refs), None, map[]))).category
  {
    var g := Resolver(AllDimensions);
    assert ResolveRef(AllDimensions, JaqlRef("Nonexistent", column)).None?;
    FilterMapAppend([JaqlRef("Nonexistent", column)], refs, g);
    FilterMapSingleton(JaqlRef("Nonexistent", column), g);
  }
}
