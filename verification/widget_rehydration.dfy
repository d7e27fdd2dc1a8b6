/** The keyed rehydrator: an index from a key to every data-model object
    of the BestCRM namespace, and the rebuilding of a parsed widget's
    `category`, `value` and `breakBy` entries through that index. */
module WidgetRehydration {
  import opened Js
  import opened Vendor
  import opened Expression
  import opened BestCRM

  /** The `jaql` of a stored entry or of a data-model object: its `title`,
      its `dim` and its `agg`. */
  datatype Jaql = Jaql(title: Option<string>, dim: Option<string>, agg: Option<string>)

  /** A parsed data-options entry: its own `title` and its `jaql`. */
  datatype Item = Item(title: Option<string>, jaql: Option<Jaql>)

  /** A value the index walk visits: one without a truthy `jaql` (a string,
      a number, a method), or a data-model object with its `jaql`. */
  datatype ModelValue = Plain | Described(jaql: Jaql, item: Attribute)

  /** An export of the namespace: an object, whose property values the walk
      visits in order, or a value that is not an object. */
  datatype Export = ObjectExport(values: seq<ModelValue>) | PrimitiveExport

  /** What an entry is rebuilt into: the indexed object itself, a measure,
      or the fallback attribute built from the entry's `jaql`. */
  datatype Live = LiveAttribute(attribute: Attribute) | LiveMeasure(measure: Measure) | FromJaql(jaql: Jaql)

  // ---------------------------------------------------------------------
  // The index

  /** The values an export contributes to the walk. */
  function ExportValues(e: Export): seq<ModelValue> {
    match e
    case ObjectExport(values) => values
    case PrimitiveExport => []
  }

  /** The visited values of the exports, in order. */
  function Walk(exports: seq<Export>): seq<ModelValue> {
    if exports == [] then []
    else Walk(exports[..|exports| - 1]) + ExportValues(exports[|exports| - 1])
  }

  /** Every visited value is a property value of some export. */
  lemma {:induction false} WalkVisitsExports(exports: seq<Export>, v: ModelValue)
    requires v in Walk(exports)
    ensures exists e :: e in exports && v in ExportValues(e)
  {
    var init := exports[..|exports| - 1];
    if v in Walk(init) {
      WalkVisitsExports(init, v);
      var e :| e in init && v in ExportValues(e);
      assert e in exports;
    } else {
      assert exports[|exports| - 1] in exports;
    }
  }

  /** The key a value is indexed under: `jaql.title || jaql.dim`. */
  function IndexKey(v: ModelValue): (r: Option<string>)
    ensures v.Plain? ==> r.None?
    ensures v.Described? && Truthy(v.jaql.title) ==> r == v.jaql.title
    ensures v.Described? && !Truthy(v.jaql.title) ==> r == v.jaql.dim
  {
    match v
    case Plain => None
    case Described(jaql, _) => Or(jaql.title, jaql.dim)
  }

  /** `allDataModelObjects`: the visited values with a truthy key, each
      stored under that key; a later value overwrites an earlier one. */
  function BuildIndex(values: seq<ModelValue>): (index: map<string, Attribute>)
    ensures forall key :: key in index ==> key != []
  {
    if values == [] then map[]
    else
      var index := BuildIndex(values[..|values| - 1]);
      var v := values[|values| - 1];
      if Truthy(IndexKey(v)) then index[IndexKey(v).value := v.item] else index
  }

  /** A key is in the index exactly when it is non-empty and some visited
      value carries it. */
  lemma {:induction false} IndexDomain(values: seq<ModelValue>, key: string)
    ensures key in BuildIndex(values) <==> key != [] && exists k :: 0 <= k < |values| && IndexKey(values[k]) == Some(key)
  {
    if values != [] {
      var init := values[..|values| - 1];
      IndexDomain(init, key);
      if exists k :: 0 <= k < |init| && IndexKey(init[k]) == Some(key) {
        var k :| 0 <= k < |init| && IndexKey(init[k]) == Some(key);
        assert values[k] == init[k];
      }
      if exists k :: 0 <= k < |values| && IndexKey(values[k]) == Some(key) {
        var k :| 0 <= k < |values| && IndexKey(values[k]) == Some(key);
        if k < |init| { assert init[k] == values[k]; }
      }
    }
  }

  /** The object stored under a key is the last visited value carrying it. */
  lemma {:induction false} IndexLastWins(values: seq<ModelValue>, k: nat, key: string)
    requires k < |values| && IndexKey(values[k]) == Some(key) && key != []
    requires forall j :: k < j < |values| ==> IndexKey(values[j]) != Some(key)
    ensures key in BuildIndex(values) && BuildIndex(values)[key] == values[k].item
  {
    var init := values[..|values| - 1];
    if k < |values| - 1 {
      forall j | k < j < |init| ensures IndexKey(init[j]) != Some(key) {
        assert init[j] == values[j];
      }
      IndexLastWins(init, k, key);
    }
  }

  /** Values that do not carry a key leave its entry as it was. */
  lemma {:induction false} IndexUnchangedBy(a: seq<ModelValue>, b: seq<ModelValue>, key: string)
    requires forall j :: 0 <= j < |b| ==> IndexKey(b[j]) != Some(key)
    ensures key in BuildIndex(a + b) <==> key in BuildIndex(a)
    ensures key in BuildIndex(a) ==> BuildIndex(a + b)[key] == BuildIndex(a)[key]
  {
    if b != [] {
      var b' := b[..|b| - 1];
      assert (a + b)[..|a + b| - 1] == a + b';
      assert (a + b)[|a + b| - 1] == b[|b| - 1];
      IndexUnchangedBy(a, b', key);
    } else {
      assert a + b == a;
    }
  }

  /** `allDataModelObjects.get(key)`. */
  function Lookup(index: map<string, Attribute>, key: Option<string>): (r: Option<Attribute>)
    ensures r.Some? <==> key.Some? && key.value in index
    ensures r.Some? ==> r.value == index[key.value]
  {
    if key.Some? && key.value in index then Some(index[key.value]) else None
  }

  // ---------------------------------------------------------------------
  // rehydrateItem

  /** The `measureFactory` constructor an `agg` value selects: `sum`,
      `average` for `avg`, `count`; no other value selects one. */
  function Constructor(agg: string): (r: Option<string>)
    ensures r.Some? <==> agg in {"sum", "avg", "count"}
    ensures agg == "avg" ==> r == Some("average")
    ensures agg != "avg" && r.Some? ==> r == Some(agg)
  {
    if agg == "sum" then Some("sum")
    else if agg == "avg" then Some("average")
    else if agg == "count" then Some("count")
    else None
  }

  /** `rehydrateItem`: a missing entry or `jaql` gives nothing. Without an
      `agg`, an indexed key (title, else dim) gives the indexed object and
      an unindexed one the fallback attribute. With an `agg`, the base is
      looked up by `dim` alone, and the result is the measure the selected
      constructor builds over it with the entry's own title; a base not in
      the index or an `agg` that selects no constructor gives nothing. */
  function RehydrateItem(f: MeasureFactory, index: map<string, Attribute>, item: Option<Item>): (r: Option<Live>)
    requires f.HasStandardConstructors()
    ensures item.None? || item.value.jaql.None? ==> r.None?
    ensures r.Some? && r.value.LiveAttribute? ==>
              var j := item.value.jaql.value;
              !Truthy(j.agg) && Lookup(index, IndexKey(Described(j, r.value.attribute))) == Some(r.value.attribute)
    ensures r.Some? && r.value.FromJaql? ==>
              var j := item.value.jaql.value;
              !Truthy(j.agg) && r.value.jaql == j && Lookup(index, Or(j.title, j.dim)).None?
    ensures r.Some? && r.value.LiveMeasure? ==>
              var (j, m) := (item.value.jaql.value, r.value.measure);
              && Truthy(j.agg) && Constructor(j.agg.value).Some?
              && m.attribute == Lookup(index, j.dim)
              && m.aggregation == Some(f.tags[Constructor(j.agg.value).value])
              && m.title == item.value.title
    ensures item.Some? && item.value.jaql.Some? ==>
              var j := item.value.jaql.value;
              (r.None? <==> Truthy(j.agg) && (Lookup(index, j.dim).None? || Constructor(j.agg.value).None?))
  {
    if item.None? || item.value.jaql.None? then None
    else
      var j := item.value.jaql.value;
      var found := Lookup(index, Or(j.title, j.dim));
      if found.Some? && !Truthy(j.agg) then Some(LiveAttribute(found.value))
      else if Truthy(j.agg) then
        match Lookup(index, j.dim)
        case None => None
        case Some(base) =>
          match Constructor(j.agg.value)
          case Some(key) => Some(LiveMeasure(Aggregate(f, key, base, item.value.title)))
          case None => None
      else Some(FromJaql(j))
  }

  /** `rehydrateItem` with a fixed factory and index. */
  function ItemRehydrator(f: MeasureFactory, index: map<string, Attribute>): Option<Item> -> Option<Live>
    requires f.HasStandardConstructors()
  {
    item => RehydrateItem(f, index, item)
  }

  /** An object stored as its own `jaql`, with no `agg`, comes back as
      itself unless a later value of the walk carries the same key. */
  lemma ObjectRoundTrip(f: MeasureFactory, values: seq<ModelValue>, k: nat, title: Option<string>)
    requires f.HasStandardConstructors()
    requires k < |values| && values[k].Described? && Truthy(IndexKey(values[k])) && !Truthy(values[k].jaql.agg)
    requires forall j :: k < j < |values| ==> IndexKey(values[j]) != IndexKey(values[k])
    ensures RehydrateItem(f, BuildIndex(values), Some(Item(title, Some(values[k].jaql)))) == Some(LiveAttribute(values[k].item))
  {
    IndexLastWins(values, k, IndexKey(values[k]).value);
  }

  /** A stored measure whose `dim` is the key of an indexed object comes
      back as the measure the selected constructor builds over that object,
      with the entry's own title kept. */
  lemma MeasureRebuilt(f: MeasureFactory, values: seq<ModelValue>, k: nat, dim: string, title: Option<string>, jaqlTitle: Option<string>, agg: string)
    requires f.HasStandardConstructors() && Constructor(agg).Some?
    requires k < |values| && IndexKey(values[k]) == Some(dim) && dim != []
    requires forall j :: k < j < |values| ==> IndexKey(values[j]) != Some(dim)
    ensures RehydrateItem(f, BuildIndex(values), Some(Item(title, Some(Jaql(jaqlTitle, Some(dim), Some(agg))))))
         == Some(LiveMeasure(Measure(Some(values[k].item), Some(f.tags[Constructor(agg).value]), None, title)))
  {
    IndexLastWins(values, k, dim);
  }

  // ---------------------------------------------------------------------
  // rehydrateWidget

  /** Parsed data options: the three lists the rehydrator reads, each of
      which may be missing. */
  datatype ParsedOptions = ParsedOptions(
    category: Option<seq<Option<Item>>>,
    value: Option<seq<Option<Item>>>,
    breakBy: Option<seq<Option<Item>>>)

  /** Rebuilt data options: exactly the three lists. */
  datatype LiveOptions = LiveOptions(category: seq<Live>, value: seq<Live>, breakBy: seq<Live>)

  /** A stored widget: its other fields `P` and its parsed data options. */
  datatype SerializedWidget<P> = SerializedWidget(props: P, dataOptions: ParsedOptions)

  /** A live widget: the same other fields and rebuilt data options. */
  datatype LiveWidget<P> = LiveWidget(props: P, dataOptions: LiveOptions)

  /** `list || []`. */
  function OrEmpty<T>(list: Option<seq<T>>): (r: seq<T>)
    ensures list.None? ==> r == []
    ensures list.Some? ==> r == list.value
  {
    if list.Some? then list.value else []
  }

  /** One list rebuilt entry by entry, the dropped entries removed. */
  function RehydrateList(f: MeasureFactory, index: map<string, Attribute>, list: Option<seq<Option<Item>>>): (r: seq<Live>)
    requires f.HasStandardConstructors()
    ensures list.None? ==> r == []
    ensures |r| <= |OrEmpty(list)|
  {
    FilterMap(OrEmpty(list), ItemRehydrator(f, index))
  }

  /** `rehydrateWidget`: every other field kept, and each of the three
      lists rebuilt, a missing list counting as empty. */
  function RehydrateWidget<P>(f: MeasureFactory, index: map<string, Attribute>, w: SerializedWidget<P>): (r: LiveWidget<P>)
    requires f.HasStandardConstructors()
    ensures r.props == w.props
    ensures w.dataOptions.category.None? ==> r.dataOptions.category == []
    ensures w.dataOptions.value.None? ==> r.dataOptions.value == []
    ensures w.dataOptions.breakBy.None? ==> r.dataOptions.breakBy == []
    ensures r.dataOptions.category == RehydrateList(f, index, w.dataOptions.category)
    ensures r.dataOptions.value == RehydrateList(f, index, w.dataOptions.value)
    ensures r.dataOptions.breakBy == RehydrateList(f, index, w.dataOptions.breakBy)
  {
    var d := w.dataOptions;
    LiveWidget(w.props, LiveOptions(RehydrateList(f, index, d.category), RehydrateList(f, index, d.value), RehydrateList(f, index, d.breakBy)))
  }

  /** Each rebuilt list holds exactly what its entries rebuild into: every
      result comes from some entry, every entry that rebuilds is kept. */
  lemma RehydrateListEntries(f: MeasureFactory, index: map<string, Attribute>, list: seq<Option<Item>>)
    requires f.HasStandardConstructors()
    ensures var r := RehydrateList(f, index, Some(list));
            && (forall i :: 0 <= i < |r| ==> exists k :: 0 <= k < |list| && RehydrateItem(f, index, list[k]) == Some(r[i]))
            && (forall k :: 0 <= k < |list| && RehydrateItem(f, index, list[k]).Some? ==> RehydrateItem(f, index, list[k]).value in r)
  {
    FilterMapEntries(list, ItemRehydrator(f, index));
  }

  /** `r` holds exactly what the entries of `list` rebuild into. */
  predicate RebuiltFrom(f: MeasureFactory, index: map<string, Attribute>, list: seq<Option<Item>>, r: seq<Live>)
    requires f.HasStandardConstructors()
  {
    && (forall i :: 0 <= i < |r| ==> exists k :: 0 <= k < |list| && RehydrateItem(f, index, list[k]) == Some(r[i]))
    && (forall k :: 0 <= k < |list| && RehydrateItem(f, index, list[k]).Some? ==> RehydrateItem(f, index, list[k]).value in r)
  }

  /** Each list of a rehydrated widget holds exactly what the stored list's
      entries rebuild into, a missing list counting as empty. */
  lemma RehydrateWidgetEntries<P>(f: MeasureFactory, index: map<string, Attribute>, w: SerializedWidget<P>)
    requires f.HasStandardConstructors()
    ensures var (d, r) := (w.dataOptions, RehydrateWidget(f, index, w).dataOptions);
            && RebuiltFrom(f, index, OrEmpty(d.category), r.category)
            && RebuiltFrom(f, index, OrEmpty(d.value), r.value)
            && RebuiltFrom(f, index, OrEmpty(d.breakBy), r.breakBy)
  {
    var d := w.dataOptions;
    RehydrateListEntries(f, index, OrEmpty(d.category));
    RehydrateListEntries(f, index, OrEmpty(d.value));
    RehydrateListEntries(f, index, OrEmpty(d.breakBy));
  }

  /** Rebuilding keeps the order of the entries: the rebuilt concatenation
      is the concatenation of the rebuilt parts. */
  lemma RehydrateListInOrder(f: MeasureFactory, index: map<string, Attribute>, a: seq<Option<Item>>, b: seq<Option<Item>>)
    requires f.HasStandardConstructors()
    ensures RehydrateList(f, index, Some(a + b)) == RehydrateList(f, index, Some(a)) + RehydrateList(f, index, Some(b))
  {
    FilterMapAppend(a, b, ItemRehydrator(f, index));
  }

  // ---------------------------------------------------------------------
  // The BestCRM namespace

  /** The `jaql` a registry attribute is taken to expose: its name as the
      title and its expression as the dimension. */
  function AttributeJaql(a: Attribute): Jaql {
    Jaql(Some(a.name), a.expression, None)
  }

  /** A dimension object: its name, then its attributes. */
  function DimensionExport(d: Dimension): (e: Export)
    ensures forall v :: v in ExportValues(e) && v.Described? ==> v.item in d.fields && v.jaql == AttributeJaql(v.item)
  {
    ObjectExport([Plain] + seq(|d.fields|, k requires 0 <= k < |d.fields| => Described(AttributeJaql(d.fields[k]), d.fields[k])))
  }

  /** The data source object, whose two values are strings. */
  const DataSourceExport := ObjectExport([Plain, Plain])

  /** The namespace's exports in the order `Object.values` enumerates a
      module namespace, by export name: the data source sits between
      `Countries` and `Industries`. */
  const Namespace: seq<Export> := [
    DimensionExport(AccountExecutives),
    DimensionExport(Accounts),
    DimensionExport(Countries),
    DataSourceExport,
    DimensionExport(Industries),
    DimensionExport(Managers),
    DimensionExport(Opportunities),
    DimensionExport(Outreaches),
    DimensionExport(Status)]

  /** The index over the namespace. */
  function NamespaceIndex(): map<string, Attribute> {
    BuildIndex(Walk(Namespace))
  }

  /** Each export is the data source or the object of a registry
      dimension. */
  lemma NamespaceExports(e: Export)
    requires e in Namespace
    ensures e == DataSourceExport || exists i :: 0 <= i < |AllDimensions| && e == DimensionExport(AllDimensions[i])
  {
    var i: int :| 0 <= i < |Namespace| && Namespace[i] == e;
    if i < 3 { assert e == DimensionExport(AllDimensions[i]); }
    else if i > 3 { assert e == DimensionExport(AllDimensions[i - 1]); }
  }

  /** Every object the walk over the namespace visits is a registry
      attribute indexed under its name. */
  lemma NamespaceValues(v: ModelValue)
    requires v in Walk(Namespace) && v.Described?
    ensures exists i, k :: 0 <= i < |AllDimensions| && 0 <= k < |AllDimensions[i].fields| && v.item == AllDimensions[i].fields[k]
    ensures IndexKey(v) == Some(v.item.name) && PlainName(v.item.name)
  {
    WalkVisitsExports(Namespace, v);
    var e :| e in Namespace && v in ExportValues(e);
    NamespaceExports(e);
    if e == DataSourceExport {
      assert false;
    }
    var i :| 0 <= i < |AllDimensions| && e == DimensionExport(AllDimensions[i]);
    var k :| 0 <= k < |AllDimensions[i].fields| && v.item == AllDimensions[i].fields[k];
    AllWellDeclared();
    assert FieldWellDeclared(AllDimensions[i].name, AllDimensions[i].fields[k]);
  }

  /** A stored expression is never a key of the namespace index: every key
      is an attribute name, and no name holds a `.`. */
  lemma DottedKeyNotIndexed(key: string)
    requires '.' in key
    ensures key !in NamespaceIndex()
  {
    var values := Walk(Namespace);
    IndexDomain(values, key);
    if key in NamespaceIndex() {
      var k :| 0 <= k < |values| && IndexKey(values[k]) == Some(key);
      NamespaceValues(values[k]);
      assert false;
    }
  }

  /** Hence a stored measure whose `dim` is an expression, as the `jaql`
      of a registry attribute gives it, finds no base and is dropped. */
  lemma StoredMeasureDropped(f: MeasureFactory, a: Attribute, title: Option<string>, jaqlTitle: Option<string>, agg: string)
    requires f.HasStandardConstructors()
    requires exists i, k :: 0 <= i < |AllDimensions| && 0 <= k < |AllDimensions[i].fields| && a == AllDimensions[i].fields[k]
    requires agg != []
    ensures RehydrateItem(f, NamespaceIndex(), Some(Item(title, Some(Jaql(jaqlTitle, AttributeJaql(a).dim, Some(agg)))))).None?
  {
    var i, k :| 0 <= i < |AllDimensions| && 0 <= k < |AllDimensions[i].fields| && a == AllDimensions[i].fields[k];
    AllWellDeclared();
    assert FieldWellDeclared(AllDimensions[i].name, a);
    var e := Bracketed(AllDimensions[i].name, ExpressionColumn(a));
    assert e[|AllDimensions[i].name| + 1] == '.';
    DottedKeyNotIndexed(e);
  }

  /** The values of a dimension object whose attribute names are
      non-empty carry no key that none of those names equals. */
  lemma DimensionCarriesNames(d: Dimension, key: string)
    requires forall k :: 0 <= k < |d.fields| ==> d.fields[k].name != [] && d.fields[k].name != key
    ensures forall v :: v in ExportValues(DimensionExport(d)) ==> IndexKey(v) != Some(key)
  {
    var values := ExportValues(DimensionExport(d));
    forall v | v in values ensures IndexKey(v) != Some(key) {
      var j :| 0 <= j < |values| && values[j] == v;
      if j > 0 {
        assert values[j] == Described(AttributeJaql(d.fields[j - 1]), d.fields[j - 1]);
      }
    }
  }

  /** Exports after the first `m` whose values carry no `key` leave the
      index entry for `key` as the first `m` made it. */
  lemma {:induction false} TailKeeps(n: seq<Export>, m: nat, key: string)
    requires m <= |n|
    requires forall j, v :: m <= j < |n| && v in ExportValues(n[j]) ==> IndexKey(v) != Some(key)
    ensures var (after, before) := (BuildIndex(Walk(n)), BuildIndex(Walk(n[..m])));
            && (key in after <==> key in before)
            && (key in before ==> after[key] == before[key])
  {
    if m < |n| {
      var init := n[..|n| - 1];
      assert init[..m] == n[..m];
      TailKeeps(init, m, key);
      var last := ExportValues(n[|n| - 1]);
      forall j | 0 <= j < |last| ensures IndexKey(last[j]) != Some(key) {
        assert last[j] in last;
      }
      IndexUnchangedBy(Walk(init), last, key);
    } else {
      assert n[..m] == n;
    }
  }

  lemma OpportunitiesNotAvatar()
    ensures forall k :: 0 <= k < |Opportunities.fields| ==> Opportunities.fields[k].name != [] && Opportunities.fields[k].name != "Avatar"
  {
  }

  /** After a managers' object, `Avatar` is indexed to the managers'
      avatar. */
  lemma {:induction false} AvatarAfterManagers(n: seq<Export>)
    requires |n| == 6 && n[5] == DimensionExport(Managers)
    ensures "Avatar" in BuildIndex(Walk(n)) && BuildIndex(Walk(n))["Avatar"] == ManagerAvatar
  {
    var managers := ExportValues(DimensionExport(Managers));
    assert managers == [Plain, Described(AttributeJaql(ManagerAvatar), ManagerAvatar), Described(AttributeJaql(SalesManager), SalesManager)];
    var w5 := Walk(n[..5]);
    assert Walk(n) == w5 + managers;
    IndexLastWins(w5 + managers, |w5| + 1, "Avatar");
  }

  /** The opportunities, outreaches and status objects, which follow the
      managers' one, leave `Avatar` as it was. */
  lemma {:induction false} AvatarUnchangedAfterManagers(n: seq<Export>)
    requires |n| == 9
    requires n[6] == DimensionExport(Opportunities) && n[7] == DimensionExport(Outreaches) && n[8] == DimensionExport(Status)
    ensures "Avatar" in BuildIndex(Walk(n)) <==> "Avatar" in BuildIndex(Walk(n[..6]))
    ensures "Avatar" in BuildIndex(Walk(n[..6])) ==> BuildIndex(Walk(n))["Avatar"] == BuildIndex(Walk(n[..6]))["Avatar"]
  {
    OpportunitiesNotAvatar();
    DimensionCarriesNames(Opportunities, "Avatar");
    DimensionCarriesNames(Outreaches, "Avatar");
    DimensionCarriesNames(Status, "Avatar");
    TailKeeps(n, 6, "Avatar");
  }

  /** Both `Avatar` attributes are indexed under `Avatar`, and the walk
      reaches the managers' one last: a stored account executive avatar
      comes back as the managers' avatar. */
  lemma AvatarCollision(f: MeasureFactory, title: Option<string>)
    requires f.HasStandardConstructors()
    ensures RehydrateItem(f, NamespaceIndex(), Some(Item(title, Some(AttributeJaql(AccountExecutiveAvatar)))))
         == Some(LiveAttribute(ManagerAvatar))
    ensures ManagerAvatar != AccountExecutiveAvatar
  {
    AvatarAfterManagers(Namespace[..6]);
    AvatarUnchangedAfterManagers(Namespace);
  }
}
