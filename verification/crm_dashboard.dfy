/** The widget and layout state of the interactive CRM dashboard: the
    record each widget is saved as, the mapping of loaded rows back to
    widgets and layout, and the add and remove transitions. The storage
    table itself is outside the model: a save produces the rows, a load
    starts from the rows (or the failure) the table returned. */
module CrmDashboard {
  import opened Js
  import opened Vendor
  import opened BestCRM
  import opened Codec
  import opened WidgetHelpers

  /** The dashboard's widgets, their grid layout, and whether the stored
      state has been loaded. */
  datatype State = State(widgets: seq<Widget>, layout: seq<LayoutItem>, loaded: bool)

  /** What the select-all on the widget table returned. */
  datatype Response = Failed | Rows(data: seq<Record>)

  /** `layout.find((l) => l.i === id)`. */
  function LayoutOf(layout: seq<LayoutItem>, id: string): Option<LayoutItem> {
    Find(layout, (l: LayoutItem) => l.i == id)
  }

  // ---------------------------------------------------------------------
  // Saving

  /** The row a widget is saved as: id, title and its grid item; a
      reference widget adds its two platform identifiers, a chart widget
      adds its sanitized data options, its data source title and chart
      type. */
  function ToRecord(layout: seq<LayoutItem>, w: Widget): (r: Record)
    ensures r.widgetId == w.id && r.title == w.title
    ensures r.layout.Some? ==> exists k :: && 0 <= k < |layout| && layout[k] == r.layout.value && layout[k].i == w.id
                                         && forall j :: 0 <= j < k ==> layout[j].i != w.id
    ensures r.layout.None? <==> forall k :: 0 <= k < |layout| ==> layout[k].i != w.id
    ensures w.Reference? ==> && r.widgetOid == Some(w.widgetOid) && r.dashboardOid == Some(w.dashboardOid)
                             && r.jaql.None? && r.dataSourceTitle.None? && r.chartType.None?
    ensures w.Chart? ==> && r.widgetOid.None? && r.dashboardOid.None?
                         && r.jaql == Sanitize(w.dataOptions) && r.chartType == w.chartType
                         && (r.dataSourceTitle.Some? <==> w.dataSource.Some?)
                         && (w.dataSource.Some? ==> r.dataSourceTitle == Some(w.dataSource.value.title))
  {
    var base := Record(w.id, w.title, LayoutOf(layout, w.id), None, None, None, None, None);
    match w
    case Reference(_, _, widgetOid, dashboardOid) =>
      base.(widgetOid := Some(widgetOid), dashboardOid := Some(dashboardOid))
    case Chart(_, _, _, chartType, dataSource, dataOptions) =>
      var dataSourceTitle := if dataSource.Some? then Some(dataSource.value.title) else None;
      base.(jaql := Sanitize(dataOptions), dataSourceTitle := dataSourceTitle, chartType := chartType)
  }

  /** The rows `performSave` writes: one per widget, in widget order. */
  function Save(s: State): (records: seq<Record>)
    ensures |records| == |s.widgets|
    ensures forall k :: 0 <= k < |records| ==> records[k] == ToRecord(s.layout, s.widgets[k])
  {
    seq(|s.widgets|, k requires 0 <= k < |s.widgets| => ToRecord(s.layout, s.widgets[k]))
  }

  // ---------------------------------------------------------------------
  // Loading

  /** A loaded row becomes a reference widget when it carries both
      platform identifiers, a rehydrated chart when it carries stored data
      options, and nothing otherwise. */
  function LoadRecord(f: MeasureFactory, record: Record): (w: Option<Widget>)
    ensures w.Some? <==> (Truthy(record.widgetOid) && Truthy(record.dashboardOid)) || record.jaql.Some?
    ensures w.Some? ==> w.value.id == record.widgetId && w.value.title == record.title
    ensures w.Some? && w.value.Reference? ==> Some(w.value.widgetOid) == record.widgetOid && Some(w.value.dashboardOid) == record.dashboardOid
    ensures w.Some? && w.value.Chart? ==> w.value.chartType == record.chartType && w.value.dataSource == Some(Source)
    ensures w.Some? ==> (w.value.Reference? <==> Truthy(record.widgetOid) && Truthy(record.dashboardOid))
  {
    if Truthy(record.widgetOid) && Truthy(record.dashboardOid) then
      Some(Reference(record.widgetId, record.title, record.widgetOid.value, record.dashboardOid.value))
    else if record.jaql.Some? then
      Some(RehydrateJaqlWidget(AllDimensions, f, record))
    else None
  }

  /** `LoadRecord` with a fixed factory. */
  function Loader(f: MeasureFactory): Record -> Option<Widget> {
    record => LoadRecord(f, record)
  }

  /** The grid item a row carries, when it carries one. */
  function RecordLayout(record: Record): Option<LayoutItem> {
    record.layout
  }

  /** `loadDashboardState`, run once while the state is not yet loaded: a
      failure or an empty table leaves the widgets and layout as they were;
      otherwise they are replaced from the rows (see `LoadEntries`). Either
      way the state counts as loaded afterwards. */
  function Load(f: MeasureFactory, s: State, response: Response): (t: State)
    ensures t.loaded
    ensures s.loaded ==> t == s
    ensures response.Failed? || response.data == [] ==> t.widgets == s.widgets && t.layout == s.layout
  {
    if s.loaded then s
    else match response
      case Failed => s.(loaded := true)
      case Rows(data) =>
        if data == [] then s.(loaded := true)
        else State(FilterMap(data, Loader(f)), FilterMap(data, RecordLayout), true)
  }

  /** Loading a non-empty table into a dashboard not yet loaded: the widgets
      are exactly the rows that load, and the layout is the rows' grid
      items, in row order. */
  lemma LoadEntries(f: MeasureFactory, s: State, data: seq<Record>)
    requires !s.loaded && data != []
    ensures var t := Load(f, s, Rows(data));
            && |t.widgets| <= |data|
            && (forall i :: 0 <= i < |t.widgets| ==> exists k :: 0 <= k < |data| && LoadRecord(f, data[k]) == Some(t.widgets[i]))
            && (forall k :: 0 <= k < |data| && LoadRecord(f, data[k]).Some? ==> LoadRecord(f, data[k]).value in t.widgets)
            && ((forall k :: 0 <= k < |data| ==> data[k].layout.Some?) ==>
                  |t.layout| == |data| && forall k :: 0 <= k < |data| ==> t.layout[k] == data[k].layout.value)
            && ((forall k :: 0 <= k < |data| ==> data[k].layout.None?) ==> t.layout == [])
  {
    FilterMapEntries(data, Loader(f));
    FilterMapEntries(data, RecordLayout);
  }

  /** Loading keeps row order: the rows split into a front and a back load
      as the front's widgets and grid items followed by the back's, and a
      single row contributes its widget when it loads and its grid item when
      it has one. */
  lemma LoadInOrder(f: MeasureFactory, s: State, a: seq<Record>, b: seq<Record>)
    requires !s.loaded && a != [] && b != []
    ensures var (t, ta, tb) := (Load(f, s, Rows(a + b)), Load(f, s, Rows(a)), Load(f, s, Rows(b)));
            t.widgets == ta.widgets + tb.widgets && t.layout == ta.layout + tb.layout
    ensures forall row: Record :: Load(f, s, Rows([row])).widgets == (if LoadRecord(f, row).Some? then [LoadRecord(f, row).value] else [])
    ensures forall row: Record :: Load(f, s, Rows([row])).layout == (if row.layout.Some? then [row.layout.value] else [])
  {
    FilterMapAppend(a, b, Loader(f));
    FilterMapAppend(a, b, RecordLayout);
    forall row: Record ensures Load(f, s, Rows([row])).widgets == (if LoadRecord(f, row).Some? then [LoadRecord(f, row).value] else []) {
      FilterMapSingleton(row, Loader(f));
    }
    forall row: Record ensures Load(f, s, Rows([row])).layout == (if row.layout.Some? then [row.layout.value] else []) {
      FilterMapSingleton(row, RecordLayout);
    }
  }

  // ---------------------------------------------------------------------
  // Adding and removing widgets

  /** `addWidget`: the widget goes last, and its grid item is appended. */
  function AddWidget(s: State, w: Widget): (t: State)
    ensures |t.widgets| == |s.widgets| + 1 && t.widgets[..|s.widgets|] == s.widgets && t.widgets[|s.widgets|] == w
    ensures |t.layout| == |s.layout| + 1 && t.layout[..|s.layout|] == s.layout
    ensures t.layout[|s.layout|] == LayoutItem(w.id, 0, Infinity, NewItemWidth, NewItemHeight)
    ensures t.loaded == s.loaded
  {
    s.(widgets := s.widgets + [w], layout := AddWidgetToLayout(w, Some(s.layout)))
  }

  predicate HasId(w: Widget, id: string) { w.id == id }
  predicate HasKey(l: LayoutItem, id: string) { l.i == id }

  /** `removeWidget`: every widget and every grid item with the id goes;
      everything else stays, in order. */
  function RemoveWidget(s: State, id: string): (t: State)
    ensures forall k :: 0 <= k < |t.widgets| ==> t.widgets[k].id != id && t.widgets[k] in s.widgets
    ensures forall k :: 0 <= k < |s.widgets| && s.widgets[k].id != id ==> s.widgets[k] in t.widgets
    ensures forall k :: 0 <= k < |t.layout| ==> t.layout[k].i != id && t.layout[k] in s.layout
    ensures forall k :: 0 <= k < |s.layout| && s.layout[k].i != id ==> s.layout[k] in t.layout
    ensures t.loaded == s.loaded
  {
    s.(widgets := Filter(s.widgets, w => !HasId(w, id)), layout := Filter(s.layout, l => !HasKey(l, id)))
  }

  /** Removing keeps the order and number of the remaining widgets and grid
      items: the state split into a front and a back is filtered part by
      part, and a single widget or item stays exactly when its id differs. */
  lemma RemoveWidgetInOrder(a: State, b: State, id: string)
    ensures var (ra, rb) := (RemoveWidget(a, id), RemoveWidget(b, id));
            var r := RemoveWidget(State(a.widgets + b.widgets, a.layout + b.layout, a.loaded), id);
            r.widgets == ra.widgets + rb.widgets && r.layout == ra.layout + rb.layout
    ensures forall w: Widget :: RemoveWidget(State([w], [], a.loaded), id).widgets == (if w.id != id then [w] else [])
    ensures forall l: LayoutItem :: RemoveWidget(State([], [l], a.loaded), id).layout == (if l.i != id then [l] else [])
  {
    FilterAppend(a.widgets, b.widgets, w => !HasId(w, id));
    FilterAppend(a.layout, b.layout, l => !HasKey(l, id));
    forall w: Widget ensures RemoveWidget(State([w], [], a.loaded), id).widgets == (if w.id != id then [w] else []) {
      FilterSingleton(w, (w': Widget) => !HasId(w', id));
    }
    forall l: LayoutItem ensures RemoveWidget(State([], [l], a.loaded), id).layout == (if l.i != id then [l] else []) {
      FilterSingleton(l, (l': LayoutItem) => !HasKey(l', id));
    }
  }

  /** Removing a widget just added undoes the addition, as far as that id
      is concerned. */
  lemma AddThenRemove(s: State, w: Widget)
    ensures RemoveWidget(AddWidget(s, w), w.id) == RemoveWidget(s, w.id)
  {
    FilterAppendRejected(s.widgets, w, w' => !HasId(w', w.id));
    var item := LayoutItem(w.id, 0, Infinity, NewItemWidth, NewItemHeight);
    assert AddWidgetToLayout(w, Some(s.layout)) == s.layout + [item];
    FilterAppendRejected(s.layout, item, l => !HasKey(l, w.id));
  }

  /** Removing an id nothing carries changes nothing. */
  lemma RemoveAbsent(s: State, id: string)
    requires forall k :: 0 <= k < |s.widgets| ==> s.widgets[k].id != id
    requires forall k :: 0 <= k < |s.layout| ==> s.layout[k].i != id
    ensures RemoveWidget(s, id) == s
  {
    FilterAll(s.widgets, w => !HasId(w, id));
    FilterAll(s.layout, l => !HasKey(l, id));
  }

  /** Adding a widget with a fresh id and removing it again gives back the
      state before. */
  lemma AddThenRemoveFresh(s: State, w: Widget)
    requires forall k :: 0 <= k < |s.widgets| ==> s.widgets[k].id != w.id
    requires forall k :: 0 <= k < |s.layout| ==> s.layout[k].i != w.id
    ensures RemoveWidget(AddWidget(s, w), w.id) == s
  {
    AddThenRemove(s, w);
    RemoveAbsent(s, w.id);
  }

  // ---------------------------------------------------------------------
  // Save then load

  /** A widget that comes back from storage exactly as it was saved: a
      reference widget with non-empty identifiers, or a chart of the
      registry's data source whose category attributes resolve, whose
      measures round-trip, and whose data options carry no stray
      `category` or `value` key among the copied ones. */
  predicate Reloadable(f: MeasureFactory, w: Widget) {
    match w
    case Reference(_, _, widgetOid, dashboardOid) => widgetOid != [] && dashboardOid != []
    case Chart(_, _, widgetType, _, dataSource, dataOptions) =>
      && widgetType == "chart" && dataSource == Some(Source) && dataOptions.Some?
      && var d := dataOptions.value;
         && (d.category.Some? ==> forall k :: 0 <= k < |d.category.value| ==> Resolves(AllDimensions, d.category.value[k]))
         && (d.value.Some? ==> forall k :: 0 <= k < |d.value.value| ==> RoundTrips(AllDimensions, f, d.value.value[k]))
         && d.others.Keys !! ListKeys
  }

  /** A reloadable widget is loaded back from its own row unchanged. */
  lemma SaveThenLoadWidget(f: MeasureFactory, layout: seq<LayoutItem>, w: Widget)
    requires Reloadable(f, w)
    ensures LoadRecord(f, ToRecord(layout, w)) == Some(w)
  {
    if w.Chart? {
      var d := w.dataOptions.value;
      OptionsRoundTrip(AllDimensions, f, d);
      assert CopyOthers(d.others) == d.others;
    }
  }

  /** A reference widget whose platform identifier is empty is saved, but
      the load classifies its row as neither kind and drops it. */
  lemma BlankReferenceLost(layout: seq<LayoutItem>, w: Widget, f: MeasureFactory)
    requires w.Reference? && w.widgetOid == []
    ensures LoadRecord(f, ToRecord(layout, w)).None?
  {
  }

  /** A chart widget without data options is saved with `jaql: null` and
      dropped on load. */
  lemma ChartWithoutOptionsLost(layout: seq<LayoutItem>, w: Widget, f: MeasureFactory)
    requires w.Chart? && w.dataOptions.None?
    ensures LoadRecord(f, ToRecord(layout, w)).None?
  {
  }

  /** Every chart with data options comes back as a chart with the same
      id, title and chart type, on the registry's data source, whatever its
      options were. */
  lemma ChartReloadsAsChart(layout: seq<LayoutItem>, w: Widget, f: MeasureFactory)
    requires w.Chart? && w.dataOptions.Some?
    ensures var r := LoadRecord(f, ToRecord(layout, w));
            && r.Some? && r.value.Chart? && r.value.widgetType == "chart"
            && r.value.id == w.id && r.value.title == w.title && r.value.chartType == w.chartType
            && r.value.dataSource == Some(Source)
  {
  }

  /** The widgets' ids are pairwise distinct, and the layout holds exactly
      one item per widget, in widget order. */
  predicate AlignedLayout(s: State) {
    && |s.layout| == |s.widgets|
    && (forall k :: 0 <= k < |s.widgets| ==> s.layout[k].i == s.widgets[k].id)
    && (forall j, k :: 0 <= j < k < |s.widgets| ==> s.widgets[j].id != s.widgets[k].id)
  }

  /** The row saved for the widget at `k` of an aligned dashboard loads
      back as that widget and carries that widget's grid item. */
  lemma SavedRowReloads(f: MeasureFactory, s: State, k: nat)
    requires AlignedLayout(s) && k < |s.widgets| && Reloadable(f, s.widgets[k])
    ensures LoadRecord(f, Save(s)[k]) == Some(s.widgets[k])
    ensures RecordLayout(Save(s)[k]) == Some(s.layout[k])
  {
    SaveThenLoadWidget(f, s.layout, s.widgets[k]);
    FindFirst(s.layout, (l: LayoutItem) => l.i == s.widgets[k].id, k);
  }

  /** The rows saved from an aligned dashboard of reloadable widgets load
      back as its widgets, in order. */
  lemma ReloadedWidgets(f: MeasureFactory, s: State)
    requires AlignedLayout(s)
    requires forall k :: 0 <= k < |s.widgets| ==> Reloadable(f, s.widgets[k])
    ensures FilterMap(Save(s), Loader(f)) == s.widgets
  {
    var records := Save(s);
    forall k | 0 <= k < |records| ensures LoadRecord(f, records[k]) == Some(s.widgets[k]) {
      SavedRowReloads(f, s, k);
    }
    FilterMapEntries(records, Loader(f));
  }

  /** ... and carry its layout, in order. */
  lemma ReloadedLayout(f: MeasureFactory, s: State)
    requires AlignedLayout(s)
    requires forall k :: 0 <= k < |s.widgets| ==> Reloadable(f, s.widgets[k])
    ensures FilterMap(Save(s), RecordLayout) == s.layout
  {
    var records := Save(s);
    forall k | 0 <= k < |records| ensures RecordLayout(records[k]) == Some(s.layout[k]) {
      SavedRowReloads(f, s, k);
    }
    FilterMapEntries(records, RecordLayout);
  }

  /** Saving a dashboard of reloadable widgets with an aligned
      layout, then loading the rows into a fresh dashboard, gives back the
      same widgets and the same layout. */
  lemma SaveThenLoad(f: MeasureFactory, s: State)
    requires AlignedLayout(s)
    requires forall k :: 0 <= k < |s.widgets| ==> Reloadable(f, s.widgets[k])
    ensures Load(f, State([], [], false), Rows(Save(s))) == State(s.widgets, s.layout, true)
  {
    ReloadedWidgets(f, s);
    ReloadedLayout(f, s);
  }
}
