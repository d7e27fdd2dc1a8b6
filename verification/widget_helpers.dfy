/** The widget and layout builders the add-widget flow uses. */
module WidgetHelpers {
  import opened Js
  import opened Vendor

  /** `buildWidget`: a chart widget carrying its arguments unchanged. The
      `uuidv4()` identifier is drawn by the caller and passed in as `id`. */
  function BuildWidget(id: string, dataSource: DataSource, dataOptions: DataOptions, chartType: string, title: string): (w: Widget)
    ensures w.Chart? && w.widgetType == "chart" && w.id == id
    ensures w.chartType == Some(chartType) && w.title == title
    ensures w.dataSource == Some(dataSource) && w.dataOptions == Some(dataOptions)
  {
    Chart(id, title, "chart", Some(chartType), Some(dataSource), Some(dataOptions))
  }

  /** The grid item a new widget gets: left edge, half the twelve columns
      wide, eight rows high, placed at the bottom. */
  const NewItemWidth := 6
  const NewItemHeight := 8

  /** `addWidgetToLayout`: the existing layout (an absent one counts as
      empty), unchanged and in order, followed by exactly one item for the
      new widget. */
  function AddWidgetToLayout(newWidget: Widget, layout: Option<seq<LayoutItem>>): (r: seq<LayoutItem>)
    ensures var existing := if layout.Some? then layout.value else [];
            && |r| == |existing| + 1
            && r[..|existing|] == existing
            && r[|existing|] == LayoutItem(newWidget.id, 0, Infinity, NewItemWidth, NewItemHeight)
  {
    var existing := if layout.Some? then layout.value else [];
    existing + [LayoutItem(newWidget.id, 0, Infinity, NewItemWidth, NewItemHeight)]
  }

  /** Once appended, the new item is the one a lookup by the widget's id
      finds, provided no earlier item carries that id. */
  lemma NewItemFound(newWidget: Widget, layout: seq<LayoutItem>)
    requires forall k :: 0 <= k < |layout| ==> layout[k].i != newWidget.id
    ensures Find(AddWidgetToLayout(newWidget, Some(layout)), (l: LayoutItem) => l.i == newWidget.id)
         == Some(LayoutItem(newWidget.id, 0, Infinity, NewItemWidth, NewItemHeight))
  {
    var r := AddWidgetToLayout(newWidget, Some(layout));
    FindFirst(r, (l: LayoutItem) => l.i == newWidget.id, |layout|);
  }
}
