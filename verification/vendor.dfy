/** The shapes of the BI SDK objects and of the grid-layout items that the
    dashboard code handles. The SDK's constructors (`createAttribute`,
    `createDateDimension`, `measureFactory.*`, `attributeFactory`) are opaque:
    an attribute or a measure is modelled as the record of the properties the
    dashboard code reads from it. */
module Vendor {
  import opened Js

  /** The `type` an attribute is declared with, a date dimension, or one
      calendar level of a date dimension (`.Months`, ...). */
  datatype AttributeKind = TextAttribute | NumericAttribute | DateDimension | DateLevel(level: string)

  /** An attribute or a date dimension of the data model: its display `name`
      and its `[Table.Column]` `expression` (which an arbitrary object handed
      to the sanitizer may lack). */
  datatype Attribute = Attribute(name: string, kind: AttributeKind, expression: Option<string>)

  /** A measure, as far as the dashboard reads it: the aggregated `attribute`,
      the `aggregation` tag, a fallback `agg` tag, and the display `title`. */
  datatype Measure = Measure(
    attribute: Option<Attribute>,
    aggregation: Option<string>,
    agg: Option<string>,
    title: Option<string>)

  /** `measureFactory`: every key is the name of an aggregation constructor,
      mapped to the aggregation tag the measures it builds carry. */
  datatype MeasureFactory = MeasureFactory(tags: map<string, string>) {
    /** The three constructors the widget builder and the keyed rehydrator
        call by name. */
    predicate HasStandardConstructors() {
      "sum" in tags && "average" in tags && "count" in tags
    }
  }

  /** A calendar level of a date dimension, such as `CloseDate.Months`. The
      SDK's own construction is not visible; the level is modelled as keeping
      the dimension's name and expression. */
  function Level(d: Attribute, level: string): (r: Attribute)
    requires d.kind == DateDimension
    ensures r.kind.DateLevel? && r.expression == d.expression
  {
    Attribute(d.name, DateLevel(level), d.expression)
  }

  /** `measureFactory[key](base, title)`. */
  function Aggregate(f: MeasureFactory, key: string, base: Attribute, title: Option<string>): Measure
    requires key in f.tags
  {
    Measure(Some(base), Some(f.tags[key]), None, title)
  }

  /** A data source reference: `{ title, type }`. */
  datatype DataSource = DataSource(title: string, kind: string)

  /** A data-options value stored under a key other than `category` and
      `value` (`breakBy`, style options, ...): either a list of attributes or
      some other value the dashboard code never looks into. */
  datatype Passthrough = AttrList(items: seq<Attribute>) | Other(tag: string)

  /** Live chart data options: an optional `category` list, an optional
      `value` list, and every other key. */
  datatype DataOptions = DataOptions(
    category: Option<seq<Attribute>>,
    value: Option<seq<Measure>>,
    others: map<string, Passthrough>)

  /** A grid coordinate; the layout library reads `Infinity` as "the bottom". */
  datatype Coord = At(n: int) | Infinity

  /** A react-grid-layout item `{ i, x, y, w, h }`. */
  datatype LayoutItem = LayoutItem(i: string, x: int, y: Coord, w: int, h: int)

  /** A dashboard widget: either a reference to a widget hosted by the BI
      platform, or a chart built locally from data options. */
  datatype Widget =
    | Reference(id: string, title: string, widgetOid: string, dashboardOid: string)
    | Chart(
        id: string,
        title: string,
        widgetType: string,
        chartType: Option<string>,
        dataSource: Option<DataSource>,
        dataOptions: Option<DataOptions>)
}
