/** The widget-builder form of the add-widget popover: the attribute map
    behind the menus, the data options and the title the selections
    produce, and the two transitions the form forces on itself (choosing
    the close date, opening the popover). */
module AddWidgetPopover {
  import opened Js
  import opened Vendor
  import opened Expression
  import opened BestCRM
  import opened Codec
  import opened WidgetHelpers

  /** The popover's selections and the title field. */
  datatype Form = Form(
    chartType: string,
    category: string,
    breakBy: string,
    value: string,
    aggregation: string,
    widgetTitle: string)

  /** The chart-type buttons. */
  const ChartTypes: seq<string> := ["pie", "line", "area", "bar", "column"]

  /** A menu entry: the selection it stands for and its label. */
  datatype Choice = Choice(value: string, caption: string)

  /** The "By..." menu. */
  const AllDimensionChoices: seq<Choice> := [
    Choice("Industry", "Industry"),
    Choice("Country", "Country"),
    Choice("AccountExecutive", "Account Executive"),
    Choice("Status", "Status"),
    Choice("CloseDate", "Close Date")]

  /** The "And break it down by..." menu, after its `None` entry. */
  const LowCardinalityChoices: seq<Choice> := [
    Choice("Industry", "Industry"),
    Choice("Country", "Country"),
    Choice("Status", "Status")]

  /** The selection that stands for no break-down. */
  const NoBreakBy := "None"

  /** The selections the menus can hold: a category from the "By..." menu,
      `None` or an entry of the break-down menu, a measure and an
      aggregation from their menus, a chart type from the buttons. */
  predicate MenuSelections(form: Form) {
    && (exists c :: 0 <= c < |AllDimensionChoices| && AllDimensionChoices[c].value == form.category)
    && (form.breakBy == NoBreakBy || exists c :: 0 <= c < |LowCardinalityChoices| && LowCardinalityChoices[c].value == form.breakBy)
    && form.value in {"Revenue", "Opportunities"}
    && form.aggregation in {"sum", "average"}
    && form.chartType in ChartTypes
  }

  // ---------------------------------------------------------------------
  // getAttributeByName

  /** `getAttributeByName`: the four attributes the menus name without the
      date dimension; nothing for any other name. */
  function AttributeByName(name: string): (r: Option<Attribute>)
    ensures r.Some? <==> name in {"Industry", "Country", "AccountExecutive", "Status"}
    ensures r.Some? ==> r.value.kind == TextAttribute
  {
    if name == "Industry" then Some(Industry)
    else if name == "Country" then Some(Country)
    else if name == "AccountExecutive" then Some(AccountExecutive)
    else if name == "Status" then Some(StatusAttribute)
    else None
  }

  /** The attribute a menu selection other than the close date names is
      the first field of one of the registry's dimensions. */
  lemma MenuAttributeInRegistry(c: nat) returns (i: nat)
    requires c < |AllDimensionChoices| && AllDimensionChoices[c].value != "CloseDate"
    ensures i < |AllDimensions| && AllDimensions[i].fields != []
    ensures AttributeByName(AllDimensionChoices[c].value) == Some(AllDimensions[i].fields[0])
    ensures AllDimensions[i].fields[0].name == AllDimensionChoices[c].caption
  {
    if c == 0 {
      i := 3;
    } else if c == 1 {
      i := 2;
    } else if c == 2 {
      i := 0;
    } else {
      i := 7;
    }
  }

  /** Every menu label is the display name of the attribute the entry
      stands for, and each of those attributes is found again from its
      stored reference. */
  lemma MenuAttributes(c: nat)
    requires c < |AllDimensionChoices| && AllDimensionChoices[c].value != "CloseDate"
    ensures AttributeByName(AllDimensionChoices[c].value).Some?
    ensures AttributeByName(AllDimensionChoices[c].value).value.name == AllDimensionChoices[c].caption
    ensures Resolves(AllDimensions, AttributeByName(AllDimensionChoices[c].value).value)
  {
    var i := MenuAttributeInRegistry(c);
    RegistryAttributeResolves(i, 0);
  }

  /** The break-down menu's entries all appear in the "By..." menu. */
  lemma LowCardinalityListed(c: nat)
    requires c < |LowCardinalityChoices|
    ensures exists d :: 0 <= d < |AllDimensionChoices| && AllDimensionChoices[d] == LowCardinalityChoices[c]
  {
    if c == 0 { assert AllDimensionChoices[0] == LowCardinalityChoices[c]; }
    else if c == 1 { assert AllDimensionChoices[1] == LowCardinalityChoices[c]; }
    else { assert AllDimensionChoices[3] == LowCardinalityChoices[c]; }
  }

  // ---------------------------------------------------------------------
  // getDataOptions

  /** The measure: the average or the sum of the opportunity value for
      revenue, the count of opportunity ids otherwise. */
  function ChosenMeasure(f: MeasureFactory, form: Form): (m: Measure)
    requires f.HasStandardConstructors()
    ensures form.value == "Revenue" ==> m.attribute == Some(Value)
    ensures form.value == "Revenue" && form.aggregation == "average" ==>
              m.aggregation == Some(f.tags["average"]) && m.title == Some("Avg Revenue")
    ensures form.value == "Revenue" && form.aggregation != "average" ==>
              m.aggregation == Some(f.tags["sum"]) && m.title == Some("Total Revenue")
    ensures form.value != "Revenue" ==>
              m.attribute == Some(OpportunityId) && m.aggregation == Some(f.tags["count"]) && m.title == Some("# of Opportunities")
    ensures m.agg.None?
  {
    if form.value == "Revenue" then
      if form.aggregation == "average" then Aggregate(f, "average", Value, Some("Avg Revenue"))
      else Aggregate(f, "sum", Value, Some("Total Revenue"))
    else Aggregate(f, "count", OpportunityId, Some("# of Opportunities"))
  }

  /** The primary dimension: the months level of the close date, or the
      attribute the selection names. */
  function ChosenCategory(form: Form): (a: Attribute)
    requires MenuSelections(form)
    ensures form.category == "CloseDate" ==> a.kind.DateLevel? && a.expression == CloseDate.expression
    ensures form.category != "CloseDate" ==> Some(a) == AttributeByName(form.category)
  {
    if form.category == "CloseDate" then Level(CloseDate, "months")
    else AttributeByName(form.category).value
  }

  /** The secondary dimension: none for `None` or a pie chart, otherwise
      the attribute the selection names. */
  function ChosenBreakBy(form: Form): (r: seq<Attribute>)
    requires MenuSelections(form)
    ensures r == [] <==> form.breakBy == NoBreakBy || form.chartType == "pie"
    ensures r != [] ==> |r| == 1 && Some(r[0]) == AttributeByName(form.breakBy)
  {
    if form.breakBy == NoBreakBy || form.chartType == "pie" then []
    else [AttributeByName(form.breakBy).value]
  }

  /** `getDataOptions`: exactly one category, exactly one measure, and a
      `breakBy` list. */
  function GetDataOptions(f: MeasureFactory, form: Form): (d: DataOptions)
    requires f.HasStandardConstructors() && MenuSelections(form)
    ensures d.category == Some([ChosenCategory(form)])
    ensures d.value == Some([ChosenMeasure(f, form)])
    ensures d.others.Keys == {"breakBy"} && d.others["breakBy"] == AttrList(ChosenBreakBy(form))
  {
    DataOptions(Some([ChosenCategory(form)]), Some([ChosenMeasure(f, form)]), map["breakBy" := AttrList(ChosenBreakBy(form))])
  }

  /** `getWidget`: a chart on the registry's data source with the form's
      chart type, title and data options. The `crypto.randomUUID()`
      identifier is passed in as `id`. */
  function GetWidget(id: string, f: MeasureFactory, form: Form): (w: Widget)
    requires f.HasStandardConstructors() && MenuSelections(form)
    ensures w == BuildWidget(id, Source, GetDataOptions(f, form), form.chartType, form.widgetTitle)
  {
    Chart(id, form.widgetTitle, "chart", Some(form.chartType), Some(Source), Some(GetDataOptions(f, form)))
  }

  // ---------------------------------------------------------------------
  // What survives a save and reload of the popover's data options

  /** Every aggregation constructor stamps its own name as the tag. */
  predicate SelfNamedTags(f: MeasureFactory) {
    forall key :: key in f.tags ==> f.tags[key] == key
  }

  /** The stored form of the measure reloads as the same measure without
      its title. */
  lemma ChosenMeasureReloads(f: MeasureFactory, form: Form)
    requires f.HasStandardConstructors() && SelfNamedTags(f)
    ensures var m := ChosenMeasure(f, form);
            ValueRef(m).Some? && RehydrateValue(AllDimensions, f, ValueRef(m).value) == Some(m.(title := None))
  {
    var m := ChosenMeasure(f, form);
    assert AllDimensions[5].fields[5] == Value && AllDimensions[5].fields[3] == OpportunityId;
    RegistryAttributeResolves(5, 5);
    RegistryAttributeResolves(5, 3);
    ValueRoundTrip(AllDimensions, f, m.(title := None));
  }

  /** When the tag the average constructor stamps names no constructor,
      an average measure is dropped on reload. */
  lemma AverageDroppedUnlessTagIsConstructor(f: MeasureFactory, form: Form)
    requires f.HasStandardConstructors() && f.tags["average"] !in f.tags
    requires form.value == "Revenue" && form.aggregation == "average"
    ensures ValueRef(ChosenMeasure(f, form)).Some?
    ensures RehydrateValue(AllDimensions, f, ValueRef(ChosenMeasure(f, form)).value).None?
  {
    assert AllDimensions[5].fields[5] == Value;
    RegistryAttributeResolves(5, 5);
  }

  /** A category chosen by name survives a save and reload; the close-date
      category is dropped. */
  lemma ChosenCategoryReload(form: Form)
    requires MenuSelections(form)
    ensures form.category != "CloseDate" ==> Resolves(AllDimensions, ChosenCategory(form))
    ensures form.category == "CloseDate" ==> Unresolved(AllDimensions, ChosenCategory(form))
  {
    var c :| 0 <= c < |AllDimensionChoices| && AllDimensionChoices[c].value == form.category;
    if form.category != "CloseDate" {
      MenuAttributes(c);
    } else {
      CloseDateDoesNotRoundTrip();
      assert CategoryRef(ChosenCategory(form)) == CategoryRef(CloseDate);
    }
  }

  /** The measure the popover builds, sanitized and rehydrated. */
  lemma MeasureListReload(f: MeasureFactory, form: Form)
    requires f.HasStandardConstructors() && SelfNamedTags(f)
    ensures var m := ChosenMeasure(f, form);
            FilterMap(FilterMap([m], ValueRef), Rebuilder(AllDimensions, f)) == [m.(title := None)]
  {
    var m := ChosenMeasure(f, form);
    ChosenMeasureReloads(f, form);
    FilterMapSingleton(m, ValueRef);
    FilterMapSingleton(ValueRef(m).value, Rebuilder(AllDimensions, f));
  }

  /** The popover's break-down key is not one of the two list keys. */
  lemma BreakByCopied(b: seq<Attribute>)
    ensures map["breakBy" := AttrList(b)].Keys !! ListKeys
  {
    assert "breakBy"[0] != "category"[0] && "breakBy"[0] != "value"[0];
  }

  /** The data options the popover builds, sanitized and rehydrated: the
      category survives unless it is the close date, the measure survives
      without its title, and the break-down list is carried as it was. */
  lemma DataOptionsReload(f: MeasureFactory, form: Form)
    requires f.HasStandardConstructors() && SelfNamedTags(f) && MenuSelections(form)
    ensures var r := RehydrateOptions(AllDimensions, f, Sanitize(Some(GetDataOptions(f, form))));
            && r.category == (if form.category == "CloseDate" then Some([]) else Some([ChosenCategory(form)]))
            && r.value == Some([ChosenMeasure(f, form).(title := None)])
            && r.others == map["breakBy" := AttrList(ChosenBreakBy(form))]
  {
    var a, m, b := ChosenCategory(form), ChosenMeasure(f, form), ChosenBreakBy(form);
    ChosenCategoryReload(form);
    MeasureListReload(f, form);
    BreakByCopied(b);
    OneEntryReload(AllDimensions, f, a, m, map["breakBy" := AttrList(b)]);
  }

  // ---------------------------------------------------------------------
  // The title effect

  /** The measure part of the title. */
  function MeasureText(value: string): string {
    if value == "Opportunities" then "# of Opportunities" else "Revenue"
  }

  /** The aggregation part of the title, for revenue only. */
  function AggText(value: string, aggregation: string): string {
    if value == "Revenue" then aggregation + " of " else ""
  }

  /** `allDimensions.find((d) => d.value === v)`. */
  function FindChoice(v: string): Option<Choice> {
    Find(AllDimensionChoices, ChoiceIs(v))
  }

  /** The menu entry test of `FindChoice`. */
  function ChoiceIs(v: string): Choice -> bool {
    (c: Choice) => c.value == v
  }

  /** The title's parts: the measure, then `by <label>` when the category
      is listed, then `and broken down by <label>` when a listed break-down
      other than `None` is selected. */
  function TitleParts(form: Form): (parts: seq<string>)
    ensures parts != [] && parts[0] == AggText(form.value, form.aggregation) + MeasureText(form.value)
    ensures |parts| == 1 + (if FindChoice(form.category).Some? then 1 else 0)
                         + (if FindChoice(form.breakBy).Some? && form.breakBy != NoBreakBy then 1 else 0)
    ensures FindChoice(form.category).Some? ==> parts[1] == "by " + FindChoice(form.category).value.caption
    ensures FindChoice(form.breakBy).Some? && form.breakBy != NoBreakBy ==>
              parts[|parts| - 1] == "and broken down by " + FindChoice(form.breakBy).value.caption
  {
    var first := [AggText(form.value, form.aggregation) + MeasureText(form.value)];
    var byCategory := match FindChoice(form.category)
      case Some(c) => ["by " + c.caption]
      case None => [];
    var byBreakBy := match FindChoice(form.breakBy)
      case Some(c) => if form.breakBy != NoBreakBy then ["and broken down by " + c.caption] else []
      case None => [];
    first + byCategory + byBreakBy
  }

  /** The title effect: the parts joined with single spaces. */
  function TitleEffect(form: Form): (r: Form)
    ensures r == form.(widgetTitle := Join(TitleParts(form), " "))
  {
    form.(widgetTitle := Join(TitleParts(form), " "))
  }

  /** Every title starts with its measure part. */
  lemma TitleStartsWithMeasure(form: Form)
    ensures var t := TitleEffect(form).widgetTitle;
            var m := AggText(form.value, form.aggregation) + MeasureText(form.value);
            |m| <= |t| && t[..|m|] == m
  {
  }

  /** A selected category and break-down each name their menu label. */
  lemma TitleNamesLabels(form: Form, c: nat, b: nat)
    requires c < |AllDimensionChoices| && AllDimensionChoices[c].value == form.category
    requires b < |LowCardinalityChoices| && LowCardinalityChoices[b].value == form.breakBy
    ensures TitleParts(form) == [AggText(form.value, form.aggregation) + MeasureText(form.value),
                                 "by " + AllDimensionChoices[c].caption,
                                 "and broken down by " + LowCardinalityChoices[b].caption]
  {
    ChoiceFound(c);
    BreakByFound(b);
  }

  /** Each entry of the break-down menu is found in the "By..." menu and is
      not `None`. */
  lemma BreakByFound(b: nat)
    requires b < |LowCardinalityChoices|
    ensures FindChoice(LowCardinalityChoices[b].value) == Some(LowCardinalityChoices[b])
    ensures LowCardinalityChoices[b].value != NoBreakBy
  {
    var d := [0, 1, 3][b];
    assert AllDimensionChoices[d] == LowCardinalityChoices[b];
    ChoiceFound(d);
    assert LowCardinalityChoices[b].value[0] != NoBreakBy[0];
  }

  /** Each entry of the "By..." menu is found by its selection. */
  lemma ChoiceFound(c: nat)
    requires c < |AllDimensionChoices|
    ensures FindChoice(AllDimensionChoices[c].value) == Some(AllDimensionChoices[c])
  {
    var v := AllDimensionChoices[c].value;
    // The second letters "noctl" tell the selections apart.
    assert forall k :: 0 <= k < |AllDimensionChoices| ==> |AllDimensionChoices[k].value| > 1 && AllDimensionChoices[k].value[1] == "noctl"[k];
    FindFirst(AllDimensionChoices, ChoiceIs(v), c);
  }

  // ---------------------------------------------------------------------
  // The category and open effects

  /** Choosing the close date forces a line chart and no break-down; any
      other category forces a bar chart and keeps the break-down. */
  function CategoryEffect(form: Form): (r: Form)
    ensures r.category == form.category && r.value == form.value
    ensures r.aggregation == form.aggregation && r.widgetTitle == form.widgetTitle
    ensures form.category == "CloseDate" ==> r.chartType == "line" && r.breakBy == NoBreakBy
    ensures form.category != "CloseDate" ==> r.chartType == "bar" && r.breakBy == form.breakBy
  {
    if form.category == "CloseDate" then form.(chartType := "line", breakBy := NoBreakBy)
    else form.(chartType := "bar")
  }

  /** The category effect keeps the selections within the menus, and a
      close-date chart built after it has no break-down. */
  lemma CategoryEffectKeepsMenus(form: Form)
    requires MenuSelections(form)
    ensures MenuSelections(CategoryEffect(form))
    ensures form.category == "CloseDate" ==> ChosenBreakBy(CategoryEffect(form)) == []
  {
  }

  /** Running the category effect twice is running it once. */
  lemma CategoryEffectIdempotent(form: Form)
    ensures CategoryEffect(CategoryEffect(form)) == CategoryEffect(form)
  {
  }

  /** Opening the popover resets the four selections; the chart type and
      the title field are left to the other effects. */
  function OpenEffect(form: Form, isOpen: bool): (r: Form)
    ensures isOpen ==> && r.category == "Industry" && r.breakBy == NoBreakBy
                       && r.value == "Revenue" && r.aggregation == "sum"
                       && r.chartType == form.chartType && r.widgetTitle == form.widgetTitle
    ensures !isOpen ==> r == form
  {
    if isOpen then form.(category := "Industry", breakBy := NoBreakBy, value := "Revenue", aggregation := "sum")
    else form
  }

  /** `None` is not an entry of the "By..." menu, so it adds no title part. */
  lemma NoBreakByUnlisted()
    ensures FindChoice(NoBreakBy).None?
  {
    forall k | 0 <= k < |AllDimensionChoices| ensures !ChoiceIs(NoBreakBy)(AllDimensionChoices[k]) {
      assert AllDimensionChoices[k].value[0] != 'N';
    }
  }

  /** A selected category without a break-down gives a measure part and a
      category part. */
  lemma TitleWithoutBreakBy(form: Form, c: nat)
    requires c < |AllDimensionChoices| && AllDimensionChoices[c].value == form.category
    requires form.breakBy == NoBreakBy
    ensures TitleParts(form) == [AggText(form.value, form.aggregation) + MeasureText(form.value),
                                 "by " + AllDimensionChoices[c].caption]
  {
    FindFirst(AllDimensionChoices, ChoiceIs(form.category), c);
    NoBreakByUnlisted();
  }

  /** After opening, the title has a measure part and a category part. */
  lemma OpenedTitleParts(form: Form)
    ensures TitleParts(OpenEffect(form, true)) == ["sum of Revenue", "by Industry"]
  {
    TitleWithoutBreakBy(OpenEffect(form, true), 0);
    assert AggText("Revenue", "sum") + MeasureText("Revenue") == "sum of Revenue";
    assert "by " + "Industry" == "by Industry";
  }

  // ---------------------------------------------------------------------
  // Reopening: which effects the reset triggers

  /** The selections the title effect depends on. */
  function TitleDeps(form: Form): (string, string, string, string) {
    (form.category, form.breakBy, form.value, form.aggregation)
  }

  /** The selections opening resets to. */
  const OpenedDeps := ("Industry", NoBreakBy, "Revenue", "sum")

  /** The popover stays mounted, so opening it runs only the open effect;
      its resets then re-run the category effect when the category changed
      and the title effect when any of its selections changed, in that
      order. A reset that changes nothing re-runs neither, and the chart
      type and title the user last chose stay. */
  function Reopen(form: Form): (r: Form)
    ensures TitleDeps(r) == OpenedDeps
    ensures form.category != "Industry" ==> r.chartType == "bar"
    ensures form.category == "Industry" ==> r.chartType == form.chartType
    ensures TitleDeps(form) == OpenedDeps ==> r == form
    ensures TitleDeps(form) != OpenedDeps ==> r.widgetTitle == Join(TitleParts(OpenEffect(form, true)), " ")
  {
    var reset := OpenEffect(form, true);
    var categorized := if reset.category != form.category then CategoryEffect(reset) else reset;
    if TitleDeps(categorized) != TitleDeps(form) then TitleEffect(categorized) else categorized
  }

  /** After reopening, the title is "sum of Revenue by Industry" when the
      reset changed a selection; otherwise it is the title the form held. */
  lemma OpenedTitle(form: Form)
    ensures TitleDeps(form) != OpenedDeps ==> Reopen(form).widgetTitle == "sum of Revenue by Industry"
    ensures TitleDeps(form) == OpenedDeps ==> Reopen(form).widgetTitle == form.widgetTitle
  {
    OpenedTitleParts(form);
    JoinTwo("sum of Revenue", "by Industry", " ");
    assert "sum of Revenue" + " " + "by Industry" == "sum of Revenue by Industry";
  }

  /** After reopening, the popover builds total revenue by industry with no
      break-down; the chart is a bar chart when the category changed, and
      otherwise keeps the chart type the form held. */
  lemma OpenedDataOptions(f: MeasureFactory, form: Form)
    requires f.HasStandardConstructors() && form.chartType in ChartTypes
    ensures var r := Reopen(form);
            && MenuSelections(r)
            && r.chartType == (if form.category != "Industry" then "bar" else form.chartType)
            && GetDataOptions(f, r) == DataOptions(Some([Industry]), Some([Aggregate(f, "sum", Value, Some("Total Revenue"))]),
                                                   map["breakBy" := AttrList([])])
  {
    var r := Reopen(form);
    assert AllDimensionChoices[0].value == r.category;
  }

  /** Reopening a popover whose selections are already the defaults keeps
      the chart type and the title the user chose. */
  lemma ReopenKeepsUserChoices(form: Form, chartType: string, title: string)
    requires TitleDeps(form) == OpenedDeps
    ensures var r := Reopen(form.(chartType := chartType, widgetTitle := title));
            r.chartType == chartType && r.widgetTitle == title
  {
  }
}
