# BestCRM self-service dashboard — a Dafny model

BestCRM is a React front end over a Sisense BI model of a sales CRM. Users
compose chart widgets from a popover, lay them out on a
react-grid-layout grid, and save the dashboard to a widget table. This
project models the logic under those screens as pure Dafny functions
over immutable datatypes, and proves what that logic promises.

- **`Js`** (`js.dfy`): the JavaScript idioms the code relies on.
  - `Option`, and truthiness of a string.
  - `a || b`.
  - `Array.prototype.find`.
  - `.map(f).filter(Boolean)` (as `FilterMap`) and `.filter(p)`.
  - `join`.
  - `String.prototype.trim`.
  - The decimal rendering of a number.
- **`Vendor`** (`vendor.dfy`): the parts of the Sisense SDK and the grid library the code touches.
  - Attributes, measures and the measure factory.
  - Data options, layout items, and the two widget shapes. A widget either references a hosted widget or is a chart built from data options.
- **`Expression`** (`expression.dfy`): `parseExpression`.
  - This is the JavaScript semantics of matching `/\[(.*)\.(.*)\]/`: leftmost match, greedy groups with backtracking, and `.` not matching line terminators.
  - It also models the check that both groups are non-empty.
- **`BestCRM`** (`bestcrm.dfy`): the data-model registry.
  - The `BestCRM` data source, and every dimension with its attributes, names and expressions.
  - The `allDimensions` list, and facts about the registry that the codec depends on.
- **`Codec`** (`codec.dfy`): the widget-table codec of the interactive dashboard.
  - `sanitizeJaqlWidgetForSerialization`, which stores a category as `{ jaql: { table, column } }` and a measure as `{ agg, jaql }`.
  - `findAttributeByJaql`.
  - `rehydrateJaqlWidgetFromData`.
- **`WidgetHelpers`** (`widget_helpers.dfy`): `buildWidget` and `addWidgetToLayout`.
- **`CrmDashboard`** (`crm_dashboard.dfy`): the dashboard's state transitions.
  - The record each widget is saved as.
  - The mapping of loaded rows back to widgets and layout.
  - `addWidget` and `removeWidget`.
- **`AddWidgetPopover`** (`add_widget_popover.dfy`): the popover's form.
  - `getAttributeByName`, `getDataOptions` and `getWidget`.
  - The three effects: the chart type forced by the category, the proposed title, and the reset on opening.
- **`WidgetRehydration`** (`widget_rehydration.dfy`): the name-keyed rehydrator.
  - The index built by walking every export of the BestCRM namespace.
  - `rehydrateItem` and `rehydrateWidget`.
- **`Dashboard`** (`dashboard.dfy`): the sample grid dashboard.
  - Its starting instances and the `lg` layout.
  - `onLayoutChange`, `addWidget`, the title editing, and the lock toggle.

Among the properties proved:

- **Storage round trips.** A save followed by a load gives back every widget whose attributes resolve and whose measures are untitled. The layout comes back too.
- **Date dimensions are lost.** A close-date or creation-date category is dropped on reload. The sanitizer stores the column named in the expression (`Close Date (Calendar)`), but `findAttributeByJaql` compares that column with the attribute's name (`Close Date`).
- **Titles are lost.** Every rebuilt measure is untitled, so a titled measure never comes back as it was.
- **Name-keyed index collisions.** The rehydration index is keyed by name. When a stored jaql for the account executives' `Avatar` is rehydrated, it yields the managers' `Avatar`. A stored measure whose `dim` is an expression finds no base and is dropped.
- **Reopening the popover.** The popover stays mounted. Reopening it proposes the title "sum of Revenue by Industry" and a bar chart only when the reset changes a selection. When the selections are already the defaults, the chart type and title the user chose are kept.
- **Sample dashboard.** New instances cycle through the columns 0, 4 and 8. A saved dashboard name is never blank.

## Model

| member | source | states |
|---|---|---|
| Js.Or | src/utils/widgetRehydration.ts:22 | `a \|\| b` on optional strings: the first operand when it is a non-empty string, otherwise the second; the result is truthy exactly when one of them is |
| Js.FindIndexFrom | src/components/Dashboard.tsx:39 | the index found is the first from `from` whose element satisfies the predicate; none means no element from there satisfies it |
| Js.FindIndex | src/components/Dashboard.tsx:39 | the index of the first element satisfying the predicate, or none when no element does |
| Js.Find | src/components/Dashboard.tsx:39 | `find` returns an element satisfying the predicate with no earlier one satisfying it, and nothing only when no element satisfies it |
| Js.FindFirst | src/components/Dashboard.tsx:39 | when `k` is the first position satisfying the predicate, `find` returns the element at `k` |
| Js.FilterMap | src/components/InteractiveCrmDashboard.tsx:89-97 | `.map(f).filter(Boolean)` never lengthens the list |
| Js.FilterMapEntries | src/components/InteractiveCrmDashboard.tsx:89-97 | every kept value is `f` of some entry; every entry `f` maps to a value has that value kept; all are kept in order when all map; nothing is kept when none map |
| Js.FilterMapAppend | src/components/InteractiveCrmDashboard.tsx:89-97 | the kept values of a concatenation are the kept values of the parts, in order |
| Js.FilterMapSingleton | src/components/InteractiveCrmDashboard.tsx:89-97 | a one-entry list keeps its value exactly when `f` gives one |
| Js.FilterMapRoundTrip | src/components/InteractiveCrmDashboard.tsx:175-180 | mapping by `f` and then by a `g` that undoes `f` on every entry gives back the list |
| Js.Filter | src/components/InteractiveCrmDashboard.tsx:454 | the kept elements come from the list and satisfy the predicate, and every element satisfying it is kept |
| Js.FilterAppend | src/components/InteractiveCrmDashboard.tsx:454 | a concatenation is filtered part by part, so order and multiplicity are kept |
| Js.FilterSingleton | src/components/InteractiveCrmDashboard.tsx:454 | a single element is kept exactly when it satisfies the predicate |
| Js.FilterAll | src/components/InteractiveCrmDashboard.tsx:454 | filtering a list all of whose elements pass returns the list |
| Js.FilterAppendRejected | src/components/InteractiveCrmDashboard.tsx:454 | an appended element that fails the predicate leaves the filtered list as it was |
| Js.Join | src/components/add-widget-popover.tsx:97 | the first part is a prefix of the joined string, a single part joins to itself, and later parts follow the separator |
| Js.JoinTwo | src/components/add-widget-popover.tsx:97 | two parts join to the first, the separator, then the second |
| Js.Trim | src/components/Dashboard.tsx:58-59 | `trim()` gives a contiguous slice that neither starts nor ends with white space, and it is empty exactly when the string is all white space |
| Js.TrimIdempotent | src/components/Dashboard.tsx:58-59 | trimming a trimmed string changes nothing |
| Js.KeptFrom | src/components/Dashboard.tsx:58-59 | the scan from the left stops at the first character that is not white space, or at the bound |
| Js.KeptTo | src/components/Dashboard.tsx:58-59 | the scan from the right stops after the last character that is not white space, or at the start |
| Js.TrimSlice | src/components/Dashboard.tsx:58-59 | the slice between the two scans is surrounded only by white space, starts and ends with other characters, and is empty exactly when the string is all white space |
| Js.DigitChar | src/components/Dashboard.tsx:47 | a digit value is rendered as the character with that value |
| Js.Decimal | src/components/Dashboard.tsx:47 | the rendering of `Date.now()` in a template string is a non-empty string of digits |
| Js.DecimalRoundTrip | src/components/Dashboard.tsx:47 | reading the digits back gives the number |
| Js.DecimalInjective | src/components/Dashboard.tsx:47 | different numbers render differently |
| Vendor.Level | src/components/add-widget-popover.tsx:128 | a level of a date dimension is a date level over the same expression |
| Expression.JsMatchUnique | src/components/InteractiveCrmDashboard.tsx:81 | the regular-expression match the JavaScript engine reports is unique: leftmost start, then the longest first group, then the longest second group |
| Expression.LastIndexOf | src/components/InteractiveCrmDashboard.tsx:81 | the last position of a character below a bound, or none when it does not occur there |
| Expression.LineEnd | src/components/InteractiveCrmDashboard.tsx:81 | the end of the run `.` can match: no line terminator before it, a line terminator or the end at it |
| Expression.MatchAt | src/components/InteractiveCrmDashboard.tsx:81 | a match starting at `i` with the greatest dot position and then the greatest closing-bracket position, or none when no match starts there |
| Expression.FindMatch | src/components/InteractiveCrmDashboard.tsx:81 | the leftmost match from `from`, with the same greedy choice, or none when no match starts at or after `from` |
| Expression.FindMatchIsJsMatch | src/components/InteractiveCrmDashboard.tsx:81 | the search from the start finds exactly the match the engine reports, and finds nothing exactly when the pattern matches nowhere |
| Expression.ParseExpression | src/components/InteractiveCrmDashboard.tsx:77-86 | a missing or empty expression, or one the pattern does not match, gives null; otherwise the result is the table and column the greedy match splits at, and both are non-empty |
| Expression.ParseBracketed | src/components/InteractiveCrmDashboard.tsx:77-86 | `[table.column]` with a column free of dots and line terminators parses back to that table and column |
| Expression.ParseNotBracketed | src/components/InteractiveCrmDashboard.tsx:80-85 | an expression without brackets gives null |
| Expression.ParseOnlyTable | src/components/InteractiveCrmDashboard.tsx:80-85 | a bracketed expression without a dot gives null |
| Expression.ParseTwoDots | src/components/InteractiveCrmDashboard.tsx:81-83 | the greedy first group splits at the last dot |
| Expression.ParseEmptyTable | src/components/InteractiveCrmDashboard.tsx:82 | an empty table group is rejected |
| BestCRM.DimensionNamesAreDistinct | BestCRM.ts:11-165 | no two dimensions share a name, so a lookup by table name is unambiguous |
| BestCRM.AccountExecutiveDeclared | BestCRM.ts:13-18 | the attribute's expression is `[Account Executives.<its name>]`, with names free of dots and line terminators |
| BestCRM.AccountExecutiveAvatarDeclared | BestCRM.ts:19-24 | likewise for the account executives' `Avatar` |
| BestCRM.AccountNameDeclared | BestCRM.ts:29-34 | likewise for `Account Name` of `Accounts` |
| BestCRM.CountryDeclared | BestCRM.ts:43-48 | likewise for `Country` |
| BestCRM.RegionDeclared | BestCRM.ts:49-54 | likewise for `Region` |
| BestCRM.IndustryDeclared | BestCRM.ts:59-64 | likewise for `Industry` |
| BestCRM.ManagerAvatarDeclared | BestCRM.ts:73-78 | likewise for the managers' `Avatar` |
| BestCRM.SalesManagerDeclared | BestCRM.ts:79-84 | likewise for `Sales Manager` |
| BestCRM.IsMTDDeclared | BestCRM.ts:99-104 | likewise for `isMTD` |
| BestCRM.IsQTDDeclared | BestCRM.ts:105-110 | likewise for `isQTD` |
| BestCRM.IsYTDDeclared | BestCRM.ts:111-116 | likewise for `isYTD` |
| BestCRM.OpportunityIdDeclared | BestCRM.ts:117-122 | likewise for `Opportunity Id` |
| BestCRM.OpportunityNameDeclared | BestCRM.ts:123-128 | likewise for `Opportunity Name` |
| BestCRM.ValueDeclared | BestCRM.ts:129-134 | likewise for `Value` |
| BestCRM.CalendarColumns | BestCRM.ts:135-144 | the date dimensions' expressions name the columns `Close Date (Calendar)` and `Creation Date (Calendar)` |
| BestCRM.CalendarColumnsPlain | BestCRM.ts:135-144 | those columns hold no dot or line terminator |
| BestCRM.CloseDateDeclared | BestCRM.ts:135-139 | the close-date expression is `[Opportunities.Close Date (Calendar)]` |
| BestCRM.CreationDateDeclared | BestCRM.ts:140-144 | the creation-date expression is `[Opportunities.Creation Date (Calendar)]` |
| BestCRM.OutreachMessageDeclared | BestCRM.ts:149-154 | likewise for `Outreach Message` |
| BestCRM.StatusAttributeDeclared | BestCRM.ts:159-164 | likewise for `Status` |
| BestCRM.AccountExecutivesWellDeclared | BestCRM.ts:11-25 | the dimension's name is plain, every attribute is well declared, and attribute names are distinct |
| BestCRM.AccountsWellDeclared | BestCRM.ts:27-35 | likewise for `Accounts` |
| BestCRM.CountriesWellDeclared | BestCRM.ts:41-55 | likewise for `Countries` |
| BestCRM.IndustriesWellDeclared | BestCRM.ts:57-65 | likewise for `Industries` |
| BestCRM.ManagersWellDeclared | BestCRM.ts:71-85 | likewise for `Managers` |
| BestCRM.OpportunityFieldNamesDistinct | BestCRM.ts:97-145 | the opportunities attributes have distinct names |
| BestCRM.OpportunitiesWellDeclared | BestCRM.ts:97-145 | likewise for `Opportunities` |
| BestCRM.OutreachesWellDeclared | BestCRM.ts:147-155 | likewise for `Outreaches` |
| BestCRM.StatusWellDeclared | BestCRM.ts:157-165 | likewise for `Status` |
| BestCRM.AllWellDeclared | src/components/InteractiveCrmDashboard.tsx:130-139 | every dimension the rehydrator searches is well declared |
| BestCRM.ExpressionsParse | src/components/InteractiveCrmDashboard.tsx:77-86 | every registry expression parses to its dimension's name and its intended column |
| BestCRM.DateDimensionColumns | BestCRM.ts:135-144 | the date dimensions parse to a column that differs from their own name |
| BestCRM.AvatarInTwoDimensions | BestCRM.ts:19-24 | `Avatar` names an attribute of two dimensions, with different expressions |
| Codec.CopyOthers | src/components/InteractiveCrmDashboard.tsx:120-124 | every key except `category` and `value` is copied with its value, and no other key appears |
| Codec.ValueRef | src/components/InteractiveCrmDashboard.tsx:102-116 | a measure is stored exactly when it has an attribute whose expression parses; it stores that reference and `aggregation`, or `agg` when `aggregation` is falsy |
| Codec.Sanitize | src/components/InteractiveCrmDashboard.tsx:70-127 | absent options give null; the lists are present exactly when they were; the other keys are copied unchanged |
| Codec.SanitizeEntries | src/components/InteractiveCrmDashboard.tsx:88-117 | each stored entry is the reduction of some live entry, and every live entry that reduces is stored |
| Codec.SanitizeCategoryInOrder | src/components/InteractiveCrmDashboard.tsx:88-98 | the stored category list of a concatenation is the concatenation of the stored lists |
| Codec.SanitizeCategoryEntry | src/components/InteractiveCrmDashboard.tsx:88-98 | a single category is stored as its parsed reference exactly when its expression parses |
| Codec.SanitizeKeepsBreakBy | src/components/InteractiveCrmDashboard.tsx:120-124 | the `breakBy` list is stored as the live attributes themselves |
| Codec.FindAttributeByJaql | src/components/InteractiveCrmDashboard.tsx:142-167 | a result is named `column` and is a field of the first dimension named `table`; an unknown table gives null |
| Codec.FindAttributeFirst | src/components/InteractiveCrmDashboard.tsx:146-160 | the lookup returns the first field named `column` of the first dimension named `table` |
| Codec.FindAttributeMissing | src/components/InteractiveCrmDashboard.tsx:152-166 | when that dimension has no field named `column` the lookup gives null |
| Codec.RehydrateValue | src/components/InteractiveCrmDashboard.tsx:185-197 | a stored measure is rebuilt exactly when its reference resolves and its `agg` names a factory constructor; the result is that constructor over the resolved attribute, untitled |
| Codec.RehydrateOptions | src/components/InteractiveCrmDashboard.tsx:171-207 | the lists are present exactly when stored; the other keys are copied |
| Codec.RehydrateEntries | src/components/InteractiveCrmDashboard.tsx:174-199 | the rebuilt category list holds exactly the attributes the stored references resolve to; every rebuilt measure is untitled |
| Codec.ResolvedEntries | src/components/InteractiveCrmDashboard.tsx:174-181 | the rebuilt category list never grows, holds only resolved attributes, and holds every attribute a stored reference resolves to |
| Codec.RebuiltUntitled | src/components/InteractiveCrmDashboard.tsx:183-199 | every measure rebuilt from stored value entries has no title |
| Codec.RehydrateJaqlWidget | src/components/InteractiveCrmDashboard.tsx:170-217 | a chart widget with the record's id, title and chart type over the BestCRM data source, carrying the rebuilt options |
| Codec.CategoryRoundTrip | src/components/InteractiveCrmDashboard.tsx:88-181 | a category list whose attributes all resolve comes back unchanged from storage |
| Codec.StoreThenReload | src/components/InteractiveCrmDashboard.tsx:70-207 | storing then reloading data options maps each list entry by entry and keeps the copied keys |
| Codec.SingleCategoryReload | src/components/InteractiveCrmDashboard.tsx:88-181 | a one-entry category comes back when it resolves and is dropped when its reference finds nothing |
| Codec.OneEntryReload | src/components/InteractiveCrmDashboard.tsx:70-207 | options with one category and one measure reload with the category kept or dropped as it resolves, and the other keys kept |
| Codec.ValueRoundTrip | src/components/InteractiveCrmDashboard.tsx:100-199 | an untitled measure over a resolving attribute with a constructor tag comes back unchanged |
| Codec.TitledMeasureDoesNotRoundTrip | src/components/InteractiveCrmDashboard.tsx:190-194 | a titled measure never comes back as it was, because the rebuilt one carries no title |
| Codec.OptionsRoundTrip | src/components/InteractiveCrmDashboard.tsx:70-207 | options whose categories resolve and whose measures round-trip come back with the same lists and the copied keys |
| Codec.RegistryAttributeResolves | src/components/InteractiveCrmDashboard.tsx:142-167 | every non-date attribute of the registry is found again from its stored reference |
| Codec.OpportunitiesColumnMissing | src/components/InteractiveCrmDashboard.tsx:152-166 | a column no opportunities attribute is named after finds nothing |
| Codec.OpportunitiesFieldNames | BestCRM.ts:97-145 | the names of the opportunities attributes |
| Codec.CalendarColumnsMissing | src/components/InteractiveCrmDashboard.tsx:152-166 | looking up either calendar column finds nothing |
| Codec.CloseDateDoesNotRoundTrip | src/components/InteractiveCrmDashboard.tsx:142-167 | the close-date dimension is stored as a reference that finds nothing on reload |
| Codec.CreationDateDoesNotRoundTrip | src/components/InteractiveCrmDashboard.tsx:142-167 | likewise for the creation-date dimension |
| Codec.CloseDateCategoryDropped | src/components/InteractiveCrmDashboard.tsx:174-181 | a close-date category reloads as an empty category list |
| Codec.UnknownTableDropped | src/components/InteractiveCrmDashboard.tsx:146-150 | a reference to an unknown table is dropped and the rest of the list survives |
| WidgetHelpers.BuildWidget | src/components/add-widget-helpers.tsx:19-33 | a chart widget with the given id, chart type, title, data source and options |
| WidgetHelpers.AddWidgetToLayout | src/components/add-widget-helpers.tsx:48-65 | the existing layout, or none when absent, unchanged and followed by one 6-by-8 item for the widget at column 0 and the bottom |
| WidgetHelpers.NewItemFound | src/components/add-widget-helpers.tsx:48-65 | after appending, a lookup by the widget's id finds the new item when no earlier item has that id |
| CrmDashboard.ToRecord | src/components/InteractiveCrmDashboard.tsx:307-330 | a widget's row carries its id, its title, and the first layout item with its id, or none exactly when no item has it; a reference widget carries its two ids and a chart widget its sanitized options, data source title and chart type |
| CrmDashboard.Save | src/components/InteractiveCrmDashboard.tsx:307-331 | one row per widget, in order |
| CrmDashboard.LoadRecord | src/components/InteractiveCrmDashboard.tsx:388-400 | a row loads exactly when it has both ids or stored options; with both ids it is a reference widget with them, otherwise a chart of the BestCRM source with the row's id, title and chart type |
| CrmDashboard.Load | src/components/InteractiveCrmDashboard.tsx:377-415 | the state ends loaded; an already loaded state is left alone; a failure or an empty answer changes no widgets or layout |
| CrmDashboard.LoadEntries | src/components/InteractiveCrmDashboard.tsx:386-407 | the loaded widgets are exactly those rows that load; when every row has a layout item the layout is those items in row order, and when none has one it is empty |
| CrmDashboard.LoadInOrder | src/components/InteractiveCrmDashboard.tsx:386-407 | the rows load in order: a front and a back load as the front's widgets and layout items followed by the back's, and one row gives its widget when it loads and its layout item when it has one |
| CrmDashboard.AddWidget | src/components/InteractiveCrmDashboard.tsx:446-451 | the widget is appended and so is one new layout item for it |
| CrmDashboard.RemoveWidget | src/components/InteractiveCrmDashboard.tsx:453-456 | every widget and layout item with the id is removed, and everything else is kept |
| CrmDashboard.RemoveWidgetInOrder | src/components/InteractiveCrmDashboard.tsx:453-456 | removal keeps order and number: a front and a back are filtered part by part, and a single widget or layout item stays exactly when its id differs |
| CrmDashboard.AddThenRemove | src/components/InteractiveCrmDashboard.tsx:446-456 | removing the id of a widget just added is the same as removing it before the add |
| CrmDashboard.RemoveAbsent | src/components/InteractiveCrmDashboard.tsx:453-456 | removing an id nothing carries changes nothing |
| CrmDashboard.AddThenRemoveFresh | src/components/InteractiveCrmDashboard.tsx:446-456 | adding a widget with a fresh id and removing it restores the state |
| CrmDashboard.SaveThenLoadWidget | src/components/InteractiveCrmDashboard.tsx:307-400 | a reloadable widget's row loads back as the widget |
| CrmDashboard.BlankReferenceLost | src/components/InteractiveCrmDashboard.tsx:389 | a reference widget with an empty widget id is lost on reload |
| CrmDashboard.ChartWithoutOptionsLost | src/components/InteractiveCrmDashboard.tsx:73 | a chart without data options is stored without options and lost on reload |
| CrmDashboard.ChartReloadsAsChart | src/components/InteractiveCrmDashboard.tsx:396-397 | a chart with options reloads as a chart with its id, title and chart type over the BestCRM source |
| CrmDashboard.SavedRowReloads | src/components/InteractiveCrmDashboard.tsx:307-405 | the row saved for a reloadable widget of an aligned dashboard loads back as that widget, with its layout item |
| CrmDashboard.ReloadedWidgets | src/components/InteractiveCrmDashboard.tsx:387-401 | the saved rows of an aligned dashboard of reloadable widgets load back as the widgets |
| CrmDashboard.ReloadedLayout | src/components/InteractiveCrmDashboard.tsx:403-405 | and their layout items load back as the layout |
| CrmDashboard.SaveThenLoad | src/components/InteractiveCrmDashboard.tsx:305-409 | loading the saved rows into a fresh dashboard gives back the widgets and the layout |
| AddWidgetPopover.AttributeByName | src/components/add-widget-popover.tsx:32-40 | exactly the four names Industry, Country, AccountExecutive and Status map to a text attribute |
| AddWidgetPopover.MenuAttributeInRegistry | src/components/add-widget-popover.tsx:58-64 | each non-date menu entry names the first attribute of a registry dimension, whose name is the entry's label |
| AddWidgetPopover.MenuAttributes | src/components/add-widget-popover.tsx:58-64 | each non-date menu entry maps to an attribute named by its label that resolves on reload |
| AddWidgetPopover.LowCardinalityListed | src/components/add-widget-popover.tsx:66-70 | every break-down choice is also a category choice |
| AddWidgetPopover.ChosenMeasure | src/components/add-widget-popover.tsx:116-124 | revenue gives an average titled "Avg Revenue" or a sum titled "Total Revenue" over the opportunity value; otherwise a count titled "# of Opportunities" over the opportunity id |
| AddWidgetPopover.ChosenCategory | src/components/add-widget-popover.tsx:126-129 | the close date gives a date level over its expression; any other menu choice the attribute of that name |
| AddWidgetPopover.ChosenBreakBy | src/components/add-widget-popover.tsx:130-133 | empty exactly when the break-down is None or the chart is a pie; otherwise the one attribute of that name |
| AddWidgetPopover.GetDataOptions | src/components/add-widget-popover.tsx:115-140 | one category, one measure, and the break-down list as the only other key |
| AddWidgetPopover.GetWidget | src/components/add-widget-popover.tsx:142-149 | the chart widget over the BestCRM source with the form's chart type, title and data options |
| AddWidgetPopover.ChosenMeasureReloads | src/components/add-widget-popover.tsx:115-124 | the chosen measure is stored and reloads as itself without its title |
| AddWidgetPopover.AverageDroppedUnlessTagIsConstructor | src/components/add-widget-popover.tsx:118-119 | an average measure is dropped on reload when its aggregation tag names no factory constructor |
| AddWidgetPopover.ChosenCategoryReload | src/components/add-widget-popover.tsx:126-129 | a category chosen by name resolves on reload; the close date does not |
| AddWidgetPopover.MeasureListReload | src/components/add-widget-popover.tsx:137 | the value list reloads as the measure without its title |
| AddWidgetPopover.BreakByCopied | src/components/add-widget-popover.tsx:138 | `breakBy` is not one of the keys the codec rewrites |
| AddWidgetPopover.DataOptionsReload | src/components/add-widget-popover.tsx:115-140 | the popover's options reload with the category kept unless it is the close date, the measure untitled, and the break-down copied |
| AddWidgetPopover.TitleParts | src/components/add-widget-popover.tsx:82-95 | the measure text first, then `by <label>` when the category is listed, then `and broken down by <label>` for a listed break-down other than None |
| AddWidgetPopover.TitleStartsWithMeasure | src/components/add-widget-popover.tsx:89-97 | every proposed title starts with its measure text |
| AddWidgetPopover.TitleNamesLabels | src/components/add-widget-popover.tsx:85-94 | a listed category and break-down are named by their menu labels |
| AddWidgetPopover.ChoiceFound | src/components/add-widget-popover.tsx:85 | each "By..." entry is the one the lookup by its selection finds |
| AddWidgetPopover.BreakByFound | src/components/add-widget-popover.tsx:86-94 | each break-down entry is found among the "By..." entries and is not `None` |
| AddWidgetPopover.NoBreakByUnlisted | src/components/add-widget-popover.tsx:86-94 | `None` is not a "By..." entry, so it adds no title part |
| AddWidgetPopover.TitleWithoutBreakBy | src/components/add-widget-popover.tsx:85-96 | a listed category with no break-down gives a measure part and a category part only |
| AddWidgetPopover.CategoryEffect | src/components/add-widget-popover.tsx:72-79 | the close date forces a line chart and no break-down; any other category a bar chart with the break-down kept |
| AddWidgetPopover.CategoryEffectKeepsMenus | src/components/add-widget-popover.tsx:72-79 | the effect keeps the selections in their menus, and after a close-date category there is no break-down |
| AddWidgetPopover.CategoryEffectIdempotent | src/components/add-widget-popover.tsx:72-79 | running the effect twice is running it once |
| AddWidgetPopover.OpenEffect | src/components/add-widget-popover.tsx:100-107 | opening resets category, break-down, value and aggregation and leaves the rest; a closed popover is unchanged |
| AddWidgetPopover.Reopen | src/components/add-widget-popover.tsx:72-107 | reopening resets the four selections; the chart becomes a bar chart only when the category changed, the title is recomputed only when a selection changed, and a reset that changes nothing leaves the form as it was |
| AddWidgetPopover.ReopenKeepsUserChoices | src/components/add-widget-popover.tsx:72-107 | reopening with the default selections keeps any chart type and title the user chose |
| AddWidgetPopover.OpenedTitle | src/components/add-widget-popover.tsx:81-107 | after reopening, the title is "sum of Revenue by Industry" when the reset changed a selection, and the title the form held otherwise |
| AddWidgetPopover.OpenedTitleParts | src/components/add-widget-popover.tsx:81-107 | after opening, the title parts are "sum of Revenue" and "by Industry" |
| AddWidgetPopover.OpenedDataOptions | src/components/add-widget-popover.tsx:72-140 | after reopening, the popover builds total revenue by industry with an empty break-down; the chart is a bar chart when the category changed and keeps its type otherwise |
| WidgetRehydration.WalkVisitsExports | src/utils/widgetRehydration.ts:17-19 | every visited value is a property value of some export |
| WidgetRehydration.IndexKey | src/utils/widgetRehydration.ts:21-22 | an object without `jaql` has no key; otherwise the title when truthy, else the dim |
| WidgetRehydration.BuildIndex | src/utils/widgetRehydration.ts:17-29 | only non-empty keys are set |
| WidgetRehydration.IndexDomain | src/utils/widgetRehydration.ts:17-29 | a key is in the index exactly when it is non-empty and some visited value carries it |
| WidgetRehydration.IndexLastWins | src/utils/widgetRehydration.ts:24 | a key maps to the last visited value carrying it |
| WidgetRehydration.IndexUnchangedBy | src/utils/widgetRehydration.ts:17-29 | values that do not carry a key leave its entry as it was |
| WidgetRehydration.Lookup | src/utils/widgetRehydration.ts:36 | a missing key or one not in the index finds nothing; otherwise the indexed object |
| WidgetRehydration.Constructor | src/utils/widgetRehydration.ts:51-61 | exactly `sum`, `avg` and `count` select a constructor, and `avg` selects `average` |
| WidgetRehydration.RehydrateItem | src/utils/widgetRehydration.ts:32-66 | a missing entry or jaql gives null; without `agg` the indexed object or the fallback attribute; with `agg` the selected constructor over the object indexed by `dim`, with the entry's title; null exactly when `agg` is set and the base or the constructor is missing |
| WidgetRehydration.ObjectRoundTrip | src/utils/widgetRehydration.ts:17-41 | the jaql of an indexed object, when no later value shares its key, rehydrates to that object |
| WidgetRehydration.MeasureRebuilt | src/utils/widgetRehydration.ts:44-57 | an aggregated jaql whose `dim` keys an indexed object rebuilds the measure over it |
| WidgetRehydration.OrEmpty | src/utils/widgetRehydration.ts:78 | a missing list reads as empty |
| WidgetRehydration.RehydrateList | src/utils/widgetRehydration.ts:78-84 | a missing list gives an empty one, and the result is never longer than the list |
| WidgetRehydration.RehydrateWidget | src/utils/widgetRehydration.ts:70-92 | the other properties are kept, each missing list becomes empty, and each list is rebuilt by `RehydrateList` |
| WidgetRehydration.RehydrateWidgetEntries | src/utils/widgetRehydration.ts:77-84 | each rebuilt list holds exactly what the stored entries rebuild into, a missing list counting as empty |
| WidgetRehydration.RehydrateListEntries | src/utils/widgetRehydration.ts:78-84 | every rebuilt value comes from some entry, and every entry that rebuilds is kept |
| WidgetRehydration.RehydrateListInOrder | src/utils/widgetRehydration.ts:78-84 | rebuilding keeps the order of the entries |
| WidgetRehydration.DimensionExport | BestCRM.ts:11-25 | a dimension object's indexed values are its attributes, with their jaql |
| WidgetRehydration.NamespaceExports | src/utils/widgetRehydration.ts:17-18 | each export of the namespace is the data source or a registry dimension |
| WidgetRehydration.NamespaceValues | src/utils/widgetRehydration.ts:17-29 | every indexed value is a registry attribute keyed by its plain name |
| WidgetRehydration.DottedKeyNotIndexed | src/utils/widgetRehydration.ts:17-29 | no key holding a dot, so no expression, is in the namespace index |
| WidgetRehydration.StoredMeasureDropped | src/utils/widgetRehydration.ts:44-48 | a measure whose `dim` is a registry expression finds no base and is dropped |
| WidgetRehydration.DimensionCarriesNames | src/utils/widgetRehydration.ts:21-24 | a dimension with no attribute named `key` contributes no entry for `key` |
| WidgetRehydration.TailKeeps | src/utils/widgetRehydration.ts:17-29 | exports that carry no `key` leave its entry as the earlier ones made it |
| WidgetRehydration.OpportunitiesNotAvatar | BestCRM.ts:97-145 | no opportunities attribute is named `Avatar` |
| WidgetRehydration.AvatarAfterManagers | src/utils/widgetRehydration.ts:24 | once the managers are walked, `Avatar` indexes the managers' avatar |
| WidgetRehydration.AvatarUnchangedAfterManagers | src/utils/widgetRehydration.ts:17-29 | the later exports leave the `Avatar` entry alone |
| WidgetRehydration.AvatarCollision | src/utils/widgetRehydration.ts:35-41 | the account executives' avatar rehydrates as the managers' avatar |
| Dashboard.LayoutOf | src/components/Dashboard.tsx:31-33 | one grid item per instance, with its key, position and size |
| Dashboard.Merge | src/components/Dashboard.tsx:39-40 | an instance takes the position and size of the first reported item with its key, and stays as it was when there is none |
| Dashboard.OnLayoutChange | src/components/Dashboard.tsx:35-43 | the same instances in order with their keys and contents; an instance no item reports stays unchanged |
| Dashboard.FirstItemPlaces | src/components/Dashboard.tsx:39-40 | the first reported item with an instance's key places it |
| Dashboard.OnLayoutChangeIdempotent | src/components/Dashboard.tsx:35-43 | applying the same report twice is applying it once |
| Dashboard.OwnLayoutChangesNothing | src/components/Dashboard.tsx:31-43 | with distinct keys, reporting the dashboard's own layout changes nothing |
| Dashboard.RepeatedKeyTakesFirstPlace | src/components/Dashboard.tsx:39 | with a repeated key, the later instance is moved onto the first one's place |
| Dashboard.NewInstance | src/components/Dashboard.tsx:46-53 | a new instance sits in column 0, 4 or 8 at the bottom, 4 wide and 2 high, keyed `widget-<time>` |
| Dashboard.AddWidget | src/components/Dashboard.tsx:45-55 | the instances unchanged, then the new instance |
| Dashboard.NewColumnsCycle | src/components/Dashboard.tsx:48 | new instances fill columns 0, 4 and 8 in turn |
| Dashboard.NewKeysDiffer | src/components/Dashboard.tsx:47 | adds at different times give different keys |
| Dashboard.AddKeepsKeysDistinct | src/components/Dashboard.tsx:45-55 | adding under an unused key keeps keys distinct |
| Dashboard.InitialLayout | src/components/Dashboard.tsx:25-29 | the starting instances have distinct keys and sit where new ones would, and the next one starts a new row |
| Dashboard.HandleSaveTitle | src/components/Dashboard.tsx:57-62 | editing ends; a blank edit keeps the name, any other becomes the name trimmed, which is not blank |
| Dashboard.SavedNameNeverBlank | src/components/Dashboard.tsx:57-62 | a name that is not blank stays not blank through a save |
| Dashboard.SavedNameTrimmed | src/components/Dashboard.tsx:57-62 | a name saved from a non-blank edit has no surrounding white space |
| Dashboard.SaveTitleIdempotent | src/components/Dashboard.tsx:57-62 | saving twice is saving once |
| Dashboard.DoubleClick | src/components/Dashboard.tsx:82-84 | editing starts only when the layout is unlocked; nothing else changes |
| Dashboard.ToggleLock | src/components/Dashboard.tsx:96 | the lock button flips the lock and nothing else |
| Dashboard.LockedTitleIgnoresDoubleClick | src/components/Dashboard.tsx:82-96 | a locked dashboard ignores a double-click, and two presses of the lock restore the state |

## Left out

- Storage I/O: the table's select, delete and insert calls and the logging. Saving is modelled as producing the rows and loading as consuming the rows (or the failure) returned. A failed or overlapping save is not modelled.
- JSON encoding: `JSON.stringify` and `JSON.parse`. This includes how `Infinity` in a layout item or a live attribute in the copied `breakBy` list survives the encoding. The copied keys are stored and reloaded as values.
- React plumbing: hooks, effects and re-rendering are not modelled. Each effect is a function over the popover's form state, and each handler is a function over the dashboard's state. The Material UI and Highcharts theming, `onBeforeRender`, the resize handler, the save-as modal and the menus are left out.
- Identifiers and the clock: `uuidv4`, `crypto.randomUUID` and `Date.now` are parameters.
- Vendor internals: `createAttribute`, `createDimension`, `createDateDimension`, the `Months` level and `measureFactory` are represented only by what the code reads from them.
  - The measure factory's constructors are a parameter mapping each name to the aggregation tag it stamps.
  - The registry attributes' `jaql` is assumed to carry the name as title and the expression as dim.
  - The index walk assumes the values of a dimension object come as one non-`jaql` value (its name) followed by the attributes in declaration order.
- The index walk's module namespace is enumerated in export-name order. The data-source export and the plain values never carry `jaql`.
- `src/theme.ts`, `BestCRM3.ts` and the remaining components are not part of this model.
- `src/components/Dashboard.tsx` line 1 is not valid TypeScript (`import React, 'react'`). The model assumes the intended default import.
- Dashboard.AddWidget: the source computes the column from the rendered instance count, not from the updater's `prev`. The model computes it from the state it is given, so two adds within one render are not modelled.
- Dashboard.Merge: the source spreads every property of the reported grid item into the instance. The model copies only `x`, `y`, `w` and `h`; the key is equal by construction, and the grid's extra item properties are not modelled.
- AddWidgetPopover.GetDataOptions: requires that the category and break-down are menu values (`MenuSelections`). The source's select inputs offer only those. For any other string, `getAttributeByName` returns `undefined`, which is not modelled.
- AddWidgetPopover.Reopen: models opening a popover that is already mounted and whose state has settled. The first mount, where every effect runs once, is not modelled.
- AddWidgetPopover.ChosenCategory: the close-date choice is modelled as a date level over the close-date expression. The `Months` level name is not otherwise interpreted.
- Codec.Sanitize: a null entry in a live `category` or `value` list is not representable. The source throws on one, because it reads `dim.expression` or `measure.attribute` before its `measure &&` test, and the `catch` of `performSave` then abandons the whole save (`src/components/InteractiveCrmDashboard.tsx` lines 92, 103 and 343).
- Codec.RehydrateOptions: a stored list entry without `jaql` is not representable. The source throws on one when it destructures `item.jaql` (lines 177 and 186). The load has no `catch`, so neither the widgets nor the layout are replaced and the loaded flag stays unset.
- WidgetRehydration.RehydrateWidget: assumes the parsed options are an object whose present lists are arrays. It does not model a JSON string that parses to something else.
- WidgetRehydration.RehydrateItem: the fallback `attributeFactory(item.jaql)` is modelled as the jaql itself (`FromJaql`), since the vendor's construction is not visible here.
