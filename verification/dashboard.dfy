/** The sample grid dashboard: a list of widget instances placed on a
    twelve-column grid, the merge of the grid's reported layout into that
    list, the placement of a new instance, and the editable title. */
module Dashboard {
  import opened Js
  import opened Vendor

  /** A widget instance: its grid key `i`, its position and size, and the
      text it shows. */
  datatype Instance = Instance(i: string, x: int, y: Coord, w: int, h: int, content: string)

  /** The three instances the dashboard starts with, side by side on the
      top row. */
  const InitialInstances: seq<Instance> := [
    Instance("a", 0, At(0), 4, 2, "Welcome to your new dashboard!"),
    Instance("b", 4, At(0), 4, 2, "This is a sample widget."),
    Instance("c", 8, At(0), 4, 2, "You can drag and resize me.")]

  /** Grid keys are distinct. */
  predicate DistinctKeys(instances: seq<Instance>) {
    forall k, j :: 0 <= k < j < |instances| ==> instances[k].i != instances[j].i
  }

  /** The `lg` layout handed to the grid: each instance's key, position
      and size. */
  function LayoutOf(instances: seq<Instance>): (r: seq<LayoutItem>)
    ensures |r| == |instances|
    ensures forall k :: 0 <= k < |r| ==> r[k] == LayoutItem(instances[k].i, instances[k].x, instances[k].y, instances[k].w, instances[k].h)
  {
    seq(|instances|, k requires 0 <= k < |instances| => LayoutItem(instances[k].i, instances[k].x, instances[k].y, instances[k].w, instances[k].h))
  }

  // ---------------------------------------------------------------------
  // onLayoutChange

  /** The grid item reported for an instance: the first one with its key. */
  function Placed(newLayout: seq<LayoutItem>, i: string): Option<LayoutItem> {
    Find(newLayout, (item: LayoutItem) => item.i == i)
  }

  /** One instance after a layout change: unchanged when no item carries
      its key, otherwise moved and resized to the first such item. */
  function Merge(widget: Instance, newLayout: seq<LayoutItem>): (r: Instance)
    ensures r.i == widget.i && r.content == widget.content
    ensures Placed(newLayout, widget.i).None? ==> r == widget
    ensures Placed(newLayout, widget.i).Some? ==>
              var item := Placed(newLayout, widget.i).value;
              r.x == item.x && r.y == item.y && r.w == item.w && r.h == item.h
  {
    match Placed(newLayout, widget.i)
    case None => widget
    case Some(item) => widget.(x := item.x, y := item.y, w := item.w, h := item.h)
  }

  /** `onLayoutChange`: the same instances, in the same order, with the
      same keys and contents, each placed as the reported layout says. */
  function OnLayoutChange(instances: seq<Instance>, newLayout: seq<LayoutItem>): (r: seq<Instance>)
    ensures |r| == |instances|
    ensures forall k :: 0 <= k < |r| ==> r[k].i == instances[k].i && r[k].content == instances[k].content
    ensures forall k :: 0 <= k < |r| && (forall j :: 0 <= j < |newLayout| ==> newLayout[j].i != instances[k].i) ==> r[k] == instances[k]
  {
    seq(|instances|, k requires 0 <= k < |instances| => Merge(instances[k], newLayout))
  }

  /** An instance whose key first appears at `j` in the reported layout
      takes that item's position and size. */
  lemma FirstItemPlaces(instances: seq<Instance>, newLayout: seq<LayoutItem>, k: nat, j: nat)
    requires k < |instances| && j < |newLayout| && newLayout[j].i == instances[k].i
    requires forall l :: 0 <= l < j ==> newLayout[l].i != instances[k].i
    ensures var (r, item) := (OnLayoutChange(instances, newLayout)[k], newLayout[j]);
            r.x == item.x && r.y == item.y && r.w == item.w && r.h == item.h
  {
    FindFirst(newLayout, (item: LayoutItem) => item.i == instances[k].i, j);
  }

  /** Applying the same reported layout twice is applying it once. */
  lemma OnLayoutChangeIdempotent(instances: seq<Instance>, newLayout: seq<LayoutItem>)
    ensures OnLayoutChange(OnLayoutChange(instances, newLayout), newLayout) == OnLayoutChange(instances, newLayout)
  {
    var once := OnLayoutChange(instances, newLayout);
    var twice := OnLayoutChange(once, newLayout);
    forall k | 0 <= k < |once| ensures twice[k] == once[k] {
      assert Placed(newLayout, once[k].i) == Placed(newLayout, instances[k].i);
    }
  }

  /** With distinct keys, reporting back the dashboard's own layout
      changes nothing. */
  lemma OwnLayoutChangesNothing(instances: seq<Instance>)
    requires DistinctKeys(instances)
    ensures OnLayoutChange(instances, LayoutOf(instances)) == instances
  {
    var layout := LayoutOf(instances);
    var r := OnLayoutChange(instances, layout);
    forall k | 0 <= k < |instances| ensures r[k] == instances[k] {
      FirstItemPlaces(instances, layout, k, k);
    }
  }

  /** With a repeated key, the later instance is moved onto the earlier
      one's place when the own layout is reported back. */
  lemma RepeatedKeyTakesFirstPlace(a: Instance, b: Instance)
    requires a.i == b.i && a.x != b.x
    ensures OnLayoutChange([a, b], LayoutOf([a, b]))[1].x == a.x
    ensures OnLayoutChange([a, b], LayoutOf([a, b])) != [a, b]
  {
    FirstItemPlaces([a, b], LayoutOf([a, b]), 1, 0);
  }

  // ---------------------------------------------------------------------
  // addWidget

  /** The grid has twelve columns and a new instance is four wide and two
      high. */
  const GridColumns := 12
  const NewWidth := 4
  const NewHeight := 2

  /** The instance `addWidget` appends when `count` instances are shown and
      the clock reads `now` milliseconds. */
  function NewInstance(count: nat, now: nat): (r: Instance)
    ensures r.x == (count * NewWidth) % GridColumns && r.x in {0, 4, 8}
    ensures r.y == Infinity && r.w == NewWidth && r.h == NewHeight
    ensures r.i == "widget-" + Decimal(now)
  {
    Instance("widget-" + Decimal(now), (count * NewWidth) % GridColumns, Infinity, NewWidth, NewHeight, "A newly added widget.")
  }

  /** `addWidget`: the instances unchanged, then the new one. */
  function AddWidget(instances: seq<Instance>, now: nat): (r: seq<Instance>)
    ensures |r| == |instances| + 1 && r[..|instances|] == instances
    ensures r[|instances|] == NewInstance(|instances|, now)
  {
    instances + [NewInstance(|instances|, now)]
  }

  /** New instances fill the columns left to right, three to a row. */
  lemma NewColumnsCycle(count: nat, now: nat, later: nat)
    ensures NewInstance(count + 3, later).x == NewInstance(count, now).x
    ensures count % 3 == 0 ==> NewInstance(count, now).x == 0
    ensures count % 3 == 1 ==> NewInstance(count, now).x == 4
    ensures count % 3 == 2 ==> NewInstance(count, now).x == 8
  {
  }

  /** Adds at different clock readings give different keys. */
  lemma NewKeysDiffer(count: nat, other: nat, now: nat, later: nat)
    requires now != later
    ensures NewInstance(count, now).i != NewInstance(other, later).i
  {
    var (p, q) := ("widget-" + Decimal(now), "widget-" + Decimal(later));
    if p == q {
      assert Decimal(now) == p[|"widget-"|..] == q[|"widget-"|..] == Decimal(later);
      DecimalInjective(now, later);
    }
  }

  /** Adding keeps keys distinct when the new key is not yet used. */
  lemma AddKeepsKeysDistinct(instances: seq<Instance>, now: nat)
    requires DistinctKeys(instances)
    requires forall k :: 0 <= k < |instances| ==> instances[k].i != NewInstance(|instances|, now).i
    ensures DistinctKeys(AddWidget(instances, now))
  {
    var r := AddWidget(instances, now);
    forall k, j | 0 <= k < j < |r| ensures r[k].i != r[j].i {
      assert r[k] == instances[k];
      if j < |instances| { assert r[j] == instances[j]; }
    }
  }

  /** The starting instances have distinct keys, fill one row, and the
      next added instance starts a new row at the left edge. */
  lemma InitialLayout(now: nat)
    ensures DistinctKeys(InitialInstances)
    ensures forall k :: 0 <= k < |InitialInstances| ==> InitialInstances[k].x == NewInstance(k, now).x
    ensures AddWidget(InitialInstances, now)[3].x == 0
  {
  }

  // ---------------------------------------------------------------------
  // The title

  /** The title bar: the shown name, whether it is being edited, the text
      in the edit box, and whether the layout is unlocked. */
  datatype TitleState = TitleState(name: string, editing: bool, editValue: string, editable: bool)

  /** The starting title: not editing, the box holding the name, unlocked. */
  const InitialTitle := TitleState("My New Dashboard", false, "My New Dashboard", true)

  /** `handleSaveTitle`: the trimmed text becomes the name unless it is
      blank, and editing ends either way. */
  function HandleSaveTitle(s: TitleState): (r: TitleState)
    ensures !r.editing && r.editValue == s.editValue && r.editable == s.editable
    ensures AllTrimmed(s.editValue) ==> r.name == s.name
    ensures !AllTrimmed(s.editValue) ==> r.name == Trim(s.editValue) && r.name != []
  {
    var t := Trim(s.editValue);
    if t != [] then s.(name := t, editing := false) else s.(editing := false)
  }

  /** A name that is not blank stays not blank through any save. */
  lemma SavedNameNeverBlank(s: TitleState)
    requires !AllTrimmed(s.name)
    ensures !AllTrimmed(HandleSaveTitle(s).name)
  {
    var t := Trim(s.editValue);
    if t != [] {
      assert !IsTrimmed(t[0]);
    }
  }

  /** A saved name carries no surrounding white space unless it was kept
      from before. */
  lemma SavedNameTrimmed(s: TitleState)
    requires !AllTrimmed(s.editValue)
    ensures Trim(HandleSaveTitle(s).name) == HandleSaveTitle(s).name
  {
    TrimIdempotent(s.editValue);
  }

  /** Saving twice is saving once. */
  lemma SaveTitleIdempotent(s: TitleState)
    ensures HandleSaveTitle(HandleSaveTitle(s)) == HandleSaveTitle(s)
  {
    TrimIdempotent(s.editValue);
  }

  /** A double-click on the title: editing starts only when the layout is
      unlocked. */
  function DoubleClick(s: TitleState): (r: TitleState)
    ensures r.editing <==> s.editing || s.editable
    ensures r.name == s.name && r.editValue == s.editValue && r.editable == s.editable
  {
    if s.editable then s.(editing := true) else s
  }

  /** The lock button flips whether the layout is unlocked. */
  function ToggleLock(s: TitleState): (r: TitleState)
    ensures r.editable != s.editable
    ensures r.name == s.name && r.editing == s.editing && r.editValue == s.editValue
  {
    s.(editable := !s.editable)
  }

  /** A locked dashboard ignores the double-click; pressing the lock
      button twice restores the state. */
  lemma LockedTitleIgnoresDoubleClick(s: TitleState)
    ensures !s.editable ==> DoubleClick(s) == s
    ensures ToggleLock(ToggleLock(s)) == s
  {
  }
}
