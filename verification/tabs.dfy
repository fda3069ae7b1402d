/** The `Tabs` component family: `Tabs` owns the selected value unless its
    parent controls it through the `value` prop; `TabsTrigger` and
    `TabsContent` read the value `Tabs` provides through the React context. */
module Tabs {
  import opened Wrappers

  /** What `Tabs` puts in the context: the current value. */
  datatype Context = Context(current: Option<string>)

  const TriggerOutside: string := "TabsTrigger must be used within a Tabs component"
  const ContentOutside: string := "TabsContent must be used within a Tabs component"

  /** `TabsTrigger` styling: active iff its value is the current one; used
      outside `Tabs` (no context) it throws. */
  function TriggerActive(ctx: Option<Context>, v: string): (r: Result<bool, string>)
    ensures r.Err? <==> ctx.None?
    ensures r.Err? ==> r.error == TriggerOutside
    ensures r.Ok? ==> (r.value <==> ctx.value.current == Some(v))
  {
    match ctx
    case None => Err(TriggerOutside)
    case Some(c) => Ok(c.current == Some(v))
  }

  /** `TabsTrigger` click: the value it asks `Tabs` to switch to. */
  function TriggerClick(ctx: Option<Context>, v: string): (r: Result<string, string>)
    ensures r.Err? <==> ctx.None?
    ensures r.Ok? ==> r.value == v
  {
    match ctx
    case None => Err(TriggerOutside)
    case Some(_) => Ok(v)
  }

  /** `TabsContent`: rendered iff its value is the current one; used outside
      `Tabs` it throws. */
  function ContentVisible(ctx: Option<Context>, v: string): (r: Result<bool, string>)
    ensures r.Err? <==> ctx.None?
    ensures r.Err? ==> r.error == ContentOutside
    ensures r.Ok? ==> (r.value <==> ctx.value.current == Some(v))
  {
    match ctx
    case None => Err(ContentOutside)
    case Some(c) => if c.current != Some(v) then Ok(false) else Ok(true)
  }

  /** Inside `Tabs`, a trigger is styled active exactly when the content
      panel with the same value is rendered. */
  lemma ActiveTriggerShowsItsContent(c: Context, v: string)
    ensures TriggerActive(Some(c), v).Ok? && ContentVisible(Some(c), v).Ok?
    ensures TriggerActive(Some(c), v).value == ContentVisible(Some(c), v).value
  {
  }

  /** At most one value is current, so at most one panel is rendered. */
  lemma OnePanelAtATime(c: Context, v: string, w: string)
    requires ContentVisible(Some(c), v) == Ok(true) && ContentVisible(Some(c), w) == Ok(true)
    ensures v == w
  {
  }

  /** A `Tabs` instance: its `selectedValue` state, the `value` prop its
      parent passes (`None` when uncontrolled), whether an `onValueChange`
      prop was given, and the values that callback has received. */
  class TabsState {
    var selected: Option<string>
    var value: Option<string>
    const hasCallback: bool
    var notified: seq<string>

    /** `tabs.tsx`: `defaultValue` defaults to "". */
    constructor Typed(defaultValue: Option<string>, value: Option<string>, hasCallback: bool)
      ensures selected == Some(defaultValue.GetOr(""))
      ensures this.value == value && this.hasCallback == hasCallback && notified == []
    {
      selected := Some(defaultValue.GetOr(""));
      this.value := value;
      this.hasCallback := hasCallback;
      notified := [];
    }

    /** `tabs.jsx`: no default, so an omitted `defaultValue` leaves the state undefined. */
    constructor Untyped(defaultValue: Option<string>, value: Option<string>, hasCallback: bool)
      ensures selected == defaultValue
      ensures this.value == value && this.hasCallback == hasCallback && notified == []
    {
      selected := defaultValue;
      this.value := value;
      this.hasCallback := hasCallback;
      notified := [];
    }

    /** `currentValue`: the prop when it is defined, the state otherwise. */
    function CurrentValue(): (r: Option<string>)
      reads this
      ensures value.Some? ==> r == value
      ensures value.None? ==> r == selected
    {
      if value.Some? then value else selected
    }

    function Provided(): Context
      reads this
    {
      Context(CurrentValue())
    }

    /** `handleValueChange`: the state follows only when uncontrolled; the
      callback, when given, hears of every change. */
    method HandleValueChange(newValue: string)
      modifies this
      ensures value == old(value)
      ensures old(value).None? ==> selected == Some(newValue)
      ensures old(value).Some? ==> selected == old(selected)
      ensures notified == old(notified) + (if hasCallback then [newValue] else [])
      ensures old(value).None? ==> CurrentValue() == Some(newValue)
      ensures old(value).Some? ==> CurrentValue() == old(CurrentValue())
    {
      if value.None? {
        selected := Some(newValue);
      }
      if hasCallback {
        notified := notified + [newValue];
      }
    }

    /** A click on the trigger for `v`: uncontrolled, its panel is then the
      one rendered; controlled, nothing shown changes until the parent
      passes a new `value`. */
    method ClickTrigger(v: string)
      modifies this
      ensures old(value).None? ==> ContentVisible(Some(Provided()), v) == Ok(true)
      ensures old(value).Some? ==> Provided() == old(Provided())
      ensures value == old(value)
      ensures old(value).None? ==> selected == Some(v)
      ensures old(value).Some? ==> selected == old(selected)
      ensures notified == old(notified) + (if hasCallback then [v] else [])
    {
      var requested := TriggerClick(Some(Provided()), v);
      HandleValueChange(requested.value);
    }

    /** The parent re-renders with a new `value` prop. */
    method SetValueProp(v: Option<string>)
      modifies this
      ensures value == v && selected == old(selected) && notified == old(notified)
    {
      value := v;
    }
  }
}
