/** `AlpineIntegration` (and the same steps inside the legacy element class of
    lib/main.ts): the reactive responsive state, the merge of an element's own
    `x-data` into it, and its publication through `window.twindScopeDataStore`.

    The evaluation of `x-data` text by `new Function(...)` is outside the model:
    its outcome is an input. The reactive proxy is modelled as a plain object whose
    breakpoint flags are computed from the current width on every read. */
module AlpineIntegration {
  import opened Optional
  import opened Variants
  import opened Breakpoints
  import opened XData
  import opened Publication
  import opened DataManagement

  /** A JavaScript value as far as the merge observes it. `Primitive` is a number,
      string or boolean, shown by its literal text; `Object` and `Callable` carry
      their own enumerable properties; `Callable` also carries what calling it
      with no arguments does. */
  datatype JsValue =
    | Nullish
    | Primitive(literal: string)
    | Object(props: map<string, Prop>)
    | Callable(ownProps: map<string, Prop>, call: Completion)

  /** A property descriptor: a plain value, or an accessor whose getter (given by
      its source text) runs on every read. */
  datatype Prop = Plain(value: JsValue) | Accessor(getter: string)

  /** A completed evaluation: a value, or a thrown exception. */
  datatype Completion = Normal(result: JsValue) | Thrown

  /** The own properties the reactive object defines itself. */
  const ResponsiveNames: set<string> := {"windowWidth", "windowHeight", "isMobile", "isTablet", "isDesktop"}

  /** Names every object answers `in` for through `Object.prototype`. */
  const ObjectPrototypeNames: set<string> :=
    {"constructor", "hasOwnProperty", "isPrototypeOf", "propertyIsEnumerable", "toString",
     "toLocaleString", "valueOf", "__proto__", "__defineGetter__", "__defineSetter__",
     "__lookupGetter__", "__lookupSetter__"}

  /** A name `key in alpineData` holds for before any user property is added. */
  predicate Reserved(name: string)
  {
    name in ResponsiveNames || name in ObjectPrototypeNames
  }

  /** The value of a view state: dimensions, resolved thresholds, and the
      properties merged in from the element's own `x-data`. */
  datatype StateView = StateView(windowWidth: int, windowHeight: int, thresholds: Thresholds, userProps: map<string, Prop>)

  /** What reading a property of the view state yields. */
  datatype Observed = Number(n: int) | Flag(b: bool) | UserProp(prop: Prop) | Inherited | Missing

  /** Reading `name`: the responsive properties first (the flags computed from the
      current width), then merged properties, then `Object.prototype`. */
  function Lookup(v: StateView, name: string): Observed
  {
    if name == "windowWidth" then Number(v.windowWidth)
    else if name == "windowHeight" then Number(v.windowHeight)
    else if name == "isMobile" then Flag(FlagsAt(v.windowWidth, v.thresholds).isMobile)
    else if name == "isTablet" then Flag(FlagsAt(v.windowWidth, v.thresholds).isTablet)
    else if name == "isDesktop" then Flag(FlagsAt(v.windowWidth, v.thresholds).isDesktop)
    else if name in v.userProps then UserProp(v.userProps[name])
    else if name in ObjectPrototypeNames then Inherited
    else Missing
  }

  /** `key in alpineData`. */
  predicate Has(v: StateView, name: string)
  {
    Reserved(name) || name in v.userProps
  }

  /** The merge: every declared property the state does not already have is
      copied with its own descriptor; nothing present is overwritten. */
  function Merged(own: map<string, Prop>, declared: map<string, Prop>): (r: map<string, Prop>)
    ensures forall k :: k in own ==> k in r && r[k] == own[k]
    ensures forall k :: k in declared && !Reserved(k) && k !in own ==> k in r && r[k] == declared[k]
    ensures forall k :: k in r ==> k in own || (k in declared && !Reserved(k))
  {
    own + map k | k in declared && !Reserved(k) && k !in own :: declared[k]
  }

  /** Merging a state that has no reserved user property keeps it so. */
  predicate WellFormed(v: StateView)
  {
    forall k :: k in v.userProps ==> !Reserved(k)
  }

  function MergeInto(v: StateView, declared: map<string, Prop>): StateView
  {
    v.(userProps := Merged(v.userProps, declared))
  }

  /** Collision law: the responsive properties and the inherited names read the
      same after a merge as before, whatever the declared state holds. */
  lemma {:induction false} MergeKeepsReserved(v: StateView, declared: map<string, Prop>, name: string)
    requires WellFormed(v)
    requires Reserved(name)
    ensures WellFormed(MergeInto(v, declared))
    ensures Lookup(MergeInto(v, declared), name) == Lookup(v, name)
  {
    var m := MergeInto(v, declared);
    assert name !in m.userProps;
    assert name !in v.userProps;
  }

  /** Additive law: a declared property that was missing reads as the declared
      descriptor afterwards, so an accessor stays an accessor. */
  lemma MergeAddsDeclared(v: StateView, declared: map<string, Prop>, name: string)
    requires name in declared && !Has(v, name)
    ensures Lookup(MergeInto(v, declared), name) == UserProp(declared[name])
  {
  }

  /** A property merged earlier is never replaced by a later merge. */
  lemma MergeNeverOverwrites(v: StateView, declared: map<string, Prop>, name: string)
    requires name in v.userProps && !Reserved(name)
    ensures Lookup(MergeInto(v, declared), name) == Lookup(v, name)
  {
  }

  /** A declared property named like an `Object.prototype` member (`toString`,
      `valueOf`, `constructor`, ...) is never merged: `in` already holds for it. */
  lemma MergeSkipsPrototypeNames(v: StateView, declared: map<string, Prop>, name: string)
    requires WellFormed(v)
    requires name in ObjectPrototypeNames && name in declared
    ensures Lookup(MergeInto(v, declared), name) == Inherited
  {
    assert name !in ResponsiveNames;
  }

  /** Merging the same declaration twice is the same as merging it once. */
  lemma {:induction false} MergeIdempotent(own: map<string, Prop>, declared: map<string, Prop>)
    ensures Merged(Merged(own, declared), declared) == Merged(own, declared)
  {
    var once := Merged(own, declared);
    var twice := Merged(once, declared);
    assert twice.Keys == once.Keys;
  }

  /** The declared value `mergeWithExistingData` works on, or `None` when
      evaluating the text, calling the factory or `Object.keys` throws. Function
      shaped text is called when it evaluates to something callable and used as
      is otherwise; object and expression text is used as is. */
  function DeclaredProps(kind: XDataType, evaluated: Completion): (r: Option<map<string, Prop>>)
    ensures evaluated.Thrown? ==> r.None?
    ensures evaluated.Normal? && evaluated.result.Nullish? ==> r.None?
    ensures evaluated.Normal? && evaluated.result.Object? ==> r == Some(evaluated.result.props)
    ensures evaluated.Normal? && evaluated.result.Primitive? ==> r == Some(map[])
    ensures evaluated.Normal? && evaluated.result.Callable? && kind != FunctionData ==> r == Some(evaluated.result.ownProps)
    ensures evaluated.Normal? && evaluated.result.Callable? && kind == FunctionData && evaluated.result.call.Thrown? ==> r.None?
    ensures (evaluated.Normal? && evaluated.result.Callable? && kind == FunctionData && evaluated.result.call.Normal?
             && evaluated.result.call.result.Object?) ==> r == Some(evaluated.result.call.result.props)
    ensures (evaluated.Normal? && evaluated.result.Callable? && kind == FunctionData && evaluated.result.call.Normal?
             && evaluated.result.call.result.Nullish?) ==> r.None?
    ensures (evaluated.Normal? && evaluated.result.Callable? && kind == FunctionData && evaluated.result.call.Normal?
             && evaluated.result.call.result.Primitive?) ==> r == Some(map[])
    ensures (evaluated.Normal? && evaluated.result.Callable? && kind == FunctionData && evaluated.result.call.Normal?
             && evaluated.result.call.result.Callable?) ==> r == Some(evaluated.result.call.result.ownProps)
  {
    var value :=
      match evaluated
      case Thrown => Thrown
      case Normal(v) => if kind == FunctionData && v.Callable? then v.call else Normal(v);
    match value
    case Thrown => None
    case Normal(Nullish) => None
    case Normal(Primitive(_)) => Some(map[])
    case Normal(Object(props)) => Some(props)
    case Normal(Callable(props, _)) => Some(props)
  }

  /** Scenario: a factory returning `{ count: 0, get label() {...} }` merged at
      width 1300 keeps `count`, keeps `label` as an accessor, and reports desktop. */
  lemma FactoryScenario(count: JsValue, getter: string)
    ensures
      var factory := Callable(map[], Normal(Object(map["count" := Plain(count), "label" := Accessor(getter)])));
      var d := DeclaredProps(FunctionData, Normal(factory));
      var v := StateView(1300, 800, Resolve(None), map[]);
      d.Some? &&
      Lookup(MergeInto(v, d.value), "count") == UserProp(Plain(count)) &&
      Lookup(MergeInto(v, d.value), "label") == UserProp(Accessor(getter)) &&
      Lookup(MergeInto(v, d.value), "isDesktop") == Flag(true)
  {
  }

  /** The reactive state object. */
  class ViewState {
    var windowWidth: int
    var windowHeight: int
    const thresholds: Thresholds
    var userProps: map<string, Prop>

    function View(): StateView
      reads this
    {
      StateView(windowWidth, windowHeight, thresholds, userProps)
    }

    /** `createResponsiveData`'s object: the given dimensions, the flag getters
        over the given thresholds, and no other property. */
    constructor(width: int, height: int, thresholds: Thresholds)
      ensures View() == StateView(width, height, thresholds, map[])
    {
      windowWidth := width;
      windowHeight := height;
      this.thresholds := thresholds;
      userProps := map[];
    }

    /** The merge loop: for each declared key, define it unless `key in alpineData`. */
    method MergeDeclared(declared: map<string, Prop>)
      modifies this
      ensures View() == MergeInto(old(View()), declared)
    {
      var keys := declared.Keys;
      while keys != {}
        invariant keys <= declared.Keys
        invariant windowWidth == old(windowWidth) && windowHeight == old(windowHeight)
        invariant userProps == Merged(old(userProps), map k | k in declared && k !in keys :: declared[k])
        decreases keys
      {
        var key :| key in keys;
        ghost var before := map k | k in declared && k !in keys :: declared[k];
        if !Has(View(), key) {
          userProps := userProps[key := declared[key]];
        }
        keys := keys - {key};
        assert (map k | k in declared && k !in keys :: declared[k]) == before[key := declared[key]];
      }
      assert (map k | k in declared && k !in keys :: declared[k]) == declared;
    }
  }

  /** `createResponsiveData`: a fresh state at the given dimensions, with the
      thresholds resolved from the configuration (modular build) or fixed at
      768/1280 (legacy build). */
  method CreateResponsiveData(width: int, height: int, config: Option<BreakpointConfig>, variant: Variant) returns (data: ViewState)
    ensures fresh(data)
    ensures data.View() == StateView(width, height, if variant == Modular then Resolve(config) else LegacyThresholds, map[])
  {
    data := new ViewState(width, height, if variant == Modular then Resolve(config) else LegacyThresholds);
  }

  /** The element that carries the scope's markup: the first element child of the
      shadow root. */
  class RootElement {
    /** The `x-data` attribute. */
    var xData: Option<string>
    /** `dataset.twindDataKey`. */
    var twindDataKey: Option<string>
    /** The `__x_data` hook. */
    var xDataHook: ViewState?
    /** `classList`, in insertion order. */
    var classes: seq<string>
    var id: string

    constructor(xData: Option<string>)
      ensures this.xData == xData && twindDataKey == None && xDataHook == null
      ensures classes == [] && id == ""
    {
      this.xData := xData;
      twindDataKey := None;
      xDataHook := null;
      classes := [];
      id := "";
    }
  }

  /** `setElementData`: bind the hook, publish `data` under the key minted from
      `keySuffix`, point `x-data` at it, and (modular build only) record the key
      on the element. */
  method SetElementData(element: RootElement, data: ViewState, keySuffix: string, store: ScopeDataStore<ViewState>, variant: Variant)
    modifies element, store
    ensures element.xDataHook == data
    ensures store.table == Publish(old(store.table), DataKey(keySuffix), data)
    ensures element.xData == Some(XDataReference(DataKey(keySuffix)))
    ensures element.twindDataKey == if variant == Modular then Some(DataKey(keySuffix)) else old(element.twindDataKey)
    ensures element.classes == old(element.classes) && element.id == old(element.id)
  {
    element.xDataHook := data;
    var dataKey := DataKey(keySuffix);
    if store.table.None? {
      store.table := Some(map[]);
    }
    store.table := Some(store.table.value[dataKey := data]);
    if variant == Modular {
      element.twindDataKey := Some(dataKey);
    }
    element.xData := Some(XDataReference(dataKey));
  }

  /** `mergeWithExistingData`: classify the trimmed text, merge the declared
      properties when they could be obtained, and publish `alpineData` either way. */
  method MergeWithExistingData(element: RootElement, existingXData: string, alpineData: ViewState,
                               evaluated: Completion, keySuffix: string, store: ScopeDataStore<ViewState>, variant: Variant)
    modifies element, alpineData, store
    ensures var d := DeclaredProps(DetectXDataType(Trim(existingXData)), evaluated);
      alpineData.View() == if d.Some? then MergeInto(old(alpineData.View()), d.value) else old(alpineData.View())
    ensures element.xDataHook == alpineData
    ensures store.table == Publish(old(store.table), DataKey(keySuffix), alpineData)
    ensures element.xData == Some(XDataReference(DataKey(keySuffix)))
    ensures element.twindDataKey == if variant == Modular then Some(DataKey(keySuffix)) else old(element.twindDataKey)
    ensures element.classes == old(element.classes) && element.id == old(element.id)
  {
    var trimmedData := Trim(existingXData);
    var dataType := DetectXDataType(trimmedData);
    var declared := DeclaredProps(dataType, evaluated);
    if declared.Some? {
      alpineData.MergeDeclared(declared.value);
    }
    SetElementData(element, alpineData, keySuffix, store, variant);
  }

  /** `cleanupTwindScopeDataStore`: when the element records a key and the table
      exists, remove exactly that key and the record, dropping the table once
      empty; otherwise change nothing. */
  method CleanupTwindScopeDataStore(element: RootElement, store: ScopeDataStore<ViewState>)
    modifies element, store
    ensures var k := old(element.twindDataKey);
      if k.Some? && k.value != "" && old(store.table).Some? then
        store.table == Revoke(old(store.table), k.value) && element.twindDataKey == None
      else
        store.table == old(store.table) && element.twindDataKey == old(element.twindDataKey)
    ensures element.xData == old(element.xData) && element.xDataHook == old(element.xDataHook)
    ensures element.classes == old(element.classes) && element.id == old(element.id)
  {
    var dataKey := element.twindDataKey;
    if dataKey.Some? && dataKey.value != "" && store.table.Some? {
      store.table := Some(store.table.value - {dataKey.value});
      element.twindDataKey := None;
      if store.table.value.Keys == {} {
        store.table := None;
      }
    }
  }

  /** The declared properties an element's `x-data` attribute contributes: none
      when the attribute is absent or empty, or when obtaining them throws. */
  function AttributeDeclares(xData: Option<string>, evaluated: Completion): Option<map<string, Prop>>
  {
    if xData.Some? && xData.value != "" then DeclaredProps(DetectXDataType(Trim(xData.value)), evaluated) else None
  }

  /** The state after merging what the attribute declares, if anything. */
  function WithDeclared(v: StateView, d: Option<map<string, Prop>>): StateView
  {
    if d.Some? then MergeInto(v, d.value) else v
  }

  /** The tail of `setupAlpineData`: merge with existing `x-data` text when the
      attribute is non-empty, otherwise publish directly. */
  method BindToElement(root: RootElement, data: ViewState, evaluated: Completion, keySuffix: string,
                       store: ScopeDataStore<ViewState>, variant: Variant)
    modifies root, data, store
    ensures data.View() == WithDeclared(old(data.View()), AttributeDeclares(old(root.xData), evaluated))
    ensures root.xDataHook == data
    ensures store.table == Publish(old(store.table), DataKey(keySuffix), data)
    ensures root.xData == Some(XDataReference(DataKey(keySuffix)))
    ensures root.twindDataKey == if variant == Modular then Some(DataKey(keySuffix)) else old(root.twindDataKey)
    ensures root.classes == old(root.classes) && root.id == old(root.id)
  {
    var existingXData := root.xData;
    if existingXData.Some? && existingXData.value != "" {
      MergeWithExistingData(root, existingXData.value, data, evaluated, keySuffix, store, variant);
    } else {
      SetElementData(root, data, keySuffix, store, variant);
    }
  }

  /** `setupAlpineData` (the static of the modular build): nothing without a first
      element child; otherwise create the state, register it under `instanceId`,
      and merge or publish it. */
  method SetupAlpineData<E(==)>(root: RootElement?, instanceId: string, config: Option<BreakpointConfig>,
                                width: int, height: int, evaluated: Completion, keySuffix: string,
                                dm: DataManager<E, ViewState>, variant: Variant) returns (alpineData: ViewState?)
    modifies dm, dm.store, root
    ensures root == null ==> alpineData == null
    ensures root == null ==> dm.responsiveDataMap == old(dm.responsiveDataMap) && dm.store.table == old(dm.store.table)
    ensures root != null ==> alpineData != null && fresh(alpineData)
    ensures root != null ==> dm.responsiveDataMap == old(dm.responsiveDataMap)[instanceId := alpineData]
    ensures root != null ==> root.xDataHook == alpineData
    ensures root != null ==> dm.store.table == Publish<ViewState>(old(dm.store.table), DataKey(keySuffix), alpineData)
    ensures root != null ==>
      (alpineData.View() ==
       WithDeclared(StateView(width, height, if variant == Modular then Resolve(config) else LegacyThresholds, map[]),
                    AttributeDeclares(old(root.xData), evaluated)))
    ensures dm.instances == old(dm.instances)
    ensures dm.cleanupTimer == old(dm.cleanupTimer) && dm.unloadListenerAdded == old(dm.unloadListenerAdded)
    ensures dm.liveIntervals == old(dm.liveIntervals) && dm.unloadListeners == old(dm.unloadListeners)
  {
    if root == null {
      return null;
    }
    var data := CreateResponsiveData(width, height, config, variant);
    dm.SetResponsiveData(instanceId, data);
    BindToElement(root, data, evaluated, keySuffix, dm.store, variant);
    alpineData := data;
  }
}
