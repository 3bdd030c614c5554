/** The `<twind-scope>` element (lib/twind-scope.ts, and the older all-in-one class
    of lib/main.ts): its instance id, the wiring of its responsive state into the
    registry, the broadcaster and the publication table, and the class and id it
    copies from its `data-props` JSON onto the element it wraps. */
module TwindScopeElement {
  import opened Optional
  import opened Variants
  import opened Breakpoints
  import opened Publication
  import opened DataManagement
  import opened ResizeManagement
  import opened AlpineIntegration
  import opened Sequences

  // ---------------------------------------------------------------------------
  // `data-props`

  /** A member value of the parsed JSON: a string, `null`, or anything else (a
      number, boolean, array or object) given by its `String(...)` text. */
  datatype JsonValue = JStr(s: string) | JNull | JOther(text: string)

  /** `this.props`: an object with or without `type` and `id`, or a truthy primitive
      (a non-empty string, a non-zero number, `true`), on which `in` throws. */
  datatype Props = PropsObject(typ: Option<JsonValue>, id: Option<JsonValue>) | PropsPrimitive

  /** What `JSON.parse(this.dataset.props ?? '{}')` produces: a syntax error, a falsy
      value (replaced by `{}`), an object (arrays included, which have neither key),
      or a truthy primitive. */
  datatype JsonDoc = ParseFailure | FalsyDoc | ObjectDoc(typ: Option<JsonValue>, id: Option<JsonValue>) | TruthyPrimitive

  /** The new `props`: a parse failure is caught and keeps the previous value. */
  function PropsAfterParse(current: Props, doc: JsonDoc): (p: Props)
    ensures doc.ParseFailure? ==> p == current
    ensures doc.FalsyDoc? ==> p == PropsObject(None, None)
    ensures doc.ObjectDoc? ==> p == PropsObject(doc.typ, doc.id)
    ensures doc.TruthyPrimitive? ==> p == PropsPrimitive
  {
    match doc
    case ParseFailure => current
    case FalsyDoc => PropsObject(None, None)
    case ObjectDoc(t, i) => PropsObject(t, i)
    case TruthyPrimitive => PropsPrimitive
  }

  /** `String(v)` (and `v + ''`) of a member that may be missing. */
  function Display(v: Option<JsonValue>): string
  {
    match v
    case None => "undefined"
    case Some(JStr(s)) => s
    case Some(JNull) => "null"
    case Some(JOther(t)) => t
  }

  // ---------------------------------------------------------------------------
  // `split(' ')`

  /** The first index at or after `k` holding a space, or `|s|`. */
  function SpaceIndex(s: string, k: nat): (n: nat)
    requires k <= |s|
    ensures k <= n <= |s|
    ensures forall j :: k <= j < n ==> s[j] != ' '
    ensures n < |s| ==> s[n] == ' '
    decreases |s| - k
  {
    if k == |s| || s[k] == ' ' then k else SpaceIndex(s, k + 1)
  }

  /** Joining pieces with single spaces. */
  function Join(pieces: seq<string>): string
    requires |pieces| >= 1
  {
    if |pieces| == 1 then pieces[0] else pieces[0] + " " + Join(pieces[1..])
  }

  /** `String.prototype.split(' ')`: the maximal space-free pieces between single
      spaces, empty pieces included; joining them back gives the input. */
  function Split(s: string): (r: seq<string>)
    ensures |r| >= 1
    ensures forall i :: 0 <= i < |r| ==> ' ' !in r[i]
    ensures forall i, j :: 0 <= i < |r| && 0 <= j < |r[i]| ==> r[i][j] in s
    ensures Join(r) == s
    decreases |s|
  {
    var n := SpaceIndex(s, 0);
    if n == |s| then
      assert forall j :: 0 <= j < |s| ==> s[j] != ' ';
      [s]
    else
      var rest := Split(s[n + 1..]);
      var r := [s[..n]] + rest;
      assert r[1..] == rest;
      assert s == s[..n] + " " + s[n + 1..];
      assert forall i :: 1 <= i < |r| ==> r[i] == rest[i - 1];
      assert forall j :: 0 <= j < n ==> s[..n][j] != ' ';
      assert forall c :: c in s[n + 1..] ==> c in s;
      r
  }

  /** Splitting undoes joining: space-free pieces come back unchanged. */
  lemma {:induction false} SplitJoin(pieces: seq<string>)
    requires |pieces| >= 1
    requires forall i :: 0 <= i < |pieces| ==> ' ' !in pieces[i]
    ensures Split(Join(pieces)) == pieces
    decreases |pieces|
  {
    var p := pieces[0];
    if |pieces| == 1 {
      assert SpaceIndex(p, 0) == |p|;
    } else {
      var tail := Join(pieces[1..]);
      var s := p + " " + tail;
      assert forall j :: 0 <= j < |p| ==> s[j] == p[j] && p[j] in p;
      assert s[|p|] == ' ';
      assert SpaceIndex(s, 0) == |p|;
      assert s[..|p|] == p;
      assert s[|p| + 1..] == tail;
      SplitJoin(pieces[1..]);
    }
  }

  // ---------------------------------------------------------------------------
  // `classList.add`

  /** ASCII white space as the DOM defines it: TAB, LF, FF, CR, SPACE. */
  predicate IsAsciiSpace(c: char)
  {
    c == '\t' || c == '\n' || c == '\U{000C}' || c == '\r' || c == ' '
  }

  predicate HasAsciiSpace(t: string)
  {
    exists i :: 0 <= i < |t| && IsAsciiSpace(t[i])
  }

  /** ASCII white space other than the space character: TAB, LF, FF or CR. */
  predicate HasControlSpace(s: string)
  {
    exists k :: 0 <= k < |s| && IsAsciiSpace(s[k]) && s[k] != ' '
  }

  predicate IsPrefix(a: seq<string>, b: seq<string>)
  {
    |a| <= |b| && b[..|a|] == a
  }

  /** `DOMTokenList.add` of one token: an empty token or one holding ASCII white
      space throws; otherwise the token is appended unless already present. */
  function AddClass(classes: seq<string>, token: string): (r: Option<seq<string>>)
    ensures r.None? <==> token == "" || HasAsciiSpace(token)
    ensures r.Some? ==> forall t :: t in r.value <==> t in classes || t == token
    ensures r.Some? ==> IsPrefix(classes, r.value) && |r.value| <= |classes| + 1
    ensures r.Some? && Distinct(classes) ==> Distinct(r.value)
  {
    if token == "" || HasAsciiSpace(token) then None
    else if token in classes then Some(classes)
    else
      assert (classes + [token])[..|classes|] == classes;
      Some(classes + [token])
  }

  /** `typeArray.forEach(type => type && classList.add(type))`: the classes after
      adding the non-empty tokens in order, and whether an add threw (the tokens
      added before it stay). */
  function AddTokens(classes: seq<string>, tokens: seq<string>): (r: (seq<string>, bool))
    ensures !r.1 <==> forall i :: 0 <= i < |tokens| ==> tokens[i] == "" || !HasAsciiSpace(tokens[i])
    ensures !r.1 ==> forall t :: t in r.0 <==> t in classes || (t in tokens && t != "")
    ensures IsPrefix(classes, r.0)
    ensures Distinct(classes) ==> Distinct(r.0)
    decreases |tokens|
  {
    if tokens == [] then (classes, false)
    else if tokens[0] == "" then
      var r := AddTokens(classes, tokens[1..]);
      assert forall i :: 1 <= i < |tokens| ==> tokens[i] == tokens[1..][i - 1];
      r
    else
      match AddClass(classes, tokens[0])
      case None => (classes, true)
      case Some(c) =>
        var r := AddTokens(c, tokens[1..]);
        assert forall i :: 1 <= i < |tokens| ==> tokens[i] == tokens[1..][i - 1];
        assert r.0[..|classes|] == c[..|c|][..|classes|];
        r
  }

  // ---------------------------------------------------------------------------
  // `attachClassAndId`

  /** The part of the wrapped element that `attachClassAndId` writes. */
  datatype ElementFace = ElementFace(classes: seq<string>, id: string)

  /** The non-empty space-separated tokens of a string `type`, or none. */
  predicate IsTypeToken(typ: Option<JsonValue>, t: string)
  {
    typ.Some? && typ.value.JStr? && t != "" && t in Split(typ.value.s)
  }

  /** The class step of the modular rule, `this.props['type']?.split(' ') || []`
      then one `classList.add` per non-empty token: nothing for an absent or `null`
      `type`, a throw for any other non-string value (it has no `split`), and for a
      string a throw exactly when it holds a TAB, LF, FF or CR. */
  function TypeClasses(typ: Option<JsonValue>, classes: seq<string>): (r: (seq<string>, bool))
    ensures typ.None? || typ == Some(JNull) ==> r == (classes, false)
    ensures typ.Some? && typ.value.JOther? ==> r == (classes, true)
    ensures typ.Some? && typ.value.JStr? ==> (r.1 <==> HasControlSpace(typ.value.s))
    ensures IsPrefix(classes, r.0)
    ensures Distinct(classes) ==> Distinct(r.0)
    ensures !r.1 ==> forall t :: t in r.0 <==> t in classes || IsTypeToken(typ, t)
  {
    if typ.None? || typ == Some(JNull) then (classes, false)
    else if typ.value.JOther? then (classes, true)
    else
      SplitRejectsIff(typ.value.s);
      AddTokens(classes, Split(typ.value.s))
  }

  /** The modular rule: one class per non-empty space-separated token of a string
      `type` (nothing when `type` is absent or `null`, a throw for any other
      non-string value), then the id set to `String(id)` when `id` is present and
      not `''`. `in` on a primitive throws. A string `type` throws exactly when it
      holds a TAB, LF, FF or CR, since such a character lands in a non-empty token. */
  function ModularAttach(p: Props, e: ElementFace): (r: (ElementFace, bool))
    ensures p.PropsPrimitive? ==> r == (e, true)
    ensures p.PropsObject? && p.typ.Some? && p.typ.value.JOther? ==> r == (e, true)
    ensures p.PropsObject? && (p.typ.None? || p.typ == Some(JNull)) ==> !r.1
    ensures p.PropsObject? && p.typ.Some? && p.typ.value.JStr? ==> (r.1 <==> HasControlSpace(p.typ.value.s))
    ensures IsPrefix(e.classes, r.0.classes)
    ensures Distinct(e.classes) ==> Distinct(r.0.classes)
    ensures !r.1 ==> p.PropsObject? && forall t :: t in r.0.classes <==> t in e.classes || IsTypeToken(p.typ, t)
    ensures !r.1 ==> r.0.id == if p.id.Some? && p.id.value != JStr("") then Display(p.id) else e.id
    ensures r.1 ==> r.0.id == e.id
  {
    match p
    case PropsPrimitive => (e, true)
    case PropsObject(typ, id) =>
      var added := TypeClasses(typ, e.classes);
      if added.1 then (e.(classes := added.0), true)
      else if id.Some? && id.value != JStr("") then (ElementFace(added.0, Display(id)), false)
      else (e.(classes := added.0), false)
  }

  /** The legacy rule: `classList.add(type)` with the whole value as one token, then
      the id `type + '-' + id` whenever `id` is present. */
  function LegacyAttach(p: Props, e: ElementFace): (r: (ElementFace, bool))
    ensures p.PropsPrimitive? ==> r == (e, true)
    ensures r.1 <==> p.PropsPrimitive? || (p.typ.Some? && (Display(p.typ) == "" || HasAsciiSpace(Display(p.typ))))
    ensures IsPrefix(e.classes, r.0.classes)
    ensures p.PropsObject? && p.typ.Some? && !r.1 ==>
      forall t :: t in r.0.classes <==> t in e.classes || t == Display(p.typ)
    ensures p.PropsObject? && p.typ.Some? ==>
      (r.0.classes == e.classes <==> r.1 || Display(p.typ) in e.classes)
    ensures p.PropsObject? && p.typ.Some? && !r.1 ==> Display(p.typ) in r.0.classes
    ensures p.PropsObject? && p.typ.None? ==> r.0.classes == e.classes
    ensures !r.1 ==> r.0.id == if p.id.Some? then Display(p.typ) + "-" + Display(p.id) else e.id
    ensures r.1 ==> r.0.id == e.id
  {
    match p
    case PropsPrimitive => (e, true)
    case PropsObject(typ, id) =>
      var added := if typ.Some? then AddClass(e.classes, Display(typ)) else Some(e.classes);
      if added.None? then (e, true)
      else if id.Some? then (ElementFace(added.value, Display(typ) + "-" + Display(id)), false)
      else (e.(classes := added.value), false)
  }

  /** Every non-space character of `s` lands in some piece of `split(' ')`. */
  lemma {:induction false} SplitCovers(s: string, k: nat)
    requires k < |s| && s[k] != ' '
    ensures exists i, j :: 0 <= i < |Split(s)| && 0 <= j < |Split(s)[i]| && Split(s)[i][j] == s[k]
    decreases |s|
  {
    var n := SpaceIndex(s, 0);
    var pieces := Split(s);
    if n == |s| {
      assert pieces == [s];
      assert 0 <= 0 < |pieces| && 0 <= k < |pieces[0]| && pieces[0][k] == s[k];
    } else {
      var tail := s[n + 1..];
      var rest := Split(tail);
      assert pieces == [s[..n]] + rest;
      if k < n {
        assert pieces[0] == s[..n];
        assert 0 <= 0 < |pieces| && 0 <= k < |pieces[0]| && pieces[0][k] == s[k];
      } else {
        assert k != n;
        assert tail[k - n - 1] == s[k];
        SplitCovers(tail, k - n - 1);
        var i, j :| 0 <= i < |rest| && 0 <= j < |rest[i]| && rest[i][j] == s[k];
        assert pieces[i + 1] == rest[i];
        assert 0 <= i + 1 < |pieces| && 0 <= j < |pieces[i + 1]| && pieces[i + 1][j] == s[k];
      }
    }
  }

  /** Some non-empty piece of `split(' ')` holds ASCII white space exactly when the
      string holds a TAB, LF, FF or CR: a `type` spaced with plain spaces is always
      accepted by the modular rule, and one holding any other white space never is. */
  lemma {:induction false} SplitRejectsIff(s: string)
    ensures (exists i :: 0 <= i < |Split(s)| && Split(s)[i] != "" && HasAsciiSpace(Split(s)[i])) <==> HasControlSpace(s)
  {
    var tokens := Split(s);
    if exists i :: 0 <= i < |tokens| && tokens[i] != "" && HasAsciiSpace(tokens[i]) {
      var i :| 0 <= i < |tokens| && tokens[i] != "" && HasAsciiSpace(tokens[i]);
      var j :| 0 <= j < |tokens[i]| && IsAsciiSpace(tokens[i][j]);
      assert tokens[i][j] in s && tokens[i][j] != ' ';
      var k :| 0 <= k < |s| && s[k] == tokens[i][j];
    }
    if HasControlSpace(s) {
      var k :| 0 <= k < |s| && IsAsciiSpace(s[k]) && s[k] != ' ';
      SplitCovers(s, k);
      var i, j :| 0 <= i < |tokens| && 0 <= j < |tokens[i]| && tokens[i][j] == s[k];
      assert HasAsciiSpace(tokens[i]);
    }
  }

  /** `"card  wide".split(' ')` is `["card", "", "wide"]`. */
  lemma SplitExample()
    ensures Split("card  wide") == ["card", "", "wide"]
  {
    assert SpaceIndex("card  wide", 0) == 4;
    assert "card  wide"[5..] == " wide";
    assert "card  wide"[..4] == "card";
    SplitLeadingSpaceExample();
  }

  /** A leading space yields an empty first piece. */
  lemma SplitLeadingSpaceExample()
    ensures Split(" wide") == ["", "wide"]
  {
    assert SpaceIndex(" wide", 0) == 0;
    assert " wide"[1..] == "wide";
    assert SpaceIndex("wide", 0) == 4;
  }

  /** `{"type": "card  wide", "id": 7}`: the modular rule gives classes `card` and
      `wide` and id `7`. */
  lemma ModularAttachExample()
    ensures ModularAttach(PropsObject(Some(JStr("card  wide")), Some(JOther("7"))), ElementFace([], ""))
         == (ElementFace(["card", "wide"], "7"), false)
  {
    TypeClassesExample();
  }

  /** The class step on `"card  wide"`: classes `card` and `wide`, no throw. */
  lemma TypeClassesExample()
    ensures TypeClasses(Some(JStr("card  wide")), []) == (["card", "wide"], false)
  {
    SplitExample();
    AddTokensExample();
  }

  /** Adding `card`, an empty token and `wide` to an empty class list. */
  lemma AddTokensExample()
    ensures AddTokens([], ["card", "", "wide"]) == (["card", "wide"], false)
  {
    assert !HasAsciiSpace("card");
    assert AddClass([], "card") == Some(["card"]);
    assert ["card", "", "wide"][1..] == ["", "wide"];
    assert ["", "wide"][1..] == ["wide"];
    AddLastTokenExample();
  }

  lemma AddLastTokenExample()
    ensures AddTokens(["card"], ["wide"]) == (["card", "wide"], false)
  {
    assert !HasAsciiSpace("wide");
    assert "wide" !in ["card"] by { assert "wide"[0] != "card"[0]; }
    assert ["card"] + ["wide"] == ["card", "wide"];
    assert AddClass(["card"], "wide") == Some(["card", "wide"]);
    assert ["wide"][1..] == [];
  }

  /** The legacy rule passes the whole value to `classList.add`, which throws on
      the space inside it; neither class nor id is written. */
  lemma LegacyAttachExample()
    ensures LegacyAttach(PropsObject(Some(JStr("card  wide")), Some(JOther("7"))), ElementFace([], ""))
         == (ElementFace([], ""), true)
  {
    assert IsAsciiSpace("card  wide"[4]);
  }

  // ---------------------------------------------------------------------------
  // `getInstanceId`

  /** The id `getInstanceId` returns: the cached `dataset.instanceId` when it is a
      non-empty string, otherwise the freshly minted one. */
  function ResolveInstanceId(cached: Option<string>, minted: string): (id: string)
    ensures cached.Some? && cached.value != "" ==> id == cached.value
    ensures (cached.None? || cached.value == "") ==> id == minted
  {
    if cached.Some? && cached.value != "" then cached.value else minted
  }

  /** A second call returns the id cached by the first, whatever it mints, as long
      as that id is non-empty (a minted id is empty only if `Math.random()` returns
      exactly 0). */
  lemma InstanceIdStable(cached: Option<string>, minted: string, mintedLater: string)
    requires (cached.Some? && cached.value != "") || minted != ""
    ensures var id := ResolveInstanceId(cached, minted);
      ResolveInstanceId(Some(id), mintedLater) == id
  {
  }

  // ---------------------------------------------------------------------------
  // The element

  class TwindScope {
    const variant: Variant
    /** `shadowRoot.firstElementChild`. */
    const root: RootElement?
    var props: Props
    var alpineData: ViewState?
    /** `dataset.instanceId`. */
    var datasetInstanceId: Option<string>

    constructor(variant: Variant, root: RootElement?, datasetInstanceId: Option<string>)
      ensures this.variant == variant && this.root == root && this.datasetInstanceId == datasetInstanceId
      ensures props == PropsObject(None, None) && alpineData == null
    {
      this.variant := variant;
      this.root := root;
      this.datasetInstanceId := datasetInstanceId;
      props := PropsObject(None, None);
      alpineData := null;
    }

    /** Writes exactly `windowWidth` and `windowHeight` of the state, when there
        is one; the flags then read from the new width. */
    method UpdateResponsiveData(width: int, height: int)
      modifies alpineData
      ensures alpineData != null ==>
        alpineData.View() == old(alpineData.View()).(windowWidth := width, windowHeight := height)
    {
      if alpineData != null {
        alpineData.windowWidth := width;
        alpineData.windowHeight := height;
      }
    }

    /** Returns the cached id, minting and caching `minted` when none is cached. */
    method GetInstanceId(minted: string) returns (id: string)
      modifies this
      ensures id == ResolveInstanceId(old(datasetInstanceId), minted)
      ensures datasetInstanceId == Some(id)
      ensures props == old(props) && alpineData == old(alpineData)
    {
      if !(datasetInstanceId.Some? && datasetInstanceId.value != "") {
        datasetInstanceId := Some(minted);
      }
      id := datasetInstanceId.value;
    }

    /** Without a wrapped element nothing happens; otherwise the element → id entry
        is recorded, then the state is created, registered, merged and published. */
    method SetupAlpineData(dm: DataManager<TwindScope, ViewState>, config: Option<BreakpointConfig>,
                           width: int, height: int, minted: string, evaluated: Completion, keySuffix: string)
      requires dm.variant == variant
      modifies this, dm, dm.store, root
      ensures root == null ==>
        datasetInstanceId == old(datasetInstanceId) && alpineData == old(alpineData)
        && dm.instances == old(dm.instances) && dm.responsiveDataMap == old(dm.responsiveDataMap)
        && dm.store.table == old(dm.store.table)
      ensures root != null ==>
        var id := ResolveInstanceId(old(datasetInstanceId), minted);
        && datasetInstanceId == Some(id)
        && dm.instances == old(dm.instances)[this := id]
        && alpineData != null && fresh(alpineData)
        && dm.responsiveDataMap == old(dm.responsiveDataMap)[id := alpineData]
        && root.xDataHook == alpineData
        && dm.store.table == Publish<ViewState>(old(dm.store.table), DataKey(keySuffix), alpineData)
        && alpineData.View() ==
             WithDeclared(StateView(width, height, if variant == Modular then Resolve(config) else LegacyThresholds, map[]),
                          AttributeDeclares(old(root.xData), evaluated))
      ensures props == old(props)
      ensures dm.cleanupTimer == old(dm.cleanupTimer) && dm.unloadListenerAdded == old(dm.unloadListenerAdded)
      ensures dm.liveIntervals == old(dm.liveIntervals) && dm.unloadListeners == old(dm.unloadListeners)
    {
      if root == null {
        return;
      }
      var instanceId := GetInstanceId(minted);
      dm.SetInstance(this, instanceId);
      alpineData := AlpineIntegration.SetupAlpineData(root, instanceId, config, width, height, evaluated, keySuffix, dm, variant);
    }

    /** Registers with the shared broadcaster, which pushes the current dimensions
        to this element at once. */
    method SetupResizeListener(slot: ResizeManagerSlot<TwindScope>, width: int, height: int)
      requires slot.instance != null ==> slot.instance.Valid()
      modifies slot, slot.instance, alpineData
      ensures slot.instance != null && slot.instance.Valid()
      ensures this in slot.instance.instances && slot.instance.isListening
      ensures old(slot.instance) != null ==>
        (slot.instance == old(slot.instance) &&
         slot.instance.instances == if this in old(slot.instance.instances) then old(slot.instance.instances)
                                    else old(slot.instance.instances) + [this])
      ensures old(slot.instance) == null ==> slot.instance.instances == [this]
      ensures alpineData != null ==>
        alpineData.View() == old(alpineData.View()).(windowWidth := width, windowHeight := height)
    {
      var rm := slot.GetInstance();
      var delivery := rm.AddInstance(this, width, height, (s: TwindScope) => Updated);
      UpdateResponsiveData(delivery.width, delivery.height);
    }

    /** Always unregisters from the broadcaster. Only when the registry holds a
        non-empty id for this element are that entry, the state under the id and
        (modular build) the published key removed, and the state reference dropped. */
    method RemoveResizeListener(slot: ResizeManagerSlot<TwindScope>, dm: DataManager<TwindScope, ViewState>)
      requires slot.instance != null ==> slot.instance.Valid()
      requires dm.variant == variant
      modifies slot, slot.instance, this, dm, dm.store, root
      ensures slot.instance != null && slot.instance.Valid() && this !in slot.instance.instances
      ensures old(slot.instance) != null ==>
        (slot.instance == old(slot.instance) && slot.instance.instances == Without(old(slot.instance.instances), this))
      ensures old(slot.instance) == null ==> fresh(slot.instance) && slot.instance.instances == []
      ensures var id := old(dm.GetInstance(this));
        id.Some? && id.value != "" ==>
          dm.instances == old(dm.instances) - {this}
          && dm.responsiveDataMap == old(dm.responsiveDataMap) - {id.value}
          && alpineData == null
      ensures var id := old(dm.GetInstance(this));
        !(id.Some? && id.value != "") ==>
          dm.instances == old(dm.instances) && dm.responsiveDataMap == old(dm.responsiveDataMap)
          && alpineData == old(alpineData) && dm.store.table == old(dm.store.table)
      ensures var id := old(dm.GetInstance(this));
        id.Some? && id.value != "" && variant == Modular && root != null && old(root.twindDataKey).Some?
        && old(root.twindDataKey).value != "" && old(dm.store.table).Some? ==>
          dm.store.table == Revoke(old(dm.store.table), old(root.twindDataKey).value) && root.twindDataKey == None
      ensures var id := old(dm.GetInstance(this));
        !(id.Some? && id.value != "" && variant == Modular && root != null && old(root.twindDataKey).Some?
          && old(root.twindDataKey).value != "" && old(dm.store.table).Some?) ==>
          dm.store.table == old(dm.store.table)
      ensures props == old(props) && datasetInstanceId == old(datasetInstanceId)
    {
      var rm := slot.GetInstance();
      rm.RemoveInstance(this);
      var instanceId := dm.GetInstance(this);
      if instanceId.Some? && instanceId.value != "" {
        dm.DeleteInstance(this);
        dm.DeleteResponsiveData(instanceId.value);
        if variant == Modular && root != null {
          CleanupTwindScopeDataStore(root, dm.store);
        }
        if alpineData != null {
          alpineData := null;
        }
      }
    }

    /** Reads `data-props` into `props` (a parse failure keeps the old value), then
        writes classes and id onto the wrapped element by the build's rule. The
        result says whether an exception escaped. */
    method AttachClassAndId(doc: JsonDoc) returns (threw: bool)
      modifies this, root
      ensures props == PropsAfterParse(old(props), doc)
      ensures root == null ==> !threw
      ensures root != null ==>
        (ElementFace(root.classes, root.id), threw) ==
          (if variant == Modular then ModularAttach(props, ElementFace(old(root.classes), old(root.id)))
           else LegacyAttach(props, ElementFace(old(root.classes), old(root.id))))
      ensures root != null ==> root.xData == old(root.xData) && root.twindDataKey == old(root.twindDataKey)
      ensures alpineData == old(alpineData) && datasetInstanceId == old(datasetInstanceId)
    {
      props := PropsAfterParse(props, doc);
      if root == null {
        return false;
      }
      if variant == Modular {
        threw := AttachModular(root, props);
      } else {
        threw := AttachLegacy(root, props);
      }
    }

    /** `connectedCallback`: `attachClassAndId`, then registration with the
        broadcaster, with no `try` between them. When the first step throws, the
        second never runs: an element that was not registered before stays
        unregistered and receives no resize pushes. No state is created here, so
        an element whose state a disconnect dropped gets none back. */
    method ConnectedCallback(doc: JsonDoc, slot: ResizeManagerSlot<TwindScope>, width: int, height: int)
      returns (threw: bool)
      requires slot.instance != null ==> slot.instance.Valid()
      modifies this, root, slot, slot.instance, alpineData
      ensures props == PropsAfterParse(old(props), doc)
      ensures root == null ==> !threw
      ensures root != null ==>
        (ElementFace(root.classes, root.id), threw) ==
          (if variant == Modular then ModularAttach(props, ElementFace(old(root.classes), old(root.id)))
           else LegacyAttach(props, ElementFace(old(root.classes), old(root.id))))
      ensures alpineData == old(alpineData) && datasetInstanceId == old(datasetInstanceId)
      ensures threw ==> slot.instance == old(slot.instance)
      ensures threw && slot.instance != null ==> slot.instance.instances == old(slot.instance.instances)
      ensures threw && (old(slot.instance) == null || this !in old(slot.instance.instances)) ==>
        slot.instance == null || this !in slot.instance.instances
      ensures !threw ==> slot.instance != null && slot.instance.Valid() && this in slot.instance.instances
      ensures !threw && alpineData != null ==>
        alpineData.View() == old(alpineData.View()).(windowWidth := width, windowHeight := height)
    {
      threw := AttachClassAndId(doc);
      if !threw {
        SetupResizeListener(slot, width, height);
      }
    }

    /** A disconnect followed by a reconnect. When the registry held a non-empty id
        for the element, the disconnect dropped its state and the reconnect does not
        recreate it: the element is registered again (unless `attachClassAndId`
        throws) but every later push writes nothing. */
    method DisconnectAndReconnect(slot: ResizeManagerSlot<TwindScope>, dm: DataManager<TwindScope, ViewState>,
                                  doc: JsonDoc, width: int, height: int) returns (threw: bool)
      requires slot.instance != null ==> slot.instance.Valid()
      requires dm.variant == variant
      modifies this, root, slot, slot.instance, dm, dm.store, alpineData
      ensures var id := old(dm.GetInstance(this));
        id.Some? && id.value != "" ==> alpineData == null && this !in dm.instances
      ensures !threw ==> slot.instance != null && this in slot.instance.instances
      ensures threw ==> slot.instance != null && this !in slot.instance.instances
    {
      RemoveResizeListener(slot, dm);
      threw := ConnectedCallback(doc, slot, width, height);
    }
  }

  /** The class loop of the modular rule: each non-empty token is added in turn,
      stopping at the first one `classList.add` rejects. */
  method AddTypeTokens(element: RootElement, tokens: seq<string>) returns (threw: bool)
    modifies element
    ensures (element.classes, threw) == AddTokens(old(element.classes), tokens)
    ensures element.id == old(element.id) && element.xData == old(element.xData)
    ensures element.twindDataKey == old(element.twindDataKey) && element.xDataHook == old(element.xDataHook)
  {
    var i := 0;
    while i < |tokens|
      invariant 0 <= i <= |tokens|
      invariant AddTokens(element.classes, tokens[i..]) == AddTokens(old(element.classes), tokens)
      invariant element.id == old(element.id) && element.xData == old(element.xData)
      invariant element.twindDataKey == old(element.twindDataKey) && element.xDataHook == old(element.xDataHook)
    {
      var token := tokens[i];
      assert tokens[i..][1..] == tokens[i + 1..];
      if token != "" {
        var added := AddClass(element.classes, token);
        if added.None? {
          return true;
        }
        element.classes := added.value;
      }
      i := i + 1;
    }
    return false;
  }

  /** The modular `attachClassAndId` on the wrapped element. */
  method AttachModular(element: RootElement, props: Props) returns (threw: bool)
    modifies element
    ensures (ElementFace(element.classes, element.id), threw) == ModularAttach(props, ElementFace(old(element.classes), old(element.id)))
    ensures element.xData == old(element.xData) && element.twindDataKey == old(element.twindDataKey)
    ensures element.xDataHook == old(element.xDataHook)
  {
    if props.PropsPrimitive? {
      return true;
    }
    if props.typ.Some? {
      match props.typ.value
      case JNull =>
      case JOther(_) =>
        return true;
      case JStr(s) =>
        threw := AddTypeTokens(element, Split(s));
        if threw {
          return;
        }
    }
    if props.id.Some? && props.id.value != JStr("") {
      element.id := Display(props.id);
    }
    threw := false;
  }

  /** The legacy `attachClassAndId` on the wrapped element. */
  method AttachLegacy(element: RootElement, props: Props) returns (threw: bool)
    modifies element
    ensures (ElementFace(element.classes, element.id), threw) == LegacyAttach(props, ElementFace(old(element.classes), old(element.id)))
    ensures element.xData == old(element.xData) && element.twindDataKey == old(element.twindDataKey)
    ensures element.xDataHook == old(element.xDataHook)
  {
    if props.PropsPrimitive? {
      return true;
    }
    if props.typ.Some? {
      var added := AddClass(element.classes, Display(props.typ));
      if added.None? {
        return true;
      }
      element.classes := added.value;
    }
    if props.id.Some? {
      element.id := Display(props.typ) + "-" + Display(props.id);
    }
    threw := false;
  }

  /** One resize event end to end: the broadcaster visits every registered element
      in order with the same dimensions. An element whose update function exists
      writes them into its state; one without it is skipped with a warning and its
      state is not touched. The element's own update has nothing that can fail
      before its two writes, so a `Threw` reaction is a call that wrote both and
      then threw; the broadcaster catches it and goes on. */
  method DeliverResize(rm: ResizeManager<TwindScope>, width: int, height: int, reaction: TwindScope -> Reaction)
    modifies set s | s in rm.instances && reaction(s) != NoUpdateMethod :: s.alpineData
    ensures forall s :: s in rm.instances && reaction(s) != NoUpdateMethod && s.alpineData != null ==>
      s.alpineData.windowWidth == width && s.alpineData.windowHeight == height
    ensures forall s :: s in rm.instances && s.alpineData != null ==>
      s.alpineData.userProps == old(s.alpineData.userProps)
    ensures var written := set t | t in rm.instances && reaction(t) != NoUpdateMethod :: t.alpineData;
      forall s :: s in rm.instances && reaction(s) == NoUpdateMethod && s.alpineData != null && s.alpineData !in written ==>
        s.alpineData.View() == old(s.alpineData.View())
  {
    var log := rm.HandleResize(width, height, reaction);
    var i := 0;
    while i < |log|
      invariant 0 <= i <= |log|
      invariant forall j :: 0 <= j < i && reaction(rm.instances[j]) != NoUpdateMethod && rm.instances[j].alpineData != null ==>
        rm.instances[j].alpineData.windowWidth == width && rm.instances[j].alpineData.windowHeight == height
      invariant forall s :: s in rm.instances && s.alpineData != null ==>
        s.alpineData.userProps == old(s.alpineData.userProps)
    {
      var target := log[i].target;
      if log[i].reaction != NoUpdateMethod {
        target.UpdateResponsiveData(log[i].width, log[i].height);
      }
      i := i + 1;
    }
  }
}
