/** The page-wide publication table `window.twindScopeDataStore`: a key minted per
    published data object, through which an element's `x-data` attribute reaches
    its reactive state. The table is either absent or a map from key to data. */
module Publication {
  import opened Optional

  /** The prefix of every minted key: `'twindScopeData_' + <random suffix>`. */
  const KeyPrefix: string := "twindScopeData_"

  function DataKey(suffix: string): (key: string)
    ensures |KeyPrefix| <= |key| && key[..|KeyPrefix|] == KeyPrefix
    ensures key != ""
  {
    KeyPrefix + suffix
  }

  /** The `x-data` expression written onto a published element. */
  function XDataReference(key: string): string
  {
    "window.twindScopeDataStore['" + key + "']"
  }

  /** Minted keys with different suffixes never collide. */
  lemma DataKeyInjective(a: string, b: string)
    ensures DataKey(a) == DataKey(b) <==> a == b
  {
    if DataKey(a) == DataKey(b) {
      assert a == DataKey(a)[|KeyPrefix|..];
    }
  }

  type Table<D> = map<string, D>

  function Keys<D>(store: Option<Table<D>>): set<string>
  {
    match store
    case None => {}
    case Some(t) => t.Keys
  }

  /** The `window.twindScopeDataStore` slot itself, shared by every element. */
  class ScopeDataStore<D> {
    var table: Option<Table<D>>

    constructor()
      ensures table == None
    {
      table := None;
    }
  }

  /** A table that exists holds at least one key: every operation below either
      leaves a non-empty table or removes the table altogether. */
  predicate NeverEmpty<D>(store: Option<Table<D>>)
  {
    store.Some? ==> |store.value| > 0
  }

  /** `setElementData`'s store step: create the table when absent, then bind `key`. */
  function Publish<D>(store: Option<Table<D>>, key: string, d: D): (r: Option<Table<D>>)
    ensures r.Some? && key in r.value && r.value[key] == d
    ensures Keys(r) == Keys(store) + {key}
    ensures forall k :: k in Keys(store) && k != key ==> r.value[k] == store.value[k]
    ensures NeverEmpty(r)
  {
    Some(store.GetOr(map[])[key := d])
  }

  /** `cleanupTwindScopeDataStore`'s store step: drop `key`, then drop the table once
      it is empty. An absent table stays absent. */
  function Revoke<D>(store: Option<Table<D>>, key: string): (r: Option<Table<D>>)
    ensures Keys(r) == Keys(store) - {key}
    ensures forall k :: k in Keys(r) ==> r.value[k] == store.value[k]
    ensures r.None? <==> Keys(store) - {key} == {}
    ensures NeverEmpty(r)
  {
    match store
    case None => None
    case Some(t) =>
      var t' := t - {key};
      if t'.Keys == {} then None else Some(t')
  }

  /** The orphan sweep over the table: keep the keys some element still references,
      then drop the table once it is empty. */
  function Sweep<D>(store: Option<Table<D>>, referenced: string -> bool): (r: Option<Table<D>>)
    ensures forall k :: k in Keys(r) <==> k in Keys(store) && referenced(k)
    ensures forall k :: k in Keys(r) ==> r.value[k] == store.value[k]
    ensures r.None? <==> forall k :: k in Keys(store) ==> !referenced(k)
    ensures NeverEmpty(r)
  {
    match store
    case None => None
    case Some(t) =>
      var t' := map k | k in t && referenced(k) :: t[k];
      if t'.Keys == {} then None else Some(t')
  }

  /** An element carrying a `data-twind-data-key` attribute, and whether it sits
      inside a shadow tree. */
  datatype KeyHolder = KeyHolder(key: string, inShadowTree: bool)

  /** What `document.querySelector('[data-twind-data-key="<k>"]')` finds: the
      document's own tree is searched, the inside of a shadow root never is. */
  predicate QuerySelectorFinds(holders: seq<KeyHolder>, k: string)
  {
    exists i :: 0 <= i < |holders| && holders[i].key == k && !holders[i].inShadowTree
  }

  /** Whether any element, shadow trees included, still carries the key `k`. */
  predicate StillReferenced(holders: seq<KeyHolder>, k: string)
  {
    exists i :: 0 <= i < |holders| && holders[i].key == k
  }

  /** The sweep as written, driven by `querySelector`: when every key holder sits in
      a shadow tree, as every wrapped element of the modular build does, the sweep
      deletes the whole table, however many of those keys are still in use. */
  lemma QuerySelectorSweepDropsShadowKeys<D>(store: Option<Table<D>>, holders: seq<KeyHolder>)
    requires forall i :: 0 <= i < |holders| ==> holders[i].inShadowTree
    ensures Sweep(store, k => QuerySelectorFinds(holders, k)) == None
  {
    assert forall k :: !QuerySelectorFinds(holders, k);
  }

  /** One live key, published for an element inside a shadow root, is deleted by
      the sweep as written. */
  lemma QuerySelectorSweepExample<D>(d: D)
    ensures var holders := [KeyHolder("twindScopeData_a", true)];
      && StillReferenced(holders, "twindScopeData_a")
      && Sweep(Some(map["twindScopeData_a" := d]), k => QuerySelectorFinds(holders, k)) == None
  {
    var holders := [KeyHolder("twindScopeData_a", true)];
    assert holders[0].key == "twindScopeData_a";
    QuerySelectorSweepDropsShadowKeys(Some(map["twindScopeData_a" := d]), holders);
  }

  /** The sweep the comment at the call site describes ("any element still
      references this dataKey"): a key is kept exactly when some element, shadow
      trees included, carries it, so no key in use is ever deleted. */
  function DeepSweep<D>(store: Option<Table<D>>, holders: seq<KeyHolder>): (r: Option<Table<D>>)
    ensures forall k :: k in Keys(store) && StillReferenced(holders, k) ==> k in Keys(r) && r.value[k] == store.value[k]
    ensures forall k :: k in Keys(r) ==> k in Keys(store) && StillReferenced(holders, k)
    ensures NeverEmpty(r)
  {
    Sweep(store, k => StillReferenced(holders, k))
  }

  /** On the example above, the corrected sweep keeps the live key. */
  lemma DeepSweepExample<D>(d: D)
    ensures DeepSweep(Some(map["twindScopeData_a" := d]), [KeyHolder("twindScopeData_a", true)])
         == Some(map["twindScopeData_a" := d])
  {
    var holders := [KeyHolder("twindScopeData_a", true)];
    assert holders[0].key == "twindScopeData_a";
    var store := Some(map["twindScopeData_a" := d]);
    var r := DeepSweep(store, holders);
    assert StillReferenced(holders, "twindScopeData_a");
    assert "twindScopeData_a" in Keys(r) && r.value["twindScopeData_a"] == d;
    assert Keys(r) == {"twindScopeData_a"};
    assert r.value == map["twindScopeData_a" := d];
  }

  /** The empty table and the absent table are the same to every reader. */
  function Normal<D>(store: Option<Table<D>>): Option<Table<D>>
  {
    if store == Some(map[]) then None else store
  }

  /** Publishing under a fresh key grows the table by exactly one entry. */
  lemma PublishAddsOne<D>(store: Option<Table<D>>, key: string, d: D)
    requires key !in Keys(store)
    ensures |Keys(Publish(store, key, d))| == |Keys(store)| + 1
  {
  }

  /** Revoking what was just published under a fresh key restores the table,
      except that an empty table is not recreated. */
  lemma {:induction false} RevokeUndoesPublish<D>(store: Option<Table<D>>, key: string, d: D)
    requires key !in Keys(store)
    ensures Revoke(Publish(store, key, d), key) == Normal(store)
  {
    var t := store.GetOr(map[]);
    assert Publish(store, key, d) == Some(t[key := d]);
    assert t[key := d] - {key} == t;
    if store.Some? && store.value != map[] {
      assert t.Keys != {} by {
        var k :| k in t;
      }
    }
  }
}
