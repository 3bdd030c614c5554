# twind-scope responsive-data bookkeeping, in Dafny

This project models the bookkeeping behind the `<twind-scope>` custom element, the
part that is not Twind, Alpine or DOM glue:

- the page-wide resize broadcaster `ResizeManager` (`resize_manager.dfy`);
- the instance registry `DataManager` (`data_manager.dfy`):
  - an instance id → data map;
  - an element → id side table;
  - the orphan sweep;
  - the cleanup timer and the unload hook;
  - full teardown;
- the `AlpineIntegration` steps:
  - breakpoint classification of the viewport width (`breakpoints.dfy`);
  - textual classification of an `x-data` attribute and the `trim` before it (`x_data.dfy`);
  - the merge of an element's own `x-data` into the reactive responsive state (`alpine_integration.dfy`);
  - publication of that state through `window.twindScopeDataStore` (`publication.dfy`);
- the element's own lifecycle bookkeeping (`twind_scope.dfy`):
  - an idempotent instance id;
  - the guarded width/height update;
  - setup and teardown ordering;
  - the `data-props` → class/id rule;
- the global style/script lists (`assets.dfy`).

Two builds exist:
- The modular library (lib/twind-scope.ts with lib/data-manager.ts, lib/alpine-integration.ts and lib/resize-manager.ts).
- The bundled entry lib/main.ts, named as the build entry at vite.config.ts:6. It is an older all-in-one class. Its resize manager, lib/resizeManger.ts, is lib/resize-manager.ts with translated comments.

The shared logic is modelled once. The differences are a `Variants.Variant` parameter (`Modular` or `Legacy`), or separate functions where the rules differ (`ModularAttach` and `LegacyAttach`). The legacy build differs in these ways:
- its thresholds are fixed at 768/1280;
- its orphan sweep leaves the publication table alone;
- page unload and full teardown do not delete that table;
- `setElementData` does not record the minted key on the element;
- its teardown does not remove the key;
- the element id is `type + '-' + id`.

Modelling choices:
- A JavaScript `Set` is a duplicate-free sequence in insertion order.
- The optional values (`undefined`) are `Optional.Option`.
- The host is modelled as follows:
  - Window dimensions, the `x-data` evaluation outcome and minted random strings are parameters.
  - `document.querySelector` is a predicate supplied by the caller: `instanceFound(id)` says whether the document holds an element with that `data-instance-id`, and `keyFound(k)` whether it holds one with that `data-twind-data-key`. Like `querySelector` itself, these answers cover the document's own tree only, never the inside of a shadow root (see Findings).
  - Timers and event listeners are flags with counters of live host registrations.
- The reactive object is `AlpineIntegration.ViewState`. Its flags are computed from the current width on every read (`Lookup`).
- `key in alpineData` also holds for the `Object.prototype` names (`ObjectPrototypeNames`), so those are never merged.

## Model

| member | source | states |
|---|---|---|
| Breakpoints.Resolve | lib/alpine-integration.ts:12 | with no configuration the thresholds are 768/1280; each missing field falls back to its own default, a supplied one is used as is |
| Breakpoints.FlagsAt | lib/alpine-integration.ts:18-26 | `isMobile` iff width < tablet, `isTablet` iff tablet ≤ width < desktop, `isDesktop` iff width ≥ desktop |
| Breakpoints.ExactlyOneFlag | lib/alpine-integration.ts:18-26 | with tablet ≤ desktop exactly one flag holds at every width |
| Breakpoints.Boundaries | lib/alpine-integration.ts:18-26 | width == tablet is a tablet (a desktop when tablet == desktop); width == desktop is a desktop |
| Breakpoints.InvertedThresholdsOverlap | lib/alpine-integration.ts:18-26 | with desktop < tablet the flags are not exclusive: width == desktop is both mobile and desktop |
| Breakpoints.PartialOverride | lib/alpine-integration.ts:12 | supplying only one threshold keeps the other's default; an empty object behaves like no object |
| Breakpoints.LegacyAgreesWithDefaults | lib/main.ts:205-213 | the fixed legacy thresholds classify every width exactly as the modular defaults: < 768 mobile, [768, 1280) tablet, ≥ 1280 desktop, one flag at a time |
| XData.Trim | lib/alpine-integration.ts:72 | `trim()` returns the infix left after removing JavaScript white space at both ends; it neither starts nor ends with white space; it is empty iff the input is all white space |
| XData.MethodHeadMatcherCorrect | lib/alpine-integration.ts:157 | the deterministic matcher accepts exactly the strings the pattern `^\s*\w+\s*\(\s*\)\s*{` matches (some split into white space, a non-empty word, and the parenthesis-brace tail) |
| XData.DetectXDataType | lib/alpine-integration.ts:149-169 | `function` iff text starts with `(` or `function` or matches one of the two head patterns; `object` iff not a function and starts with `{` and ends with `}`; `expression` otherwise; the copy at lib/main.ts:316-336: the legacy copy applies the same tests in the same order |
| XData.FunctionAndObjectDisjoint | lib/alpine-integration.ts:153-166 | the function test and the object test never both succeed, so their order changes no classification |
| XData.ArrowHeadImpliesParen | lib/alpine-integration.ts:154-156 | on trimmed text the arrow-head pattern accepts nothing the leading-`(` test rejects |
| XData.FunctionPrefixIsFunction | lib/alpine-integration.ts:155 | any text beginning with `function`, identifiers such as `functionX` included, is classified `function` |
| XData.ObjectLiteralExample | lib/alpine-integration.ts:164 | `{ count: 0 }` is classified `object` |
| XData.MethodShorthandExample | lib/alpine-integration.ts:157 | `data() {}` is classified `function` by the method-head pattern |
| Publication.DataKey | lib/alpine-integration.ts:134 | every minted key starts with `twindScopeData_` and is non-empty |
| Publication.DataKeyInjective | lib/alpine-integration.ts:134 | keys minted from different suffixes differ |
| Publication.Publish | lib/alpine-integration.ts:137-140 | the table exists afterwards, gains exactly `key` bound to the data, keeps every other entry, and is non-empty |
| Publication.Revoke | lib/alpine-integration.ts:174-181 | exactly `key` is removed, the other entries are kept, and the table is dropped exactly when nothing else is left |
| Publication.Sweep | lib/data-manager.ts:44-59 | exactly the keys the lookup does not find are removed, kept entries are unchanged, and the table is dropped iff no key is found; the lookup is `querySelector`, which does not search shadow trees |
| Publication.QuerySelectorSweepDropsShadowKeys | lib/data-manager.ts:44-59 | when every element holding a key sits in a shadow tree, as in the modular build (the key is written on `shadowRoot.firstElementChild` at lib/alpine-integration.ts:37,143), the sweep deletes the whole table |
| Publication.QuerySelectorSweepExample | lib/data-manager.ts:48-53 | a key still held by an element inside a shadow root is deleted by the sweep as written |
| Publication.DeepSweep | lib/data-manager.ts:47-53 | the sweep the call site's comment describes: every key some element still carries, shadow trees included, is kept with its value, and only such keys are kept |
| Publication.DeepSweepExample | lib/data-manager.ts:47-53 | on the same example the corrected sweep keeps the live key and its value |
| Publication.PublishAddsOne | lib/alpine-integration.ts:137-140 | publishing under a fresh key grows the table by exactly one entry |
| Publication.RevokeUndoesPublish | lib/alpine-integration.ts:171-183 | removing a key just published under a fresh key restores the previous table, an empty one becoming absent |
| DataManagement.Filter | lib/data-manager.ts:34-41 | the result holds exactly the ids the lookup finds, with their values unchanged; the lookup is `querySelector`, so an element nested inside another element's shadow root is not found |
| DataManagement.FilterIdempotent | lib/data-manager.ts:31-41 | a second sweep with the same query answers removes nothing more |
| DataManagement.DataManager.constructor | lib/data-manager.ts:3-6 | both tables empty, no timer, no unload listener |
| DataManagement.DataManager.GetResponsiveData | lib/data-manager.ts:9-11 | `Some(d)` exactly when the id is mapped to `d`; a missing id gives `None`, not an error |
| DataManagement.DataManager.InitializeGlobalResources | lib/data-manager.ts:14-28 | afterwards one timer and one unload listener exist; a second call creates neither again; the copy at lib/main.ts:88-102: the legacy statics behave the same: at most one timer and one listener |
| DataManagement.DataManager.CleanupOrphanedData | lib/data-manager.ts:31-61 | the id map becomes `Filter(old, instanceFound)`; the publication table becomes `Sweep(old, keyFound)`, both lookups being what `querySelector` finds outside shadow trees; the side table, timer and listener are unchanged; the copy at lib/main.ts:105-116: the legacy sweep filters the id map the same way and leaves the publication table untouched |
| DataManagement.DataManager.TriggerCleanup | lib/data-manager.ts:81-83 | exactly the effect of one sweep |
| DataManagement.DataManager.HandlePageUnload | lib/data-manager.ts:64-78 | the timer is cleared, the id map emptied and the table deleted; the side table and the listener flag are kept, so a later initialisation recreates only the timer; the copy at lib/main.ts:119-128: legacy: timer cleared and id map emptied, table untouched |
| DataManagement.DataManager.GetInstancesInfo | lib/data-manager.ts:86-94 | the count equals the number of mapped ids, the id list holds exactly those ids without repeats, and the timer flag is reported; the copy at lib/main.ts:136-144: the legacy report is the same |
| DataManagement.DataManager.DestroyAllInstances | lib/data-manager.ts:97-112 | timer cleared, id map and side table emptied, table deleted; the listener flag is kept; the copy at lib/main.ts:147-157: legacy: timer cleared, both tables emptied, publication table untouched |
| DataManagement.DataManager.SetInstance | lib/data-manager.ts:115-117 | the side table maps the element to the id; nothing else changes |
| DataManagement.DataManager.GetInstance | lib/data-manager.ts:119-121 | `Some(id)` exactly when the element is recorded |
| DataManagement.DataManager.DeleteInstance | lib/data-manager.ts:123-125 | the element is no longer recorded; deleting an absent element changes nothing |
| DataManagement.DataManager.SetResponsiveData | lib/data-manager.ts:127-129 | a later get of the id yields the data; every other id reads as before |
| DataManagement.DataManager.DeleteResponsiveData | lib/data-manager.ts:131-133 | a later get of the id yields `None`; other ids are unchanged; a missing id is not an error |
| ResizeManagement.Without | lib/resize-manager.ts:25 | `Set.delete`: the element is gone, every other element stays, any two remaining elements keep their relative order, and the size drops by one exactly when it was present |
| ResizeManagement.ResizeManager.constructor | lib/resize-manager.ts:3-4 | an empty set and not listening |
| ResizeManagement.ResizeManager.AddInstance | lib/resize-manager.ts:13-22 | the consumer is in the set (added once), listening is on with exactly one window listener, and the current pair is pushed to that consumer once |
| ResizeManagement.ResizeManager.RemoveInstance | lib/resize-manager.ts:24-30 | the consumer is removed; listening stops exactly when the set becomes empty and is otherwise unchanged; `isListening == (size > 0)` is kept |
| ResizeManagement.ResizeManager.StartListening | lib/resize-manager.ts:32-37 | afterwards listening with exactly one window listener, whether or not it was before |
| ResizeManagement.ResizeManager.StopListening | lib/resize-manager.ts:39-44 | afterwards not listening and no window listener, whether or not it was before |
| ResizeManagement.ResizeManager.HandleResize | lib/resize-manager.ts:46-58 | one delivery per registered consumer in set order, all with the same pair; a throwing consumer does not stop the rest and nobody is unregistered; the copy at lib/resizeManger.ts:46-58: the copy used by the legacy build behaves identically |
| ResizeManagement.CallsCountsUpdaters | lib/resize-manager.ts:60-66 | when every consumer has an update function, an event calls updates exactly as many times as there are consumers |
| ResizeManagement.ResizeManagerSlot.GetInstance | lib/resize-manager.ts:6-11 | the manager is created on first use only and every later call returns the same object |
| AlpineIntegration.Merged | lib/alpine-integration.ts:82-94 | present properties are never overwritten; each declared, missing, non-reserved key is copied with its own descriptor; nothing else is added |
| AlpineIntegration.MergeKeepsReserved | lib/alpine-integration.ts:83 | `windowWidth`, `windowHeight`, the three flags and the inherited names read the same after a merge as before, whatever is declared |
| AlpineIntegration.MergeAddsDeclared | lib/alpine-integration.ts:84-90 | a declared key not already `in` the state reads as the declared descriptor afterwards, so an accessor stays an accessor |
| AlpineIntegration.MergeNeverOverwrites | lib/alpine-integration.ts:101-103 | a property merged earlier keeps its value through a later merge |
| AlpineIntegration.MergeSkipsPrototypeNames | lib/alpine-integration.ts:83 | a declared `toString`, `valueOf`, `constructor`, ... is never merged, because `in` already holds for it |
| AlpineIntegration.MergeIdempotent | lib/alpine-integration.ts:101-110 | merging the same declaration twice equals merging it once |
| AlpineIntegration.DeclaredProps | lib/alpine-integration.ts:75-82 | function-shaped text is called when it evaluates to something callable and used directly otherwise; other text is used directly; the value used then gives: a throw or a nullish value (evaluated directly or returned by the factory), nothing to merge, since `Object.keys` throws and the error is caught; a primitive, no keys; an object or a callable, its own properties |
| AlpineIntegration.FactoryScenario | lib/alpine-integration.ts:75-96 | a factory returning `{count, get label()}` merged at width 1300 yields `count`, `label` still an accessor, and `isDesktop` |
| AlpineIntegration.ViewState.constructor | lib/alpine-integration.ts:14-27 | the reactive object holds the given dimensions and thresholds and no other property |
| AlpineIntegration.ViewState.MergeDeclared | lib/alpine-integration.ts:101-110 | after the loop the state is exactly `MergeInto(old state, declared)`; the dimensions are untouched |
| AlpineIntegration.CreateResponsiveData | lib/alpine-integration.ts:6-28 | a fresh state at the given dimensions with thresholds resolved from the configuration (fixed 768/1280 in the legacy build) |
| AlpineIntegration.SetElementData | lib/alpine-integration.ts:121-147 | the element is bound to the data, the table is `Publish(old, key, data)`, `x-data` points at the key, and the key is recorded on the element; the copy at lib/main.ts:290-314: legacy: the same binding and publication, but the key is not recorded |
| AlpineIntegration.MergeWithExistingData | lib/alpine-integration.ts:66-119 | the state becomes the merge of what the trimmed, classified text declares, or stays as it was when obtaining that throws; the element is bound and published either way; the copy at lib/main.ts:236-288: the legacy merge has the same skip-present, copy-descriptor and fallback-bind behaviour |
| AlpineIntegration.CleanupTwindScopeDataStore | lib/alpine-integration.ts:171-183 | with a recorded key and an existing table, exactly `Revoke(old, key)` and the record is deleted; otherwise nothing changes |
| AlpineIntegration.BindToElement | lib/alpine-integration.ts:49-61 | a non-empty `x-data` attribute goes through the merge, an absent or empty one straight to publication |
| AlpineIntegration.SetupAlpineData | lib/alpine-integration.ts:30-64 | without a first element child nothing is registered; otherwise a fresh state is mapped under the id, bound, published and merged |
| Assets.MatchesUrlPatternIffPrefix | lib/utils.ts:12 | `/^https?:\/\//` accepts exactly the strings with the case-sensitive prefix `http://` or `https://` |
| Assets.Classify | lib/utils.ts:11-17 | the string is kept unchanged; `url` iff it has that prefix, otherwise the list's inline kind |
| Assets.ClassifyAll | lib/utils.ts:10-18 | one entry per input string, in input order |
| Assets.ClassifyAllAppend | lib/utils.ts:10-28 | classifying two inputs one after the other records the same as classifying their concatenation |
| Assets.AssetLists.InitStyleAndScript | lib/utils.ts:6-29 | each list is its old contents followed by the classified input, styles and scripts independently; the copy at lib/main.ts:25-45: the legacy copy fills its lists by the same rule |
| Assets.ClassifyExamples | lib/utils.ts:22 | `https://…` is a URL; `https:/x` and the upper-case `HTTP://x` are inline |
| TwindScopeElement.PropsAfterParse | lib/twind-scope.ts:165-169 | a parse failure keeps the previous props; a falsy result becomes `{}`; otherwise the parsed value |
| TwindScopeElement.Split | lib/twind-scope.ts:174 | `split(' ')`: at least one piece, no piece holds a space, every character comes from the input, and joining with single spaces gives the input back |
| TwindScopeElement.SplitJoin | lib/twind-scope.ts:174 | splitting a space-joined list of space-free pieces returns the pieces |
| TwindScopeElement.SplitExample | lib/twind-scope.ts:174 | `"card  wide"` splits into `card`, an empty piece, `wide` |
| TwindScopeElement.SplitLeadingSpaceExample | lib/twind-scope.ts:174 | a leading space yields an empty first piece |
| TwindScopeElement.AddClass | lib/twind-scope.ts:176 | `classList.add` throws on an empty token or one holding ASCII white space; otherwise the token is present afterwards, nothing else is added, and the list stays duplicate-free |
| TwindScopeElement.AddTokens | lib/twind-scope.ts:174-178 | throws iff some non-empty token is rejected; without a throw the classes are the old ones plus every non-empty token; earlier classes always stay |
| TwindScopeElement.AddTokensExample | lib/twind-scope.ts:174-178 | adding `card`, `""`, `wide` to no classes gives `card wide` |
| TwindScopeElement.AddLastTokenExample | lib/twind-scope.ts:176 | adding `wide` after `card` appends it |
| TwindScopeElement.TypeClasses | lib/twind-scope.ts:173-178 | an absent or `null` `type` adds nothing and never throws; any other non-string `type` throws before adding anything; a string `type` throws iff it holds a TAB, LF, FF or CR; earlier classes always stay; without a throw exactly the non-empty space-separated tokens are added |
| TwindScopeElement.TypeClassesExample | lib/twind-scope.ts:174-177 | the class step on `"card  wide"` adds `card` and `wide` and does not throw |
| TwindScopeElement.ModularAttach | lib/twind-scope.ts:163-185 | `in` on a primitive throws; an absent or `null` `type` adds nothing and never throws; a `type` that is neither a string nor `null` throws; a string `type` throws iff it holds a TAB, LF, FF or CR; without a throw the classes are the old ones plus each non-empty space-separated token, and the id becomes `String(id)` exactly when `id` is present and not `''` |
| TwindScopeElement.LegacyAttach | lib/main.ts:370-385 | the whole `type` is one `classList.add` token; it throws iff the props are a primitive or `String(type)` is empty or holds ASCII white space; without a throw the classes are the old ones plus `String(type)` and nothing else, and, when `id` is present, the id is `type + '-' + id` (`undefined-…` without a type) |
| TwindScopeElement.SplitCovers | lib/twind-scope.ts:174 | every non-space character of the input lands in some piece of `split(' ')` |
| TwindScopeElement.SplitRejectsIff | lib/twind-scope.ts:173-178 | some non-empty token holds ASCII white space iff the `type` string holds a TAB, LF, FF or CR: a `type` spaced with plain spaces is always accepted, any other white space always throws |
| TwindScopeElement.ModularAttachExample | lib/twind-scope.ts:163-185 | `{"type": "card  wide", "id": 7}` gives classes `card`, `wide` and id `7` |
| TwindScopeElement.LegacyAttachExample | lib/main.ts:380 | the legacy rule throws on the same props and writes nothing |
| TwindScopeElement.ResolveInstanceId | lib/twind-scope.ts:156-161 | a cached non-empty id is returned; otherwise the freshly minted one |
| TwindScopeElement.InstanceIdStable | lib/twind-scope.ts:156-161 | a second call returns the id the first one cached, whatever it mints; the copy at lib/main.ts:363-368: the legacy `getInstanceId` is the same rule |
| TwindScopeElement.TwindScope.constructor | lib/twind-scope.ts:22-23 | props start as `{}` and there is no state |
| TwindScopeElement.TwindScope.UpdateResponsiveData | lib/twind-scope.ts:31-46 | with a state only `windowWidth` and `windowHeight` change; without one nothing changes; the copy at lib/main.ts:70-85: the legacy update is the same |
| TwindScopeElement.TwindScope.GetInstanceId | lib/twind-scope.ts:156-161 | returns `ResolveInstanceId(old cache, minted)` and caches it |
| TwindScopeElement.TwindScope.SetupAlpineData | lib/twind-scope.ts:101-119 | without a wrapped element nothing changes; otherwise element → id is recorded, and a fresh state is mapped under the id, bound, published and merged; the copy at lib/main.ts:195-234: the legacy setup reaches the same state with the fixed thresholds and no key record |
| TwindScopeElement.TwindScope.SetupResizeListener | lib/twind-scope.ts:121-124 | the element is registered with the single broadcaster, listening is on, and the current dimensions are written into its state |
| TwindScopeElement.TwindScope.RemoveResizeListener | lib/twind-scope.ts:126-147 | always unregistered; only with a recorded non-empty id are the side-table entry, the id's data and the published key removed and the state reference dropped; the copy at lib/main.ts:343-361: legacy: the same, except that the publication table is never touched |
| TwindScopeElement.TwindScope.ConnectedCallback | lib/twind-scope.ts:85-89 | props, classes, id and the throw follow `AttachClassAndId`; when it throws the element's registration with the broadcaster is unchanged, so a new element stays unregistered; otherwise it is registered and its state gets the current size; the state reference is never recreated; the copy at lib/main.ts:179-183: the legacy hook has the same order and no `try` |
| TwindScopeElement.TwindScope.DisconnectAndReconnect | lib/twind-scope.ts:85-99 | after a disconnect and a reconnect of an element whose registry id was non-empty, its state reference is null and its registry entry gone, so later pushes write nothing; the element is registered again exactly when `attachClassAndId` did not throw |
| TwindScopeElement.TwindScope.AttachClassAndId | lib/twind-scope.ts:163-185 | props follow `PropsAfterParse`; the wrapped element's classes, id and the escaping exception follow `ModularAttach` (or `LegacyAttach` in the legacy build) |
| TwindScopeElement.AddTypeTokens | lib/twind-scope.ts:174-178 | the class loop ends in exactly the state `AddTokens` describes, stopping at the first rejected token |
| TwindScopeElement.AttachModular | lib/twind-scope.ts:171-183 | the wrapped element and the throw outcome are exactly `ModularAttach` of the props |
| TwindScopeElement.AttachLegacy | lib/main.ts:378-383 | the wrapped element and the throw outcome are exactly `LegacyAttach` of the props |
| TwindScopeElement.DeliverResize | lib/resize-manager.ts:46-71 | after one resize event every registered element with an update function has the new width and height in its state; one without it is skipped (`updateInstance`) and its state, unless shared with an updated element, is unchanged; no merged property changes |

## Left out

- Twind installation and its presets (lib/twind-scope.ts:16-21, lib/main.ts:47-52) are a foreign library.
- `Alpine.reactive`, `Alpine.initTree` and `Alpine.destroyTree`. The reactive proxy is a plain object whose flags are read from the current width.
- `new Function(...)` evaluation of `x-data` text. Its outcome (a value, or a throw) is an input, `AlpineIntegration.Completion`.
- `Object.keys` on a string primitive yields index keys. The model gives primitives no keys.
- A property descriptor read through an exotic proxy that throws part-way through a merge.
- DOM work:
  - `shadowRoot.innerHTML`;
  - the `__x_data` property definition (kept only as a reference to the bound state);
  - `setAttribute`;
  - creating style sheets, links and script elements (lib/utils.ts:31-78, lib/main.ts:387-441);
  - `customElements.define`, lib/index.ts and lib/types.ts.
- The element constructor (lib/twind-scope.ts:63-83, lib/main.ts:159-177) is not a member of its own: it calls `InitializeGlobalResources`, the style and script integration and `SetupAlpineData`, with the DOM and Alpine calls above between them. The connect hook is `TwindScope.ConnectedCallback`; the disconnect hook is `Alpine.destroyTree` followed by `TwindScope.RemoveResizeListener`, and `TwindScope.DisconnectAndReconnect` shows the effect of the pair.
- The host as an independent actor:
  - `Math.random` ids and keys are supplied strings;
  - `document.querySelector` is a predicate;
  - `setInterval`, `clearInterval` and `addEventListener` are flags with counters;
  - the interval firing by itself and the `beforeunload` event are not scheduled; `TriggerCleanup` and `HandlePageUnload` are called directly.
- `console` logging, including the warning for a consumer without an update function.
- WeakMap garbage collection. The side table is an ordinary map keyed by element identity.
- The order of `getInstancesInfo`'s id list. A `Map` yields insertion order; the model only states which ids appear.
- Consumers added or removed while a resize delivery is in flight (event-loop timing).
- Window dimensions are integers; fractional sizes are not modelled.
- TwindScopeElement.InstanceIdStable: assumes the minted id is non-empty. `Math.random()` returning exactly 0 would mint `''`, and the next call would mint again.
- TwindScopeElement.DeliverResize: a `Threw` reaction is taken as an update that wrote both dimensions and then threw, since the element's update has nothing that can fail before its writes; consumers of other types are covered by `ResizeManager.HandleResize` alone.
- Breakpoints.Resolve: thresholds are integers or absent. A destructuring default replaces only `undefined`, so `{tablet: null}` keeps `null`, which `<` and `>=` then compare as 0; such a `null` and fractional thresholds are not modelled.

## Findings

| source | as written | input that shows it | evidently intended | confidence | as-written member | corrected member |
|---|---|---|---|---|---|---|
| lib/data-manager.ts:47-53 | the orphan sweep looks each published key up with `document.querySelector`, which does not search shadow trees, while the modular build records the key on `shadowRoot.firstElementChild` (lib/alpine-integration.ts:37,143) | any page with one modular `<twind-scope>` whose state is published: at the first 30 s sweep its key is not found and the table is deleted | keep a key while any element, shadow trees included, still carries it, as the comment at lib/data-manager.ts:47 says | high; not executed | Publication.QuerySelectorSweepDropsShadowKeys, Publication.QuerySelectorSweepExample | Publication.DeepSweep, Publication.DeepSweepExample |

`DataManager.CleanupOrphanedData` takes its lookups as parameters and models the program as written; `Publication.DeepSweep` is `Publication.Sweep` driven by the lookup that also searches shadow trees.
