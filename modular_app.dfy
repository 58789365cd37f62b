/**
 * The plugin host of the modular Electron app: a service container
 * (provide/inject), a queue of pending plugins that are installed once their
 * dependencies are, in priority order, and disposal in reverse install order.
 * Source: packages/electron-modularity/main/app.ts
 *
 * Plugin `apply` functions cannot run here: the value a plugin's apply returns
 * is a parameter (`api`), and what apply itself does to the app is not modelled.
 * The event emitter is modelled as the log of emitted events.
 */
module ModularApp {
  import opened Wrappers
  import opened JsValues

  datatype Priority = Pre | Normal | Post

  /** PRIORITY_VALUES: the sort key of each priority. */
  function PriorityValue(p: Priority): int {
    match p
    case Pre => -50
    case Normal => 0
    case Post => 50
  }

  /**
   * What the PRIORITY_VALUES table means for the sort: pre before normal
   * before post, and only equal priorities tie. The table itself carries no
   * contract; this lemma is its specification.
   */
  lemma PriorityOrder(p: Priority, q: Priority)
    ensures PriorityValue(p) < PriorityValue(q) <==>
      (p == Pre && q != Pre) || (p == Normal && q == Post)
    ensures PriorityValue(p) == PriorityValue(q) <==> p == q
  {
  }

  /**
   * What `use` may be given: a plugin function (with its `.name`), a plugin
   * object with its declared fields (an empty name stands for a missing one,
   * None for a missing `deps` or `priority`), or any other value, falsy or not.
   */
  datatype PluginInput =
    | FunctionPlugin(fnName: string, source: string)
    | ObjectPlugin(name: string, apply: Value, deps: Option<seq<string>>, priority: Option<Priority>, dispose: Value)
    | NoPlugin

  datatype NormalizedPlugin = NormalizedPlugin(
    name: string,
    apply: Value,
    deps: seq<string>,
    priority: Priority,
    options: Value,
    dispose: Value)

  /** normalizePlugin */
  function NormalizePlugin(plugin: PluginInput, options: Value): (r: Option<NormalizedPlugin>)
    ensures r.None? <==> plugin.NoPlugin? || (plugin.ObjectPlugin? && !plugin.apply.Fn?)
    ensures r.Some? ==> r.value.apply.Fn?
    ensures r.Some? && plugin.FunctionPlugin? ==>
      r.value.name == plugin.fnName && r.value.deps == [] && r.value.priority == Normal
      && r.value.options == options && r.value.dispose == Undefined
    ensures r.Some? && plugin.ObjectPlugin? ==>
      r.value.name == plugin.name && r.value.apply == plugin.apply
      && r.value.deps == plugin.deps.GetOr([]) && r.value.priority == plugin.priority.GetOr(Normal)
      && r.value.dispose == plugin.dispose
      && (r.value.options == Undefined <==> options.Undefined? || options.Null?)
  {
    match plugin
    case NoPlugin => None
    case FunctionPlugin(fnName, source) =>
      Some(NormalizedPlugin(fnName, Fn(fnName, source), [], Normal, options, Undefined))
    case ObjectPlugin(name, apply, deps, priority, dispose) =>
      if !apply.Fn? then None
      else
        var opts := if options.Null? then Undefined else options;
        Some(NormalizedPlugin(name, apply, deps.GetOr([]), priority.GetOr(Normal), opts, dispose))
  }

  /** The dispose function resolveDispose picks, by where it came from. */
  datatype Disposer =
    | OwnDispose(fn: Value)     // the plugin's own dispose
    | ApiAsDispose(fn: Value)   // the api itself is a function
    | ApiDispose(api: Value)    // calls api.dispose()
    | ApiDestroy(api: Value)    // calls api.destroy()

  /** `v && typeof v === 'object' && key in v && typeof v[key] === 'function'` */
  predicate HasMethod(v: Value, key: string) {
    Truthy(v) && (v.Obj? || v.Arr?) && HasProperty(v, key) && Get(v, key).Fn?
  }

  /** The function a disposer ends up calling. */
  function CalledFunction(d: Disposer): Value {
    match d
    case OwnDispose(fn) => fn
    case ApiAsDispose(fn) => fn
    case ApiDispose(api) => if api.Undefined? || api.Null? then Undefined else Get(api, "dispose")
    case ApiDestroy(api) => if api.Undefined? || api.Null? then Undefined else Get(api, "destroy")
  }

  /** resolveDispose: the plugin's dispose, then a function api, then api.dispose, then api.destroy. */
  function ResolveDispose(item: NormalizedPlugin, api: Value): Option<Disposer> {
    if item.dispose.Fn? then Some(OwnDispose(item.dispose))
    else if api.Fn? then Some(ApiAsDispose(api))
    else if HasMethod(api, "dispose") then Some(ApiDispose(api))
    else if HasMethod(api, "destroy") then Some(ApiDestroy(api))
    else None
  }

  /**
   * A disposer exists exactly when one of the four sources offers a function,
   * it always calls a function, the plugin's own dispose wins, and api.destroy
   * is used only when api.dispose is not a method.
   */
  lemma ResolveDisposeMeaning(item: NormalizedPlugin, api: Value)
    ensures ResolveDispose(item, api).Some? <==>
      item.dispose.Fn? || api.Fn? || HasMethod(api, "dispose") || HasMethod(api, "destroy")
    ensures ResolveDispose(item, api).Some? ==> CalledFunction(ResolveDispose(item, api).value).Fn?
    ensures item.dispose.Fn? ==> ResolveDispose(item, api) == Some(OwnDispose(item.dispose))
    ensures !item.dispose.Fn? && api.Fn? ==> ResolveDispose(item, api) == Some(ApiAsDispose(api))
    ensures ResolveDispose(item, api).Some? && ResolveDispose(item, api).value.ApiDestroy? ==>
      !HasMethod(api, "dispose")
  {
  }

  datatype PluginState = PluginState(
    name: string,
    api: Value,
    dispose: Option<Disposer>,
    priority: Priority,
    deps: seq<string>)

  function StateOf(item: NormalizedPlugin, api: Value): PluginState {
    PluginState(item.name, api, ResolveDispose(item, api), item.priority, item.deps)
  }

  /** The key a named plugin's api is provided under: `plugin:<name>`. */
  function ServiceKey(name: string): string {
    "plugin:" + name
  }

  /** What installPlugin provides as `plugin:<name>`: the api, or true when it is null or undefined. */
  function ProvidedApi(api: Value): (r: Value)
    ensures r.Undefined? == false && r.Null? == false
    ensures !api.Undefined? && !api.Null? ==> r == api
  {
    if api.Undefined? || api.Null? then Bool(true) else api
  }

  /** The events the app emits, in the order it emits them. */
  datatype AppEvent =
    | DuplicatePlugin(name: string)
    | PriorityConflict(name: string, priority: Priority)
    | UnresolvedDependencies(plugins: seq<(string, seq<string>)>)
    | PluginInstalled(state: PluginState)
    | PluginError(name: string)
    | AppStarted
    | AppStopped

  /** inject: the provided value when the key was provided, else the fallback. */
  function InjectFrom(provided: map<string, Value>, key: string, fallback: Value): Value {
    if key in provided then provided[key] else fallback
  }

  /** After provide(key, value), inject(key) gives value and every other key is unaffected. */
  lemma InjectAfterProvide(provided: map<string, Value>, key: string, value: Value, other: string, fallback: Value)
    ensures InjectFrom(provided[key := value], key, fallback) == value
    ensures other != key ==> InjectFrom(provided[key := value], other, fallback) == InjectFrom(provided, other, fallback)
  {
  }

  /** inject returns the fallback exactly when the key was never provided (for a fallback nobody provided). */
  lemma InjectFallback(provided: map<string, Value>, key: string, fallback: Value)
    requires forall k :: k in provided ==> provided[k] != fallback
    ensures InjectFrom(provided, key, fallback) == fallback <==> key !in provided
  {
  }

  /** deps.every(dep => names has dep) */
  predicate DepsIn(deps: seq<string>, names: set<string>) {
    deps == [] || (deps[0] in names && DepsIn(deps[1..], names))
  }

  /** The check holds exactly when every declared dependency is among the names. */
  lemma {:induction false} DepsInMeaning(deps: seq<string>, names: set<string>)
    ensures DepsIn(deps, names) <==> forall d :: d in deps ==> d in names
  {
    if deps != [] {
      DepsInMeaning(deps[1..], names);
      assert deps == [deps[0]] + deps[1..];
    }
  }

  /** Installing more plugins never unsatisfies a dependency list. */
  lemma {:induction false} DepsInMono(deps: seq<string>, names: set<string>, more: set<string>)
    requires DepsIn(deps, names) && names <= more
    ensures DepsIn(deps, more)
  {
    if deps != [] {
      DepsInMono(deps[1..], names, more);
    }
  }

  /** depsSatisfied: every dependency is an installed plugin (an empty list always is). */
  predicate DepsSatisfied(deps: seq<string>, installed: map<string, PluginState>) {
    DepsIn(deps, installed.Keys)
  }

  /** The plugins of one priority, in their order. */
  function OfPriority(ps: seq<NormalizedPlugin>, p: Priority): seq<NormalizedPlugin> {
    if ps == [] then []
    else (if ps[0].priority == p then [ps[0]] else []) + OfPriority(ps[1..], p)
  }

  /** The plugins of one priority all have that priority. */
  lemma {:induction false} OfPriorityMembers(ps: seq<NormalizedPlugin>, p: Priority)
    ensures forall k :: 0 <= k < |OfPriority(ps, p)| ==> OfPriority(ps, p)[k].priority == p
  {
    if ps != [] {
      OfPriorityMembers(ps[1..], p);
      var h: seq<NormalizedPlugin> := if ps[0].priority == p then [ps[0]] else [];
      var t := OfPriority(ps[1..], p);
      assert OfPriority(ps, p) == h + t;
      forall k | 0 <= k < |h + t| ensures (h + t)[k].priority == p {
        if k >= |h| {
          assert (h + t)[k] == t[k - |h|];
        }
      }
    }
  }

  /**
   * pending.sort by PRIORITY_VALUES. Array.prototype.sort is stable, so with
   * three keys the result is the pre plugins, then the normal ones, then the
   * post ones, each group in its previous order.
   */
  function SortByPriority(ps: seq<NormalizedPlugin>): seq<NormalizedPlugin> {
    OfPriority(ps, Pre) + OfPriority(ps, Normal) + OfPriority(ps, Post)
  }

  predicate SortedByPriority(ps: seq<NormalizedPlugin>) {
    forall i, j :: 0 <= i < j < |ps| ==> PriorityValue(ps[i].priority) <= PriorityValue(ps[j].priority)
  }

  /** One step of OfPriority: the head, when it has the priority, then the rest. */
  lemma OfPriorityCons(ps: seq<NormalizedPlugin>, p: Priority)
    requires ps != []
    ensures ps[0].priority == p ==> OfPriority(ps, p) == [ps[0]] + OfPriority(ps[1..], p)
    ensures ps[0].priority != p ==> OfPriority(ps, p) == OfPriority(ps[1..], p)
  {
  }

  lemma {:induction false} OfPriorityPartition(ps: seq<NormalizedPlugin>)
    ensures multiset(OfPriority(ps, Pre)) + multiset(OfPriority(ps, Normal)) + multiset(OfPriority(ps, Post)) == multiset(ps)
  {
    if ps != [] {
      OfPriorityPartition(ps[1..]);
      assert multiset(ps) == multiset{ps[0]} + multiset(ps[1..]) by {
        assert ps == [ps[0]] + ps[1..];
      }
      OfPriorityCons(ps, Pre);
      OfPriorityCons(ps, Normal);
      OfPriorityCons(ps, Post);
    }
  }

  /** Sorting keeps exactly the pending plugins. */
  lemma SortByPriorityPermutes(ps: seq<NormalizedPlugin>)
    ensures multiset(SortByPriority(ps)) == multiset(ps)
    ensures |SortByPriority(ps)| == |ps|
  {
    OfPriorityPartition(ps);
    assert |multiset(SortByPriority(ps))| == |multiset(ps)|;
  }

  /** After sorting, priorities never decrease along the queue. */
  lemma SortByPriorityOrdered(ps: seq<NormalizedPlugin>)
    ensures SortedByPriority(SortByPriority(ps))
  {
    var a, b, c := OfPriority(ps, Pre), OfPriority(ps, Normal), OfPriority(ps, Post);
    var r := SortByPriority(ps);
    OfPriorityMembers(ps, Pre);
    OfPriorityMembers(ps, Normal);
    OfPriorityMembers(ps, Post);
    forall i, j | 0 <= i < j < |r|
      ensures PriorityValue(r[i].priority) <= PriorityValue(r[j].priority)
    {
      assert r[i] in r[..i + 1];
      if i < |a| {
        assert r[i] == a[i];
        assert r[i].priority == Pre;
      } else if j >= |a| + |b| {
        assert r[j] == c[j - |a| - |b|];
        assert r[j].priority == Post;
      } else {
        assert r[i] == b[i - |a|];
        assert r[j] == b[j - |a|];
      }
    }
  }

  lemma {:induction false} OfPriorityAppend(xs: seq<NormalizedPlugin>, ys: seq<NormalizedPlugin>, p: Priority)
    ensures OfPriority(xs + ys, p) == OfPriority(xs, p) + OfPriority(ys, p)
  {
    if xs == [] {
      assert xs + ys == ys;
    } else {
      OfPriorityAppend(xs[1..], ys, p);
      assert (xs + ys)[0] == xs[0] && (xs + ys)[1..] == xs[1..] + ys;
      OfPriorityCons(xs + ys, p);
      OfPriorityCons(xs, p);
      if xs[0].priority == p {
        ConsAssoc(xs[0], OfPriority(xs[1..], p), OfPriority(ys, p));
      }
    }
  }

  lemma ConsAssoc<T>(x: T, a: seq<T>, b: seq<T>)
    ensures [x] + (a + b) == ([x] + a) + b
  {
  }

  lemma {:induction false} OfPriorityTwice(ps: seq<NormalizedPlugin>, p: Priority, q: Priority)
    ensures OfPriority(OfPriority(ps, q), p) == if p == q then OfPriority(ps, p) else []
  {
    if ps != [] {
      OfPriorityTwice(ps[1..], p, q);
      var head := if ps[0].priority == q then [ps[0]] else [];
      OfPriorityAppend(head, OfPriority(ps[1..], q), p);
      if ps[0].priority == q {
        assert OfPriority(head, p) == if q == p then [ps[0]] else [] by {
          assert head[1..] == [];
        }
      }
    }
  }

  /** The sort is stable: the plugins of each priority keep their relative order. */
  lemma SortByPriorityStable(ps: seq<NormalizedPlugin>, p: Priority)
    ensures OfPriority(SortByPriority(ps), p) == OfPriority(ps, p)
  {
    var a, b, c := OfPriority(ps, Pre), OfPriority(ps, Normal), OfPriority(ps, Post);
    OfPriorityAppend(a + b, c, p);
    OfPriorityAppend(a, b, p);
    OfPriorityTwice(ps, p, Pre);
    OfPriorityTwice(ps, p, Normal);
    OfPriorityTwice(ps, p, Post);
  }

  /** The name a plugin is recorded under, if any: anonymous plugins are not recorded. */
  function NameSet(x: NormalizedPlugin): set<string> {
    if x.name != "" then {x.name} else {}
  }

  /** The names the given plugins are recorded under. */
  function NamesOf(items: seq<NormalizedPlugin>): set<string> {
    if items == [] then {}
    else NamesOf(items[..|items| - 1]) + NameSet(items[|items| - 1])
  }

  /** Each plugin's dependencies were installed before it, or were already installed. */
  ghost predicate InstalledAfterDeps(items: seq<NormalizedPlugin>, before: set<string>) {
    items == [] ||
      (var prefix := items[..|items| - 1];
       InstalledAfterDeps(prefix, before) && DepsIn(items[|items| - 1].deps, before + NamesOf(prefix)))
  }

  /** The plugin:installed events for the given plugins, in order. */
  function InstallEvents(items: seq<NormalizedPlugin>, api: NormalizedPlugin -> Value): (r: seq<AppEvent>)
    ensures |r| == |items|
  {
    if items == [] then []
    else InstallEvents(items[..|items| - 1], api) + [PluginInstalled(StateOf(items[|items| - 1], api(items[|items| - 1])))]
  }

  /** The dependencies not yet installed, in their order. */
  function Missing(deps: seq<string>, installed: map<string, PluginState>): seq<string> {
    if deps == [] then []
    else (if deps[0] in installed then [] else [deps[0]]) + Missing(deps[1..], installed)
  }

  /** A dependency is reported missing exactly when it is declared and not installed. */
  lemma {:induction false} MissingMeaning(deps: seq<string>, installed: map<string, PluginState>)
    ensures forall d :: d in Missing(deps, installed) <==> d in deps && d !in installed
  {
    if deps != [] {
      MissingMeaning(deps[1..], installed);
      assert deps == [deps[0]] + deps[1..];
    }
  }

  /** The unresolved-dependencies warning's entries. */
  function UnresolvedOf(pending: seq<NormalizedPlugin>, installed: map<string, PluginState>): seq<(string, seq<string>)> {
    if pending == [] then []
    else [(pending[0].name, Missing(pending[0].deps, installed))] + UnresolvedOf(pending[1..], installed)
  }

  /** The warning has one entry per plugin left pending, with its name and missing dependencies. */
  lemma {:induction false} UnresolvedEntries(pending: seq<NormalizedPlugin>, installed: map<string, PluginState>)
    ensures |UnresolvedOf(pending, installed)| == |pending|
    ensures forall k :: 0 <= k < |pending| ==>
      UnresolvedOf(pending, installed)[k] == (pending[k].name, Missing(pending[k].deps, installed))
  {
    if pending != [] {
      UnresolvedEntries(pending[1..], installed);
    }
  }

  /** The installed plugins that have a dispose function, in install order. */
  function WithDispose(names: seq<string>, installed: map<string, PluginState>): seq<string>
    requires forall n :: n in names ==> n in installed
  {
    if names == [] then []
    else (if installed[names[0]].dispose.Some? then [names[0]] else []) + WithDispose(names[1..], installed)
  }

  /** Exactly the installed plugins that have a dispose function are disposed. */
  lemma {:induction false} WithDisposeMeaning(names: seq<string>, installed: map<string, PluginState>)
    requires forall n :: n in names ==> n in installed
    ensures forall n :: n in WithDispose(names, installed) <==> n in names && installed[n].dispose.Some?
  {
    if names != [] {
      WithDisposeMeaning(names[1..], installed);
      assert names == [names[0]] + names[1..];
    }
  }

  function Reverse<T>(s: seq<T>): seq<T> {
    if s == [] then [] else Reverse(s[1..]) + [s[0]]
  }

  /** The k-th element of a reversed sequence is the k-th from the end. */
  lemma {:induction false} ReverseIndex<T>(s: seq<T>)
    ensures |Reverse(s)| == |s|
    ensures forall k :: 0 <= k < |s| ==> Reverse(s)[k] == s[|s| - 1 - k]
  {
    if s != [] {
      ReverseIndex(s[1..]);
    }
  }

  /** The plugin:error events of the disposals that throw, in disposal order. */
  function DisposeErrors(disposed: seq<string>, throwing: set<string>): seq<AppEvent> {
    if disposed == [] then []
    else
      var last := disposed[|disposed| - 1];
      DisposeErrors(disposed[..|disposed| - 1], throwing) + (if last in throwing then [PluginError(last)] else [])
  }

  lemma InstallEventsSnoc(prefix: seq<AppEvent>, step: seq<NormalizedPlugin>, item: NormalizedPlugin, api: NormalizedPlugin -> Value)
    ensures prefix + InstallEvents(step + [item], api) == (prefix + InstallEvents(step, api)) + [PluginInstalled(StateOf(item, api(item)))]
  {
    assert (step + [item])[..|step|] == step;
    SnocAssoc(prefix, InstallEvents(step, api), PluginInstalled(StateOf(item, api(item))));
  }

  lemma NamesOfSnoc(items: seq<NormalizedPlugin>, item: NormalizedPlugin)
    ensures NamesOf(items + [item]) == NamesOf(items) + NameSet(item)
  {
    assert (items + [item])[..|items|] == items;
  }

  lemma {:induction false} NamesOfAppend(a: seq<NormalizedPlugin>, b: seq<NormalizedPlugin>)
    ensures NamesOf(a + b) == NamesOf(a) + NamesOf(b)
    decreases |b|
  {
    if b == [] {
      assert a + b == a;
    } else {
      var b', x := b[..|b| - 1], b[|b| - 1];
      SplitLast(b);
      SnocAssoc(a, b', x);
      NamesOfAppend(a, b');
      NamesOfSnoc(a + b', x);
    }
  }

  lemma NamesSnoc(names: set<string>, a: seq<NormalizedPlugin>, x: NormalizedPlugin)
    ensures names + NamesOf(a) + NameSet(x) == names + NamesOf(a + [x])
  {
    NamesOfSnoc(a, x);
  }

  lemma NamesGrow(names: set<string>, a: seq<NormalizedPlugin>, b: seq<NormalizedPlugin>)
    ensures names + NamesOf(a) + NamesOf(b) == names + NamesOf(a + b)
  {
    NamesOfAppend(a, b);
  }

  /** Installing `a` and then `b` respects dependencies when each part does in its turn. */
  lemma {:induction false} AppendInstalled(a: seq<NormalizedPlugin>, b: seq<NormalizedPlugin>, before: set<string>)
    requires InstalledAfterDeps(a, before)
    requires InstalledAfterDeps(b, before + NamesOf(a))
    ensures InstalledAfterDeps(a + b, before)
    decreases |b|
  {
    if b == [] {
      assert a + b == a;
    } else {
      var b', x := b[..|b| - 1], b[|b| - 1];
      SplitLast(b);
      SnocAssoc(a, b', x);
      AppendInstalled(a, b', before);
      NamesOfAppend(a, b');
      assert before + NamesOf(a) + NamesOf(b') == before + NamesOf(a + b');
      assert (a + b)[..|a + b| - 1] == a + b';
    }
  }

  lemma {:induction false} InstallEventsAppend(a: seq<NormalizedPlugin>, b: seq<NormalizedPlugin>, api: NormalizedPlugin -> Value)
    ensures InstallEvents(a + b, api) == InstallEvents(a, api) + InstallEvents(b, api)
    decreases |b|
  {
    if b == [] {
      assert a + b == a;
    } else {
      var b', x := b[..|b| - 1], b[|b| - 1];
      SplitLast(b);
      SnocAssoc(a, b', x);
      InstallEventsAppend(a, b', api);
      assert (a + b)[..|a + b| - 1] == a + b';
      var e := PluginInstalled(StateOf(x, api(x)));
      SnocAssoc(InstallEvents(a, api), InstallEvents(b', api), e);
    }
  }

  lemma InstallEventsGrow(prefix: seq<AppEvent>, a: seq<NormalizedPlugin>, b: seq<NormalizedPlugin>, api: NormalizedPlugin -> Value)
    ensures prefix + InstallEvents(a, api) + InstallEvents(b, api) == prefix + InstallEvents(a + b, api)
  {
    InstallEventsAppend(a, b, api);
    Assoc(prefix, InstallEvents(a, api), InstallEvents(b, api));
  }

  /** The plugins map after installPlugin ran on each of the given plugins, in order; anonymous ones are not recorded. */
  function StatesAfter(states: map<string, PluginState>, items: seq<NormalizedPlugin>, api: NormalizedPlugin -> Value)
    : (r: map<string, PluginState>)
    ensures r.Keys == states.Keys + NamesOf(items)
  {
    if items == [] then states
    else
      var x := items[|items| - 1];
      var s := StatesAfter(states, items[..|items| - 1], api);
      if x.name != "" then s[x.name := StateOf(x, api(x))] else s
  }

  /** The map's keys in insertion order after those installs: a new name goes last, a re-installed one keeps its place. */
  function OrderAfter(order: seq<string>, items: seq<NormalizedPlugin>): (r: seq<string>)
    ensures |r| >= |order| && r[..|order|] == order
    ensures forall n :: n in r <==> n in order || n in NamesOf(items)
    ensures (forall i, j :: 0 <= i < j < |order| ==> order[i] != order[j]) ==>
      forall i, j :: 0 <= i < j < |r| ==> r[i] != r[j]
  {
    if items == [] then order
    else
      var x := items[|items| - 1];
      var o := OrderAfter(order, items[..|items| - 1]);
      if x.name != "" && x.name !in o then o + [x.name] else o
  }

  /** The services after those installs: each named plugin's api provided as `plugin:<name>`. */
  function ProvidedAfter(provided: map<string, Value>, items: seq<NormalizedPlugin>, api: NormalizedPlugin -> Value)
    : (r: map<string, Value>)
    ensures r.Keys == provided.Keys + set n | n in NamesOf(items) :: ServiceKey(n)
  {
    if items == [] then provided
    else
      var x := items[|items| - 1];
      var p := ProvidedAfter(provided, items[..|items| - 1], api);
      if x.name != "" then p[ServiceKey(x.name) := ProvidedApi(api(x))] else p
  }

  lemma ServiceKeyInjective(a: string, b: string)
    ensures ServiceKey(a) == ServiceKey(b) ==> a == b
  {
    if ServiceKey(a) == ServiceKey(b) {
      assert a == ServiceKey(a)[|"plugin:"|..];
      assert b == ServiceKey(b)[|"plugin:"|..];
    }
  }

  /**
   * After a run of installs every recorded plugin's service is the api it
   * recorded (true for a nullish one), so `inject('plugin:<name>')` gives
   * back what the plugins map holds for the name.
   */
  lemma {:induction false} ProvidedAfterRecorded(states: map<string, PluginState>, provided: map<string, Value>,
                                                 items: seq<NormalizedPlugin>, api: NormalizedPlugin -> Value)
    requires forall n :: n in states ==> ServiceKey(n) in provided && provided[ServiceKey(n)] == ProvidedApi(states[n].api)
    ensures var s, p := StatesAfter(states, items, api), ProvidedAfter(provided, items, api);
      forall n :: n in s ==> ServiceKey(n) in p && p[ServiceKey(n)] == ProvidedApi(s[n].api)
    decreases |items|
  {
    if items != [] {
      var x := items[|items| - 1];
      var prefix := items[..|items| - 1];
      ProvidedAfterRecorded(states, provided, prefix, api);
      var s, p := StatesAfter(states, prefix, api), ProvidedAfter(provided, prefix, api);
      if x.name != "" {
        var s': map<string, PluginState> := s[x.name := StateOf(x, api(x))];
        var p': map<string, Value> := p[ServiceKey(x.name) := ProvidedApi(api(x))];
        AfterSnoc(states, [], provided, prefix, x, api);
        assert prefix + [x] == items;
        forall n | n in s'
          ensures ServiceKey(n) in p' && p'[ServiceKey(n)] == ProvidedApi(s'[n].api)
        {
          ServiceKeyInjective(n, x.name);
        }
      }
    }
  }

  /** Installing `a` and then `b` records what installing `a + b` does. */
  lemma {:induction false} StatesAfterAppend(states: map<string, PluginState>, a: seq<NormalizedPlugin>, b: seq<NormalizedPlugin>,
                                             api: NormalizedPlugin -> Value)
    ensures StatesAfter(StatesAfter(states, a, api), b, api) == StatesAfter(states, a + b, api)
    decreases |b|
  {
    if b == [] {
      assert a + b == a;
    } else {
      var b' := b[..|b| - 1];
      SplitLast(b);
      SnocAssoc(a, b', b[|b| - 1]);
      StatesAfterAppend(states, a, b', api);
      assert (a + b)[..|a + b| - 1] == a + b';
    }
  }

  lemma {:induction false} OrderAfterAppend(order: seq<string>, a: seq<NormalizedPlugin>, b: seq<NormalizedPlugin>)
    ensures OrderAfter(OrderAfter(order, a), b) == OrderAfter(order, a + b)
    decreases |b|
  {
    if b == [] {
      assert a + b == a;
    } else {
      var b' := b[..|b| - 1];
      SplitLast(b);
      SnocAssoc(a, b', b[|b| - 1]);
      OrderAfterAppend(order, a, b');
      assert (a + b)[..|a + b| - 1] == a + b';
    }
  }

  lemma {:induction false} ProvidedAfterAppend(provided: map<string, Value>, a: seq<NormalizedPlugin>, b: seq<NormalizedPlugin>,
                                               api: NormalizedPlugin -> Value)
    ensures ProvidedAfter(ProvidedAfter(provided, a, api), b, api) == ProvidedAfter(provided, a + b, api)
    decreases |b|
  {
    if b == [] {
      assert a + b == a;
    } else {
      var b' := b[..|b| - 1];
      SplitLast(b);
      SnocAssoc(a, b', b[|b| - 1]);
      ProvidedAfterAppend(provided, a, b', api);
      assert (a + b)[..|a + b| - 1] == a + b';
    }
  }

  /** One more install, as the three folds see it. */
  lemma AfterSnoc(states: map<string, PluginState>, order: seq<string>, provided: map<string, Value>,
                  items: seq<NormalizedPlugin>, x: NormalizedPlugin, api: NormalizedPlugin -> Value)
    ensures StatesAfter(states, items + [x], api) ==
      if x.name != "" then StatesAfter(states, items, api)[x.name := StateOf(x, api(x))] else StatesAfter(states, items, api)
    ensures OrderAfter(order, items + [x]) ==
      if x.name != "" && x.name !in OrderAfter(order, items) then OrderAfter(order, items) + [x.name] else OrderAfter(order, items)
    ensures ProvidedAfter(provided, items + [x], api) ==
      if x.name != "" then ProvidedAfter(provided, items, api)[ServiceKey(x.name) := ProvidedApi(api(x))]
      else ProvidedAfter(provided, items, api)
  {
    assert (items + [x])[..|items|] == items;
  }

  lemma SplitLast<T>(s: seq<T>)
    requires s != []
    ensures s == s[..|s| - 1] + [s[|s| - 1]]
  {
  }

  lemma SnocAssoc<T>(a: seq<T>, b: seq<T>, x: T)
    ensures a + (b + [x]) == (a + b) + [x]
  {
  }

  lemma DisposeErrorsSnoc(disposed: seq<string>, name: string, throwing: set<string>)
    ensures DisposeErrors(disposed + [name], throwing) ==
      DisposeErrors(disposed, throwing) + (if name in throwing then [PluginError(name)] else [])
  {
    assert (disposed + [name])[..|disposed|] == disposed;
  }

  lemma ReverseWithDisposeStep(names: seq<string>, installed: map<string, PluginState>, i: nat)
    requires i < |names|
    requires forall n :: n in names ==> n in installed
    ensures Reverse(WithDispose(names[i..], installed)) ==
      Reverse(WithDispose(names[i + 1..], installed)) + (if installed[names[i]].dispose.Some? then [names[i]] else [])
  {
    assert names[i..][1..] == names[i + 1..];
    var w := WithDispose(names[i + 1..], installed);
    if installed[names[i]].dispose.Some? {
      assert ([names[i]] + w)[1..] == w;
    } else {
      assert WithDispose(names[i..], installed) == w;
    }
  }

  lemma RemoveAt<T>(s: seq<T>, i: nat)
    requires i < |s|
    ensures multiset(s[..i] + s[i + 1..]) + multiset{s[i]} == multiset(s)
  {
    assert s == s[..i] + [s[i]] + s[i + 1..];
  }

  lemma Assoc<T>(a: seq<T>, b: seq<T>, c: seq<T>)
    ensures a + (b + c) == (a + b) + c
  {
  }

  lemma MidAssoc<T>(a: seq<T>, x: T, b: seq<T>)
    ensures a + ([x] + b) == (a + [x]) + b
  {
  }

  /**
   * One walk of flushPending's inner loop from index i over queue q, with
   * `names` installed: a plugin whose dependencies are all installed is
   * removed and installed (its name joins `names`) and the walk stays at the
   * same index; any other plugin is skipped. Returns the queue left and the
   * plugins installed, in order.
   */
  function PassFrom(q: seq<NormalizedPlugin>, i: nat, names: set<string>): (r: (seq<NormalizedPlugin>, seq<NormalizedPlugin>))
    requires i <= |q|
    ensures |r.0| + |r.1| == |q|
    decreases |q| - i
  {
    if i == |q| then (q, [])
    else if !DepsIn(q[i].deps, names) then PassFrom(q, i + 1, names)
    else
      var r := PassFrom(q[..i] + q[i + 1..], i, names + NameSet(q[i]));
      (r.0, [q[i]] + r.1)
  }

  /** A walk only moves plugins from the queue to the installed list. */
  lemma {:induction false} PassFromPermutes(q: seq<NormalizedPlugin>, i: nat, names: set<string>)
    requires i <= |q|
    ensures multiset(PassFrom(q, i, names).0) + multiset(PassFrom(q, i, names).1) == multiset(q)
    decreases |q| - i
  {
    if i < |q| {
      if !DepsIn(q[i].deps, names) {
        PassFromPermutes(q, i + 1, names);
      } else {
        PassFromPermutes(q[..i] + q[i + 1..], i, names + NameSet(q[i]));
        RemoveAt(q, i);
      }
    }
  }

  /** A walk installs each plugin after its dependencies. */
  lemma {:induction false} PassFromAfterDeps(q: seq<NormalizedPlugin>, i: nat, names: set<string>)
    requires i <= |q|
    ensures InstalledAfterDeps(PassFrom(q, i, names).1, names)
    decreases |q| - i
  {
    if i < |q| {
      if !DepsIn(q[i].deps, names) {
        PassFromAfterDeps(q, i + 1, names);
      } else {
        var names' := names + NameSet(q[i]);
        var rest := PassFrom(q[..i] + q[i + 1..], i, names');
        PassFromAfterDeps(q[..i] + q[i + 1..], i, names');
        assert [q[i]][..0] == [];
        assert names + NamesOf([]) == names;
        assert InstalledAfterDeps([q[i]], names);
        assert names + NamesOf([q[i]]) == names';
        AppendInstalled([q[i]], rest.1, names);
      }
    }
  }

  /** A walk that installs nothing leaves the queue as it was, and nothing from i on was ready. */
  lemma {:induction false} PassFromNothing(q: seq<NormalizedPlugin>, i: nat, names: set<string>)
    requires i <= |q|
    requires PassFrom(q, i, names).1 == []
    ensures PassFrom(q, i, names).0 == q
    ensures forall j :: i <= j < |q| ==> !DepsIn(q[j].deps, names)
    decreases |q| - i
  {
    if i < |q| && !DepsIn(q[i].deps, names) {
      PassFromNothing(q, i + 1, names);
    }
  }

  /**
   * flushPending's outer loop: sort the queue by priority and walk it, until
   * a walk installs nothing. Returns the queue left and the plugins
   * installed, in order.
   */
  function Flush(q: seq<NormalizedPlugin>, names: set<string>): (r: (seq<NormalizedPlugin>, seq<NormalizedPlugin>))
    ensures |r.0| + |r.1| == |q|
    decreases |q|
  {
    SortByPriorityPermutes(q);
    var p := PassFrom(SortByPriority(q), 0, names);
    if p.1 == [] then p
    else
      var r := Flush(p.0, names + NamesOf(p.1));
      (r.0, p.1 + r.1)
  }

  /** Flush, one pass at a time. */
  lemma FlushStep(q: seq<NormalizedPlugin>, names: set<string>, left: seq<NormalizedPlugin>, step: seq<NormalizedPlugin>)
    requires (left, step) == PassFrom(SortByPriority(q), 0, names)
    ensures step == [] ==> Flush(q, names) == (left, [])
    ensures step != [] ==> Flush(q, names) == (Flush(left, names + NamesOf(step)).0, step + Flush(left, names + NamesOf(step)).1)
  {
  }

  /** Flushing neither loses nor invents plugins: the queue left and the installed ones make up the queue. */
  lemma {:induction false} FlushPermutes(q: seq<NormalizedPlugin>, names: set<string>)
    ensures multiset(Flush(q, names).0) + multiset(Flush(q, names).1) == multiset(q)
    decreases |q|
  {
    SortByPriorityPermutes(q);
    PassFromPermutes(SortByPriority(q), 0, names);
    var p := PassFrom(SortByPriority(q), 0, names);
    if p.1 != [] {
      FlushPermutes(p.0, names + NamesOf(p.1));
    }
  }

  /** Flushing installs every plugin after its dependencies. */
  lemma {:induction false} FlushAfterDeps(q: seq<NormalizedPlugin>, names: set<string>)
    ensures InstalledAfterDeps(Flush(q, names).1, names)
    decreases |q|
  {
    SortByPriorityPermutes(q);
    PassFromAfterDeps(SortByPriority(q), 0, names);
    var p := PassFrom(SortByPriority(q), 0, names);
    if p.1 != [] {
      var names' := names + NamesOf(p.1);
      FlushAfterDeps(p.0, names');
      AppendInstalled(p.1, Flush(p.0, names').1, names);
    }
  }

  /**
   * Flushing stops at a fixpoint: what stays queued is in priority order and
   * none of it has all its dependencies installed.
   */
  lemma {:induction false} FlushFixpoint(q: seq<NormalizedPlugin>, names: set<string>)
    ensures SortedByPriority(Flush(q, names).0)
    ensures forall p :: p in Flush(q, names).0 ==> !DepsIn(p.deps, names + NamesOf(Flush(q, names).1))
    decreases |q|
  {
    SortByPriorityPermutes(q);
    var sorted := SortByPriority(q);
    var p := PassFrom(sorted, 0, names);
    if p.1 == [] {
      PassFromNothing(sorted, 0, names);
      SortByPriorityOrdered(q);
      assert names + NamesOf([]) == names;
    } else {
      var names' := names + NamesOf(p.1);
      var r := Flush(p.0, names');
      FlushFixpoint(p.0, names');
      NamesOfAppend(p.1, r.1);
      assert names' + NamesOf(r.1) == names + NamesOf(p.1 + r.1);
    }
  }

  /**
   * The loop of stop over the plugins map's values, last installed first:
   * returns the names whose dispose was called and the errors reported for
   * those that threw.
   */
  method DisposeInReverse(order: seq<string>, states: map<string, PluginState>, throwing: set<string>)
    returns (disposed: seq<string>, errors: seq<AppEvent>)
    requires forall n :: n in order ==> n in states
    ensures disposed == Reverse(WithDispose(order, states))
    ensures errors == DisposeErrors(disposed, throwing)
  {
    disposed := [];
    errors := [];
    var i := |order|;
    while i > 0
      invariant 0 <= i <= |order|
      invariant disposed == Reverse(WithDispose(order[i..], states))
      invariant errors == DisposeErrors(disposed, throwing)
    {
      i := i - 1;
      var name := order[i];
      ReverseWithDisposeStep(order, states, i);
      if states[name].dispose.Some? {
        DisposeErrorsSnoc(disposed, name, throwing);
        disposed := disposed + [name];
        if name in throwing {
          errors := errors + [PluginError(name)];
        }
      }
    }
    assert order[0..] == order;
  }

  /**
   * The plugins map lists each name once (`order` holds its keys in
   * insertion order), anonymous plugins are never recorded, every recorded
   * plugin's dependencies are recorded too, and each recorded plugin has
   * provided its service.
   */
  ghost predicate Coherent(order: seq<string>, states: map<string, PluginState>, provided: map<string, Value>) {
    && (forall i, j :: 0 <= i < j < |order| ==> order[i] != order[j])
    && (forall n :: n in states <==> n in order)
    && "" !in states
    && (forall i :: 0 <= i < |order| ==> DepsSatisfied(states[order[i]].deps, states))
    && (forall n :: n in states ==> ServiceKey(n) in provided)
  }

  /** installPlugin on a named plugin whose dependencies are installed keeps the plugins map coherent. */
  lemma CoherentInstall(order: seq<string>, states: map<string, PluginState>, provided: map<string, Value>,
                        item: NormalizedPlugin, api: Value)
    requires Coherent(order, states, provided)
    requires item.name != "" && DepsSatisfied(item.deps, states)
    ensures Coherent(if item.name in states then order else order + [item.name],
                     states[item.name := StateOf(item, api)],
                     provided[ServiceKey(item.name) := ProvidedApi(api)])
  {
    var order' := if item.name in states then order else order + [item.name];
    var states' := states[item.name := StateOf(item, api)];
    forall i | 0 <= i < |order'|
      ensures DepsSatisfied(states'[order'[i]].deps, states')
    {
      if order'[i] == item.name {
        DepsInMono(item.deps, states.Keys, states'.Keys);
      } else {
        DepsInMono(states[order'[i]].deps, states.Keys, states'.Keys);
      }
    }
  }

  class App {
    var provided: map<string, Value>
    /** The keys of the plugins map, in insertion order. */
    var order: seq<string>
    /** The plugins map: installed named plugins. */
    var states: map<string, PluginState>
    var pending: seq<NormalizedPlugin>
    var events: seq<AppEvent>

    /** The plugins map and the services are coherent. */
    ghost predicate Valid()
      reads this`order, this`states, this`provided
    {
      Coherent(order, states, provided)
    }

    constructor ()
      ensures Valid()
      ensures provided == map[] && order == [] && states == map[] && pending == [] && events == []
    {
      provided := map[];
      order := [];
      states := map[];
      pending := [];
      events := [];
    }

    method Provide(key: string, value: Value)
      requires Valid()
      modifies this
      ensures Valid()
      ensures provided == old(provided)[key := value]
      ensures order == old(order) && states == old(states) && pending == old(pending) && events == old(events)
    {
      provided := provided[key := value];
    }

    /** inject(key, fallback): the provided value of a key that has a service, else the fallback. */
    function Inject(key: string, fallback: Value): (r: Value)
      reads this
      ensures HasService(key) ==> r == provided[key]
      ensures !HasService(key) ==> r == fallback
    {
      InjectFrom(provided, key, fallback)
    }

    predicate HasService(key: string)
      reads this
    {
      key in provided
    }

    /** Whether a pending plugin has the same (non-empty) name and priority. */
    predicate HasConflict(n: NormalizedPlugin)
      reads this
    {
      exists p :: p in pending && p.name != "" && p.name == n.name && p.priority == n.priority
    }

    /** use: queue a plugin unless it is not one or its name is already installed. */
    method Use(plugin: PluginInput, options: Value)
      requires Valid()
      modifies this
      ensures Valid()
      ensures provided == old(provided) && order == old(order) && states == old(states)
      ensures NormalizePlugin(plugin, options).None? ==> pending == old(pending) && events == old(events)
      ensures NormalizePlugin(plugin, options).Some? ==>
        var n := NormalizePlugin(plugin, options).value;
        if n.name != "" && n.name in old(states) then
          pending == old(pending) && events == old(events) + [DuplicatePlugin(n.name)]
        else
          pending == old(pending) + [n]
          && events == old(events) + (if old(HasConflict(n)) then [PriorityConflict(n.name, n.priority)] else [])
    {
      var normalized := NormalizePlugin(plugin, options);
      if normalized.None? {
        return;
      }
      var n := normalized.value;
      if n.name != "" && n.name in states {
        events := events + [DuplicatePlugin(n.name)];
        return;
      }
      if HasConflict(n) {
        events := events + [PriorityConflict(n.name, n.priority)];
      }
      pending := pending + [n];
    }

    /** installPlugin, given what the plugin's apply returned. */
    method Install(item: NormalizedPlugin, api: Value)
      requires Valid() && DepsSatisfied(item.deps, states)
      modifies this
      ensures Valid()
      ensures item.name == "" ==> states == old(states) && order == old(order) && provided == old(provided)
      ensures item.name != "" ==>
        && states == old(states)[item.name := StateOf(item, api)]
        && order == (if item.name in old(states) then old(order) else old(order) + [item.name])
        && provided == old(provided)[ServiceKey(item.name) := ProvidedApi(api)]
      ensures pending == old(pending)
      ensures events == old(events) + [PluginInstalled(StateOf(item, api))]
      ensures states.Keys == old(states).Keys + NameSet(item)
    {
      var state := StateOf(item, api);
      if item.name != "" {
        CoherentInstall(order, states, provided, item, api);
        if item.name !in states {
          order := order + [item.name];
        }
        states := states[item.name := state];
        provided := provided[ServiceKey(item.name) := ProvidedApi(api)];
      }
      events := events + [PluginInstalled(state)];
    }

    /** The body of the pass for a plugin whose dependencies are installed: pending.splice(i, 1), then installPlugin. */
    method InstallAt(i: nat, api: NormalizedPlugin -> Value)
      requires Valid() && i < |pending| && DepsSatisfied(pending[i].deps, states)
      modifies this
      ensures Valid()
      ensures pending == old(pending[..i] + pending[i + 1..])
      ensures states.Keys == old(states).Keys + NameSet(old(pending[i]))
      ensures events == old(events) + [PluginInstalled(StateOf(old(pending[i]), api(old(pending[i]))))]
      ensures var item := old(pending[i]);
        && states == (if item.name != "" then old(states)[item.name := StateOf(item, api(item))] else old(states))
        && order == (if item.name != "" && item.name !in old(order) then old(order) + [item.name] else old(order))
        && provided == (if item.name != "" then old(provided)[ServiceKey(item.name) := ProvidedApi(api(item))] else old(provided))
    {
      var item := pending[i];
      pending := pending[..i] + pending[i + 1..];
      Install(item, api(item));
    }

    /**
     * One pass of flushPending's loop: sort the queue by priority, then walk
     * it once, installing (and removing) every plugin whose dependencies are
     * installed at that moment. Returns whether anything was installed.
     */
    method InstallPass(api: NormalizedPlugin -> Value) returns (changed: bool, ghost step: seq<NormalizedPlugin>)
      requires Valid()
      modifies this
      ensures Valid()
      ensures (pending, step) == PassFrom(SortByPriority(old(pending)), 0, old(states).Keys)
      ensures changed <==> step != []
      ensures states.Keys == old(states).Keys + NamesOf(step)
      ensures events == old(events) + InstallEvents(step, api)
      ensures states == StatesAfter(old(states), step, api)
      ensures order == OrderAfter(old(order), step)
      ensures provided == ProvidedAfter(old(provided), step, api)
    {
      pending := SortByPriority(pending);
      ghost var target := PassFrom(pending, 0, states.Keys);
      step := [];
      changed := false;
      var i := 0;
      while i < |pending|
        invariant i <= |pending|
        invariant Valid()
        invariant changed <==> step != []
        invariant PassFrom(pending, i, states.Keys).0 == target.0
        invariant step + PassFrom(pending, i, states.Keys).1 == target.1
        invariant states.Keys == old(states).Keys + NamesOf(step)
        invariant events == old(events) + InstallEvents(step, api)
        invariant states == StatesAfter(old(states), step, api)
        invariant order == OrderAfter(old(order), step)
        invariant provided == ProvidedAfter(old(provided), step, api)
        decreases |pending| - i
      {
        if !DepsSatisfied(pending[i].deps, states) {
          i := i + 1;
        } else {
          var item := pending[i];
          ghost var rest := PassFrom(pending[..i] + pending[i + 1..], i, states.Keys + NameSet(item));
          InstallAt(i, api);
          NamesSnoc(old(states).Keys, step, item);
          InstallEventsSnoc(old(events), step, item, api);
          MidAssoc(step, item, rest.1);
          AfterSnoc(old(states), old(order), old(provided), step, item, api);
          step := step + [item];
          changed := true;
        }
      }
      assert PassFrom(pending, i, states.Keys) == (pending, []);
      assert step + [] == step;
      assert (pending, step) == target;
    }

    /**
     * The loop of flushPending: passes over the queue until one installs
     * nothing (or the pass count exceeds the queue's initial length plus
     * one). Every pass that continues the loop installed a plugin, so the cap
     * is never reached here.
     */
    method FlushRounds(api: NormalizedPlugin -> Value) returns (ghost installed: seq<NormalizedPlugin>)
      requires Valid()
      modifies this
      ensures Valid()
      ensures (pending, installed) == Flush(old(pending), old(states).Keys)
      ensures states.Keys == old(states).Keys + NamesOf(installed)
      ensures events == old(events) + InstallEvents(installed, api)
      ensures states == StatesAfter(old(states), installed, api)
      ensures order == OrderAfter(old(order), installed)
      ensures provided == ProvidedAfter(old(provided), installed, api)
    {
      ghost var target := Flush(pending, states.Keys);
      installed := [];
      var changed := true;
      var iterations := 0;
      var maxIterations := |pending| + 1;
      while changed
        invariant Valid()
        invariant changed ==> Flush(pending, states.Keys).0 == target.0 && installed + Flush(pending, states.Keys).1 == target.1
        invariant !changed ==> pending == target.0 && installed == target.1
        invariant states.Keys == old(states).Keys + NamesOf(installed)
        invariant events == old(events) + InstallEvents(installed, api)
        invariant states == StatesAfter(old(states), installed, api)
        invariant order == OrderAfter(old(order), installed)
        invariant provided == ProvidedAfter(old(provided), installed, api)
        invariant |pending| + |installed| == |old(pending)|
        invariant maxIterations == |old(pending)| + 1 && 0 <= iterations <= maxIterations
        invariant changed ==> iterations <= |installed|
        decreases maxIterations - iterations + (if changed then 1 else 0)
      {
        iterations := iterations + 1;
        if iterations > maxIterations {
          // The circular-dependency report: every pass that keeps the loop
          // going installs a plugin, so the cap is out of reach.
          assert false;
          break;
        }
        ghost var q, keys := pending, states.Keys;
        ghost var step;
        SortByPriorityPermutes(q);
        changed, step := InstallPass(api);
        FlushStep(q, keys, pending, step);
        if changed {
          Assoc(installed, step, Flush(pending, states.Keys).1);
        }
        NamesGrow(old(states).Keys, installed, step);
        InstallEventsGrow(old(events), installed, step, api);
        StatesAfterAppend(old(states), installed, step, api);
        OrderAfterAppend(old(order), installed, step);
        ProvidedAfterAppend(old(provided), installed, step, api);
        installed := installed + step;
      }
    }

    /**
     * flushPending: install what can be installed, then report what stays
     * queued as unresolved, with each plugin's missing dependencies.
     */
    method FlushPending(api: NormalizedPlugin -> Value) returns (ghost installed: seq<NormalizedPlugin>)
      requires Valid()
      modifies this
      ensures Valid()
      ensures (pending, installed) == Flush(old(pending), old(states).Keys)
      ensures states.Keys == old(states).Keys + NamesOf(installed)
      ensures events == old(events) + InstallEvents(installed, api)
        + (if pending == [] then [] else [UnresolvedDependencies(UnresolvedOf(pending, states))])
      ensures states == StatesAfter(old(states), installed, api)
      ensures order == OrderAfter(old(order), installed)
      ensures provided == ProvidedAfter(old(provided), installed, api)
    {
      installed := FlushRounds(api);
      if |pending| > 0 {
        events := events + [UnresolvedDependencies(UnresolvedOf(pending, states))];
      }
    }

    /** start: flush the queue, then announce the start. */
    method Start(api: NormalizedPlugin -> Value) returns (ghost installed: seq<NormalizedPlugin>)
      requires Valid()
      modifies this
      ensures Valid()
      ensures (pending, installed) == Flush(old(pending), old(states).Keys)
      ensures events == old(events) + InstallEvents(installed, api)
        + (if pending == [] then [] else [UnresolvedDependencies(UnresolvedOf(pending, states))])
        + [AppStarted]
      ensures states == StatesAfter(old(states), installed, api)
      ensures order == OrderAfter(old(order), installed)
      ensures provided == ProvidedAfter(old(provided), installed, api)
    {
      installed := FlushPending(api);
      events := events + [AppStarted];
    }

    /**
     * stop: call each installed plugin's dispose, last installed first; a
     * dispose that throws (those named in `throwing`) is reported and the
     * others still run. Returns the names whose dispose was called, in order.
     */
    method Stop(throwing: set<string>) returns (disposed: seq<string>)
      requires Valid()
      modifies this
      ensures Valid()
      ensures disposed == Reverse(WithDispose(order, states))
      ensures events == old(events) + DisposeErrors(disposed, throwing) + [AppStopped]
      ensures provided == old(provided) && order == old(order) && states == old(states) && pending == old(pending)
    {
      var errors;
      disposed, errors := DisposeInReverse(order, states, throwing);
      events := events + errors + [AppStopped];
    }
  }
}
