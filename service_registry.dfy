/**
 * The service registry of the desktop main process: a Map from service name
 * to its configuration (name, loader, enabled, priority), filled by
 * registerService and emptied by unregisterService/clearRegistry, and read
 * back sorted by priority, highest first.
 */
module ServiceRegistry {
  import opened Wrappers
  import opened JsValues

  /**
   * The configuration object passed to registerService; a field the caller
   * left out is Undefined, a priority left out is None.
   */
  datatype ServiceConfig = ServiceConfig(name: Value, loader: Value, enabled: Value, priority: Option<int>)

  /** A registered service, with the defaults applied. */
  datatype Service = Service(name: Value, loader: Value, enabled: Value, priority: int)

  datatype RegisterError =
    | NoConfig           // destructuring undefined or null throws a TypeError
    | NameOrLoaderMissing
    | LoaderNotFunction

  /**
   * What registerService stores for a configuration, or why it throws:
   * a falsy name or loader, then a loader that is not a function.
   */
  function Configure(config: Option<ServiceConfig>): (r: Result<Service, RegisterError>)
    ensures r.Err? <==> config.None? || !Truthy(config.value.name) || !Truthy(config.value.loader) || !config.value.loader.Fn?
    ensures config.None? ==> r == Err(NoConfig)
    ensures config.Some? && (!Truthy(config.value.name) || !Truthy(config.value.loader)) ==> r == Err(NameOrLoaderMissing)
    ensures r.Ok? ==>
      && r.value.name == config.value.name && r.value.loader == config.value.loader
      && Truthy(r.value.name) && r.value.loader.Fn?
      && (config.value.enabled.Undefined? ==> r.value.enabled == Bool(true))
      && (!config.value.enabled.Undefined? ==> r.value.enabled == config.value.enabled)
      && r.value.priority == config.value.priority.GetOr(0)
  {
    if config.None? then Err(NoConfig)
    else
      var c := config.value;
      var enabled := if c.enabled.Undefined? then Bool(true) else c.enabled;
      var priority := c.priority.GetOr(0);
      if !Truthy(c.name) || !Truthy(c.loader) then Err(NameOrLoaderMissing)
      else if !c.loader.Fn? then Err(LoaderNotFunction)
      else Ok(Service(c.name, c.loader, enabled, priority))
  }

  /** Priorities never increase along the sequence. */
  predicate SortedDesc(s: seq<Service>) {
    forall i, j :: 0 <= i < j < |s| ==> s[i].priority >= s[j].priority
  }

  /** Place x after every service whose priority is at least its own. */
  function Insert(x: Service, s: seq<Service>): (r: seq<Service>)
    ensures |r| == |s| + 1
  {
    if s == [] then [x]
    else if x.priority > s[0].priority then [x] + s
    else [s[0]] + Insert(x, s[1..])
  }

  /** A stable sort by priority, highest first: the sort with comparator b.priority - a.priority. */
  function SortDesc(s: seq<Service>): (r: seq<Service>)
    ensures |r| == |s|
  {
    if s == [] then [] else Insert(s[|s| - 1], SortDesc(s[..|s| - 1]))
  }

  /** The services of one priority, in their order. */
  function Having(s: seq<Service>, p: int): seq<Service> {
    if s == [] then []
    else (if s[0].priority == p then [s[0]] else []) + Having(s[1..], p)
  }

  /** The enabled services, in their order. */
  function Enabled(s: seq<Service>): (r: seq<Service>)
    ensures |r| <= |s|
  {
    if s == [] then []
    else (if Truthy(s[0].enabled) then [s[0]] else []) + Enabled(s[1..])
  }

  lemma {:induction false} InsertPermutes(x: Service, s: seq<Service>)
    ensures multiset(Insert(x, s)) == multiset(s) + multiset{x}
  {
    if s != [] && x.priority <= s[0].priority {
      InsertPermutes(x, s[1..]);
      assert s == [s[0]] + s[1..];
    }
  }

  /** Sorting keeps exactly the given services. */
  lemma {:induction false} SortDescPermutes(s: seq<Service>)
    ensures multiset(SortDesc(s)) == multiset(s)
  {
    if s != [] {
      SortDescPermutes(s[..|s| - 1]);
      InsertPermutes(s[|s| - 1], SortDesc(s[..|s| - 1]));
      assert s == s[..|s| - 1] + [s[|s| - 1]];
    }
  }

  lemma {:induction false} InsertBound(x: Service, s: seq<Service>, b: int)
    requires x.priority <= b && forall i :: 0 <= i < |s| ==> s[i].priority <= b
    ensures forall i :: 0 <= i < |Insert(x, s)| ==> Insert(x, s)[i].priority <= b
  {
    if s != [] && x.priority <= s[0].priority {
      InsertBound(x, s[1..], b);
    }
  }

  lemma {:induction false} InsertSorted(x: Service, s: seq<Service>)
    requires SortedDesc(s)
    ensures SortedDesc(Insert(x, s))
  {
    if s != [] && x.priority <= s[0].priority {
      InsertSorted(x, s[1..]);
      InsertBound(x, s[1..], s[0].priority);
    }
  }

  /**
   * The member-level corollary of SortDescPermutes (equal multisets have
   * equal members), kept apart so that AllServices' contract is proved
   * without multiset reasoning at each use.
   */
  lemma SortDescMembers(s: seq<Service>)
    ensures forall x :: x in SortDesc(s) <==> x in s
  {
    SortDescPermutes(s);
    forall x
      ensures x in SortDesc(s) <==> x in s
    {
      assert x in SortDesc(s) <==> x in multiset(SortDesc(s));
    }
  }

  /** Sorting puts higher priorities first. */
  lemma {:induction false} SortDescSorted(s: seq<Service>)
    ensures SortedDesc(SortDesc(s))
  {
    if s != [] {
      SortDescSorted(s[..|s| - 1]);
      InsertSorted(s[|s| - 1], SortDesc(s[..|s| - 1]));
    }
  }

  lemma {:induction false} HavingAppend(a: seq<Service>, b: seq<Service>, p: int)
    ensures Having(a + b, p) == Having(a, p) + Having(b, p)
  {
    if a != [] {
      HavingAppend(a[1..], b, p);
      assert (a + b)[0] == a[0] && (a + b)[1..] == a[1..] + b;
      var head := if a[0].priority == p then [a[0]] else [];
      assert head + (Having(a[1..], p) + Having(b, p)) == (head + Having(a[1..], p)) + Having(b, p);
    } else {
      assert a + b == b;
    }
  }

  lemma {:induction false} HavingBelow(s: seq<Service>, p: int)
    requires SortedDesc(s) && s != [] && s[0].priority < p
    ensures Having(s, p) == []
  {
    if |s| > 1 {
      HavingBelow(s[1..], p);
    }
  }

  /** Having of a sequence with a known first element. */
  lemma HavingCons(a: Service, t: seq<Service>, p: int)
    ensures Having([a] + t, p) == (if a.priority == p then [a] else []) + Having(t, p)
  {
    var r := [a] + t;
    assert r[0] == a && r[1..] == t;
  }

  lemma {:induction false} InsertHaving(x: Service, s: seq<Service>, p: int)
    requires SortedDesc(s)
    ensures Having(Insert(x, s), p) == Having(s, p) + (if x.priority == p then [x] else [])
  {
    var e := if x.priority == p then [x] else [];
    if s == [] {
      assert Having([x], p) == e + Having([], p) by { HavingCons(x, [], p); }
    } else if x.priority > s[0].priority {
      assert Having([x] + s, p) == e + Having(s, p) by { HavingCons(x, s, p); }
      if x.priority == p {
        HavingBelow(s, p);
      }
    } else {
      var t := Insert(x, s[1..]);
      var h := if s[0].priority == p then [s[0]] else [];
      assert Having(t, p) == Having(s[1..], p) + e by {
        assert SortedDesc(s[1..]);
        InsertHaving(x, s[1..], p);
      }
      assert Having(s, p) == h + Having(s[1..], p);
      assert Having([s[0]] + t, p) == h + Having(t, p) by { HavingCons(s[0], t, p); }
      assert h + (Having(s[1..], p) + e) == (h + Having(s[1..], p)) + e;
    }
  }

  /** The sort is stable: the services of each priority keep their relative order. */
  lemma {:induction false} SortDescStable(s: seq<Service>, p: int)
    ensures Having(SortDesc(s), p) == Having(s, p)
  {
    if s != [] {
      var init, x := s[..|s| - 1], s[|s| - 1];
      SortDescStable(init, p);
      SortDescSorted(init);
      InsertHaving(x, SortDesc(init), p);
      assert s == init + [x];
      HavingAppend(init, [x], p);
    }
  }

  /** Filtering keeps exactly the enabled services, in their order. */
  lemma {:induction false} EnabledMeaning(s: seq<Service>)
    ensures forall x :: x in Enabled(s) <==> x in s && Truthy(x.enabled)
  {
    if s != [] {
      EnabledMeaning(s[1..]);
      assert s == [s[0]] + s[1..];
    }
  }

  class Registry {
    /** The Map's keys, in insertion order. */
    var keys: seq<Value>
    var services: map<Value, Service>

    /**
     * Each key is listed once, exactly the keys of the Map are listed, and
     * every service is stored under its own name.
     */
    ghost predicate Valid()
      reads this
    {
      && (forall i, j :: 0 <= i < j < |keys| ==> keys[i] != keys[j])
      && (forall k :: k in services <==> k in keys)
      && (forall k :: k in services ==> services[k].name == k)
    }

    constructor ()
      ensures Valid() && keys == [] && services == map[]
    {
      keys := [];
      services := map[];
    }

    /** Array.from(serviceRegistry.values()): the services in insertion order. */
    function Values(): (r: seq<Service>)
      requires Valid()
      reads this
      ensures |r| == |keys|
      ensures forall i :: 0 <= i < |keys| ==> r[i] == services[keys[i]]
    {
      ValuesOf(keys, services)
    }

    /** registerService: store the configured service under its name, or report why not. */
    method Register(config: Option<ServiceConfig>) returns (r: Result<(), RegisterError>)
      requires Valid()
      modifies this
      ensures Valid()
      ensures Configure(config).Err? ==> r == Err(Configure(config).error) && keys == old(keys) && services == old(services)
      ensures Configure(config).Ok? ==>
        var s := Configure(config).value;
        && r.Ok?
        && services == old(services)[s.name := s]
        && keys == (if s.name in old(services) then old(keys) else old(keys) + [s.name])
    {
      var configured := Configure(config);
      if configured.Err? {
        return Err(configured.error);
      }
      var s := configured.value;
      if s.name !in services {
        keys := keys + [s.name];
      }
      services := services[s.name := s];
      return Ok(());
    }

    /**
     * getAllServices: the enabled services (or all of them when enabledOnly
     * is falsy; undefined means true), highest priority first.
     */
    function AllServices(enabledOnly: Value): (r: seq<Service>)
      requires Valid()
      reads this
      ensures SortedDesc(r)
      ensures forall x :: x in r <==> x in Values() && (enabledOnly.Undefined? || Truthy(enabledOnly) ==> Truthy(x.enabled))
      ensures !enabledOnly.Undefined? && !Truthy(enabledOnly) ==> multiset(r) == multiset(Values())
    {
      var only := enabledOnly.Undefined? || Truthy(enabledOnly);
      var filtered := if only then Enabled(Values()) else Values();
      SortDescSorted(filtered);
      SortDescPermutes(filtered);
      SortDescMembers(filtered);
      EnabledMeaning(Values());
      SortDesc(filtered)
    }

    /** getService: the service registered under the name, if any. */
    function Get(name: Value): (r: Option<Service>)
      requires Valid()
      reads this
      ensures r.Some? <==> name in keys
      ensures r.Some? ==> r.value.name == name && r.value in Values()
    {
      if name in services then Some(services[name]) else None
    }

    /** hasService */
    predicate Has(name: Value)
      reads this
    {
      name in services
    }

    /** unregisterService: delete the entry, reporting whether there was one. */
    method Unregister(name: Value) returns (removed: bool)
      requires Valid()
      modifies this
      ensures Valid()
      ensures removed <==> name in old(services)
      ensures services == old(services) - {name}
      ensures keys == Without(old(keys), name)
    {
      removed := name in services;
      WithoutMeaning(keys, name);
      keys := Without(keys, name);
      services := services - {name};
    }

    /** clearRegistry */
    method Clear()
      modifies this
      ensures Valid() && keys == [] && services == map[]
    {
      keys := [];
      services := map[];
    }
  }

  /** The values of a map for the given keys, in order. */
  function ValuesOf(keys: seq<Value>, services: map<Value, Service>): (r: seq<Service>)
    requires forall k :: k in keys ==> k in services
    ensures |r| == |keys|
    ensures forall i :: 0 <= i < |keys| ==> r[i] == services[keys[i]]
  {
    if keys == [] then [] else [services[keys[0]]] + ValuesOf(keys[1..], services)
  }

  /** The keys other than k, in order. */
  function Without(keys: seq<Value>, k: Value): seq<Value> {
    if keys == [] then []
    else (if keys[0] == k then [] else [keys[0]]) + Without(keys[1..], k)
  }

  /** Deleting a key keeps the others in order and each still once. */
  lemma {:induction false} WithoutMeaning(keys: seq<Value>, k: Value)
    requires forall i, j :: 0 <= i < j < |keys| ==> keys[i] != keys[j]
    ensures forall x :: x in Without(keys, k) <==> x in keys && x != k
    ensures forall i, j :: 0 <= i < j < |Without(keys, k)| ==> Without(keys, k)[i] != Without(keys, k)[j]
  {
    if keys != [] {
      WithoutMeaning(keys[1..], k);
      assert keys == [keys[0]] + keys[1..];
      assert keys[0] !in keys[1..];
    }
  }
}
