/** The cache of worker deployments: kubernetes/worker-controller/src/worker_deployments.py. */
module WorkerDeployments {
  import opened Options
  import opened Sequences
  import opened AutoscalerRules
  import opened Text

  /** One worker deployment, as a value. */
  datatype Deployment = Deployment(
    name: string, supplier: string, model: string, version: string, api: string,
    modelId: Option<nat>, replicas: nat, scaling: Option<Settings>)
  {
    /** The id parts the cache compares, ignoring case. */
    function Key(): (string, string, string, string) {
      (Lower(supplier), Lower(model), Lower(version), Lower(api))
    }

    function IdString(): string {
      Lower(supplier + "-" + model + "-" + version + "-" + api)
    }
  }

  /** `str.split('-')`. */
  function Split(s: string): (parts: seq<string>)
    ensures parts != []
  {
    if s == [] then [[]]
    else
      var rest := Split(s[1..]);
      if s[0] == '-' then [[]] + rest else [[s[0]] + rest[0]] + rest[1..]
  }

  // ---- lookups -------------------------------------------------------------

  predicate Matches(d: Deployment, supplier: string, model: string, version: string, api: Option<string>) {
    && Lower(d.supplier) == Lower(supplier) && Lower(d.model) == Lower(model) && Lower(d.version) == Lower(version)
    && (api.Some? ==> Lower(d.api) == Lower(api.value))
  }

  /** Index of the first matching entry. */
  function Find(cache: seq<Deployment>, supplier: string, model: string, version: string, api: Option<string>): (i: Option<nat>)
    ensures i.Some? ==> i.value < |cache| && Matches(cache[i.value], supplier, model, version, api)
    ensures i.Some? ==> forall j :: 0 <= j < i.value ==> !Matches(cache[j], supplier, model, version, api)
    ensures i.None? ==> forall j :: 0 <= j < |cache| ==> !Matches(cache[j], supplier, model, version, api)
  {
    if cache == [] then None
    else
      var found := Find(cache[..|cache| - 1], supplier, model, version, api);
      if found.Some? then found
      else if Matches(cache[|cache| - 1], supplier, model, version, api) then Some(|cache| - 1)
      else None
  }

  function FindById(cache: seq<Deployment>, id: string): (i: Option<nat>)
    ensures i.Some? ==> i.value < |cache|
  {
    var parts := Split(id);
    if |parts| == 3 then Find(cache, parts[0], parts[1], parts[2], None)
    else if |parts| == 4 then Find(cache, parts[0], parts[1], parts[2], Some(parts[3]))
    else None
  }

  // ---- updates -------------------------------------------------------------

  datatype Change =
    | Seen(name: string, supplier: string, model: string, version: string, api: string, replicas: nat)
    | Deleted(name: string)

  function Keep(cache: seq<Deployment>, name: string): seq<Deployment> {
    if cache == [] then []
    else Keep(cache[..|cache| - 1], name) + if cache[|cache| - 1].name != name then [cache[|cache| - 1]] else []
  }

  function Changed(cache: seq<Deployment>, change: Change): seq<Deployment> {
    match change
    case Seen(name, supplier, model, version, api, replicas) =>
      var found := Find(cache, supplier, model, version, Some(api));
      if found.Some? then cache[found.value := cache[found.value].(replicas := replicas)]
      else cache + [Deployment(name, supplier, model, version, api, None, replicas, None)]
    case Deleted(name) => Keep(cache, name)
  }

  function AfterChanges(changes: seq<Change>): seq<Deployment> {
    if changes == [] then [] else Changed(AfterChanges(changes[..|changes| - 1]), changes[|changes| - 1])
  }

  predicate UniqueKeys(cache: seq<Deployment>) {
    forall i, j :: 0 <= i < j < |cache| ==> cache[i].Key() != cache[j].Key()
  }

  lemma {:induction false} KeepUnique(cache: seq<Deployment>, name: string)
    requires UniqueKeys(cache)
    ensures UniqueKeys(Keep(cache, name))
    ensures forall d :: d in Keep(cache, name) <==> d in cache && d.name != name
  {
    if cache != [] {
      var init, last := cache[..|cache| - 1], cache[|cache| - 1];
      KeepUnique(init, name);
      var kept := Keep(init, name);
      assert cache == init + [last];
      assert forall i :: 0 <= i < |kept| ==> kept[i] in kept && kept[i] in init;
    }
  }

  lemma ChangedUnique(cache: seq<Deployment>, change: Change)
    requires UniqueKeys(cache)
    ensures UniqueKeys(Changed(cache, change))
  {
    if change.Deleted? {
      KeepUnique(cache, change.name);
    }
  }

  /** After any run of updates and deletes the cache has at most one entry for each id, ignoring case. */
  lemma {:induction false} CacheHasUniqueKeys(changes: seq<Change>)
    ensures UniqueKeys(AfterChanges(changes))
  {
    if changes != [] {
      CacheHasUniqueKeys(changes[..|changes| - 1]);
      ChangedUnique(AfterChanges(changes[..|changes| - 1]), changes[|changes| - 1]);
    }
  }

  /** What there is to know of one id after a run of changes: the name it was first seen under since it was
      last deleted by that name, and the replicas last seen. */
  function LastSeen(changes: seq<Change>, key: (string, string, string, string)): Option<(string, nat)> {
    if changes == [] then None
    else
      var before := LastSeen(changes[..|changes| - 1], key);
      match changes[|changes| - 1]
      case Seen(name, supplier, model, version, api, replicas) =>
        if (Lower(supplier), Lower(model), Lower(version), Lower(api)) != key then before
        else Some((if before.Some? then before.value.0 else name, replicas))
      case Deleted(name) => if before.Some? && before.value.0 == name then None else before
  }

  ghost predicate HasEntry(cache: seq<Deployment>, key: (string, string, string, string), name: string, replicas: nat) {
    exists i :: 0 <= i < |cache| && cache[i].Key() == key && cache[i].name == name && cache[i].replicas == replicas
  }

  /** After any run of updates and deletes the cache has an entry for an id exactly when the id was seen and
      not deleted since, under the name it was first seen with and with the replicas last seen. */
  lemma {:induction false} CacheHoldsLastSeen(changes: seq<Change>, key: (string, string, string, string), name: string, replicas: nat)
    ensures HasEntry(AfterChanges(changes), key, name, replicas) <==> LastSeen(changes, key) == Some((name, replicas))
  {
    if changes != [] {
      var init, change := changes[..|changes| - 1], changes[|changes| - 1];
      forall n: string, r: nat { CacheHoldsLastSeen(init, key, n, r); }
      CacheHasUniqueKeys(init);
      if change.Deleted? {
        DeletedEntry(AfterChanges(init), change.name, key, name, replicas);
      } else {
        SeenEntry(AfterChanges(init), change, key, name, replicas);
        if LastSeen(init, key).Some? {
          var (n, r) := LastSeen(init, key).value;
          assert HasEntry(AfterChanges(init), key, n, r);
        }
      }
    }
  }

  lemma DeletedEntry(cache: seq<Deployment>, gone: string, key: (string, string, string, string), name: string, replicas: nat)
    requires UniqueKeys(cache)
    ensures HasEntry(Keep(cache, gone), key, name, replicas) <==> HasEntry(cache, key, name, replicas) && name != gone
  {
    KeepUnique(cache, gone);
    var kept := Keep(cache, gone);
    if i :| 0 <= i < |kept| && kept[i].Key() == key && kept[i].name == name && kept[i].replicas == replicas {
      assert kept[i] in kept && kept[i] in cache;
    }
    if i :| 0 <= i < |cache| && cache[i].Key() == key && cache[i].name == name && cache[i].replicas == replicas {
      assert cache[i] in cache && (name != gone ==> cache[i] in kept);
    }
  }

  lemma SeenEntry(cache: seq<Deployment>, seen: Change, key: (string, string, string, string), name: string, replicas: nat)
    requires UniqueKeys(cache) && seen.Seen?
    ensures var seenKey := (Lower(seen.supplier), Lower(seen.model), Lower(seen.version), Lower(seen.api));
      HasEntry(Changed(cache, seen), key, name, replicas)
      <==> if seenKey != key then HasEntry(cache, key, name, replicas)
           else replicas == seen.replicas
                && if exists n, r :: HasEntry(cache, key, n, r) then exists r :: HasEntry(cache, key, name, r) else name == seen.name
  {
    var found := Find(cache, seen.supplier, seen.model, seen.version, Some(seen.api));
    var seenKey := (Lower(seen.supplier), Lower(seen.model), Lower(seen.version), Lower(seen.api));
    var after := Changed(cache, seen);
    if found.Some? {
      var at := found.value;
      assert cache[at].Key() == seenKey && after[at].Key() == seenKey && after[at].replicas == seen.replicas;
      assert HasEntry(cache, seenKey, cache[at].name, cache[at].replicas);
      assert forall i :: 0 <= i < |cache| && i != at ==> after[i] == cache[i] && cache[i].Key() != seenKey;
    } else {
      assert after[|cache|].Key() == seenKey;
      assert forall i :: 0 <= i < |cache| ==> after[i] == cache[i] && cache[i].Key() != seenKey;
    }
  }

  // ---- looking up an entry's own id ----------------------------------------

  predicate Dashless(d: Deployment) {
    '-' !in d.supplier && '-' !in d.model && '-' !in d.version && '-' !in d.api
  }

  lemma {:induction false} SplitHead(head: string, rest: string)
    requires '-' !in head
    ensures Split(head + "-" + rest) == [head] + Split(rest)
  {
    var s := head + "-" + rest;
    if head == [] {
      assert s[1..] == rest;
    } else {
      SplitHead(head[1..], rest);
      assert s[1..] == head[1..] + "-" + rest;
      assert [head[0]] + head[1..] == head;
    }
  }

  lemma {:induction false} SplitWhole(s: string)
    ensures |Split(s)| == 1 + Dashes(s)
    ensures '-' !in s ==> Split(s) == [s]
  {
    if s != [] {
      SplitWhole(s[1..]);
      assert s == [s[0]] + s[1..];
    }
  }

  function Dashes(s: string): nat {
    if s == [] then 0 else (if s[0] == '-' then 1 else 0) + Dashes(s[1..])
  }

  lemma {:induction false} DashesAppend(a: string, b: string)
    ensures Dashes(a + b) == Dashes(a) + Dashes(b)
  {
    if a == [] {
      assert a + b == b;
    } else {
      DashesAppend(a[1..], b);
      assert (a + b)[1..] == a[1..] + b;
    }
  }

  lemma {:induction false} DashesIn(s: string)
    ensures Dashes(s) > 0 <==> '-' in s
  {
    if s != [] {
      DashesIn(s[1..]);
      assert s == [s[0]] + s[1..];
    }
  }

  lemma LowerParts(d: Deployment)
    ensures d.IdString() == Lower(d.supplier) + "-" + (Lower(d.model) + "-" + (Lower(d.version) + "-" + Lower(d.api)))
    ensures forall s: string :: '-' in Lower(s) <==> '-' in s
  {
  }

  /** Looking up an entry's own id string finds that entry exactly when no part of its id contains a
      dash; otherwise it finds nothing. */
  lemma OwnIdLookup(cache: seq<Deployment>, i: nat)
    requires UniqueKeys(cache) && i < |cache|
    ensures FindById(cache, cache[i].IdString()) == if Dashless(cache[i]) then Some(i) else None
  {
    if Dashless(cache[i]) {
      SplitOwnId(cache[i]);
      FindOwnKey(cache, i);
    } else {
      DashedId(cache[i]);
    }
  }

  lemma FindOwnKey(cache: seq<Deployment>, i: nat)
    requires UniqueKeys(cache) && i < |cache|
    ensures var (s, m, v, a) := cache[i].Key(); Find(cache, s, m, v, Some(a)) == Some(i)
  {
    forall j | 0 <= j < |cache| { MatchesKey(cache[j], cache[i]); }
    var (s, m, v, a) := cache[i].Key();
    OnlyMatch(cache, s, m, v, a, i);
  }

  lemma MatchesKey(d: Deployment, e: Deployment)
    ensures Matches(d, e.Key().0, e.Key().1, e.Key().2, Some(e.Key().3)) <==> d.Key() == e.Key()
  {
    LowerTwice(e.supplier);
    LowerTwice(e.model);
    LowerTwice(e.version);
    LowerTwice(e.api);
  }

  lemma LowerTwice(s: string)
    ensures Lower(Lower(s)) == Lower(s)
  {
  }

  lemma OnlyMatch(cache: seq<Deployment>, s: string, m: string, v: string, a: string, i: nat)
    requires i < |cache| && Matches(cache[i], s, m, v, Some(a))
    requires forall j :: 0 <= j < |cache| && j != i ==> !Matches(cache[j], s, m, v, Some(a))
    ensures Find(cache, s, m, v, Some(a)) == Some(i)
  {
  }

  /** An id without the api version finds the first entry with its supplier, model and version, whatever its
      api version. */
  lemma LookupWithoutApi(cache: seq<Deployment>, s: string, m: string, v: string)
    requires '-' !in s && '-' !in m && '-' !in v
    ensures match FindById(cache, s + "-" + (m + "-" + v))
            case None => forall j :: 0 <= j < |cache| ==> !SameModel(cache[j], s, m, v)
            case Some(i) => SameModel(cache[i], s, m, v) && forall j :: 0 <= j < i ==> !SameModel(cache[j], s, m, v)
  {
    SplitHead(s, m + "-" + v);
    SplitHead(m, v);
    SplitWhole(v);
  }

  predicate SameModel(d: Deployment, s: string, m: string, v: string) {
    Lower(d.supplier) == Lower(s) && Lower(d.model) == Lower(m) && Lower(d.version) == Lower(v)
  }

  lemma SplitOwnId(d: Deployment)
    requires Dashless(d)
    ensures Split(d.IdString()) == [d.Key().0, d.Key().1, d.Key().2, d.Key().3]
  {
    var (s, m, v, a) := d.Key();
    LowerParts(d);
    SplitHead(s, m + "-" + (v + "-" + a));
    SplitHead(m, v + "-" + a);
    SplitHead(v, a);
    SplitWhole(a);
  }

  lemma DashedId(d: Deployment)
    requires !Dashless(d)
    ensures |Split(d.IdString())| > 4
  {
    var (s, m, v, a) := d.Key();
    LowerParts(d);
    ManyDashes(s, m, v, a);
    SplitWhole(d.IdString());
  }

  lemma ManyDashes(s: string, m: string, v: string, a: string)
    requires '-' in s || '-' in m || '-' in v || '-' in a
    ensures Dashes(s + "-" + (m + "-" + (v + "-" + a))) > 3
  {
    var dash := "-";
    assert Dashes(dash) == 1 by { assert dash[1..] == ""; }
    DashesIn(s); DashesIn(m); DashesIn(v); DashesIn(a);
    DashesAppend(v + dash, a); DashesAppend(v, dash);
    DashesAppend(m + dash, v + dash + a); DashesAppend(m, dash);
    DashesAppend(s + dash, m + dash + (v + dash + a)); DashesAppend(s, dash);
  }

  // ---- the cache objects ---------------------------------------------------

  class WorkerDeployment {
    const name: string
    const supplier: string
    const model: string
    const version: string
    const api: string
    var modelId: Option<nat>
    var replicas: nat
    var scaling: Option<Settings>

    constructor (name: string, supplier: string, model: string, version: string, api: string, replicas: nat)
      ensures Value() == Deployment(name, supplier, model, version, api, None, replicas, None)
    {
      this.name, this.supplier, this.model, this.version, this.api := name, supplier, model, version, api;
      modelId, this.replicas, scaling := None, replicas, None;
    }

    function Value(): Deployment
      reads this
    {
      Deployment(name, supplier, model, version, api, modelId, replicas, scaling)
    }
  }

  class DeploymentCache {
    var deployments: seq<WorkerDeployment>

    ghost predicate Valid()
      reads this, deployments
    {
      && NoDuplicates(deployments)
      && UniqueKeys(Values())
    }

    function Values(): (values: seq<Deployment>)
      reads this, deployments
      ensures |values| == |deployments|
      ensures forall i :: 0 <= i < |deployments| ==> values[i] == deployments[i].Value()
    {
      ValuesOf(deployments)
    }

    constructor ()
      ensures Valid() && Values() == []
    {
      deployments := [];
    }

    /** `get_worker_deployment`: a search through the list. */
    method GetWorkerDeployment(supplier: string, model: string, version: string, api: Option<string>)
      returns (found: WorkerDeployment?)
      ensures var i := Find(Values(), supplier, model, version, api);
        found == if i.Some? then deployments[i.value] else null
    {
      for i := 0 to |deployments|
        invariant forall j :: 0 <= j < i ==> !Matches(Values()[j], supplier, model, version, api)
      {
        if Matches(deployments[i].Value(), supplier, model, version, api) {
          return deployments[i];
        }
      }
      found := null;
    }

    method GetWorkerDeploymentByNameId(id: string) returns (found: WorkerDeployment?)
      ensures var i := FindById(Values(), id);
        found == if i.Some? then deployments[i.value] else null
    {
      var parts := Split(id);
      found := null;
      if |parts| == 3 {
        found := GetWorkerDeployment(parts[0], parts[1], parts[2], None);
      } else if |parts| == 4 {
        found := GetWorkerDeployment(parts[0], parts[1], parts[2], Some(parts[3]));
      }
    }

    /** `update_worker`: a new entry, or new replicas on the entry already there. */
    method UpdateWorker(name: string, supplier: string, model: string, version: string, api: string, replicas: nat)
      requires Valid()
      modifies this, deployments
      ensures Valid()
      ensures Values() == Changed(old(Values()), Seen(name, supplier, model, version, api, replicas))
    {
      ghost var before := Values();
      ghost var i := Find(before, supplier, model, version, Some(api));
      var wd := GetWorkerDeployment(supplier, model, version, Some(api));
      if wd == null {
        var added := new WorkerDeployment(name, supplier, model, version, api, replicas);
        Append(added);
      } else {
        SetReplicas(wd, i.value, replicas);
      }
      ChangedUnique(before, Seen(name, supplier, model, version, api, replicas));
    }

    method Append(added: WorkerDeployment)
      requires added !in deployments
      modifies this
      ensures deployments == old(deployments) + [added]
      ensures Values() == old(Values()) + [added.Value()]
    {
      deployments := deployments + [added];
    }

    method SetReplicas(wd: WorkerDeployment, ghost i: nat, replicas: nat)
      requires i < |deployments| && deployments[i] == wd && NoDuplicates(deployments)
      modifies wd
      ensures Values() == old(Values())[i := old(Values())[i].(replicas := replicas)]
    {
      wd.replicas := replicas;
    }

    method Delete(name: string)
      requires Valid()
      modifies this
      ensures Valid()
      ensures Values() == Changed(old(Values()), Deleted(name))
    {
      var kept := Others(name);
      KeepUnique(Values(), name);
      deployments := kept;
    }

    /** The entries with other names, in order. */
    method Others(name: string) returns (kept: seq<WorkerDeployment>)
      requires NoDuplicates(deployments)
      ensures NoDuplicates(kept) && ValuesOf(kept) == Keep(Values(), name)
    {
      kept := [];
      for i := 0 to |deployments|
        invariant forall w :: w in kept ==> w in deployments[..i]
        invariant NoDuplicates(kept)
        invariant ValuesOf(kept) == Keep(Values()[..i], name)
      {
        assert Values()[..i + 1][..i] == Values()[..i];
        PrefixStep(deployments, i + 1);
        NoDuplicatesSnoc(deployments[..i], deployments[i]);
        NoDuplicatesSnoc(kept, deployments[i]);
        if deployments[i].name != name {
          assert ValuesOf(kept + [deployments[i]]) == ValuesOf(kept) + [deployments[i].Value()];
          kept := kept + [deployments[i]];
        }
      }
      assert Values()[..|deployments|] == Values();
    }
  }

  function ValuesOf(deployments: seq<WorkerDeployment>): (values: seq<Deployment>)
    reads deployments
    ensures |values| == |deployments|
    ensures forall i :: 0 <= i < |deployments| ==> values[i] == deployments[i].Value()
  {
    seq(|deployments|, i requires 0 <= i < |deployments| reads deployments => deployments[i].Value())
  }
}
