/**
 * Installing and removing the rendered chart (pkg/deploy).
 *
 * `Deploy` makes sure the target namespace exists, renders the chart and
 * creates or updates every rendered object, stopping at the first refusal.
 * `Delete` renders the chart for the namespace alone, deletes the namespace
 * (which takes the namespaced objects with it) and then every
 * cluster-scoped rendered object; an object that is already gone is not an
 * error.
 *
 * Each operation is a method on a `Cluster.Client` proved equal to a pure
 * specification over `Cluster.Store`; the lemmas characterise those
 * specifications independently (which requests are made, in which order,
 * what the cluster holds afterwards, which error is reported).
 */
module Deploy {
  import opened Results
  import opened Values
  import opened Cluster
  import opened Helm

  const ManagedByLabel: string := "app.kubernetes.io/managed-by"
  const ManagedBy: string := "dra-deployer"

  // ---------------------------------------------------------------------
  // createNamespaceIfNeeded

  /** The namespace object `createNamespaceIfNeeded` creates: named after
      the namespace and labelled as managed by the deployer. */
  function NamespaceObject(ns: string): (o: Unstructured)
    ensures KeyOf(o) == NamespaceKey(ns)
    ensures Lookup(o.content, ["metadata", "labels"]) == Some(StringMap(map[ManagedByLabel := ManagedBy]))
  {
    var meta := map["name" := Str(ns), "labels" := StringMap(map[ManagedByLabel := ManagedBy])];
    var o := Unstructured(map["kind" := Str(NamespaceKind), "metadata" := Table(meta)]);
    assert ["metadata", "labels"][1..] == ["labels"];
    assert ["metadata", "name"][1..] == ["name"];
    assert ["metadata", "namespace"][1..] == ["namespace"];
    o
  }

  datatype NamespaceError =
    | GetNamespaceFailed(cause: ApiError)
    | CreateNamespaceFailed(cause: ApiError)

  /** What `createNamespaceIfNeeded` does: look the namespace up, and create
      it only when the lookup says it is not found. */
  function EnsureNamespace(st: Store, faults: Faults, ns: string): (Option<NamespaceError>, Store) {
    var (got, afterGet) := GetStep(st, faults, NamespaceKey(ns));
    if got == Success then (None, afterGet)
    else if got.error != NotFound then (Some(GetNamespaceFailed(got.error)), afterGet)
    else
      var (created, afterCreate) := CreateStep(afterGet, faults, NamespaceObject(ns));
      if created == Success then (None, afterCreate)
      else (Some(CreateNamespaceFailed(created.error)), afterCreate)
  }

  method CreateNamespaceIfNeeded(cli: Client, ns: string) returns (err: Option<NamespaceError>)
    modifies cli
    ensures (err, cli.State()) == EnsureNamespace(old(cli.State()), cli.faults, ns)
  {
    var got := cli.Get(NamespaceKey(ns));
    if got.Failure? {
      if got.error == NotFound {
        var created := cli.Create(NamespaceObject(ns));
        if created.Failure? {
          return Some(CreateNamespaceFailed(created.error));
        }
      } else {
        return Some(GetNamespaceFailed(got.error));
      }
    }
    return None;
  }

  /** The namespace is looked up first and created only when it is missing;
      an existing namespace is left as it is; on success the namespace
      exists, and on failure nothing was stored. */
  lemma EnsureNamespaceMeaning(st: Store, faults: Faults, ns: string)
    ensures var (err, next) := EnsureNamespace(st, faults, ns);
            var key := NamespaceKey(ns);
            && (err.None? <==> Call(Get, key) !in faults && (key in st.objects || Call(Create, key) !in faults))
            && (err.Some? ==> next.objects == st.objects)
            && (err.None? && key in st.objects ==> next.objects == st.objects)
            && (err.None? && key !in st.objects ==> next.objects == st.objects[key := NamespaceObject(ns)])
            && (Call(Get, key) in faults ==> err == Some(GetNamespaceFailed(Refused(faults[Call(Get, key)]))))
            && next.calls == st.calls + [Call(Get, key)]
                 + (if Call(Get, key) !in faults && key !in st.objects then [Call(Create, key)] else [])
  {
  }

  // ---------------------------------------------------------------------
  // Deploy

  datatype DeployError =
    | NamespaceFailed(namespace: NamespaceError)
    | LoadChartFailed(load: LoadError)
    | RenderChartFailed(render: RenderError)
    | ApplyFailed(key: string, cause: ApiError)

  /** The "Kind/namespace/name" text `Deploy` names an object by. */
  function ObjectText(obj: Unstructured): string {
    obj.Kind() + "/" + obj.Namespace() + "/" + obj.Name()
  }

  /** The loop of `Deploy`: create or update each object in order, stopping
      at the first refusal. */
  function ApplyAll(st: Store, faults: Faults, objs: seq<Unstructured>): (Option<DeployError>, Store)
    decreases |objs|
  {
    if |objs| == 0 then (None, st)
    else
      var (outcome, next) := UpsertStep(st, faults, objs[0]);
      if outcome.Failure? then (Some(ApplyFailed(ObjectText(objs[0]), outcome.error)), next)
      else ApplyAll(next, faults, objs[1..])
  }

  /** What `Deploy` does. */
  function DeploySpec(st: Store, faults: Faults, env: EnvConfig, tc: Toolchain): (Option<DeployError>, Store) {
    var (nsErr, afterNs) := EnsureNamespace(st, faults, env.namespace);
    if nsErr.Some? then (Some(NamespaceFailed(nsErr.value)), afterNs)
    else
      var loader := NewChartLoader("", tc.load);
      if loader.Err? then (Some(LoadChartFailed(loader.error)), afterNs)
      else
        var objects := RenderSpec(loader.value, env, tc);
        if objects.Err? then (Some(RenderChartFailed(objects.error)), afterNs)
        else ApplyAll(afterNs, faults, objects.value)
  }

  method Deploy(cli: Client, env: EnvConfig, tc: Toolchain) returns (err: Option<DeployError>)
    modifies cli
    ensures (err, cli.State()) == DeploySpec(old(cli.State()), cli.faults, env, tc)
  {
    var nsErr := CreateNamespaceIfNeeded(cli, env.namespace);
    if nsErr.Some? {
      return Some(NamespaceFailed(nsErr.value));
    }
    var loader := NewChartLoader("", tc.load);
    if loader.Err? {
      return Some(LoadChartFailed(loader.error));
    }
    var objects := Render(loader.value, env, tc);
    if objects.Err? {
      return Some(RenderChartFailed(objects.error));
    }
    var objs := objects.value;
    ghost var start := cli.State();
    for i := 0 to |objs|
      invariant ApplyAll(cli.State(), cli.faults, objs[i..]) == ApplyAll(start, cli.faults, objs)
    {
      assert objs[i..][1..] == objs[i + 1..];
      var key := ObjectText(objs[i]);
      var outcome := cli.CreateOrUpdate(objs[i]);
      if outcome.Failure? {
        return Some(ApplyFailed(key, outcome.error));
      }
    }
    return None;
  }

  /** The position of the first object whose create-or-update is refused,
      or the number of objects. */
  function FirstRefused(faults: Faults, objs: seq<Unstructured>): (n: nat)
    ensures n <= |objs|
    ensures n < |objs| ==> Call(Upsert, KeyOf(objs[n])) in faults
  {
    if |objs| == 0 || Call(Upsert, KeyOf(objs[0])) in faults then 0
    else 1 + FirstRefused(faults, objs[1..])
  }

  /** No object before the first refused one is refused. */
  lemma {:induction false} FirstRefusedIsFirst(faults: Faults, objs: seq<Unstructured>)
    ensures forall i :: 0 <= i < FirstRefused(faults, objs) ==> Call(Upsert, KeyOf(objs[i])) !in faults
    decreases |objs|
  {
    if |objs| > 0 && Call(Upsert, KeyOf(objs[0])) !in faults {
      FirstRefusedIsFirst(faults, objs[1..]);
      forall i | 0 < i < FirstRefused(faults, objs)
        ensures Call(Upsert, KeyOf(objs[i])) !in faults
      {
        assert objs[i] == objs[1..][i - 1];
      }
    }
  }

  /** One create-or-update request per object, in order. */
  function UpsertCalls(objs: seq<Unstructured>): seq<Call> {
    if |objs| == 0 then [] else [Call(Upsert, KeyOf(objs[0]))] + UpsertCalls(objs[1..])
  }

  /** `m` with every object of `objs` stored under its key, later ones
      replacing earlier ones. */
  function StoreAll(m: map<Key, Unstructured>, objs: seq<Unstructured>): map<Key, Unstructured>
    decreases |objs|
  {
    if |objs| == 0 then m else StoreAll(m[KeyOf(objs[0]) := objs[0]], objs[1..])
  }

  /** The number of objects `Deploy` sends a request for: all of them, or
      those up to and including the first refused one. */
  function Reached(n: nat, objs: seq<Unstructured>): (m: nat)
    requires n <= |objs|
    ensures m <= |objs|
  {
    if n < |objs| then n + 1 else n
  }

  /** The loop of `Deploy` stores exactly the objects before the first
      refused one. */
  lemma {:induction false} ApplyAllStores(st: Store, faults: Faults, objs: seq<Unstructured>)
    ensures ApplyAll(st, faults, objs).1.objects == StoreAll(st.objects, objs[..FirstRefused(faults, objs)])
    decreases |objs|
  {
    if |objs| > 0 {
      var step := UpsertStep(st, faults, objs[0]);
      var n := FirstRefused(faults, objs);
      if step.0.Success? {
        var rest := objs[1..];
        ApplyAllStores(step.1, faults, rest);
        assert n == 1 + FirstRefused(faults, rest);
        assert objs[..n][1..] == rest[..n - 1];
      }
    }
  }

  /** The loop of `Deploy` makes one request per object, in order, up to and
      including the first refused one. */
  lemma ApplyAllRequests(st: Store, faults: Faults, objs: seq<Unstructured>)
    ensures ApplyAll(st, faults, objs).1.calls
            == st.calls + UpsertCalls(objs[..Reached(FirstRefused(faults, objs), objs)])
  {
    ApplyAllAttempts(st, faults, objs);
    AttemptedIsPrefix(faults, objs);
  }

  /** The create-or-update requests made for `objs`, up to the first
      refused one. */
  function Attempted(faults: Faults, objs: seq<Unstructured>): seq<Call> {
    if |objs| == 0 then []
    else
      var call := Call(Upsert, KeyOf(objs[0]));
      [call] + (if call in faults then [] else Attempted(faults, objs[1..]))
  }

  lemma {:induction false} ApplyAllAttempts(st: Store, faults: Faults, objs: seq<Unstructured>)
    ensures ApplyAll(st, faults, objs).1.calls == st.calls + Attempted(faults, objs)
    decreases |objs|
  {
    if |objs| > 0 {
      var step := UpsertStep(st, faults, objs[0]);
      if step.0.Success? {
        var call := Call(Upsert, KeyOf(objs[0]));
        ApplyAllAttempts(step.1, faults, objs[1..]);
        assert st.calls + [call] + Attempted(faults, objs[1..])
            == st.calls + ([call] + Attempted(faults, objs[1..]));
      }
    }
  }

  lemma {:induction false} AttemptedIsPrefix(faults: Faults, objs: seq<Unstructured>)
    ensures Attempted(faults, objs) == UpsertCalls(objs[..Reached(FirstRefused(faults, objs), objs)])
    decreases |objs|
  {
    if |objs| > 0 {
      var rest := objs[1..];
      if Call(Upsert, KeyOf(objs[0])) in faults {
        assert objs[..1] == [objs[0]] + [];
        UpsertCallsCons(objs[0], []);
      } else {
        AttemptedIsPrefix(faults, rest);
        var m' := Reached(FirstRefused(faults, rest), rest);
        assert Reached(FirstRefused(faults, objs), objs) == 1 + m';
        PrefixCons(objs, 1 + m');
        UpsertCallsCons(objs[0], rest[..m']);
      }
    }
  }

  /** The first `m` elements are the head and `m - 1` elements of the tail. */
  lemma PrefixCons<T>(xs: seq<T>, m: nat)
    requires 1 <= m <= |xs|
    ensures xs[..m] == [xs[0]] + xs[1..][..m - 1]
  {
  }

  lemma UpsertCallsCons(obj: Unstructured, objs: seq<Unstructured>)
    ensures UpsertCalls([obj] + objs) == [Call(Upsert, KeyOf(obj))] + UpsertCalls(objs)
  {
    assert ([obj] + objs)[1..] == objs;
  }

  /** The loop of `Deploy` fails exactly when some request is refused, and
      reports the first refused object. */
  lemma {:induction false} ApplyAllError(st: Store, faults: Faults, objs: seq<Unstructured>)
    ensures ApplyAll(st, faults, objs).0.None? <==> FirstRefused(faults, objs) == |objs|
    ensures var n := FirstRefused(faults, objs);
            n < |objs| ==>
              ApplyAll(st, faults, objs).0
              == Some(ApplyFailed(ObjectText(objs[n]), Refused(faults[Call(Upsert, KeyOf(objs[n]))])))
    decreases |objs|
  {
    if |objs| > 0 {
      var step := UpsertStep(st, faults, objs[0]);
      if step.0.Success? {
        var rest := objs[1..];
        ApplyAllError(step.1, faults, rest);
        assert FirstRefused(faults, objs) == 1 + FirstRefused(faults, rest);
      }
    }
  }

  /** Storing a sequence of objects lays them over the store. */
  lemma {:induction false} StoreAllOver(m: map<Key, Unstructured>, objs: seq<Unstructured>)
    ensures StoreAll(m, objs) == m + StoreAll(map[], objs)
    decreases |objs|
  {
    if |objs| > 0 {
      var k := KeyOf(objs[0]);
      StoreAllOver(m[k := objs[0]], objs[1..]);
      StoreAllOver(map[k := objs[0]], objs[1..]);
      assert m[k := objs[0]] == m + map[k := objs[0]];
    }
  }

  /** Storing the same objects twice is storing them once. */
  lemma StoreAllIdempotent(m: map<Key, Unstructured>, objs: seq<Unstructured>)
    ensures StoreAll(StoreAll(m, objs), objs) == StoreAll(m, objs)
  {
    StoreAllOver(m, objs);
    StoreAllOver(StoreAll(m, objs), objs);
    var layer := StoreAll(map[], objs);
    assert (m + layer) + layer == m + layer;
  }

  /** Applying the rendered objects again after a complete run changes no
      object. */
  lemma ReapplyChangesNothing(st: Store, faults: Faults, objs: seq<Unstructured>)
    requires ApplyAll(st, faults, objs).0.None?
    ensures var next := ApplyAll(st, faults, objs).1;
            ApplyAll(next, faults, objs).0.None? && ApplyAll(next, faults, objs).1.objects == next.objects
  {
    var next := ApplyAll(st, faults, objs).1;
    ApplyAllStores(st, faults, objs);
    ApplyAllError(st, faults, objs);
    ApplyAllStores(next, faults, objs);
    ApplyAllError(next, faults, objs);
    assert objs[..|objs|] == objs;
    StoreAllIdempotent(st.objects, objs);
  }

  /** The loop of `Deploy` only adds requests to the trace. */
  lemma {:induction false} ApplyAllExtends(st: Store, faults: Faults, objs: seq<Unstructured>)
    ensures st.calls <= ApplyAll(st, faults, objs).1.calls
    decreases |objs|
  {
    if |objs| > 0 {
      var step := UpsertStep(st, faults, objs[0]);
      if step.0.Success? {
        ApplyAllExtends(step.1, faults, objs[1..]);
      }
    }
  }

  /** `Deploy` always asks for the namespace first. */
  lemma DeployAsksForNamespaceFirst(st: Store, faults: Faults, env: EnvConfig, tc: Toolchain)
    ensures st.calls + [Call(Get, NamespaceKey(env.namespace))] <= DeploySpec(st, faults, env, tc).1.calls
  {
    var ensured := EnsureNamespace(st, faults, env.namespace);
    EnsureNamespaceMeaning(st, faults, env.namespace);
    var loader := NewChartLoader("", tc.load);
    if ensured.0.None? && loader.Ok? {
      var objects := RenderSpec(loader.value, env, tc);
      if objects.Ok? {
        ApplyAllExtends(ensured.1, faults, objects.value);
      }
    }
  }

  /** The requests `createNamespaceIfNeeded` makes: the Get of the
      namespace, and its Create when the Get reported it missing. */
  function NamespaceCalls(st: Store, faults: Faults, ns: string): seq<Call> {
    var key := NamespaceKey(ns);
    [Call(Get, key)] + (if Call(Get, key) !in faults && key !in st.objects then [Call(Create, key)] else [])
  }

  /** The objects `Deploy` goes on to apply: the rendered chart, once the
      namespace is there and the chart loads and renders. */
  function ObjectsToApply(st: Store, faults: Faults, env: EnvConfig, tc: Toolchain): Option<seq<Unstructured>> {
    var loader := NewChartLoader("", tc.load);
    if EnsureNamespace(st, faults, env.namespace).0.Some? || loader.Err? then None
    else
      var objects := RenderSpec(loader.value, env, tc);
      if objects.Err? then None else Some(objects.value)
  }

  /** Every request `Deploy` makes, in order: the Get of the namespace, its
      Create when it was not found, and then, once the chart renders, one
      create-or-update per rendered object up to and including the first
      refused one. */
  lemma DeployRequests(st: Store, faults: Faults, env: EnvConfig, tc: Toolchain)
    ensures var objs := ObjectsToApply(st, faults, env, tc);
            DeploySpec(st, faults, env, tc).1.calls
            == st.calls + NamespaceCalls(st, faults, env.namespace)
               + (if objs.Some? then UpsertCalls(objs.value[..Reached(FirstRefused(faults, objs.value), objs.value)])
                  else [])
  {
    var ensured := EnsureNamespace(st, faults, env.namespace);
    EnsureNamespaceMeaning(st, faults, env.namespace);
    assert ensured.1.calls == st.calls + NamespaceCalls(st, faults, env.namespace);
    if ObjectsToApply(st, faults, env, tc).Some? {
      DeployRequestsOnceRendered(st, faults, env, tc);
    } else {
      assert DeploySpec(st, faults, env, tc).1 == ensured.1;
    }
  }

  /** Once the namespace is there and the chart renders, `Deploy` adds the
      create-or-update requests of its loop. */
  lemma DeployRequestsOnceRendered(st: Store, faults: Faults, env: EnvConfig, tc: Toolchain)
    requires EnsureNamespace(st, faults, env.namespace).0.None?
    requires NewChartLoader("", tc.load).Ok?
    requires RenderSpec(NewChartLoader("", tc.load).value, env, tc).Ok?
    ensures var objs := RenderSpec(NewChartLoader("", tc.load).value, env, tc).value;
            DeploySpec(st, faults, env, tc).1.calls
            == EnsureNamespace(st, faults, env.namespace).1.calls
               + UpsertCalls(objs[..Reached(FirstRefused(faults, objs), objs)])
  {
    var ensured := EnsureNamespace(st, faults, env.namespace);
    var objs := RenderSpec(NewChartLoader("", tc.load).value, env, tc).value;
    assert DeploySpec(st, faults, env, tc) == ApplyAll(ensured.1, faults, objs);
    ApplyAllRequests(ensured.1, faults, objs);
  }

  /** When the namespace, the chart or the rendering fails, `Deploy`
      creates or updates no object. */
  lemma DeployFailsBeforeApplying(st: Store, faults: Faults, env: EnvConfig, tc: Toolchain)
    requires DeploySpec(st, faults, env, tc).0.Some?
    requires !DeploySpec(st, faults, env, tc).0.value.ApplyFailed?
    ensures DeploySpec(st, faults, env, tc).1 == EnsureNamespace(st, faults, env.namespace).1
  {
    var ensured := EnsureNamespace(st, faults, env.namespace);
    var loader := NewChartLoader("", tc.load);
    if ensured.0.None? && loader.Ok? {
      var objects := RenderSpec(loader.value, env, tc);
      if objects.Ok? {
        ApplyAllError(ensured.1, faults, objects.value);
      }
    }
  }

  /** Against a cluster that refuses nothing, `Deploy` of a chart that
      loads and renders succeeds and leaves the namespace and every
      rendered object in the cluster. */
  lemma DeploySucceedsWithoutFaults(st: Store, env: EnvConfig, tc: Toolchain)
    requires NewChartLoader("", tc.load).Ok?
    requires RenderSpec(NewChartLoader("", tc.load).value, env, tc).Ok?
    ensures var (err, next) := DeploySpec(st, map[], env, tc);
            var objs := RenderSpec(NewChartLoader("", tc.load).value, env, tc).value;
            && err.None?
            && next.objects == StoreAll(EnsureNamespace(st, map[], env.namespace).1.objects, objs)
            && NamespaceKey(env.namespace) in EnsureNamespace(st, map[], env.namespace).1.objects
  {
    var objs := RenderSpec(NewChartLoader("", tc.load).value, env, tc).value;
    EnsureNamespaceMeaning(st, map[], env.namespace);
    ApplyAllStores(EnsureNamespace(st, map[], env.namespace).1, map[], objs);
    ApplyAllError(EnsureNamespace(st, map[], env.namespace).1, map[], objs);
    assert objs[..|objs|] == objs;
  }

  // ---------------------------------------------------------------------
  // Delete

  datatype DeleteError =
    | DeleteLoadFailed(load: LoadError)
    | DeleteRenderFailed(render: RenderError)
    | DeleteNamespaceFailed(cause: ApiError)
    | DeleteObjectFailed(key: string, cause: ApiError)

  /** The configuration `Delete` renders with: only the namespace is set. */
  function DeleteConfig(ns: string): EnvConfig {
    EnvConfig(ns, map[], "", "", Platform(""), None)
  }

  /** The "Kind/name" text `Delete` names a cluster-scoped object by. */
  function ClusterObjectText(obj: Unstructured): string {
    obj.Kind() + "/" + obj.Name()
  }

  /** A deletion that went through or found nothing to delete. */
  predicate Gone(outcome: Outcome) {
    outcome.Success? || outcome.error == NotFound
  }

  /** The loop of `Delete`: skip namespaced objects, delete the others,
      stopping at the first refusal other than "not found". */
  function DeleteClusterScoped(st: Store, faults: Faults, objs: seq<Unstructured>): (Option<DeleteError>, Store)
    decreases |objs|
  {
    if |objs| == 0 then (None, st)
    else if objs[0].Namespace() != "" then DeleteClusterScoped(st, faults, objs[1..])
    else
      var (outcome, next) := DeleteStep(st, faults, KeyOf(objs[0]));
      if !Gone(outcome) then (Some(DeleteObjectFailed(ClusterObjectText(objs[0]), outcome.error)), next)
      else DeleteClusterScoped(next, faults, objs[1..])
  }

  /** What `Delete` does. */
  function DeleteSpec(st: Store, faults: Faults, ns: string, tc: Toolchain): (Option<DeleteError>, Store) {
    var loader := NewChartLoader("", tc.load);
    if loader.Err? then (Some(DeleteLoadFailed(loader.error)), st)
    else
      var objects := RenderSpec(loader.value, DeleteConfig(ns), tc);
      if objects.Err? then (Some(DeleteRenderFailed(objects.error)), st)
      else
        var (outcome, next) := DeleteStep(st, faults, NamespaceKey(ns));
        if !Gone(outcome) then (Some(DeleteNamespaceFailed(outcome.error)), next)
        else DeleteClusterScoped(next, faults, objects.value)
  }

  method Delete(cli: Client, ns: string, tc: Toolchain) returns (err: Option<DeleteError>)
    modifies cli
    ensures (err, cli.State()) == DeleteSpec(old(cli.State()), cli.faults, ns, tc)
  {
    var loader := NewChartLoader("", tc.load);
    if loader.Err? {
      return Some(DeleteLoadFailed(loader.error));
    }
    var objects := Render(loader.value, DeleteConfig(ns), tc);
    if objects.Err? {
      return Some(DeleteRenderFailed(objects.error));
    }
    var outcome := cli.Delete(NamespaceKey(ns));
    if outcome.Failure? && outcome.error != NotFound {
      return Some(DeleteNamespaceFailed(outcome.error));
    }
    var objs := objects.value;
    ghost var start := cli.State();
    for i := 0 to |objs|
      invariant DeleteClusterScoped(cli.State(), cli.faults, objs[i..]) == DeleteClusterScoped(start, cli.faults, objs)
    {
      assert objs[i..][1..] == objs[i + 1..];
      if objs[i].Namespace() != "" {
        continue;
      }
      var key := ClusterObjectText(objs[i]);
      var deleted := cli.Delete(KeyOf(objs[i]));
      if deleted.Failure? && deleted.error != NotFound {
        return Some(DeleteObjectFailed(key, deleted.error));
      }
    }
    return None;
  }

  /** The deletion of `obj` is refused for a reason other than absence. */
  predicate DeleteRefused(faults: Faults, obj: Unstructured) {
    obj.Namespace() == "" && Call(Verb.Delete, KeyOf(obj)) in faults
  }

  /** The position of the first cluster-scoped object whose deletion is
      refused, or the number of objects. */
  function FirstDeleteRefused(faults: Faults, objs: seq<Unstructured>): (n: nat)
    ensures n <= |objs|
    ensures n < |objs| ==> DeleteRefused(faults, objs[n])
  {
    if |objs| == 0 || DeleteRefused(faults, objs[0]) then 0
    else 1 + FirstDeleteRefused(faults, objs[1..])
  }

  /** No object before the first refused one is refused. */
  lemma {:induction false} FirstDeleteRefusedIsFirst(faults: Faults, objs: seq<Unstructured>)
    ensures forall i :: 0 <= i < FirstDeleteRefused(faults, objs) ==> !DeleteRefused(faults, objs[i])
    decreases |objs|
  {
    if |objs| > 0 && !DeleteRefused(faults, objs[0]) {
      FirstDeleteRefusedIsFirst(faults, objs[1..]);
      forall i | 0 < i < FirstDeleteRefused(faults, objs)
        ensures !DeleteRefused(faults, objs[i])
      {
        assert objs[i] == objs[1..][i - 1];
      }
    }
  }

  /** One delete request per cluster-scoped object, in order. */
  function DeleteCalls(objs: seq<Unstructured>): seq<Call> {
    if |objs| == 0 then []
    else (if objs[0].Namespace() == "" then [Call(Verb.Delete, KeyOf(objs[0]))] else []) + DeleteCalls(objs[1..])
  }

  /** Every request of `DeleteCalls` deletes a cluster-scoped object of
      the list. */
  lemma {:induction false} DeleteCallsClusterScoped(objs: seq<Unstructured>)
    ensures forall c :: c in DeleteCalls(objs) ==>
              c.verb == Verb.Delete && exists o :: o in objs && o.Namespace() == "" && c.key == KeyOf(o)
  {
    if |objs| > 0 {
      DeleteCallsClusterScoped(objs[1..]);
      forall c | c in DeleteCalls(objs)
        ensures c.verb == Verb.Delete && exists o :: o in objs && o.Namespace() == "" && c.key == KeyOf(o)
      {
        if c !in DeleteCalls(objs[1..]) {
          assert objs[0] in objs;
        } else {
          var o :| o in objs[1..] && o.Namespace() == "" && c.key == KeyOf(o);
          assert o in objs;
        }
      }
    }
  }

  /** The loop of `Delete` makes one request per cluster-scoped object, in
      order, up to and including the first refused one. */
  lemma DeleteClusterScopedRequests(st: Store, faults: Faults, objs: seq<Unstructured>)
    ensures DeleteClusterScoped(st, faults, objs).1.calls
            == st.calls + DeleteCalls(objs[..Reached(FirstDeleteRefused(faults, objs), objs)])
  {
    DeleteClusterScopedAttempts(st, faults, objs);
    DeleteAttemptedIsPrefix(faults, objs);
  }

  /** The delete requests made for `objs`, up to the first refused one. */
  function DeleteAttempted(faults: Faults, objs: seq<Unstructured>): seq<Call> {
    if |objs| == 0 then []
    else if objs[0].Namespace() != "" then DeleteAttempted(faults, objs[1..])
    else
      var call := Call(Verb.Delete, KeyOf(objs[0]));
      [call] + (if call in faults then [] else DeleteAttempted(faults, objs[1..]))
  }

  lemma {:induction false} DeleteClusterScopedAttempts(st: Store, faults: Faults, objs: seq<Unstructured>)
    ensures DeleteClusterScoped(st, faults, objs).1.calls == st.calls + DeleteAttempted(faults, objs)
    decreases |objs|
  {
    if |objs| > 0 {
      if objs[0].Namespace() != "" {
        DeleteClusterScopedAttempts(st, faults, objs[1..]);
      } else {
        var step := DeleteStep(st, faults, KeyOf(objs[0]));
        if Gone(step.0) {
          var call := Call(Verb.Delete, KeyOf(objs[0]));
          DeleteClusterScopedAttempts(step.1, faults, objs[1..]);
          assert st.calls + [call] + DeleteAttempted(faults, objs[1..])
              == st.calls + ([call] + DeleteAttempted(faults, objs[1..]));
        }
      }
    }
  }

  lemma {:induction false} DeleteAttemptedIsPrefix(faults: Faults, objs: seq<Unstructured>)
    ensures DeleteAttempted(faults, objs) == DeleteCalls(objs[..Reached(FirstDeleteRefused(faults, objs), objs)])
    decreases |objs|
  {
    if |objs| > 0 {
      var rest := objs[1..];
      if DeleteRefused(faults, objs[0]) {
        assert objs[..1] == [objs[0]] + [];
        DeleteCallsCons(objs[0], []);
      } else {
        DeleteAttemptedIsPrefix(faults, rest);
        var m' := Reached(FirstDeleteRefused(faults, rest), rest);
        assert Reached(FirstDeleteRefused(faults, objs), objs) == 1 + m';
        PrefixCons(objs, 1 + m');
        DeleteCallsCons(objs[0], rest[..m']);
      }
    }
  }

  lemma DeleteCallsCons(obj: Unstructured, objs: seq<Unstructured>)
    ensures DeleteCalls([obj] + objs)
            == (if obj.Namespace() == "" then [Call(Verb.Delete, KeyOf(obj))] else []) + DeleteCalls(objs)
  {
    assert ([obj] + objs)[1..] == objs;
  }

  /** The loop of `Delete` fails exactly when the deletion of a
      cluster-scoped object is refused, and reports the first such object:
      what the cluster holds plays no part in the outcome. */
  lemma {:induction false} DeleteClusterScopedError(st: Store, faults: Faults, objs: seq<Unstructured>)
    ensures DeleteClusterScoped(st, faults, objs).0.None? <==> FirstDeleteRefused(faults, objs) == |objs|
    ensures var n := FirstDeleteRefused(faults, objs);
            n < |objs| ==>
              DeleteClusterScoped(st, faults, objs).0
              == Some(DeleteObjectFailed(ClusterObjectText(objs[n]), Refused(faults[Call(Verb.Delete, KeyOf(objs[n]))])))
    decreases |objs|
  {
    if |objs| > 0 {
      var rest := objs[1..];
      if objs[0].Namespace() != "" {
        DeleteClusterScopedError(st, faults, rest);
      } else {
        var step := DeleteStep(st, faults, KeyOf(objs[0]));
        if Gone(step.0) {
          DeleteClusterScopedError(step.1, faults, rest);
        }
      }
    }
  }

  /** The loop of `Delete` only removes objects, and when it completes none
      of the cluster-scoped objects it was given is left. */
  lemma {:induction false} DeleteClusterScopedRemoves(st: Store, faults: Faults, objs: seq<Unstructured>)
    ensures var (err, next) := DeleteClusterScoped(st, faults, objs);
            && next.objects.Keys <= st.objects.Keys
            && (err.None? ==> forall o :: o in objs && o.Namespace() == "" ==> KeyOf(o) !in next.objects)
    decreases |objs|
  {
    if |objs| > 0 {
      if objs[0].Namespace() != "" {
        DeleteClusterScopedRemoves(st, faults, objs[1..]);
        assert forall o :: o in objs ==> o == objs[0] || o in objs[1..];
      } else {
        var (outcome, next) := DeleteStep(st, faults, KeyOf(objs[0]));
        DeleteStepRemoves(st, faults, KeyOf(objs[0]));
        if Gone(outcome) {
          assert KeyOf(objs[0]) !in next.objects by {
            if outcome.Success? {
              assert Removes(KeyOf(objs[0]), KeyOf(objs[0]));
            }
          }
          DeleteClusterScopedRemoves(next, faults, objs[1..]);
          assert forall o :: o in objs ==> o == objs[0] || o in objs[1..];
        }
      }
    }
  }

  /** Every object in a namespace has its namespace object beside it, as the
      API server guarantees. */
  predicate NamespacesExist(objects: map<Key, Unstructured>) {
    forall k :: k in objects && k.namespace != "" ==> NamespaceKey(k.namespace) in objects
  }

  /** `Delete`'s outcome does not depend on what the cluster holds: "not
      found" counts as done, so only refusals decide it. */
  lemma DeleteOutcomeIgnoresStore(st1: Store, st2: Store, faults: Faults, ns: string, tc: Toolchain)
    ensures DeleteSpec(st1, faults, ns, tc).0 == DeleteSpec(st2, faults, ns, tc).0
  {
    var loader := NewChartLoader("", tc.load);
    if loader.Ok? {
      var objects := RenderSpec(loader.value, DeleteConfig(ns), tc);
      if objects.Ok? {
        var next1 := DeleteStep(st1, faults, NamespaceKey(ns)).1;
        var next2 := DeleteStep(st2, faults, NamespaceKey(ns)).1;
        DeleteClusterScopedError(next1, faults, objects.value);
        DeleteClusterScopedError(next2, faults, objects.value);
      }
    }
  }

  /** Once the chart renders, `Delete` first deletes the namespace and then
      only deletes cluster-scoped rendered objects. */
  lemma DeleteRequests(st: Store, faults: Faults, ns: string, tc: Toolchain)
    requires NewChartLoader("", tc.load).Ok?
    requires RenderSpec(NewChartLoader("", tc.load).value, DeleteConfig(ns), tc).Ok?
    ensures var next := DeleteSpec(st, faults, ns, tc).1;
            var objs := RenderSpec(NewChartLoader("", tc.load).value, DeleteConfig(ns), tc).value;
            && |next.calls| > |st.calls|
            && next.calls[..|st.calls| + 1] == st.calls + [Call(Verb.Delete, NamespaceKey(ns))]
            && forall c :: c in next.calls[|st.calls| + 1..] ==>
                 c.verb == Verb.Delete && exists o :: o in objs && o.Namespace() == "" && c.key == KeyOf(o)
  {
    var objs := RenderSpec(NewChartLoader("", tc.load).value, DeleteConfig(ns), tc).value;
    var (outcome, afterNs) := DeleteStep(st, faults, NamespaceKey(ns));
    var next := DeleteSpec(st, faults, ns, tc).1;
    if Gone(outcome) {
      DeleteClusterScopedRequests(afterNs, faults, objs);
      var n := FirstDeleteRefused(faults, objs);
      var prefix := objs[..Reached(n, objs)];
      DeleteCallsClusterScoped(prefix);
      assert next.calls[|st.calls| + 1..] == DeleteCalls(prefix);
      forall o | o in prefix
        ensures o in objs
      {
        var j :| 0 <= j < |prefix| && prefix[j] == o;
        assert objs[j] == o;
      }
    } else {
      assert next.calls[|st.calls| + 1..] == [];
    }
  }

  /** A completed `Delete` on a cluster whose namespaced objects have
      their namespace leaves neither the namespace, nor anything in it, nor
      any cluster-scoped rendered object, and removes nothing else than
      what it deleted. */
  lemma DeleteLeavesNothing(st: Store, faults: Faults, ns: string, tc: Toolchain)
    requires NamespacesExist(st.objects) && ns != ""
    requires DeleteSpec(st, faults, ns, tc).0.None?
    ensures var next := DeleteSpec(st, faults, ns, tc).1;
            var objs := RenderSpec(NewChartLoader("", tc.load).value, DeleteConfig(ns), tc).value;
            && next.objects.Keys <= st.objects.Keys
            && NamespaceKey(ns) !in next.objects
            && (forall k :: k in next.objects ==> k.namespace != ns)
            && (forall o :: o in objs && o.Namespace() == "" ==> KeyOf(o) !in next.objects)
  {
    var objs := RenderSpec(NewChartLoader("", tc.load).value, DeleteConfig(ns), tc).value;
    var key := NamespaceKey(ns);
    var (outcome, afterNs) := DeleteStep(st, faults, key);
    DeleteStepRemoves(st, faults, key);
    assert key !in afterNs.objects && forall k :: k in afterNs.objects ==> k.namespace != ns by {
      if outcome.Success? {
        assert Removes(key, key);
        assert forall k :: k in st.objects && k.namespace == ns ==> Removes(key, k);
      }
    }
    DeleteClusterScopedRemoves(afterNs, faults, objs);
  }

  /** `Delete` renders with no image, command, node selector, platform or
      explicit values: the chart sees only `openshift.enabled = false`
      among the runtime values. */
  lemma DeleteRendersWithoutOpenShift(chart: Chart, ns: string, validImage: string -> bool)
    ensures RuntimeValues(DeleteConfig(ns), validImage) == Ok(map["openshift" := OpenShiftValues(Platform(""))])
    ensures RenderInput(chart, DeleteConfig(ns), validImage).Ok?
    ensures Lookup(RenderInput(chart, DeleteConfig(ns), validImage).value.0, ["openshift", "enabled"])
            == Some(Bool(false))
    ensures RenderInput(chart, DeleteConfig(ns), validImage).value.1 == ReleaseOptions(chart.appVersion, ns, true)
  {
    var rv := RuntimeValues(DeleteConfig(ns), validImage).value;
    RuntimeValuesImage(DeleteConfig(ns), validImage);
    RuntimeValuesDaemonSet(DeleteConfig(ns), validImage);
    assert rv.Keys == {"openshift"};
    RenderInputOpenShiftFlag(chart, DeleteConfig(ns), validImage);
  }
}
