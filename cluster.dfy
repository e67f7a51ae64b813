/**
 * The Kubernetes API as the deployer sees it through a controller-runtime
 * client: a store of objects keyed by kind, namespace and name, and four
 * calls on it.
 *
 * Each call is recorded in a call trace. A call fails with an API error
 * when it is listed in the client's fault table, which stands for every
 * reason the API server may refuse it (permissions, admission, network).
 * Each call's effect is a pure step function on a `Store`; `Client` is the
 * stateful client whose methods perform those steps.
 */
module Cluster {
  import opened Values

  /** `client.ObjectKey` together with the kind it is asked for;
      cluster-scoped objects have the namespace "". */
  datatype Key = Key(kind: string, namespace: string, name: string)

  datatype Verb = Get | Create | Upsert | Delete

  /** One request to the API server. */
  datatype Call = Call(verb: Verb, key: Key)

  /** The API errors the deployer tells apart. */
  datatype ApiError =
    | NotFound
    | AlreadyExists
    | Refused(cause: string)

  datatype Outcome = Success | Failure(error: ApiError)

  /** The failing requests and the error message each gets. */
  type Faults = map<Call, string>

  /** The cluster's objects and the requests made so far. */
  datatype Store = Store(objects: map<Key, Unstructured>, calls: seq<Call>)

  const NamespaceKind: string := "Namespace"

  /** The key of a namespace object. */
  function NamespaceKey(ns: string): Key {
    Key(NamespaceKind, "", ns)
  }

  /** The key an object is stored under. */
  function KeyOf(obj: Unstructured): Key {
    Key(obj.Kind(), obj.Namespace(), obj.Name())
  }

  /** The store after `call` was recorded. */
  function Record(st: Store, call: Call): (r: Store)
    ensures r.objects == st.objects && r.calls == st.calls + [call]
  {
    st.(calls := st.calls + [call])
  }

  /** `cli.Get`. */
  function GetStep(st: Store, faults: Faults, key: Key): (r: (Outcome, Store))
    ensures r.1 == Record(st, Call(Get, key))
    ensures r.0 == Success <==> Call(Get, key) !in faults && key in st.objects
    ensures r.0 == Failure(NotFound) <==> Call(Get, key) !in faults && key !in st.objects
  {
    var call := Call(Get, key);
    var next := Record(st, call);
    if call in faults then (Failure(Refused(faults[call])), next)
    else if key in st.objects then (Success, next)
    else (Failure(NotFound), next)
  }

  /** `cli.Create`: refused for an existing key. */
  function CreateStep(st: Store, faults: Faults, obj: Unstructured): (r: (Outcome, Store))
    ensures r.1.calls == st.calls + [Call(Create, KeyOf(obj))]
    ensures r.0 == Success <==> Call(Create, KeyOf(obj)) !in faults && KeyOf(obj) !in st.objects
    ensures r.0 == Success ==> r.1.objects == st.objects[KeyOf(obj) := obj]
    ensures r.0 != Success ==> r.1.objects == st.objects
  {
    var key := KeyOf(obj);
    var call := Call(Create, key);
    var next := Record(st, call);
    if call in faults then (Failure(Refused(faults[call])), next)
    else if key in st.objects then (Failure(AlreadyExists), next)
    else (Success, next.(objects := st.objects[key := obj]))
  }

  /** `controllerutil.CreateOrUpdate`: the object is stored under its key,
      whether or not one was there. */
  function UpsertStep(st: Store, faults: Faults, obj: Unstructured): (r: (Outcome, Store))
    ensures r.1.calls == st.calls + [Call(Upsert, KeyOf(obj))]
    ensures r.0 == Success <==> Call(Upsert, KeyOf(obj)) !in faults
    ensures r.0 == Success ==> r.1.objects == st.objects[KeyOf(obj) := obj]
    ensures r.0 != Success ==> r.1.objects == st.objects
  {
    var key := KeyOf(obj);
    var call := Call(Upsert, key);
    var next := Record(st, call);
    if call in faults then (Failure(Refused(faults[call])), next)
    else (Success, next.(objects := st.objects[key := obj]))
  }

  /** What deleting `key` removes: the object itself and, for a namespace,
      every object in it. */
  predicate Removes(key: Key, k: Key) {
    k == key || (key.kind == NamespaceKind && key.namespace == "" && key.name != "" && k.namespace == key.name)
  }

  /** `cli.Delete`; the deletion of a namespace takes everything in it
      along. */
  function DeleteStep(st: Store, faults: Faults, key: Key): (r: (Outcome, Store))
    ensures r.1.calls == st.calls + [Call(Delete, key)]
    ensures r.0 == Success <==> Call(Delete, key) !in faults && key in st.objects
    ensures r.0 == Failure(NotFound) <==> Call(Delete, key) !in faults && key !in st.objects
    ensures r.0 != Success ==> r.1.objects == st.objects
  {
    var call := Call(Delete, key);
    var next := Record(st, call);
    if call in faults then (Failure(Refused(faults[call])), next)
    else if key !in st.objects then (Failure(NotFound), next)
    else (Success, next.(objects := map k | k in st.objects && !Removes(key, k) :: st.objects[k]))
  }

  /** A deletion only removes objects; one that goes through removes
      exactly what `Removes` names. */
  lemma DeleteStepRemoves(st: Store, faults: Faults, key: Key)
    ensures var r := DeleteStep(st, faults, key);
            && r.1.objects.Keys <= st.objects.Keys
            && (forall k :: k in r.1.objects ==> r.1.objects[k] == st.objects[k])
            && (r.0 == Success ==> forall k :: k in st.objects ==> (k in r.1.objects <==> !Removes(key, k)))
  {
  }

  /** A controller-runtime client talking to one cluster. */
  class Client {
    var objects: map<Key, Unstructured>
    var calls: seq<Call>
    const faults: Faults

    /** A client on a cluster holding `objects`, before any request. */
    constructor (objects: map<Key, Unstructured>, faults: Faults)
      ensures State() == Store(objects, []) && this.faults == faults
    {
      this.objects := objects;
      this.calls := [];
      this.faults := faults;
    }

    function State(): Store
      reads this
    {
      Store(objects, calls)
    }

    method Get(key: Key) returns (outcome: Outcome)
      modifies this
      ensures (outcome, State()) == GetStep(old(State()), faults, key)
    {
      var r := GetStep(State(), faults, key);
      outcome := r.0;
      objects, calls := r.1.objects, r.1.calls;
    }

    method Create(obj: Unstructured) returns (outcome: Outcome)
      modifies this
      ensures (outcome, State()) == CreateStep(old(State()), faults, obj)
    {
      var r := CreateStep(State(), faults, obj);
      outcome := r.0;
      objects, calls := r.1.objects, r.1.calls;
    }

    method CreateOrUpdate(obj: Unstructured) returns (outcome: Outcome)
      modifies this
      ensures (outcome, State()) == UpsertStep(old(State()), faults, obj)
    {
      var r := UpsertStep(State(), faults, obj);
      outcome := r.0;
      objects, calls := r.1.objects, r.1.calls;
    }

    method Delete(key: Key) returns (outcome: Outcome)
      modifies this
      ensures (outcome, State()) == DeleteStep(old(State()), faults, key)
    {
      var r := DeleteStep(State(), faults, key);
      outcome := r.0;
      objects, calls := r.1.objects, r.1.calls;
    }
  }
}
