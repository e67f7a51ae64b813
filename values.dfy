/**
 * Helm values and the unstructured objects a chart renders to.
 *
 * A values tree is Go's `map[string]any`: a leaf (nil, a bool, a string, a
 * string list, a string map) or a nested table. Only `map[string]any`
 * counts as a table when tables are merged, so a `map[string]string` such
 * as a node selector is a leaf here (`StringMap`).
 *
 * `Coalesce` is Helm's `chartutil.CoalesceTables(dst, src)`: the keys of
 * `dst` win, two tables under the same key are merged recursively, and a
 * nil in `dst` removes the key that `src` supplies.
 */
module Values {
  import opened Results

  datatype Value =
    | Null
    | Bool(b: bool)
    | Str(s: string)
    | Strings(items: seq<string>)
    | StringMap(entries: map<string, string>)
    | Table(fields: map<string, Value>)

  type Values = map<string, Value>

  /** A value that is neither nil nor a table. */
  predicate Leaf(v: Value) {
    !v.Null? && !v.Table?
  }

  /** `chartutil.CoalesceTables(dst, src)`. */
  function Coalesce(dst: Values, src: Values): Values
    decreases Table(dst)
  {
    map k | k in dst.Keys + src.Keys && !(k in dst && dst[k].Null? && k in src) ::
      if k !in dst then src[k]
      else if dst[k].Table? && k in src && src[k].Table? then
        Table(Coalesce(dst[k].fields, src[k].fields))
      else dst[k]
  }

  /** The value at a key path such as `["daemonset", "command"]`, going down
      through tables only. */
  function Lookup(m: Values, p: seq<string>): Option<Value>
    decreases |p|
  {
    if |p| == 0 || p[0] !in m then None
    else if |p| == 1 then Some(m[p[0]])
    else if m[p[0]].Table? then Lookup(m[p[0]].fields, p[1..])
    else None
  }

  /** `m` says nothing about path `p`: some key on the way is absent, and
      everything before it is a table. */
  predicate Open(m: Values, p: seq<string>)
    decreases |p|
  {
    |p| > 0 && (p[0] !in m || (|p| > 1 && m[p[0]].Table? && Open(m[p[0]].fields, p[1..])))
  }

  /** A leaf of `dst` survives coalescing with any `src`. */
  lemma {:induction false} CoalescePrefersDst(dst: Values, src: Values, p: seq<string>, v: Value)
    requires Lookup(dst, p) == Some(v) && Leaf(v)
    ensures Lookup(Coalesce(dst, src), p) == Some(v)
    decreases |p|
  {
    var k := p[0];
    var r := Coalesce(dst, src);
    assert k in r;
    if |p| > 1 && k in src && src[k].Table? {
      CoalescePrefersDst(dst[k].fields, src[k].fields, p[1..], v);
    }
  }

  /** Where `dst` says nothing, `src` shows through. */
  lemma {:induction false} CoalesceFallsBack(dst: Values, src: Values, p: seq<string>, v: Value)
    requires Lookup(src, p) == Some(v) && Open(dst, p)
    ensures Lookup(Coalesce(dst, src), p) == Some(v)
    decreases |p|
  {
    var k := p[0];
    var r := Coalesce(dst, src);
    assert k in r;
    if k in dst {
      CoalesceFallsBack(dst[k].fields, src[k].fields, p[1..], v);
    }
  }

  /** A nil in `dst` at a path both sides reach through tables removes the
      key `src` has there. */
  lemma {:induction false} CoalesceNullRemoves(dst: Values, src: Values, p: seq<string>)
    requires Lookup(dst, p) == Some(Null) && Lookup(src, p).Some?
    ensures Lookup(Coalesce(dst, src), p) == None
    decreases |p|
  {
    var k := p[0];
    if |p| > 1 {
      CoalesceNullRemoves(dst[k].fields, src[k].fields, p[1..]);
    }
  }

  /** The values `Render` hands to the chart: the runtime values over the
      chart defaults when there are any, then the explicit values over both
      when they are not nil. */
  function Layered(defaults: Values, runtime: Values, explicit: Option<Values>): Values {
    var withRuntime := if |runtime| > 0 then Coalesce(runtime, defaults) else defaults;
    if explicit.Some? then Coalesce(explicit.value, withRuntime) else withRuntime
  }

  /** `explicit` is nil or says nothing about `p`. */
  predicate Silent(explicit: Option<Values>, p: seq<string>) {
    explicit.None? || Open(explicit.value, p)
  }

  /** Precedence of the layers: an explicit leaf wins; otherwise a runtime
      leaf; otherwise the chart default. */
  lemma LayeringPrecedence(defaults: Values, runtime: Values, explicit: Option<Values>,
                           p: seq<string>, v: Value)
    ensures explicit.Some? && Lookup(explicit.value, p) == Some(v) && Leaf(v) ==>
              Lookup(Layered(defaults, runtime, explicit), p) == Some(v)
    ensures Silent(explicit, p) && Lookup(runtime, p) == Some(v) && Leaf(v) ==>
              Lookup(Layered(defaults, runtime, explicit), p) == Some(v)
    ensures Silent(explicit, p) && Open(runtime, p) && Lookup(defaults, p) == Some(v) ==>
              Lookup(Layered(defaults, runtime, explicit), p) == Some(v)
  {
    var withRuntime := if |runtime| > 0 then Coalesce(runtime, defaults) else defaults;
    if explicit.Some? && Lookup(explicit.value, p) == Some(v) && Leaf(v) {
      CoalescePrefersDst(explicit.value, withRuntime, p, v);
    }
    if Silent(explicit, p) && Lookup(runtime, p) == Some(v) && Leaf(v) {
      CoalescePrefersDst(runtime, defaults, p, v);
      if explicit.Some? {
        CoalesceFallsBack(explicit.value, withRuntime, p, v);
      }
    }
    if Silent(explicit, p) && Open(runtime, p) && Lookup(defaults, p) == Some(v) {
      if |runtime| > 0 {
        CoalesceFallsBack(runtime, defaults, p, v);
      }
      if explicit.Some? {
        CoalesceFallsBack(explicit.value, withRuntime, p, v);
      }
    }
  }

  /** `unstructured.Unstructured`: an object as a values tree. */
  datatype Unstructured = Unstructured(content: Values) {
    /** The kind, or "" when absent or not a string. */
    function Kind(): string {
      NestedString(content, ["kind"])
    }

    /** `GetNamespace`: `metadata.namespace`, or "". */
    function Namespace(): string {
      NestedString(content, ["metadata", "namespace"])
    }

    /** `GetName`: `metadata.name`, or "". */
    function Name(): string {
      NestedString(content, ["metadata", "name"])
    }
  }

  /** The string at `p`, or "" when there is none (as `unstructured`'s
      accessors read fields). */
  function NestedString(m: Values, p: seq<string>): string {
    var v := Lookup(m, p);
    if v.Some? && v.value.Str? then v.value.s else ""
  }
}
