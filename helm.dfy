/**
 * The Helm chart loader (pkg/helm): runtime values built from the
 * environment configuration, the layering of values in `Render`, and the
 * extraction of objects from the rendered templates.
 *
 * Helm itself is not part of this model. Loading a chart, preparing the
 * values for rendering, the template engine and the YAML stream decoder are
 * oracles collected in a `Toolchain`; the registry reference grammar is the
 * `validImage` oracle of module Image.
 */
module Helm {
  import opened Results
  import opened Values
  import Image

  const DefaultChartPath := "assets/deployment/helm/dra-driver-memory"

  /** `platform.Platform`, a string type whose zero value is "". */
  datatype Platform = Platform(name: string)

  const OpenShift := Platform("OpenShift")

  /** `params.EnvConfig`; `values` is None for a nil map. */
  datatype EnvConfig = EnvConfig(
    namespace: string,
    nodeSelector: map<string, string>,
    image: string,
    command: string,
    platform: Platform,
    values: Option<Values>)

  /** The parts of a loaded chart that `Render` reads. */
  datatype Chart = Chart(appVersion: string, values: Values)

  /** `ChartLoader`. */
  datatype ChartLoader = ChartLoader(chart: Chart)

  /** `chartutil.ReleaseOptions`, the fields `Render` sets. */
  datatype ReleaseOptions = ReleaseOptions(name: string, namespace: string, isInstall: bool)

  /** One call of the YAML stream decoder: an object, or an error other than
      end of input. The stream ends (EOF) after the last step. */
  datatype DecodeStep = Decoded(obj: Unstructured) | Failed(cause: string)

  /** The libraries `Render` relies on. */
  datatype Toolchain = Toolchain(
    validImage: string -> bool,
    load: string -> Result<Chart, string>,
    toRenderValues: (Chart, Values, ReleaseOptions) -> Result<Values, string>,
    engine: (Chart, Values) -> Result<seq<(string, string)>, string>,
    decode: string -> seq<DecodeStep>)

  datatype LoadError = LoadFailed(path: string, cause: string)

  datatype BuildError = ImageParseFailed(cause: Image.ParseError)

  datatype DecodeError = YAMLDecodeFailed(cause: string)

  datatype TemplateError = TemplateFailed(name: string, cause: DecodeError)

  datatype RenderError =
    | BuildValuesFailed(build: BuildError)
    | PrepareValuesFailed(cause: string)
    | RenderTemplatesFailed(cause: string)
    | ParseTemplatesFailed(template: TemplateError)

  /** `NewChartLoader`: an empty path means the default chart. */
  function NewChartLoader(path: string, load: string -> Result<Chart, string>): (r: Result<ChartLoader, LoadError>)
    ensures var used := if path == "" then DefaultChartPath else path;
            && (r.Ok? <==> load(used).Ok?)
            && (r.Ok? ==> r.value.chart == load(used).value)
            && (r.Err? ==> r.error == LoadFailed(used, load(used).error))
  {
    var used := if path == "" then DefaultChartPath else path;
    var c := load(used);
    if c.Err? then Err(LoadFailed(used, c.error)) else Ok(ChartLoader(c.value))
  }

  // ---------------------------------------------------------------------
  // Runtime values

  /** The `image` entry for a parsed reference. */
  function ImageValues(ref: Image.Reference): Value {
    Table(map["repository" := Str(ref.image), "tag" := Str(ref.tag)])
  }

  /** The `openshift` entry. */
  function OpenShiftValues(platform: Platform): Value {
    Table(map["enabled" := Bool(platform == OpenShift)])
  }

  /** What `buildValuesFromEnvConfig` returns. */
  function RuntimeValues(env: EnvConfig, validImage: string -> bool): (r: Result<Values, BuildError>)
    ensures r.Err? <==> env.image != "" && !validImage(env.image)
    ensures r.Err? ==> r.error == ImageParseFailed(Image.InvalidReference(env.image))
    ensures r.Ok? ==> r.value.Keys <= {"image", "openshift", "daemonset"}
    ensures r.Ok? ==> "openshift" in r.value && r.value["openshift"] == OpenShiftValues(env.platform)
  {
    var parsed := Image.Parse(validImage, env.image);
    if env.image != "" && parsed.err.Some? then Err(ImageParseFailed(parsed.err.value))
    else
      var withImage: Values := if env.image != "" then map["image" := ImageValues(parsed.ref)] else map[];
      var withPlatform := withImage["openshift" := OpenShiftValues(env.platform)];
      var command: Values := if env.command != "" then map["command" := Strings([env.command])] else map[];
      var daemonset := if |env.nodeSelector| > 0 then command["nodeSelector" := StringMap(env.nodeSelector)] else command;
      Ok(if |daemonset| > 0 then withPlatform["daemonset" := Table(daemonset)] else withPlatform)
  }

  /** `buildValuesFromEnvConfig`, inserting the keys one at a time. */
  method BuildValuesFromEnvConfig(env: EnvConfig, validImage: string -> bool)
    returns (r: Result<Values, BuildError>)
    ensures r == RuntimeValues(env, validImage)
  {
    var values: Values := map[];
    if env.image != "" {
      var parsed := Image.Parse(validImage, env.image);
      if parsed.err.Some? {
        return Err(ImageParseFailed(parsed.err.value));
      }
      values := values["image" := ImageValues(parsed.ref)];
    }
    values := values["openshift" := OpenShiftValues(env.platform)];
    var daemonsetValues: Values := map[];
    if env.command != "" {
      daemonsetValues := daemonsetValues["command" := Strings([env.command])];
    }
    if |env.nodeSelector| > 0 {
      daemonsetValues := daemonsetValues["nodeSelector" := StringMap(env.nodeSelector)];
    }
    if |daemonsetValues| > 0 {
      values := values["daemonset" := Table(daemonsetValues)];
    }
    return Ok(values);
  }

  /** The `image` entry is there exactly when an image is configured, and
      holds the parsed name and tag. */
  lemma RuntimeValuesImage(env: EnvConfig, validImage: string -> bool)
    requires RuntimeValues(env, validImage).Ok?
    ensures var r := RuntimeValues(env, validImage).value;
            && ("image" in r <==> env.image != "")
            && (env.image != "" ==> r["image"] == ImageValues(Image.Parse(validImage, env.image).ref))
  {
  }

  /** The `daemonset` entry is there exactly when a command or a node
      selector is configured, and holds each of them only when set. */
  lemma RuntimeValuesDaemonSet(env: EnvConfig, validImage: string -> bool)
    requires RuntimeValues(env, validImage).Ok?
    ensures var r := RuntimeValues(env, validImage).value;
            && ("daemonset" in r <==> env.command != "" || |env.nodeSelector| > 0)
            && ("daemonset" in r ==>
                  && r["daemonset"].Table?
                  && r["daemonset"].fields.Keys <= {"command", "nodeSelector"}
                  && ("command" in r["daemonset"].fields <==> env.command != "")
                  && ("nodeSelector" in r["daemonset"].fields <==> |env.nodeSelector| > 0))
            && (env.command != "" ==> r["daemonset"].fields["command"] == Strings([env.command]))
            && (|env.nodeSelector| > 0 ==> r["daemonset"].fields["nodeSelector"] == StringMap(env.nodeSelector))
  {
  }

  /** The runtime values are never empty, so `Render` always lays them over
      the chart defaults. */
  lemma RuntimeValuesNeverEmpty(env: EnvConfig, validImage: string -> bool)
    requires RuntimeValues(env, validImage).Ok?
    ensures |RuntimeValues(env, validImage).value| > 0
    ensures Layered(map[], RuntimeValues(env, validImage).value, None) != map[]
  {
    var rv := RuntimeValues(env, validImage).value;
    assert "openshift" in rv;
    assert "openshift" in Coalesce(rv, map[]);
  }

  // ---------------------------------------------------------------------
  // Extracting objects

  /** The stream decoder's objects up to the end of input or the first
      error; empty objects are dropped. */
  function DecodeAll(steps: seq<DecodeStep>): Result<seq<Unstructured>, DecodeError>
    decreases |steps|
  {
    if |steps| == 0 then Ok([])
    else if steps[0].Failed? then Err(YAMLDecodeFailed(steps[0].cause))
    else
      var rest := DecodeAll(steps[1..]);
      if rest.Err? || |steps[0].obj.content| == 0 then rest
      else Ok([steps[0].obj] + rest.value)
  }

  /** The non-empty objects among the decoded steps, in order. */
  function NonEmptyObjects(steps: seq<DecodeStep>): seq<Unstructured>
    decreases |steps|
  {
    if |steps| == 0 then []
    else
      var rest := NonEmptyObjects(steps[1..]);
      if steps[0].Decoded? && |steps[0].obj.content| > 0 then [steps[0].obj] + rest else rest
  }

  /** DecodeAll fails exactly when some step is an error, with the first
      error's cause; otherwise it keeps every non-empty object in decoder
      order. */
  lemma {:induction false} DecodeAllMeaning(steps: seq<DecodeStep>)
    ensures DecodeAll(steps).Ok? <==> forall i :: 0 <= i < |steps| ==> steps[i].Decoded?
    ensures DecodeAll(steps).Ok? ==> DecodeAll(steps).value == NonEmptyObjects(steps)
    ensures DecodeAll(steps).Err? ==>
              exists i :: && 0 <= i < |steps| && steps[i].Failed?
                          && (forall j :: 0 <= j < i ==> steps[j].Decoded?)
                          && DecodeAll(steps).error == YAMLDecodeFailed(steps[i].cause)
    decreases |steps|
  {
    if |steps| > 0 {
      DecodeAllMeaning(steps[1..]);
      assert forall i :: 0 < i < |steps| ==> steps[1..][i - 1] == steps[i];
      if steps[0].Decoded? && DecodeAll(steps).Err? {
        var i :| && 0 <= i < |steps[1..]| && steps[1..][i].Failed?
                 && (forall j :: 0 <= j < i ==> steps[1..][j].Decoded?)
                 && DecodeAll(steps[1..]).error == YAMLDecodeFailed(steps[1..][i].cause);
        assert steps[i + 1].Failed?;
      }
    }
  }

  /** `parseYAMLDocuments`. */
  method ParseYAMLDocuments(content: string, decode: string -> seq<DecodeStep>)
    returns (r: Result<seq<Unstructured>, DecodeError>)
    ensures r == DecodeAll(decode(content))
  {
    var steps := decode(content);
    var objects: seq<Unstructured> := [];
    var i := 0;
    assert steps[0..] == steps;
    ObjectsPrependedNothing(DecodeAll(steps));
    while i < |steps|
      invariant 0 <= i <= |steps|
      invariant DecodeAll(steps) == ObjectsPrepended(objects, DecodeAll(steps[i..]))
    {
      assert steps[i..][1..] == steps[i + 1..];
      var step := steps[i];
      if step.Failed? {
        return Err(YAMLDecodeFailed(step.cause));
      }
      if |step.obj.content| == 0 {
        i := i + 1;
        continue;
      }
      ObjectsPrependedStep(objects, step.obj, DecodeAll(steps[i + 1..]));
      objects := objects + [step.obj];
      i := i + 1;
    }
    assert objects + [] == objects;
    return Ok(objects);
  }

  /** `done` in front of a successful rest; a failure passes through. */
  function ObjectsPrepended<E>(done: seq<Unstructured>, rest: Result<seq<Unstructured>, E>)
    : Result<seq<Unstructured>, E>
  {
    if rest.Err? then rest else Ok(done + rest.value)
  }

  lemma ObjectsPrependedNothing<E>(rest: Result<seq<Unstructured>, E>)
    ensures ObjectsPrepended([], rest) == rest
  {
    if rest.Ok? {
      assert [] + rest.value == rest.value;
    }
  }

  lemma ObjectsPrependedStep<E>(done: seq<Unstructured>, obj: Unstructured, rest: Result<seq<Unstructured>, E>)
    ensures ObjectsPrepended(done, if rest.Err? then rest else Ok([obj] + rest.value))
            == ObjectsPrepended(done + [obj], rest)
  {
    if rest.Ok? {
      assert done + ([obj] + rest.value) == done + [obj] + rest.value;
    }
  }

  lemma ObjectsPrependedAll<E>(done: seq<Unstructured>, objs: seq<Unstructured>, rest: Result<seq<Unstructured>, E>)
    ensures ObjectsPrepended(done, if rest.Err? then rest else Ok(objs + rest.value))
            == ObjectsPrepended(done + objs, rest)
  {
    if rest.Ok? {
      assert done + (objs + rest.value) == done + objs + rest.value;
    }
  }

  /** `strings.HasSuffix`. */
  predicate HasSuffix(s: string, suffix: string) {
    |suffix| <= |s| && s[|s| - |suffix|..] == suffix
  }

  /** A template whose output is parsed: its name ends in .yaml or .yml. */
  predicate IsYAMLName(name: string) {
    HasSuffix(name, ".yaml") || HasSuffix(name, ".yml")
  }

  /** `unicode.IsSpace`, the characters `strings.TrimSpace` removes. */
  predicate IsUnicodeSpace(c: char) {
    || c == '\t' || c == '\n' || c == '\U{000B}' || c == '\U{000C}' || c == '\r' || c == ' '
    || c == '\U{0085}' || c == '\U{00A0}' || c == '\U{1680}'
    || ('\U{2000}' <= c <= '\U{200A}')
    || c == '\U{2028}' || c == '\U{2029}' || c == '\U{202F}' || c == '\U{205F}' || c == '\U{3000}'
  }

  /** `strings.TrimSpace`. */
  function TrimText(s: string): (r: string)
    ensures |r| <= |s|
    ensures r == [] || (!IsUnicodeSpace(r[0]) && !IsUnicodeSpace(r[|r| - 1]))
    decreases |s|
  {
    if |s| > 0 && IsUnicodeSpace(s[0]) then TrimText(s[1..])
    else if |s| > 0 && IsUnicodeSpace(s[|s| - 1]) then TrimText(s[..|s| - 1])
    else s
  }

  /** `r` is `s[start..end]`, and everything before `start` and from `end`
      on is white space. */
  predicate CutFromEnds(s: string, r: string, start: int, end: int) {
    && 0 <= start <= end <= |s| && r == s[start..end]
    && (forall k :: 0 <= k < start ==> IsUnicodeSpace(s[k]))
    && (forall k :: end <= k < |s| ==> IsUnicodeSpace(s[k]))
  }

  /** TrimText cuts white space from the two ends and nothing else: the
      result is a contiguous piece of the input, and everything cut before
      or after it is white space. */
  lemma {:induction false} TrimTextShape(s: string)
    ensures exists start, end :: CutFromEnds(s, TrimText(s), start, end)
    decreases |s|
  {
    if |s| > 0 && IsUnicodeSpace(s[0]) {
      TrimTextShape(s[1..]);
      var start, end :| CutFromEnds(s[1..], TrimText(s[1..]), start, end);
      CutFromEndsFront(s, TrimText(s[1..]), start, end);
    } else if |s| > 0 && IsUnicodeSpace(s[|s| - 1]) {
      TrimTextShape(s[..|s| - 1]);
      var start, end :| CutFromEnds(s[..|s| - 1], TrimText(s[..|s| - 1]), start, end);
      CutFromEndsBack(s, TrimText(s[..|s| - 1]), start, end);
    } else {
      assert CutFromEnds(s, TrimText(s), 0, |s|);
    }
  }

  /** A cut from the input without its leading white space is a cut from
      the input. */
  lemma CutFromEndsFront(s: string, r: string, start: int, end: int)
    requires |s| > 0 && IsUnicodeSpace(s[0]) && CutFromEnds(s[1..], r, start, end)
    ensures CutFromEnds(s, r, start + 1, end + 1)
  {
    var tail := s[1..];
    assert r == s[start + 1..end + 1];
    forall k | 0 <= k < start + 1
      ensures IsUnicodeSpace(s[k])
    {
      if k > 0 { assert s[k] == tail[k - 1]; }
    }
    forall k | end + 1 <= k < |s|
      ensures IsUnicodeSpace(s[k])
    {
      assert s[k] == tail[k - 1];
    }
  }

  /** A cut from the input without its trailing white space is a cut from
      the input. */
  lemma CutFromEndsBack(s: string, r: string, start: int, end: int)
    requires |s| > 0 && IsUnicodeSpace(s[|s| - 1]) && CutFromEnds(s[..|s| - 1], r, start, end)
    ensures CutFromEnds(s, r, start, end)
  {
    var init := s[..|s| - 1];
    assert r == s[start..end];
    forall k | 0 <= k < start
      ensures IsUnicodeSpace(s[k])
    {
      assert s[k] == init[k];
    }
    forall k | end <= k < |s|
      ensures IsUnicodeSpace(s[k])
    {
      if k < |init| { assert s[k] == init[k]; }
    }
  }

  /** A template is empty after trimming exactly when it holds only white
      space. */
  lemma {:induction false} TrimTextEmpty(s: string)
    ensures TrimText(s) == "" <==> forall i :: 0 <= i < |s| ==> IsUnicodeSpace(s[i])
    decreases |s|
  {
    if |s| > 0 && IsUnicodeSpace(s[0]) {
      TrimTextEmpty(s[1..]);
      assert forall i :: 0 < i < |s| ==> s[1..][i - 1] == s[i];
    } else if |s| > 0 && IsUnicodeSpace(s[|s| - 1]) {
      TrimTextEmpty(s[..|s| - 1]);
      assert forall i :: 0 <= i < |s| - 1 ==> s[..|s| - 1][i] == s[i];
    }
  }

  /** A rendered template that is parsed: a YAML name and content that is
      not blank. */
  predicate Selected(t: (string, string)) {
    IsYAMLName(t.0) && TrimText(t.1) != ""
  }

  /** What `parseRenderedTemplates` returns for the templates in the order
      it visits them. */
  function ExtractAll(rendered: seq<(string, string)>, decode: string -> seq<DecodeStep>)
    : Result<seq<Unstructured>, TemplateError>
    decreases |rendered|
  {
    if |rendered| == 0 then Ok([])
    else
      var (name, content) := rendered[0];
      if !Selected(rendered[0]) then ExtractAll(rendered[1..], decode)
      else
        var objs := DecodeAll(decode(TrimText(content)));
        if objs.Err? then Err(TemplateFailed(name, objs.error))
        else
          var rest := ExtractAll(rendered[1..], decode);
          if rest.Err? then rest else Ok(objs.value + rest.value)
  }

  /** A selected template whose content does not decode. */
  predicate FailsToDecode(t: (string, string), decode: string -> seq<DecodeStep>) {
    Selected(t) && DecodeAll(decode(TrimText(t.1))).Err?
  }

  /** The objects one template contributes: its decoded objects when it is
      selected and decodes, none otherwise. */
  function TemplateObjects(t: (string, string), decode: string -> seq<DecodeStep>): seq<Unstructured> {
    if !Selected(t) then []
    else
      var objs := DecodeAll(decode(TrimText(t.1)));
      if objs.Ok? then objs.value else []
  }

  /** Some template contributes the object `o`. */
  predicate Contributed(rendered: seq<(string, string)>, decode: string -> seq<DecodeStep>, o: Unstructured) {
    exists i :: 0 <= i < |rendered| && o in TemplateObjects(rendered[i], decode)
  }

  /** The call fails exactly when a selected template's content fails to
      decode, naming the first such template; otherwise it returns exactly
      the objects the templates contribute. */
  lemma ExtractAllMeaning(rendered: seq<(string, string)>, decode: string -> seq<DecodeStep>)
    ensures var r := ExtractAll(rendered, decode);
            && (r.Err? <==> exists i :: 0 <= i < |rendered| && FailsToDecode(rendered[i], decode))
            && (r.Err? ==> exists i :: && 0 <= i < |rendered| && FailsToDecode(rendered[i], decode)
                                       && (forall j :: 0 <= j < i ==> !FailsToDecode(rendered[j], decode))
                                       && r.error == TemplateFailed(rendered[i].0,
                                            DecodeAll(decode(TrimText(rendered[i].1))).error))
            && (r.Ok? ==> forall o :: o in r.value <==> Contributed(rendered, decode, o))
  {
    ExtractAllFailure(rendered, decode);
    ExtractAllObjects(rendered, decode);
  }

  /** The failure half of ExtractAllMeaning. */
  lemma {:induction false} ExtractAllFailure(rendered: seq<(string, string)>, decode: string -> seq<DecodeStep>)
    ensures var r := ExtractAll(rendered, decode);
            && (r.Err? <==> exists i :: 0 <= i < |rendered| && FailsToDecode(rendered[i], decode))
            && (r.Err? ==> exists i :: && 0 <= i < |rendered| && FailsToDecode(rendered[i], decode)
                                       && (forall j :: 0 <= j < i ==> !FailsToDecode(rendered[j], decode))
                                       && r.error == TemplateFailed(rendered[i].0,
                                            DecodeAll(decode(TrimText(rendered[i].1))).error))
    decreases |rendered|
  {
    if |rendered| > 0 {
      var tail := rendered[1..];
      ExtractAllFailure(tail, decode);
      assert forall i :: 0 < i < |rendered| ==> tail[i - 1] == rendered[i];
      var r := ExtractAll(rendered, decode);
      var rest := ExtractAll(tail, decode);
      if r.Err? && !FailsToDecode(rendered[0], decode) {
        assert r == rest;
        var i :| && 0 <= i < |tail| && FailsToDecode(tail[i], decode)
                 && (forall j :: 0 <= j < i ==> !FailsToDecode(tail[j], decode))
                 && r.error == TemplateFailed(tail[i].0, DecodeAll(decode(TrimText(tail[i].1))).error);
        assert rendered[i + 1] == tail[i];
        assert forall j :: 0 < j < i + 1 ==> rendered[j] == tail[j - 1];
      }
    }
  }

  /** The success half of ExtractAllMeaning: no object is lost or made up. */
  lemma {:induction false} ExtractAllObjects(rendered: seq<(string, string)>, decode: string -> seq<DecodeStep>)
    ensures var r := ExtractAll(rendered, decode);
            r.Ok? ==> forall o :: o in r.value <==> Contributed(rendered, decode, o)
    decreases |rendered|
  {
    if |rendered| > 0 {
      var tail := rendered[1..];
      ExtractAllObjects(tail, decode);
      var r := ExtractAll(rendered, decode);
      var rest := ExtractAll(tail, decode);
      if r.Ok? {
        assert rest.Ok?;
        var head := TemplateObjects(rendered[0], decode);
        assert r.value == head + rest.value;
        forall o | o in r.value
          ensures Contributed(rendered, decode, o)
        {
          if o in head {
            assert o in TemplateObjects(rendered[0], decode);
          } else {
            assert Contributed(tail, decode, o);
            var i :| 0 <= i < |tail| && o in TemplateObjects(tail[i], decode);
            assert rendered[i + 1] == tail[i];
          }
        }
        forall o | Contributed(rendered, decode, o)
          ensures o in r.value
        {
          var i :| 0 <= i < |rendered| && o in TemplateObjects(rendered[i], decode);
          if i > 0 {
            assert tail[i - 1] == rendered[i];
            assert Contributed(tail, decode, o);
          }
        }
      }
    }
  }

  /** Order: the templates are processed one after another, so extracting
      from `a + b` gives `a`'s objects followed by `b`'s, or the first
      failure. */
  lemma {:induction false} ExtractAllAppend(a: seq<(string, string)>, b: seq<(string, string)>,
                                            decode: string -> seq<DecodeStep>)
    ensures ExtractAll(a + b, decode)
            == if ExtractAll(a, decode).Err? then ExtractAll(a, decode)
               else ObjectsPrepended(ExtractAll(a, decode).value, ExtractAll(b, decode))
    decreases |a|
  {
    if |a| == 0 {
      assert a + b == b;
      ObjectsPrependedNothing(ExtractAll(b, decode));
    } else {
      assert (a + b)[0] == a[0];
      assert (a + b)[1..] == a[1..] + b;
      ExtractAllAppend(a[1..], b, decode);
      var rest := ExtractAll(a[1..], decode);
      if Selected(a[0]) {
        var objs := DecodeAll(decode(TrimText(a[0].1)));
        if objs.Ok? && rest.Ok? {
          ObjectsPrependedAll(objs.value, rest.value, ExtractAll(b, decode));
        }
      }
    }
  }

  /** A single template gives its own objects, or its decoding failure. */
  lemma ExtractAllSingle(t: (string, string), decode: string -> seq<DecodeStep>)
    ensures ExtractAll([t], decode)
            == if FailsToDecode(t, decode)
               then Err(TemplateFailed(t.0, DecodeAll(decode(TrimText(t.1))).error))
               else Ok(TemplateObjects(t, decode))
  {
    assert [t][1..] == [];
    if Selected(t) && DecodeAll(decode(TrimText(t.1))).Ok? {
      assert DecodeAll(decode(TrimText(t.1))).value + [] == DecodeAll(decode(TrimText(t.1))).value;
    }
  }

  /** `parseRenderedTemplates`, over the templates in map iteration order. */
  method ParseRenderedTemplates(rendered: seq<(string, string)>, decode: string -> seq<DecodeStep>)
    returns (r: Result<seq<Unstructured>, TemplateError>)
    ensures r == ExtractAll(rendered, decode)
  {
    var objects: seq<Unstructured> := [];
    var i := 0;
    assert rendered[0..] == rendered;
    ObjectsPrependedNothing(ExtractAll(rendered, decode));
    while i < |rendered|
      invariant 0 <= i <= |rendered|
      invariant ExtractAll(rendered, decode) == ObjectsPrepended(objects, ExtractAll(rendered[i..], decode))
    {
      assert rendered[i..][1..] == rendered[i + 1..];
      var (name, content) := rendered[i];
      if !IsYAMLName(name) {
        i := i + 1;
        continue;
      }
      var trimmed := TrimText(content);
      if trimmed == "" {
        i := i + 1;
        continue;
      }
      var objs := ParseYAMLDocuments(trimmed, decode);
      if objs.Err? {
        return Err(TemplateFailed(name, objs.error));
      }
      ObjectsPrependedAll(objects, objs.value, ExtractAll(rendered[i + 1..], decode));
      objects := objects + objs.value;
      i := i + 1;
    }
    assert objects + [] == objects;
    return Ok(objects);
  }

  // ---------------------------------------------------------------------
  // Render

  /** The release options `Render` builds. */
  function ReleaseOptionsFor(chart: Chart, env: EnvConfig): ReleaseOptions {
    ReleaseOptions(chart.appVersion, env.namespace, true)
  }

  /** The values and release options `Render` hands to the chart, or the
      error building the runtime values. */
  function RenderInput(chart: Chart, env: EnvConfig, validImage: string -> bool)
    : Result<(Values, ReleaseOptions), RenderError>
  {
    var runtime := RuntimeValues(env, validImage);
    if runtime.Err? then Err(BuildValuesFailed(runtime.error))
    else Ok((Layered(chart.values, runtime.value, env.values), ReleaseOptionsFor(chart, env)))
  }

  /** What `Render` returns. */
  function RenderSpec(loader: ChartLoader, env: EnvConfig, tc: Toolchain): Result<seq<Unstructured>, RenderError> {
    var input := RenderInput(loader.chart, env, tc.validImage);
    if input.Err? then Err(input.error)
    else
      var (values, options) := input.value;
      var toRender := tc.toRenderValues(loader.chart, values, options);
      if toRender.Err? then Err(PrepareValuesFailed(toRender.error))
      else
        var rendered := tc.engine(loader.chart, toRender.value);
        if rendered.Err? then Err(RenderTemplatesFailed(rendered.error))
        else
          var objects := ExtractAll(rendered.value, tc.decode);
          if objects.Err? then Err(ParseTemplatesFailed(objects.error)) else Ok(objects.value)
  }

  /** `ChartLoader.Render`. */
  method Render(loader: ChartLoader, env: EnvConfig, tc: Toolchain) returns (r: Result<seq<Unstructured>, RenderError>)
    ensures r == RenderSpec(loader, env, tc)
  {
    var releaseName := loader.chart.appVersion;
    var values := loader.chart.values;
    var runtimeValues := BuildValuesFromEnvConfig(env, tc.validImage);
    if runtimeValues.Err? {
      return Err(BuildValuesFailed(runtimeValues.error));
    }
    if |runtimeValues.value| > 0 {
      values := Coalesce(runtimeValues.value, values);
    }
    if env.values.Some? {
      values := Coalesce(env.values.value, values);
    }
    var releaseOptions := ReleaseOptions(releaseName, env.namespace, true);
    var valuesToRender := tc.toRenderValues(loader.chart, values, releaseOptions);
    if valuesToRender.Err? {
      return Err(PrepareValuesFailed(valuesToRender.error));
    }
    var rendered := tc.engine(loader.chart, valuesToRender.value);
    if rendered.Err? {
      return Err(RenderTemplatesFailed(rendered.error));
    }
    var objects := ParseRenderedTemplates(rendered.value, tc.decode);
    if objects.Err? {
      return Err(ParseTemplatesFailed(objects.error));
    }
    return Ok(objects.value);
  }

  /** An image the reference parser rejects makes `Render` fail before any
      template is rendered. */
  lemma RenderRejectsInvalidImage(loader: ChartLoader, env: EnvConfig, tc: Toolchain)
    requires env.image != "" && !tc.validImage(env.image)
    ensures RenderSpec(loader, env, tc)
            == Err(BuildValuesFailed(ImageParseFailed(Image.InvalidReference(env.image))))
  {
  }

  /** The chart sees the release named after its app version in the
      configured namespace, as an install; an explicit value wins over the
      runtime values, which win over the chart defaults. */
  lemma RenderInputMeaning(chart: Chart, env: EnvConfig, validImage: string -> bool, p: seq<string>, v: Value)
    requires RenderInput(chart, env, validImage).Ok?
    ensures var (values, options) := RenderInput(chart, env, validImage).value;
            var runtime := RuntimeValues(env, validImage).value;
            && options == ReleaseOptions(chart.appVersion, env.namespace, true)
            && (env.values.Some? && Lookup(env.values.value, p) == Some(v) && Leaf(v) ==>
                  Lookup(values, p) == Some(v))
            && (Silent(env.values, p) && Lookup(runtime, p) == Some(v) && Leaf(v) ==>
                  Lookup(values, p) == Some(v))
            && (Silent(env.values, p) && Open(runtime, p) && Lookup(chart.values, p) == Some(v) ==>
                  Lookup(values, p) == Some(v))
  {
    LayeringPrecedence(chart.values, RuntimeValues(env, validImage).value, env.values, p, v);
  }

  /** With no explicit values, the platform decides `openshift.enabled` in
      what the chart sees. */
  lemma RenderInputOpenShiftFlag(chart: Chart, env: EnvConfig, validImage: string -> bool)
    requires RenderInput(chart, env, validImage).Ok? && env.values.None?
    ensures Lookup(RenderInput(chart, env, validImage).value.0, ["openshift", "enabled"])
            == Some(Bool(env.platform == OpenShift))
  {
    var runtime := RuntimeValues(env, validImage).value;
    assert Lookup(runtime, ["openshift", "enabled"]) == Some(Bool(env.platform == OpenShift)) by {
      assert ["openshift", "enabled"][1..] == ["enabled"];
    }
    LayeringPrecedence(chart.values, runtime, env.values, ["openshift", "enabled"], Bool(env.platform == OpenShift));
  }
}
