# dra-deployer, modelled in Dafny

dra-deployer installs the DRA CPU driver on a Kubernetes cluster and removes
it again. Its core has four packages, and this project models each one:

- **Embedded manifests** (`pkg/manifests`). The manifests are decoded one
  file at a time and patched for the target namespace and image. A
  multi-document file is split with hand-written byte helpers.
- **Image references** (`pkg/image`). A reference parses into a repository
  name and a tag, and prints back.
- **Helm chart loader** (`pkg/helm`). It builds runtime values from the
  deployment's configuration and lays them over the chart defaults. The
  rendered templates are parsed into unstructured objects.
- **Deployer** (`pkg/deploy`).
  - `Deploy` makes sure the namespace exists, then applies every rendered
    object with create-or-update.
  - `Delete` deletes the namespace, then every cluster-scoped rendered
    object. It treats "not found" as success.

Files:

- `results.dfy`: `Option` and `Result`.
- `bytes.dfy`: `matchBytes`, `indexBytes`, `splitBytes`, `trimSpace` and
  `splitYAMLDocuments`. Each is a method with its loop, proved against a
  specification function. The lemmas say what that function means: the
  first occurrence, the parts join back to the input, no part holds the
  separator, the trimmed slice and its idempotence.
- `image.dfy`: `Parse` and `Reference.String`. The registry's grammar is an
  oracle `valid`. The name/tag split is written out on the text.
- `manifests.dfy`:
  - the `Get*` patchers, `GetAll`, `GetObjects`;
  - the device-class getters;
  - the service-account identity shared by the admission policy and the
    security context constraints.
- `values.dfy`: Helm value trees, `CoalesceTables` with its precedence
  rules, and the fields of `unstructured.Unstructured` that the deployer
  reads.
- `helm.dfy`: `NewChartLoader`, `buildValuesFromEnvConfig`, `Render`,
  `parseRenderedTemplates` and `parseYAMLDocuments`. The chart loader,
  `ToRenderValues`, the template engine and the YAML stream decoder are
  passed in as a `Toolchain` of functions.
- `cluster.dfy`: the API server reached through a controller-runtime client.
  - It holds a store of objects and a trace of requests.
  - A fault table says which requests the server refuses.
  - Every call is a pure step function on the store. The class
    `Cluster.Client` performs those steps on its fields.
- `deploy.dfy`: `Deploy`, `createNamespaceIfNeeded` and `Delete`.
  - Each is a method over a `Client`, proved against a specification
    function.
  - Lemmas give the requests each one makes, what it stores or removes, and
    which error it reports.

The source has one quirk, and the model follows the code.
`splitYAMLDocuments` first runs a line-scanning loop and then throws its
result away. The documents it returns come from `splitBytes` and
`trimSpace`. The model keeps that loop. `Bytes.ScanSeparatorLines` proves
that the loop's separator test can never fire: the line it looks at never
holds an earlier line feed. So the loop's result is always the whole input,
unsplit.

## Model

| member | source | states |
|---|---|---|
| Bytes.IsSpace | pkg/manifests/manifests.go:387-389 | exactly space, tab, line feed and carriage return; what trimming with it does is lemma TrimmedShape |
| Bytes.MatchBytes | pkg/manifests/manifests.go:358-368 | the result is true exactly when `pattern` is a prefix of `data` |
| Bytes.IndexBytes | pkg/manifests/manifests.go:345-355 | the loop returns `Index`: 0 for an empty separator, otherwise the first offset where `sep` occurs, or -1 |
| Bytes.IndexIsFirst | pkg/manifests/manifests.go:345-355 | `Index` is 0 for an empty separator; otherwise it is an occurrence with none before it, and -1 exactly when `sep` does not occur |
| Bytes.IndexFromIsFirst | pkg/manifests/manifests.go:349-353 | the scan from an offset stops at an occurrence, the first one at or after that offset |
| Bytes.SplitBytes | pkg/manifests/manifests.go:326-342 | the loop returns `Split`: the whole input for an empty separator, no parts for empty data |
| Bytes.SplitNonEmpty | pkg/manifests/manifests.go:332-340 | non-empty data splits into at least one part |
| Bytes.SplitPartsAreSeparatorFree | pkg/manifests/manifests.go:332-340 | no part of a split holds the separator |
| Bytes.SplitJoin | pkg/manifests/manifests.go:332-340 | the parts joined with the separator give back the input, with or without a trailing separator |
| Bytes.TrimSpace | pkg/manifests/manifests.go:371-384 | the two loops return `Trimmed(data)` |
| Bytes.TrimmedShape | pkg/manifests/manifests.go:371-389 | the result is a contiguous slice of the input; only space, tab, LF and CR bytes are cut from either end; it does not start or end with one |
| Bytes.TrimmedIdempotent | pkg/manifests/manifests.go:371-384 | trimming twice is trimming once |
| Bytes.NoSeparatorLine | pkg/manifests/manifests.go:288-291 | a line with no line feed before its last byte never passes the `"\n---"` test |
| Bytes.ScanSeparatorLines | pkg/manifests/manifests.go:284-307 | the line-scanning loop always ends with the whole input as its only document, or with none for empty input |
| Bytes.SplitYAMLDocuments | pkg/manifests/manifests.go:280-323 | returns the trimmed, non-empty parts of the split on `"\n---\n"` |
| Bytes.DocumentsWellFormed | pkg/manifests/manifests.go:310-320 | a document is returned exactly when it is the non-empty trimmed form of some part; each is non-empty, has no white space at its ends and no separator inside |
| Image.Parse | pkg/image/image.go:15-33 | fails exactly when the reference parser rejects the text, with the zero Reference; an untagged reference gets the tag "latest" |
| Image.Reference.String | pkg/image/image.go:35-37 | the name, a colon and the tag; that `Parse` reads it back is lemmas SplitNameOfString and ParseStringRoundTrip |
| Image.SplitNameOfString | pkg/image/image.go:35-37 | the text `String` prints splits back into the name and the tag, for a tag without `:` or `/` and no `@` |
| Image.ParseStringRoundTrip | pkg/image/image_test.go:147-180 | a valid tagged reference without digest parses and prints back as itself |
| Image.ParseUntagged | pkg/image/image_test.go:51-56 | an untagged valid reference keeps its name and gets "latest"; without a digest it prints as the text followed by ":latest" |
| Image.ParseKeepsRegistryPort | pkg/image/image_test.go:29-35 | "localhost:5000/myimage:dev" parses into name "localhost:5000/myimage" and tag "dev": the port's colon stays in the name |
| Image.ParseRejectsEmpty | pkg/image/image_test.go:57-61 | the empty text is rejected by a parser that keeps the grammar's rules |
| Image.ParseRejectsBareTag | pkg/image/image_test.go:62-66 | ":v1.0" is rejected by a parser that keeps the grammar's rules |
| Image.ParseRejectsUpperCase | pkg/image/image_test.go:67-71 | "UPPERCASE:tag" is rejected by a parser that keeps the grammar's rules |
| Values.Coalesce | pkg/helm/loader.go:72 | `chartutil.CoalesceTables`; its meaning is lemmas CoalescePrefersDst, CoalesceFallsBack and CoalesceNullRemoves |
| Values.Layered | pkg/helm/loader.go:61-78 | the two layering steps of `Render`, each guarded as in the source; its meaning is lemma LayeringPrecedence |
| Values.CoalescePrefersDst | pkg/helm/loader.go:70-78 | a leaf of `dst` is kept whatever `src` holds |
| Values.CoalesceFallsBack | pkg/helm/loader.go:70-78 | where `dst` has nothing on the path, `src`'s value shows through |
| Values.CoalesceNullRemoves | pkg/helm/loader.go:70-78 | a nil in `dst` removes the key `src` has there |
| Values.LayeringPrecedence | pkg/helm/loader.go:61-78 | an explicit value beats a runtime value, which beats the chart default |
| Manifests.RestrictedUserIsServiceAccount | pkg/manifests/manifests.go:246-249 | the `isRestrictedUser` expression compares the user name with the same service-account user the security context constraints admit |
| Manifests.ServiceAccountUserInjective | pkg/manifests/manifests.go:274 | different namespaces give different service-account users |
| Manifests.DecodeManifest | pkg/manifests/manifests.go:115-127 | a read error or a decode error, each naming the file, or the decoded object; every getter fails exactly as this does (predicate FailsWithFile in their contracts) |
| Manifests.GetServiceAccount | pkg/manifests/manifests.go:130-137 | fails exactly when the file fails, with the error naming the file; otherwise only the namespace is changed |
| Manifests.GetClusterRole | pkg/manifests/manifests.go:140-146 | fails exactly when the file fails; otherwise the decoded role, unchanged |
| Manifests.GetClusterRoleBinding | pkg/manifests/manifests.go:149-156 | fails exactly when the file fails; otherwise only the first subject's namespace is set, and the metadata, the role reference and the other subjects are kept |
| Manifests.GetDaemonSet | pkg/manifests/manifests.go:159-171 | fails exactly when the file fails; otherwise it sets the namespace and the first container's image, and leaves the other containers alone |
| Manifests.GetValidatingAdmissionPolicy | pkg/manifests/manifests.go:238-257 | fails exactly when the file fails; otherwise the decoded match conditions are kept and `isRestrictedUser` is appended for the namespace |
| Manifests.GetValidatingAdmissionPolicyBinding | pkg/manifests/manifests.go:260-266 | fails exactly when the file fails; otherwise the decoded binding, unchanged |
| Manifests.GetSecurityContextConstraints | pkg/manifests/manifests.go:269-276 | fails exactly when the file fails; otherwise the users are exactly the namespace's service-account user |
| Manifests.GetAll | pkg/manifests/manifests.go:67-112 | fails exactly when some file fails, with the error of the first failure in fetch order, wrapped with its kind; otherwise each manifest is exactly what its getter returns: the service account and DaemonSet with only the namespace set, the role and policy binding unchanged, the binding's first subject set to the namespace and all else kept, the DaemonSet's first container image set and the other containers kept, the policy's conditions kept with `isRestrictedUser` appended, the constraints' metadata kept and users replaced, and no device classes |
| Manifests.GetObjects | pkg/manifests/manifests.go:52-62 | seven objects in a fixed kind order, no device class among them |
| Manifests.GetObjectsKindsDistinct | pkg/manifests/manifests.go:52-62 | no two listed objects have the same kind |
| Manifests.DecodeClassesOneToOne | pkg/manifests/manifests.go:190-200 | non-empty documents decode to one class each, in order, or fail with the first decoder error |
| Manifests.DeviceClassesPerDocument | pkg/manifests/manifests.go:176-203 | a readable file yields exactly one class per YAML document, or the first decoding failure |
| Manifests.GetDeviceClasses | pkg/manifests/manifests.go:176-203 | the loop returns `DeviceClassesFrom`: the read error, or the decoded documents |
| Manifests.FirstNamedIsFirst | pkg/manifests/manifests.go:212-218 | the lookup returns the first class with the name, and fails with the not-found error exactly when none has it |
| Manifests.FindDeviceClass | pkg/manifests/manifests.go:212-218 | the loop returns `FirstNamed` |
| Manifests.GetExclusiveCPUDeviceClass | pkg/manifests/manifests.go:206-219 | the first "exclusive-cpu" class, the decoding error, or not found |
| Manifests.GetSharedCPUDeviceClass | pkg/manifests/manifests.go:222-235 | the first "shared-cpu" class, the decoding error, or not found |
| Manifests.DeviceClassNamedMeaning | pkg/manifests/manifests.go:206-235 | a getter passes the list's error on, finds a class exactly when one has the name, and otherwise fails with not found |
| Helm.NewChartLoader | pkg/helm/loader.go:36-54 | an empty path loads the default chart path; a load error becomes the loader's error, naming the path |
| Helm.RuntimeValues | pkg/helm/loader.go:115-159 | fails exactly when a configured image does not parse; at most the keys image, openshift and daemonset; openshift is always there and holds the platform flag |
| Helm.BuildValuesFromEnvConfig | pkg/helm/loader.go:115-159 | the step-by-step insertion returns `RuntimeValues` |
| Helm.RuntimeValuesImage | pkg/helm/loader.go:119-130 | the `image` entry is there exactly when an image is configured, and holds the parsed repository and tag |
| Helm.RuntimeValuesDaemonSet | pkg/helm/loader.go:138-156 | the `daemonset` entry is there exactly when a command or node selector is set; it holds the command as a one-element list and the selector, each only when set |
| Helm.RuntimeValuesNeverEmpty | pkg/helm/loader.go:70-73 | the runtime values are never empty, so they are always laid over the defaults |
| Helm.DecodeAllMeaning | pkg/helm/loader.go:199-214 | decoding fails exactly when some step fails, with the first failure's cause; otherwise it keeps the non-empty objects in order |
| Helm.ParseYAMLDocuments | pkg/helm/loader.go:193-217 | the loop returns `DecodeAll` of the decoder's steps |
| Helm.TrimText | pkg/helm/loader.go:173 | `strings.TrimSpace`; its contract bounds the length and says the result neither starts nor ends with white space (the shape is lemma TrimTextShape) |
| Helm.TrimTextShape | pkg/helm/loader.go:173 | the trimmed text is a contiguous piece of the template, and everything cut from either end is white space |
| Helm.TrimTextEmpty | pkg/helm/loader.go:172-177 | a template is skipped as empty exactly when it is all white space |
| Helm.ExtractAllMeaning | pkg/helm/loader.go:162-190 | fails exactly when a selected template fails to decode, naming the first such template with its decoding error; otherwise an object is returned exactly when some template contributes it |
| Helm.ExtractAllFailure | pkg/helm/loader.go:164-182 | the error half: the call fails exactly when a selected template fails to decode, and the error names the first such template with its decoding error |
| Helm.ExtractAllObjects | pkg/helm/loader.go:164-185 | the success half: every returned object comes from some template, and every object a selected, decoding template yields is returned |
| Helm.ExtractAllAppend | pkg/helm/loader.go:165-187 | templates are processed in visiting order: extracting from `a + b` gives `a`'s objects followed by `b`'s, or the first failure |
| Helm.ExtractAllSingle | pkg/helm/loader.go:166-185 | one template contributes nothing unless it has a YAML name and non-blank content, then its decoded objects, or fails naming it |
| Helm.ParseRenderedTemplates | pkg/helm/loader.go:162-190 | the loop returns `ExtractAll` over the templates in visiting order |
| Helm.Render | pkg/helm/loader.go:57-107 | the method returns `RenderSpec`: the build, preparation, render or parse error in that order, or the parsed objects |
| Helm.RenderRejectsInvalidImage | pkg/helm/loader.go:65-68 | an image the parser rejects makes rendering fail with the build error |
| Helm.RenderInputMeaning | pkg/helm/loader.go:70-85 | the release is named after the app version, in the configured namespace, as an install; in the values the chart sees, an explicit leaf wins, then a runtime leaf where the explicit values are silent, then the chart default where both are |
| Helm.RenderInputOpenShiftFlag | pkg/helm/loader.go:132-135 | with no explicit values, `openshift.enabled` is true exactly on OpenShift |
| Cluster.GetStep | pkg/deploy/deploy.go:63-65 | a Get succeeds exactly when it is not refused and the key is stored; it reports not found exactly when it is not refused and the key is absent |
| Cluster.CreateStep | pkg/deploy/deploy.go:71-74 | a Create succeeds exactly when it is not refused and the key is free, and stores the object; otherwise nothing changes |
| Cluster.UpsertStep | pkg/deploy/deploy.go:49-52 | a create-or-update succeeds exactly when it is not refused, and stores the object under its key |
| Cluster.DeleteStep | pkg/deploy/deploy.go:103-117 | a Delete succeeds exactly when it is not refused and the key is stored; it reports not found when the key is absent; on failure nothing changes |
| Cluster.DeleteStepRemoves | pkg/deploy/deploy.go:103 | a deletion only removes objects; a namespace's deletion takes everything in it along |
| Cluster.Client.constructor | pkg/deploy/deploy.go:24 | a client on a cluster holding the given objects, with no request made yet |
| Cluster.Client.Get | pkg/deploy/deploy.go:63 | the outcome and the client's new objects and trace are `GetStep` of its old state |
| Cluster.Client.Create | pkg/deploy/deploy.go:71 | the outcome and the client's new objects and trace are `CreateStep` of its old state |
| Cluster.Client.CreateOrUpdate | pkg/deploy/deploy.go:49 | the outcome and the client's new objects and trace are `UpsertStep` of its old state |
| Cluster.Client.Delete | pkg/deploy/deploy.go:108-136 | used at both deletions (namespace and objects); the outcome and the client's new objects and trace are `DeleteStep` of its old state |
| Deploy.NamespaceObject | pkg/deploy/deploy.go:62-70 | the namespace object is stored under the namespace key and carries the managed-by label |
| Deploy.EnsureNamespaceMeaning | pkg/deploy/deploy.go:60-83 | makes one Get, then a Create only when the namespace is absent; succeeds exactly when the namespace exists or its creation goes through; a refused Get gives the get error; objects change only by the new namespace |
| Deploy.ApplyAllStores | pkg/deploy/deploy.go:46-55 | the objects up to the first refused one are stored, in order |
| Deploy.ApplyAllRequests | pkg/deploy/deploy.go:46-55 | one create-or-update per object, up to and including the first refused one |
| Deploy.ApplyAllError | pkg/deploy/deploy.go:49-52 | applying fails exactly when some object is refused, naming the first one and the cause |
| Deploy.FirstRefusedIsFirst | pkg/deploy/deploy.go:46-55 | no object before the first refused one is refused |
| Deploy.StoreAllIdempotent | pkg/deploy/deploy.go:46-55 | storing the same objects twice is storing them once |
| Deploy.ReapplyChangesNothing | pkg/deploy/deploy.go:46-55 | a second successful apply of the same objects also succeeds and leaves the objects as they are |
| Deploy.DeployRequests | pkg/deploy/deploy.go:24-58 | every request `Deploy` makes, in order: the Get of the namespace, its Create when not found, then, once the chart renders, one create-or-update per rendered object up to and including the first refused one |
| Deploy.DeployRequestsOnceRendered | pkg/deploy/deploy.go:39-55 | once the namespace is there and the chart renders, `Deploy` adds exactly its loop's create-or-update requests |
| Deploy.DeployAsksForNamespaceFirst | pkg/deploy/deploy.go:24-31 | the first request `Deploy` makes is the Get of the namespace |
| Deploy.DeployFailsBeforeApplying | pkg/deploy/deploy.go:28-43 | a failure to prepare the namespace, load or render leaves the cluster as the namespace step left it |
| Deploy.DeploySucceedsWithoutFaults | pkg/deploy/deploy.go:24-58 | without refusals and with a chart that renders, `Deploy` succeeds and every rendered object is stored |
| Deploy.Deploy | pkg/deploy/deploy.go:24-58 | the method's error and the client's new state are `DeploySpec` |
| Deploy.CreateNamespaceIfNeeded | pkg/deploy/deploy.go:60-83 | the method's error and the client's new state are `EnsureNamespace` |
| Deploy.Delete | pkg/deploy/deploy.go:86-144 | the method's error and the client's new state are `DeleteSpec` |
| Deploy.DeleteCallsClusterScoped | pkg/deploy/deploy.go:120-130 | every request of the deletion loop is a Delete of a cluster-scoped rendered object |
| Deploy.DeleteClusterScopedRequests | pkg/deploy/deploy.go:120-140 | one Delete per cluster-scoped object, up to and including the first refused one |
| Deploy.DeleteClusterScopedError | pkg/deploy/deploy.go:130-136 | the loop fails exactly when some cluster-scoped object is refused, naming the first and the cause; not found counts as deleted |
| Deploy.FirstDeleteRefusedIsFirst | pkg/deploy/deploy.go:120-140 | no object before the first refused one is refused |
| Deploy.DeleteClusterScopedRemoves | pkg/deploy/deploy.go:120-140 | the loop only removes objects; on success no cluster-scoped rendered object is left |
| Deploy.DeleteOutcomeIgnoresStore | pkg/deploy/deploy.go:108-114 | whether `Delete` fails, and with which error, depends only on the refusals, because not found is never an error |
| Deploy.DeleteRequests | pkg/deploy/deploy.go:103-130 | after rendering, the first request is the Delete of the namespace; every later one is a Delete of a cluster-scoped rendered object |
| Deploy.DeleteLeavesNothing | pkg/deploy/deploy.go:86-144 | after a successful `Delete`, the namespace and everything in it are gone, no cluster-scoped rendered object is left, and nothing is added |
| Deploy.DeleteRendersWithoutOpenShift | pkg/deploy/deploy.go:95-98 | `Delete` renders with only the namespace set: the runtime values are just `openshift.enabled = false`, and the release is in that namespace |

## Left out

- **Reading the embedded files.** `assets.Yamls`, `runtimeDecoder` and the
  universal deserializer are not modelled. Each getter receives the
  outcome of reading and decoding its file: unreadable, not decodable, or
  the decoded object. The decoders' own behaviour is not modelled.
- **Typed Kubernetes objects.** Only the fields the getters patch or read
  are kept: metadata, subjects, role reference, containers, match
  conditions, users and the device-class name.
- **Helm internals.** The chart loader, `ToRenderValues`, the template
  engine and the YAML stream decoder are functions passed in. Only the
  values handed to them and the handling of their results are modelled.
- **The reference grammar.** The registry's grammar (`reference.ParseNamed`)
  is the oracle `valid`. A digest is dropped from the name, and its checksum
  is not checked.
- `Image.ParseRejectsEmpty`, `Image.ParseRejectsBareTag` and
  `Image.ParseRejectsUpperCase`: these are weaker than the parser's
  behaviour. They hold only under `KeepsGrammarRules`, two grammar rules the
  oracle is assumed to keep.
- **Map iteration order in `parseRenderedTemplates`.** Go visits the map in
  a random order. The model takes the templates as a sequence in visiting
  order, so object order is stated for that sequence.
- `Manifests.GetClusterRoleBinding`: requires a decoded binding to have a
  subject, because the source indexes `Subjects[0]` and panics on an empty
  list. `Manifests.GetAll` carries the same requirement.
- **In-place mutation and aliasing.** The getters patch freshly decoded
  objects, and `CoalesceTables` writes into its `dst` map. Both are
  modelled on values.
- **`controllerutil.CreateOrUpdate`.** It is one create-or-update request
  that stores the object. Its internal Get, its mutate function (nil here)
  and its result code are not modelled.
- **API failures.** Every cause (permissions, admission, network) is a
  fixed fault table on requests. The store guarantees nothing under
  concurrent writers.
- **Namespace deletion.** Kubernetes finalises it asynchronously. The
  model removes the namespace and everything in it at once.
  `Deploy.DeleteLeavesNothing` also assumes that every stored object's
  namespace exists.
- **Not modelled:**
  - the `context.Context` parameters;
  - klog logging;
  - the formatting of wrapped errors beyond their cause;
  - the GVK lookup (the kind is read from the object's `kind` field).
- **Files not part of this model:** `pkg/cmd/main.go`, `pkg/commands`,
  `pkg/client` and the chart's template files.
