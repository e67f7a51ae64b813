/**
 * The embedded DRA CPU driver manifests (pkg/manifests): each `Get*`
 * decodes one embedded YAML file into a fresh object and writes the
 * namespace, the image or the service-account identity into it; `GetAll`
 * gathers them failing fast; the device classes come from one
 * multi-document file.
 *
 * Reading and decoding an embedded file belong to the embedding and the
 * Kubernetes deserializer, which are not part of this model: each file is
 * given as an `Asset`, the outcome of reading and decoding it. The decoded
 * objects are records holding the fields the package reads or writes.
 */
module Manifests {
  import opened Results
  import opened Bytes

  datatype ObjectMeta = ObjectMeta(name: string, namespace: string, labels: map<string, string>)

  datatype ServiceAccount = ServiceAccount(meta: ObjectMeta)

  datatype PolicyRule = PolicyRule(apiGroups: seq<string>, resources: seq<string>, verbs: seq<string>)

  datatype ClusterRole = ClusterRole(meta: ObjectMeta, rules: seq<PolicyRule>)

  datatype Subject = Subject(kind: string, name: string, namespace: string)

  datatype RoleRef = RoleRef(kind: string, name: string)

  datatype ClusterRoleBinding = ClusterRoleBinding(meta: ObjectMeta, roleRef: RoleRef, subjects: seq<Subject>)

  /** A container of the DaemonSet's pod template. */
  datatype Container = Container(name: string, image: string, command: seq<string>)

  datatype DaemonSet = DaemonSet(meta: ObjectMeta, containers: seq<Container>)

  datatype MatchCondition = MatchCondition(name: string, expression: string)

  datatype ValidatingAdmissionPolicy = ValidatingAdmissionPolicy(meta: ObjectMeta, matchConditions: seq<MatchCondition>)

  datatype ValidatingAdmissionPolicyBinding = ValidatingAdmissionPolicyBinding(meta: ObjectMeta, policyName: string)

  datatype SecurityContextConstraints = SecurityContextConstraints(meta: ObjectMeta, users: seq<string>)

  datatype DeviceClass = DeviceClass(meta: ObjectMeta)

  /** One embedded manifest file: unreadable, not decodable, or decoded. */
  datatype Asset<T> = Unreadable(cause: string) | Undecodable(cause: string) | Decoded(obj: T)

  datatype ManifestError =
    | ReadFailed(file: string, cause: string)
    | DecodeFailed(file: string, cause: string)
    | GetFailed(kind: string, inner: ManifestError)
    | DeviceClassesReadFailed(cause: string)
    | DeviceClassDecodeFailed(cause: string)
    | DeviceClassNotFound(name: string)

  const ServiceAccountFile := "serviceaccount.yaml"
  const ClusterRoleFile := "clusterrole.yaml"
  const ClusterRoleBindingFile := "clusterrolebinding.yaml"
  const DaemonSetFile := "daemonset.yaml"
  const ValidatingAdmissionPolicyFile := "validatingadmissionpolicy.yaml"
  const ValidatingAdmissionPolicyBindingFile := "validatingadmissionpolicybinding.yaml"
  const SecurityContextConstraintsFile := "securitycontextconstraints.yaml"

  const ServiceAccountName := "dra-cpu-driver-service-account"
  const RestrictedUserCondition := "isRestrictedUser"
  const ExclusiveCPU := "exclusive-cpu"
  const SharedCPU := "shared-cpu"

  /** The user name the driver's service account authenticates as. */
  function ServiceAccountUser(namespace: string): string {
    "system:serviceaccount:" + namespace + ":" + ServiceAccountName
  }

  /** The opening of the `isRestrictedUser` expression, up to the quote. */
  const UsernameEquals := "request.userInfo.username == \""

  /** The CEL expression of the `isRestrictedUser` match condition: the
      format string with the namespace in its one placeholder. */
  function RestrictedUserExpression(namespace: string): string {
    UsernameEquals + "system:serviceaccount:" + namespace + ":" + ServiceAccountName + "\""
  }

  /** The admission policy matches exactly the user the security context
      constraints admit. */
  lemma RestrictedUserIsServiceAccount(namespace: string)
    ensures RestrictedUserExpression(namespace) == UsernameEquals + ServiceAccountUser(namespace) + "\""
  {
  }

  /** Different namespaces give different service-account users. */
  lemma ServiceAccountUserInjective(a: string, b: string)
    requires ServiceAccountUser(a) == ServiceAccountUser(b)
    ensures a == b
  {
    var prefix := "system:serviceaccount:";
    var suffix := ":" + ServiceAccountName;
    assert ServiceAccountUser(a) == prefix + a + suffix;
    assert ServiceAccountUser(b) == prefix + b + suffix;
    assert |a| == |b|;
    assert a == ServiceAccountUser(a)[|prefix|..|prefix| + |a|];
    assert b == ServiceAccountUser(b)[|prefix|..|prefix| + |b|];
  }

  /** `decodeManifest`: the error names the file. */
  function DecodeManifest<T>(file: string, asset: Asset<T>): Result<T, ManifestError> {
    match asset
    case Unreadable(cause) => Err(ReadFailed(file, cause))
    case Undecodable(cause) => Err(DecodeFailed(file, cause))
    case Decoded(obj) => Ok(obj)
  }

  /** `r` fails exactly when the file does, with the error `decodeManifest`
      reports for it. */
  predicate FailsWithFile<T>(r: Result<T, ManifestError>, file: string, asset: Asset<T>) {
    && (r.Err? <==> !asset.Decoded?)
    && (r.Err? ==> r.error == DecodeManifest(file, asset).error)
  }

  /** `after` is `before` with the namespace set and nothing else changed. */
  predicate SetsNamespace(before: ObjectMeta, after: ObjectMeta, namespace: string) {
    after.namespace == namespace && after.name == before.name && after.labels == before.labels
  }

  /** `GetServiceAccount`. */
  method GetServiceAccount(asset: Asset<ServiceAccount>, namespace: string)
    returns (r: Result<ServiceAccount, ManifestError>)
    ensures FailsWithFile(r, ServiceAccountFile, asset)
    ensures r.Ok? ==> SetsNamespace(asset.obj.meta, r.value.meta, namespace)
  {
    var decoded := DecodeManifest(ServiceAccountFile, asset);
    if decoded.Err? {
      return Err(decoded.error);
    }
    var sa := decoded.value;
    sa := sa.(meta := sa.meta.(namespace := namespace));
    return Ok(sa);
  }

  /** `GetClusterRole`: the decoded role, unchanged. */
  method GetClusterRole(asset: Asset<ClusterRole>) returns (r: Result<ClusterRole, ManifestError>)
    ensures FailsWithFile(r, ClusterRoleFile, asset)
    ensures r.Ok? ==> r.value == asset.obj
  {
    var decoded := DecodeManifest(ClusterRoleFile, asset);
    if decoded.Err? {
      return Err(decoded.error);
    }
    return Ok(decoded.value);
  }

  /** `GetClusterRoleBinding`. The source indexes the first subject without
      a check, so a binding without subjects is outside its contract. */
  method GetClusterRoleBinding(asset: Asset<ClusterRoleBinding>, namespace: string)
    returns (r: Result<ClusterRoleBinding, ManifestError>)
    requires asset.Decoded? ==> |asset.obj.subjects| > 0
    ensures FailsWithFile(r, ClusterRoleBindingFile, asset)
    ensures r.Ok? ==> r.value.meta == asset.obj.meta && r.value.roleRef == asset.obj.roleRef
    ensures r.Ok? ==> |r.value.subjects| == |asset.obj.subjects|
    ensures r.Ok? ==> r.value.subjects[0] == asset.obj.subjects[0].(namespace := namespace)
    ensures r.Ok? ==> r.value.subjects[1..] == asset.obj.subjects[1..]
  {
    var decoded := DecodeManifest(ClusterRoleBindingFile, asset);
    if decoded.Err? {
      return Err(decoded.error);
    }
    var crb := decoded.value;
    crb := crb.(subjects := crb.subjects[0 := crb.subjects[0].(namespace := namespace)]);
    return Ok(crb);
  }

  /** `GetDaemonSet`: the namespace, and the image of the first container
      when there is one. */
  method GetDaemonSet(asset: Asset<DaemonSet>, namespace: string, image: string)
    returns (r: Result<DaemonSet, ManifestError>)
    ensures FailsWithFile(r, DaemonSetFile, asset)
    ensures r.Ok? ==> SetsNamespace(asset.obj.meta, r.value.meta, namespace)
    ensures r.Ok? ==> |r.value.containers| == |asset.obj.containers|
    ensures r.Ok? && |asset.obj.containers| > 0 ==>
              r.value.containers[0] == asset.obj.containers[0].(image := image)
    ensures r.Ok? && |asset.obj.containers| > 0 ==>
              r.value.containers[1..] == asset.obj.containers[1..]
    ensures r.Ok? && |asset.obj.containers| == 0 ==> r.value.containers == []
  {
    var decoded := DecodeManifest(DaemonSetFile, asset);
    if decoded.Err? {
      return Err(decoded.error);
    }
    var ds := decoded.value;
    ds := ds.(meta := ds.meta.(namespace := namespace));
    if |ds.containers| > 0 {
      ds := ds.(containers := ds.containers[0 := ds.containers[0].(image := image)]);
    }
    return Ok(ds);
  }

  /** `GetValidatingAdmissionPolicy`: the decoded conditions kept, and one
      `isRestrictedUser` condition for the namespace appended. */
  method GetValidatingAdmissionPolicy(asset: Asset<ValidatingAdmissionPolicy>, namespace: string)
    returns (r: Result<ValidatingAdmissionPolicy, ManifestError>)
    ensures FailsWithFile(r, ValidatingAdmissionPolicyFile, asset)
    ensures r.Ok? ==> r.value.meta == asset.obj.meta
    ensures r.Ok? ==> |r.value.matchConditions| == |asset.obj.matchConditions| + 1
    ensures r.Ok? ==> r.value.matchConditions[..|asset.obj.matchConditions|] == asset.obj.matchConditions
    ensures r.Ok? ==> r.value.matchConditions[|asset.obj.matchConditions|]
                      == MatchCondition(RestrictedUserCondition, RestrictedUserExpression(namespace))
  {
    var decoded := DecodeManifest(ValidatingAdmissionPolicyFile, asset);
    if decoded.Err? {
      return Err(decoded.error);
    }
    var vap := decoded.value;
    var condition := MatchCondition(RestrictedUserCondition, RestrictedUserExpression(namespace));
    vap := vap.(matchConditions := vap.matchConditions + [condition]);
    return Ok(vap);
  }

  /** `GetValidatingAdmissionPolicyBinding`: the decoded binding, unchanged. */
  method GetValidatingAdmissionPolicyBinding(asset: Asset<ValidatingAdmissionPolicyBinding>)
    returns (r: Result<ValidatingAdmissionPolicyBinding, ManifestError>)
    ensures FailsWithFile(r, ValidatingAdmissionPolicyBindingFile, asset)
    ensures r.Ok? ==> r.value == asset.obj
  {
    var decoded := DecodeManifest(ValidatingAdmissionPolicyBindingFile, asset);
    if decoded.Err? {
      return Err(decoded.error);
    }
    return Ok(decoded.value);
  }

  /** `GetSecurityContextConstraints`: the users replaced by the one
      service-account user of the namespace. */
  method GetSecurityContextConstraints(asset: Asset<SecurityContextConstraints>, namespace: string)
    returns (r: Result<SecurityContextConstraints, ManifestError>)
    ensures FailsWithFile(r, SecurityContextConstraintsFile, asset)
    ensures r.Ok? ==> r.value.meta == asset.obj.meta
    ensures r.Ok? ==> r.value.users == [ServiceAccountUser(namespace)]
  {
    var decoded := DecodeManifest(SecurityContextConstraintsFile, asset);
    if decoded.Err? {
      return Err(decoded.error);
    }
    var scc := decoded.value;
    scc := scc.(users := [ServiceAccountUser(namespace)]);
    return Ok(scc);
  }

  /** The embedded files `GetAll` reads. */
  datatype Templates = Templates(
    serviceAccount: Asset<ServiceAccount>,
    clusterRole: Asset<ClusterRole>,
    clusterRoleBinding: Asset<ClusterRoleBinding>,
    daemonSet: Asset<DaemonSet>,
    validatingAdmissionPolicy: Asset<ValidatingAdmissionPolicy>,
    validatingAdmissionPolicyBinding: Asset<ValidatingAdmissionPolicyBinding>,
    securityContextConstraints: Asset<SecurityContextConstraints>)

  /** `Manifests`. */
  datatype Manifests = Manifests(
    serviceAccount: ServiceAccount,
    securityContextConstraints: SecurityContextConstraints,
    clusterRole: ClusterRole,
    clusterRoleBinding: ClusterRoleBinding,
    daemonSet: DaemonSet,
    deviceClasses: seq<DeviceClass>,
    validatingAdmissionPolicy: ValidatingAdmissionPolicy,
    validatingAdmissionPolicyBinding: ValidatingAdmissionPolicyBinding)

  /** The error `GetAll` reports: the first file, in the order it fetches
      them, that fails, wrapped with the kind it was fetching. */
  function FirstFailure(t: Templates): Option<ManifestError> {
    if !t.serviceAccount.Decoded? then
      Some(GetFailed("ServiceAccount", DecodeManifest(ServiceAccountFile, t.serviceAccount).error))
    else if !t.clusterRole.Decoded? then
      Some(GetFailed("ClusterRole", DecodeManifest(ClusterRoleFile, t.clusterRole).error))
    else if !t.clusterRoleBinding.Decoded? then
      Some(GetFailed("ClusterRoleBinding", DecodeManifest(ClusterRoleBindingFile, t.clusterRoleBinding).error))
    else if !t.daemonSet.Decoded? then
      Some(GetFailed("DaemonSet", DecodeManifest(DaemonSetFile, t.daemonSet).error))
    else if !t.validatingAdmissionPolicy.Decoded? then
      Some(GetFailed("ValidatingAdmissionPolicy",
        DecodeManifest(ValidatingAdmissionPolicyFile, t.validatingAdmissionPolicy).error))
    else if !t.validatingAdmissionPolicyBinding.Decoded? then
      Some(GetFailed("ValidatingAdmissionPolicyBinding",
        DecodeManifest(ValidatingAdmissionPolicyBindingFile, t.validatingAdmissionPolicyBinding).error))
    else if !t.securityContextConstraints.Decoded? then
      Some(GetFailed("SecurityContextConstraints",
        DecodeManifest(SecurityContextConstraintsFile, t.securityContextConstraints).error))
    else None
  }

  /** `GetAll`: every manifest patched for the namespace and image, or the
      first failure. Device classes are not part of the result. */
  method GetAll(t: Templates, namespace: string, image: string) returns (r: Result<Manifests, ManifestError>)
    requires t.clusterRoleBinding.Decoded? ==> |t.clusterRoleBinding.obj.subjects| > 0
    ensures r.Err? <==> FirstFailure(t).Some?
    ensures r.Err? ==> r.error == FirstFailure(t).value
    ensures r.Ok? ==> SetsNamespace(t.serviceAccount.obj.meta, r.value.serviceAccount.meta, namespace)
    ensures r.Ok? ==> r.value.clusterRole == t.clusterRole.obj
    ensures r.Ok? ==> r.value.clusterRoleBinding.meta == t.clusterRoleBinding.obj.meta
    ensures r.Ok? ==> r.value.clusterRoleBinding.roleRef == t.clusterRoleBinding.obj.roleRef
    ensures r.Ok? ==> |r.value.clusterRoleBinding.subjects| == |t.clusterRoleBinding.obj.subjects|
    ensures r.Ok? ==> r.value.clusterRoleBinding.subjects[0]
                      == t.clusterRoleBinding.obj.subjects[0].(namespace := namespace)
    ensures r.Ok? ==> r.value.clusterRoleBinding.subjects[1..] == t.clusterRoleBinding.obj.subjects[1..]
    ensures r.Ok? ==> SetsNamespace(t.daemonSet.obj.meta, r.value.daemonSet.meta, namespace)
    ensures r.Ok? ==> |r.value.daemonSet.containers| == |t.daemonSet.obj.containers|
    ensures r.Ok? && |t.daemonSet.obj.containers| > 0 ==>
              r.value.daemonSet.containers[0] == t.daemonSet.obj.containers[0].(image := image)
    ensures r.Ok? && |t.daemonSet.obj.containers| > 0 ==>
              r.value.daemonSet.containers[1..] == t.daemonSet.obj.containers[1..]
    ensures r.Ok? ==> r.value.validatingAdmissionPolicy.meta == t.validatingAdmissionPolicy.obj.meta
    ensures r.Ok? ==> r.value.validatingAdmissionPolicy.matchConditions
                      == t.validatingAdmissionPolicy.obj.matchConditions
                         + [MatchCondition(RestrictedUserCondition, RestrictedUserExpression(namespace))]
    ensures r.Ok? ==> r.value.validatingAdmissionPolicyBinding == t.validatingAdmissionPolicyBinding.obj
    ensures r.Ok? ==> r.value.securityContextConstraints.meta == t.securityContextConstraints.obj.meta
    ensures r.Ok? ==> r.value.securityContextConstraints.users == [ServiceAccountUser(namespace)]
    ensures r.Ok? ==> r.value.deviceClasses == []
  {
    var sa := GetServiceAccount(t.serviceAccount, namespace);
    if sa.Err? {
      return Err(GetFailed("ServiceAccount", sa.error));
    }
    var cr := GetClusterRole(t.clusterRole);
    if cr.Err? {
      return Err(GetFailed("ClusterRole", cr.error));
    }
    var crb := GetClusterRoleBinding(t.clusterRoleBinding, namespace);
    if crb.Err? {
      return Err(GetFailed("ClusterRoleBinding", crb.error));
    }
    var ds := GetDaemonSet(t.daemonSet, namespace, image);
    if ds.Err? {
      return Err(GetFailed("DaemonSet", ds.error));
    }
    var vap := GetValidatingAdmissionPolicy(t.validatingAdmissionPolicy, namespace);
    if vap.Err? {
      return Err(GetFailed("ValidatingAdmissionPolicy", vap.error));
    }
    var vapb := GetValidatingAdmissionPolicyBinding(t.validatingAdmissionPolicyBinding);
    if vapb.Err? {
      return Err(GetFailed("ValidatingAdmissionPolicyBinding", vapb.error));
    }
    var scc := GetSecurityContextConstraints(t.securityContextConstraints, namespace);
    if scc.Err? {
      return Err(GetFailed("SecurityContextConstraints", scc.error));
    }
    assert vap.value.matchConditions
           == vap.value.matchConditions[..|t.validatingAdmissionPolicy.obj.matchConditions|]
              + [vap.value.matchConditions[|t.validatingAdmissionPolicy.obj.matchConditions|]];
    return Ok(Manifests(sa.value, scc.value, cr.value, crb.value, ds.value, [], vap.value, vapb.value));
  }

  /** A `client.Object` listed by `GetObjects`. */
  datatype Object =
    | ServiceAccountObject(sa: ServiceAccount)
    | SecurityContextConstraintsObject(scc: SecurityContextConstraints)
    | ClusterRoleObject(cr: ClusterRole)
    | ClusterRoleBindingObject(crb: ClusterRoleBinding)
    | DaemonSetObject(ds: DaemonSet)
    | ValidatingAdmissionPolicyObject(vap: ValidatingAdmissionPolicy)
    | ValidatingAdmissionPolicyBindingObject(vapb: ValidatingAdmissionPolicyBinding)
    | DeviceClassObject(dc: DeviceClass)

  function KindOf(o: Object): string {
    match o
    case ServiceAccountObject(_) => "ServiceAccount"
    case SecurityContextConstraintsObject(_) => "SecurityContextConstraints"
    case ClusterRoleObject(_) => "ClusterRole"
    case ClusterRoleBindingObject(_) => "ClusterRoleBinding"
    case DaemonSetObject(_) => "DaemonSet"
    case ValidatingAdmissionPolicyObject(_) => "ValidatingAdmissionPolicy"
    case ValidatingAdmissionPolicyBindingObject(_) => "ValidatingAdmissionPolicyBinding"
    case DeviceClassObject(_) => "DeviceClass"
  }

  /** `GetObjects`: one object of each kind, in a fixed order, and no
      device class. */
  function GetObjects(m: Manifests): (objs: seq<Object>)
    ensures |objs| == 7
    ensures forall o :: o in objs ==> !o.DeviceClassObject?
    ensures KindOf(objs[0]) == "ServiceAccount" && KindOf(objs[1]) == "SecurityContextConstraints"
    ensures KindOf(objs[2]) == "ClusterRole" && KindOf(objs[3]) == "ClusterRoleBinding"
    ensures KindOf(objs[4]) == "DaemonSet" && KindOf(objs[5]) == "ValidatingAdmissionPolicy"
    ensures KindOf(objs[6]) == "ValidatingAdmissionPolicyBinding"
  {
    [ ServiceAccountObject(m.serviceAccount),
      SecurityContextConstraintsObject(m.securityContextConstraints),
      ClusterRoleObject(m.clusterRole),
      ClusterRoleBindingObject(m.clusterRoleBinding),
      DaemonSetObject(m.daemonSet),
      ValidatingAdmissionPolicyObject(m.validatingAdmissionPolicy),
      ValidatingAdmissionPolicyBindingObject(m.validatingAdmissionPolicyBinding) ]
  }

  /** No kind is applied twice. */
  lemma GetObjectsKindsDistinct(m: Manifests)
    ensures var objs := GetObjects(m);
            forall i, j :: 0 <= i < j < |objs| ==> KindOf(objs[i]) != KindOf(objs[j])
  {
    var objs := GetObjects(m);
    var lengths := [14, 26, 11, 18, 9, 25, 32];
    assert forall i :: 0 <= i < 7 ==> |KindOf(objs[i])| == lengths[i];
  }

  // ---------------------------------------------------------------------
  // Device classes

  /** One document decoded into a device class, or the decoder's error. */
  type DeviceClassDecoder = seq<byte> -> Result<DeviceClass, string>

  /** The decode loop of `GetDeviceClasses`: empty documents are skipped,
      the first failure ends it. */
  function DecodeClasses(docs: seq<seq<byte>>, decode: DeviceClassDecoder): Result<seq<DeviceClass>, ManifestError>
    decreases |docs|
  {
    if |docs| == 0 then Ok([])
    else if |docs[0]| == 0 then DecodeClasses(docs[1..], decode)
    else
      var dc := decode(docs[0]);
      if dc.Err? then Err(DeviceClassDecodeFailed(dc.error))
      else
        var rest := DecodeClasses(docs[1..], decode);
        if rest.Err? then rest else Ok([dc.value] + rest.value)
  }

  /** What `GetDeviceClasses` returns for the file's read outcome. */
  function DeviceClassesFrom(file: Result<seq<byte>, string>, decode: DeviceClassDecoder)
    : Result<seq<DeviceClass>, ManifestError>
  {
    if file.Err? then Err(DeviceClassesReadFailed(file.error))
    else DecodeClasses(Documents(file.value), decode)
  }

  /** Decoding non-empty documents yields one class per document, in order,
      exactly when every one of them decodes. */
  lemma {:induction false} DecodeClassesOneToOne(docs: seq<seq<byte>>, decode: DeviceClassDecoder)
    requires forall d :: d in docs ==> |d| > 0
    ensures DecodeClasses(docs, decode).Ok? <==> forall i :: 0 <= i < |docs| ==> decode(docs[i]).Ok?
    ensures DecodeClasses(docs, decode).Ok? ==>
              && |DecodeClasses(docs, decode).value| == |docs|
              && forall i :: 0 <= i < |docs| ==> DecodeClasses(docs, decode).value[i] == decode(docs[i]).value
    decreases |docs|
  {
    if |docs| > 0 {
      assert docs[0] in docs;
      assert forall d :: d in docs[1..] ==> d in docs;
      DecodeClassesOneToOne(docs[1..], decode);
      forall i | 0 < i < |docs|
        ensures docs[1..][i - 1] == docs[i]
      {
      }
    }
  }

  /** Every document of the device-class file becomes one class: the
      empty-document check of the loop never skips anything. */
  lemma DeviceClassesPerDocument(data: seq<byte>, decode: DeviceClassDecoder)
    ensures var r := DeviceClassesFrom(Ok(data), decode);
            var docs := Documents(data);
            && (r.Ok? <==> forall i :: 0 <= i < |docs| ==> decode(docs[i]).Ok?)
            && (r.Ok? ==>
                  && |r.value| == |docs|
                  && forall i :: 0 <= i < |docs| ==> r.value[i] == decode(docs[i]).value)
  {
    DocumentsWellFormed(data);
    DecodeClassesOneToOne(Documents(data), decode);
  }

  /** `GetDeviceClasses`. */
  method GetDeviceClasses(file: Result<seq<byte>, string>, decode: DeviceClassDecoder)
    returns (r: Result<seq<DeviceClass>, ManifestError>)
    ensures r == DeviceClassesFrom(file, decode)
  {
    if file.Err? {
      return Err(DeviceClassesReadFailed(file.error));
    }
    var docs := SplitYAMLDocuments(file.value);
    var classes: seq<DeviceClass> := [];
    var i := 0;
    assert docs[0..] == docs;
    PrependedNothing(DecodeClasses(docs, decode));
    while i < |docs|
      invariant 0 <= i <= |docs|
      invariant DecodeClasses(docs, decode) == Prepended(classes, DecodeClasses(docs[i..], decode))
    {
      assert docs[i..][1..] == docs[i + 1..];
      if |docs[i]| == 0 {
        i := i + 1;
        continue;
      }
      var dc := decode(docs[i]);
      if dc.Err? {
        return Err(DeviceClassDecodeFailed(dc.error));
      }
      PrependedStep(classes, dc.value, DecodeClasses(docs[i + 1..], decode));
      classes := classes + [dc.value];
      i := i + 1;
    }
    assert classes + [] == classes;
    return Ok(classes);
  }

  /** `done` in front of a successful rest; a failure passes through. */
  function Prepended(done: seq<DeviceClass>, rest: Result<seq<DeviceClass>, ManifestError>)
    : Result<seq<DeviceClass>, ManifestError>
  {
    if rest.Err? then rest else Ok(done + rest.value)
  }

  lemma PrependedNothing(rest: Result<seq<DeviceClass>, ManifestError>)
    ensures Prepended([], rest) == rest
  {
    if rest.Ok? {
      assert [] + rest.value == rest.value;
    }
  }

  lemma PrependedStep(done: seq<DeviceClass>, dc: DeviceClass, rest: Result<seq<DeviceClass>, ManifestError>)
    ensures Prepended(done, if rest.Err? then rest else Ok([dc] + rest.value))
            == Prepended(done + [dc], rest)
  {
    if rest.Ok? {
      assert done + ([dc] + rest.value) == done + [dc] + rest.value;
    }
  }

  /** The first class named `name`, or the not-found error. */
  function FirstNamed(classes: seq<DeviceClass>, name: string): Result<DeviceClass, ManifestError>
    decreases |classes|
  {
    if |classes| == 0 then Err(DeviceClassNotFound(name))
    else if classes[0].meta.name == name then Ok(classes[0])
    else FirstNamed(classes[1..], name)
  }

  /** FirstNamed finds the class with the name that comes first, and fails
      exactly when no class has the name. */
  lemma {:induction false} FirstNamedIsFirst(classes: seq<DeviceClass>, name: string)
    ensures var r := FirstNamed(classes, name);
            && (r.Err? <==> forall i :: 0 <= i < |classes| ==> classes[i].meta.name != name)
            && (r.Err? ==> r.error == DeviceClassNotFound(name))
            && (r.Ok? ==> exists i ::
                  && 0 <= i < |classes| && classes[i] == r.value
                  && r.value.meta.name == name
                  && forall j :: 0 <= j < i ==> classes[j].meta.name != name)
    decreases |classes|
  {
    if |classes| > 0 && classes[0].meta.name != name {
      FirstNamedIsFirst(classes[1..], name);
      var r := FirstNamed(classes, name);
      if r.Ok? {
        var i :| 0 <= i < |classes[1..]| && classes[1..][i] == r.value
                 && forall j :: 0 <= j < i ==> classes[1..][j].meta.name != name;
        assert classes[i + 1] == r.value;
        assert forall j :: 0 < j < i + 1 ==> classes[j] == classes[1..][j - 1];
      } else {
        assert forall i :: 0 < i < |classes| ==> classes[i] == classes[1..][i - 1];
      }
    } else if |classes| > 0 {
      assert classes[0] == FirstNamed(classes, name).value;
    }
  }

  /** The lookup loop shared by the two device-class getters. */
  method FindDeviceClass(classes: seq<DeviceClass>, name: string) returns (r: Result<DeviceClass, ManifestError>)
    ensures r == FirstNamed(classes, name)
  {
    var i := 0;
    while i < |classes|
      invariant 0 <= i <= |classes|
      invariant FirstNamed(classes, name) == FirstNamed(classes[i..], name)
    {
      if classes[i].meta.name == name {
        return Ok(classes[i]);
      }
      assert classes[i..][1..] == classes[i + 1..];
      i := i + 1;
    }
    return Err(DeviceClassNotFound(name));
  }

  /** What the two device-class getters return for `name`. */
  function DeviceClassNamed(file: Result<seq<byte>, string>, decode: DeviceClassDecoder, name: string)
    : Result<DeviceClass, ManifestError>
  {
    var classes := DeviceClassesFrom(file, decode);
    if classes.Err? then Err(classes.error) else FirstNamed(classes.value, name)
  }

  /** `GetExclusiveCPUDeviceClass`. */
  method GetExclusiveCPUDeviceClass(file: Result<seq<byte>, string>, decode: DeviceClassDecoder)
    returns (r: Result<DeviceClass, ManifestError>)
    ensures r == DeviceClassNamed(file, decode, ExclusiveCPU)
  {
    var classes := GetDeviceClasses(file, decode);
    if classes.Err? {
      return Err(classes.error);
    }
    r := FindDeviceClass(classes.value, ExclusiveCPU);
  }

  /** `GetSharedCPUDeviceClass`. */
  method GetSharedCPUDeviceClass(file: Result<seq<byte>, string>, decode: DeviceClassDecoder)
    returns (r: Result<DeviceClass, ManifestError>)
    ensures r == DeviceClassNamed(file, decode, SharedCPU)
  {
    var classes := GetDeviceClasses(file, decode);
    if classes.Err? {
      return Err(classes.error);
    }
    r := FindDeviceClass(classes.value, SharedCPU);
  }

  /** A getter for a name fails with the not-found error exactly when the
      file decodes and none of its classes has the name; when it succeeds
      it returns the first such class. */
  lemma DeviceClassNamedMeaning(file: Result<seq<byte>, string>, decode: DeviceClassDecoder, name: string)
    ensures var classes := DeviceClassesFrom(file, decode);
            var r := DeviceClassNamed(file, decode, name);
            && (classes.Err? ==> r == Err(classes.error))
            && (classes.Ok? ==>
                  && (r.Err? <==> forall i :: 0 <= i < |classes.value| ==> classes.value[i].meta.name != name)
                  && (r.Err? ==> r.error == DeviceClassNotFound(name))
                  && (r.Ok? ==> r.value in classes.value && r.value.meta.name == name))
  {
    var classes := DeviceClassesFrom(file, decode);
    if classes.Ok? {
      FirstNamedIsFirst(classes.value, name);
    }
  }
}
