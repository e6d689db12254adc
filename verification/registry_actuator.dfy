/**
 The registry-cache Extension actuator. Reconcile turns the decoded list of
 desired caches into one bundle of shoot objects (the cache namespace plus a
 Service and a StatefulSet per cache), applies it as a ManagedResource,
 checks that every cache's Service is listed in the shoot and then writes
 the monitoring ConfigMap. The cluster API is not modelled: what the calls
 return is an input (Io), and what they change is recorded as effects.
 No provider status is ever written: the status update exists in the source
 but is never called.
 */
module RegistryActuator {
  import opened Base
  import opened RegistryCache
  import Keyed

  /** The prefix gardener gives the seed copies of resources a shoot references. */
  const ReferencedResourcesPrefix := "ref-"

  datatype ResourceRef = ResourceRef(kind: string, name: string)

  /** An entry of the shoot's spec.resources list. */
  datatype NamedResourceReference = NamedResourceReference(name: string, resourceRef: ResourceRef)

  datatype Shoot = Shoot(resources: seq<NamedResourceReference>)

  datatype Cluster = Cluster(name: string, shoot: Option<Shoot>)

  /** One configured cache; defaulting has filled in size and garbage collection. */
  datatype CacheSpec = CacheSpec(upstream: string, size: string, gcEnabled: bool, secretReferenceName: Option<string>)

  datatype RegistryConfig = RegistryConfig(caches: seq<CacheSpec>)

  datatype Extension = Extension(namespace: string, providerConfig: Option<Raw<RegistryConfig>>)

  datatype Error =
    | ClusterLookupFailed(reason: string)
    | ConfigUndecodable(reason: string)
    | ImageNotFound(reason: string)
    | ReferenceNotASecret(kind: string, name: string)
    | ReferenceMissing(refName: string)
    | SecretFetchFailed(secretName: string)
    | SecretMissingUsername(secretName: string)
    | SecretMissingPassword(secretName: string)
    | SecretExtraEntries(secretName: string)
    | SerializeFailed(reason: string)
    | ApplyFailed(reason: string)
    | ShootClientFailed(reason: string)
    | ListServicesFailed(reason: string)
    | ServicesIncomplete
    | MonitoringFailed(reason: string)
    | DeleteFailed(reason: string)
    | DeleteWaitFailed(reason: string)

  /** External effects, in the order they happen. */
  datatype Effect =
    | ApplyBundle(objects: seq<Object>)
    | WriteMonitoring(scrapeJobs: seq<string>)
    | DeleteBundle

  /** What the cluster answers. An absent secret name means the Get fails;
      an error string in place of an outcome means that call failed. */
  datatype Io = Io(
    cluster: Result<Cluster, string>,
    registryImage: Result<string, string>,
    secrets: map<string, map<string, string>>,
    serialize: Option<string>,
    apply: Option<string>,
    shootClient: Option<string>,
    services: Result<seq<string>, string>,
    monitoring: Option<string>,
    deleteRequest: Option<string>,
    deleteWait: Option<string>)

  type ActuatorRun = Run<Error, Effect>

  function RefName(r: NamedResourceReference): string { r.name }

  // ---------------------------------------------------------------------
  // Credentials
  // ---------------------------------------------------------------------

  /** lookupReferencedSecret: the first shoot resource named refName decides;
      it must reference a Secret. */
  function LookupReferencedSecret(shoot: Option<Shoot>, refName: string): (r: Result<string, Error>)
    ensures shoot.None? ==> r == Err(ReferenceMissing(refName))
    ensures shoot.Some? && (forall j :: 0 <= j < |shoot.value.resources| ==> shoot.value.resources[j].name != refName)
            ==> r == Err(ReferenceMissing(refName))
    ensures shoot.Some? ==>
              forall i :: 0 <= i < |shoot.value.resources| && shoot.value.resources[i].name == refName &&
                          (forall j :: 0 <= j < i ==> shoot.value.resources[j].name != refName) ==>
                var ref := shoot.value.resources[i].resourceRef;
                r == if ref.kind == "Secret" then Ok(ReferencedResourcesPrefix + ref.name)
                     else Err(ReferenceNotASecret(ref.kind, ref.name))
  {
    if shoot.None? then Err(ReferenceMissing(refName))
    else
      var resources := shoot.value.resources;
      var i := Keyed.FirstIndex(resources, RefName, refName);
      assert forall j :: 0 <= j < |resources| ==> RefName(resources[j]) == resources[j].name;
      if i == -1 then Err(ReferenceMissing(refName))
      else
        assert forall i' :: (0 <= i' < |resources| && resources[i'].name == refName &&
                             (forall j :: 0 <= j < i' ==> resources[j].name != refName)) ==> i' == i;
        var ref := resources[i].resourceRef;
        if ref.kind != "Secret" then Err(ReferenceNotASecret(ref.kind, ref.name))
        else Ok(ReferencedResourcesPrefix + ref.name)
  }

  /** validateUpstreamRegistrySecret: accepted exactly when the data has the
      two keys username and password and nothing else; the checks report
      a missing username first, then a missing password, then extra keys. */
  function ValidateUpstreamRegistrySecret(secretName: string, data: map<string, string>): (r: Option<Error>)
    ensures r.None? <==> data.Keys == {"username", "password"}
    ensures "username" !in data ==> r == Some(SecretMissingUsername(secretName))
    ensures "username" in data && "password" !in data ==> r == Some(SecretMissingPassword(secretName))
    ensures "username" in data && "password" in data && data.Keys != {"username", "password"}
            ==> r == Some(SecretExtraEntries(secretName))
  {
    if "username" !in data then Some(SecretMissingUsername(secretName))
    else if "password" !in data then Some(SecretMissingPassword(secretName))
    else
      TwoKeys(data.Keys, "username", "password");
      if |data| != 2 then Some(SecretExtraEntries(secretName))
      else None
  }

  /** A set holding two distinct elements has exactly two elements iff it is
      the set of those two. */
  lemma TwoKeys<K>(keys: set<K>, a: K, b: K)
    requires a in keys && b in keys && a != b
    ensures |keys| == 2 <==> keys == {a, b}
  {
    var rest := keys - {a, b};
    assert keys == rest + {a, b};
    assert |keys| == |rest| + 2;
    if |keys| == 2 {
      assert |rest| == 0;
      assert rest == {};
    }
  }

  /** The username and password a cache proxies with: empty when it names no
      secret; otherwise those of the validated referenced secret. */
  function Credentials(cache: CacheSpec, shoot: Option<Shoot>, secrets: map<string, map<string, string>>)
    : (r: Result<(string, string), Error>)
    ensures cache.secretReferenceName.None? ==> r == Ok(("", ""))
    ensures r.Ok? && cache.secretReferenceName.Some? ==>
              var lookup := LookupReferencedSecret(shoot, cache.secretReferenceName.value);
              && lookup.Ok? && lookup.value in secrets
              && secrets[lookup.value].Keys == {"username", "password"}
              && r.value == (secrets[lookup.value]["username"], secrets[lookup.value]["password"])
    ensures cache.secretReferenceName.Some? && LookupReferencedSecret(shoot, cache.secretReferenceName.value).Err?
            ==> r == Err(LookupReferencedSecret(shoot, cache.secretReferenceName.value).error)
    ensures cache.secretReferenceName.Some? ==>
              var lookup := LookupReferencedSecret(shoot, cache.secretReferenceName.value);
              (r.Ok? <==> lookup.Ok? && lookup.value in secrets
                          && ValidateUpstreamRegistrySecret(lookup.value, secrets[lookup.value]).None?)
  {
    match cache.secretReferenceName
    case None => Ok(("", ""))
    case Some(refName) =>
      match LookupReferencedSecret(shoot, refName)
      case Err(e) => Err(e)
      case Ok(secretName) =>
        if secretName !in secrets then Err(SecretFetchFailed(secretName))
        else
          var data := secrets[secretName];
          match ValidateUpstreamRegistrySecret(secretName, data)
          case Some(e) => Err(e)
          case None => Ok((data["username"], data["password"]))
  }

  // ---------------------------------------------------------------------
  // The bundle
  // ---------------------------------------------------------------------

  /** The receiver createResources builds for one configured cache. */
  function CacheFor(spec: CacheSpec, username: string, password: string, image: string): Cache
  {
    Cache(CacheName(spec.upstream), CacheNamespace, None, spec.upstream, spec.size, spec.gcEnabled,
          username, password, image)
  }

  /** The two objects of one cache, or the credential error that stops the loop. */
  function CacheObjects(spec: CacheSpec, shoot: Option<Shoot>, secrets: map<string, map<string, string>>, image: string)
    : (r: Result<seq<Object>, Error>)
    ensures r.Ok? <==> Credentials(spec, shoot, secrets).Ok?
    ensures r.Ok? ==> |r.value| == 2
  {
    match Credentials(spec, shoot, secrets)
    case Err(e) => Err(e)
    case Ok(creds) => Ok(Ensure(CacheFor(spec, creds.0, creds.1, image)).objects)
  }

  /** One step of createResources' loop over the configured caches. */
  function CacheStep(shoot: Option<Shoot>, secrets: map<string, map<string, string>>, image: string)
    : CacheSpec -> Result<seq<Object>, Error>
  {
    spec => CacheObjects(spec, shoot, secrets, image)
  }

  /** The per-cache objects in configuration order; the first credential
      failure aborts the whole loop. */
  function CachesObjects(caches: seq<CacheSpec>, shoot: Option<Shoot>, secrets: map<string, map<string, string>>, image: string)
    : (r: Result<seq<Object>, Error>)
    ensures r.Ok? <==> forall i :: 0 <= i < |caches| ==> Credentials(caches[i], shoot, secrets).Ok?
    ensures r.Ok? ==> |r.value| == 2 * |caches|
    ensures r.Ok? ==> forall i :: 0 <= i < |caches| ==>
              CacheObjects(caches[i], shoot, secrets, image) == Ok(r.value[2 * i .. 2 * i + 2])
  {
    var step := CacheStep(shoot, secrets, image);
    var r := Collect(caches, step);
    CollectOk(caches, step);
    if r.Ok? then
      CollectPairsLength(caches, step);
      forall i | 0 <= i < |caches|
        ensures step(caches[i]) == Ok(r.value[2 * i .. 2 * i + 2])
      {
        CollectPairsAt(caches, step, i);
      }
      r
    else r
  }

  /** The bundle createResources applies: the namespace object, then each
      cache's Service and StatefulSet in configuration order. */
  function Bundle(config: RegistryConfig, shoot: Option<Shoot>, secrets: map<string, map<string, string>>, image: string)
    : (r: Result<seq<Object>, Error>)
    ensures r.Ok? ==> |r.value| == 1 + 2 * |config.caches|
    ensures r.Ok? ==> r.value[0] == NamespaceObject(CacheNamespace)
    ensures r.Ok? <==> CachesObjects(config.caches, shoot, secrets, image).Ok?
    ensures r.Ok? ==> r.value[1..] == CachesObjects(config.caches, shoot, secrets, image).value
  {
    match CachesObjects(config.caches, shoot, secrets, image)
    case Err(e) => Err(e)
    case Ok(objects) => Ok([NamespaceObject(CacheNamespace)] + objects)
  }

  /** The names of the scrape jobs the monitoring ConfigMap carries, one per cache. */
  function ScrapeJobs(caches: seq<CacheSpec>): (jobs: seq<string>)
    ensures |jobs| == |caches|
    ensures forall i :: 0 <= i < |caches| ==> jobs[i] == CacheName(caches[i].upstream)
  {
    seq(|caches|, i requires 0 <= i < |caches| => CacheName(caches[i].upstream))
  }

  /** createResources. */
  function CreateResources(config: RegistryConfig, shoot: Option<Shoot>, io: Io): (r: ActuatorRun)
    ensures io.registryImage.Err? ==> r == Run(Some(ImageNotFound(io.registryImage.error)), [])
    ensures io.services.Ok? && |io.services.value| != |config.caches| ==> r.error.Some?
    ensures r.error.Some? ==> forall e :: e in r.effects ==> e.ApplyBundle?
  {
    match io.registryImage
    case Err(e) => Run(Some(ImageNotFound(e)), [])
    case Ok(image) =>
      match Bundle(config, shoot, io.secrets, image)
      case Err(e) => Run(Some(e), [])
      case Ok(objects) =>
        if io.serialize.Some? then Run(Some(SerializeFailed(io.serialize.value)), [])
        else if io.apply.Some? then Run(Some(ApplyFailed(io.apply.value)), [])
        else
          var applied := [ApplyBundle(objects)];
          if io.shootClient.Some? then Run(Some(ShootClientFailed(io.shootClient.value)), applied)
          else if io.services.Err? then Run(Some(ListServicesFailed(io.services.error)), applied)
          else if |io.services.value| != |config.caches| then Run(Some(ServicesIncomplete), applied)
          else if io.monitoring.Some? then Run(Some(MonitoringFailed(io.monitoring.value)), applied)
          else Run(None, applied + [WriteMonitoring(ScrapeJobs(config.caches))])
  }

  // ---------------------------------------------------------------------
  // Entry points
  // ---------------------------------------------------------------------

  function Reconcile(ex: Extension, io: Io): (r: ActuatorRun)
    ensures ex.providerConfig.None? ==> r == Run(None, [])
    ensures r.error.Some? ==> forall e :: e in r.effects ==> e.ApplyBundle?
  {
    match ex.providerConfig
    case None => Run(None, [])
    case Some(raw) =>
      match io.cluster
      case Err(e) => Run(Some(ClusterLookupFailed(e)), [])
      case Ok(cluster) =>
        match raw
        case Undecodable(reason) => Run(Some(ConfigUndecodable(reason)), [])
        case Decodes(config) => CreateResources(config, cluster.shoot, io)
  }

  /** Delete asks for the bundle's removal, then waits (bounded) for it to go. */
  function Delete(ex: Extension, io: Io): (r: ActuatorRun)
    ensures r.error.None? <==> io.deleteRequest.None? && io.deleteWait.None?
    ensures io.deleteRequest.None? ==> r.effects == [DeleteBundle]
    ensures io.deleteRequest.Some? ==> r == Run(Some(DeleteFailed(io.deleteRequest.value)), [])
  {
    if io.deleteRequest.Some? then Run(Some(DeleteFailed(io.deleteRequest.value)), [])
    else if io.deleteWait.Some? then Run(Some(DeleteWaitFailed(io.deleteWait.value)), [DeleteBundle])
    else Run(None, [DeleteBundle])
  }

  function Restore(ex: Extension, io: Io): (r: ActuatorRun)
    ensures r == Reconcile(ex, io)
  {
    Reconcile(ex, io)
  }

  function Migrate(ex: Extension, io: Io): (r: ActuatorRun)
    ensures r == Run(None, [])
  {
    Run(None, [])
  }

  // ---------------------------------------------------------------------
  // Properties of Reconcile
  // ---------------------------------------------------------------------

  /** The applied bundle is the namespace object followed by, for each cache
      in order, exactly the two objects Ensure builds for it with the
      credentials of its secret. */
  lemma BundleShape(config: RegistryConfig, shoot: Option<Shoot>, secrets: map<string, map<string, string>>, image: string)
    requires Bundle(config, shoot, secrets, image).Ok?
    ensures var b := Bundle(config, shoot, secrets, image).value;
            forall i :: 0 <= i < |config.caches| ==>
              var creds := Credentials(config.caches[i], shoot, secrets);
              && creds.Ok?
              && b[1 + 2 * i .. 3 + 2 * i] ==
                 Ensure(CacheFor(config.caches[i], creds.value.0, creds.value.1, image)).objects
  {
    var b := Bundle(config, shoot, secrets, image).value;
    var objects := CachesObjects(config.caches, shoot, secrets, image).value;
    assert b == [NamespaceObject(CacheNamespace)] + objects;
    forall i | 0 <= i < |config.caches|
      ensures b[1 + 2 * i .. 3 + 2 * i] == objects[2 * i .. 2 * i + 2]
    {
    }
  }

  /** The bundle of a config with a cache whose credentials fail is the error
      of the first such cache. */
  lemma BundleCredentialFailure(config: RegistryConfig, shoot: Option<Shoot>,
                                secrets: map<string, map<string, string>>, image: string, i: nat)
    returns (k: nat)
    requires i < |config.caches| && Credentials(config.caches[i], shoot, secrets).Err?
    ensures k <= i && Credentials(config.caches[k], shoot, secrets).Err?
    ensures forall j :: 0 <= j < k ==> Credentials(config.caches[j], shoot, secrets).Ok?
    ensures Bundle(config, shoot, secrets, image) == Err(Credentials(config.caches[k], shoot, secrets).error)
  {
    var step := CacheStep(shoot, secrets, image);
    k := FirstFailure(config.caches, step, i);
    assert step(config.caches[k]) == CacheObjects(config.caches[k], shoot, secrets, image);
    forall j | 0 <= j < k
      ensures Credentials(config.caches[j], shoot, secrets).Ok?
    {
      assert step(config.caches[j]) == CacheObjects(config.caches[j], shoot, secrets, image);
    }
    assert CachesObjects(config.caches, shoot, secrets, image) == Collect(config.caches, step);
  }

  /** A cache whose credential lookup, fetch or validation fails aborts
      Reconcile before anything is applied, with the error of the first such
      cache in configuration order. */
  lemma CredentialFailureAborts(ex: Extension, io: Io)
    requires ex.providerConfig.Some? && ex.providerConfig.value.Decodes?
    requires io.cluster.Ok? && io.registryImage.Ok?
    ensures var caches := ex.providerConfig.value.value.caches;
            (exists i :: 0 <= i < |caches| && Credentials(caches[i], io.cluster.value.shoot, io.secrets).Err?) ==>
              && Reconcile(ex, io).effects == []
              && exists k :: 0 <= k < |caches| && Credentials(caches[k], io.cluster.value.shoot, io.secrets).Err? &&
                   (forall j :: 0 <= j < k ==> Credentials(caches[j], io.cluster.value.shoot, io.secrets).Ok?) &&
                   Reconcile(ex, io) == Run(Some(Credentials(caches[k], io.cluster.value.shoot, io.secrets).error), [])
  {
    var caches := ex.providerConfig.value.value.caches;
    if i :| 0 <= i < |caches| && Credentials(caches[i], io.cluster.value.shoot, io.secrets).Err? {
      var k := BundleCredentialFailure(ex.providerConfig.value.value, io.cluster.value.shoot, io.secrets,
                                       io.registryImage.value, i);
    }
  }

  /** When the shoot lists a different number of cache services than there
      are configured caches, Reconcile fails and the monitoring ConfigMap is
      not written. */
  lemma ServiceCountGate(ex: Extension, io: Io)
    requires ex.providerConfig.Some? && ex.providerConfig.value.Decodes?
    requires io.services.Ok? && |io.services.value| != |ex.providerConfig.value.value.caches|
    ensures Reconcile(ex, io).error.Some?
    ensures forall e :: e in Reconcile(ex, io).effects ==> !e.WriteMonitoring?
  {
  }

  /** A successful Reconcile with a provider config applied the full bundle,
      found one listed service per cache, and then wrote the monitoring
      ConfigMap with one scrape job per cache; nothing else happened. */
  lemma ReconcileSuccess(ex: Extension, io: Io)
    requires ex.providerConfig.Some?
    requires Reconcile(ex, io).error.None?
    ensures io.cluster.Ok? && io.registryImage.Ok? && ex.providerConfig.value.Decodes?
    ensures var config := ex.providerConfig.value.value;
            var bundle := Bundle(config, io.cluster.value.shoot, io.secrets, io.registryImage.value);
            && bundle.Ok?
            && io.services.Ok? && |io.services.value| == |config.caches|
            && Reconcile(ex, io).effects == [ApplyBundle(bundle.value), WriteMonitoring(ScrapeJobs(config.caches))]
            && |bundle.value| == 1 + 2 * |config.caches|
  {
  }

  /** The converse: when every lookup, credential, write and listing succeeds,
      Reconcile applies the bundle and writes the monitoring ConfigMap. */
  lemma ReconcileSucceeds(ex: Extension, io: Io)
    requires ex.providerConfig.Some? && ex.providerConfig.value.Decodes?
    requires io.cluster.Ok? && io.registryImage.Ok?
    requires forall i :: 0 <= i < |ex.providerConfig.value.value.caches| ==>
               Credentials(ex.providerConfig.value.value.caches[i], io.cluster.value.shoot, io.secrets).Ok?
    requires io.serialize.None? && io.apply.None? && io.shootClient.None? && io.monitoring.None?
    requires io.services.Ok? && |io.services.value| == |ex.providerConfig.value.value.caches|
    ensures var config := ex.providerConfig.value.value;
            var bundle := Bundle(config, io.cluster.value.shoot, io.secrets, io.registryImage.value);
            && bundle.Ok?
            && Reconcile(ex, io) == Run(None, [ApplyBundle(bundle.value), WriteMonitoring(ScrapeJobs(config.caches))])
  {
    var config := ex.providerConfig.value.value;
    var shoot := io.cluster.value.shoot;
    assert CachesObjects(config.caches, shoot, io.secrets, io.registryImage.value).Ok?;
    assert Reconcile(ex, io) == CreateResources(config, shoot, io);
  }
}
