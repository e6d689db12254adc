/**
 The pull-through cache synthesiser: from one configured upstream registry
 it derives a deterministic name and label set and builds the two objects
 that run the cache in the shoot, a ClusterIP Service and a single-replica
 StatefulSet with one persistent volume claim.
 */
module RegistryCache {
  import opened Base

  const CacheNamespace := "registry-cache"
  const InternalName := "registry-cache"
  const VolumeName := "cache-volume"
  const VolumeMountPath := "/var/lib/registry"
  const CachePort := 5000

  const EnvRemoteURL := "REGISTRY_PROXY_REMOTEURL"
  const EnvUsername := "REGISTRY_PROXY_USERNAME"
  const EnvPassword := "REGISTRY_PROXY_PASSWORD"
  const EnvDeleteEnabled := "REGISTRY_STORAGE_DELETE_ENABLED"

  /** The label that carries the upstream a Service was derived from; the
      actuator and the control-plane ensurer discover services by it. */
  const UpstreamLabel := "upstream-host"

  const NamePrefix := "registry-"

  type Labels = map<string, string>

  /** The receiver of Ensure. Labels is None when the Go map is nil. */
  datatype Cache = Cache(
    name: string,
    namespace: string,
    labels: Option<Labels>,
    upstream: string,
    volumeSize: string,
    gcEnabled: bool,
    username: string,
    password: string,
    image: string)

  datatype EnvVar = EnvVar(name: string, value: string)

  datatype ServicePort = ServicePort(name: string, port: int, protocol: string, targetPort: string)

  datatype Service = Service(
    name: string,
    namespace: string,
    labels: Labels,
    selector: Labels,
    ports: seq<ServicePort>,
    serviceType: string)

  datatype ContainerPort = ContainerPort(name: string, containerPort: int)

  datatype VolumeMount = VolumeMount(name: string, readOnly: bool, mountPath: string)

  datatype Container = Container(
    name: string,
    image: string,
    pullPolicy: string,
    ports: seq<ContainerPort>,
    env: seq<EnvVar>,
    mounts: seq<VolumeMount>)

  datatype ClaimTemplate = ClaimTemplate(name: string, labels: Labels, accessModes: seq<string>, storage: string)

  datatype StatefulSet = StatefulSet(
    name: string,
    namespace: string,
    labels: Labels,
    serviceName: string,
    matchLabels: Labels,
    replicas: int,
    podLabels: Labels,
    containers: seq<Container>,
    claims: seq<ClaimTemplate>)

  /** The objects the extension ships to the shoot. */
  datatype Object =
    | NamespaceObject(name: string)
    | ServiceObject(service: Service)
    | StatefulSetObject(statefulSet: StatefulSet)

  /** What Ensure leaves behind: the receiver as mutated, and the objects. */
  datatype Synthesized = Synthesized(cache: Cache, objects: seq<Object>)

  /** The host part of an upstream: the text before its first ':'. */
  function UpstreamHost(upstream: string): (host: string)
    ensures host <= upstream && ':' !in host
    ensures host == upstream || upstream[|host|] == ':'
  {
    SplitHead(upstream, ':');
    Split(upstream, ':')[0]
  }

  /** The derived object name: "registry-" and the upstream host with every
      '.' turned into '-'. Nothing is lower-cased. */
  function CacheName(upstream: string): (name: string)
    ensures '.' !in name
    ensures |name| == |NamePrefix| + |UpstreamHost(upstream)|
    ensures name[..|NamePrefix|] == NamePrefix
    ensures forall i :: 0 <= i < |UpstreamHost(upstream)| ==>
              name[|NamePrefix| + i] == if UpstreamHost(upstream)[i] == '.' then '-' else UpstreamHost(upstream)[i]
  {
    var name := ReplaceAll(NamePrefix + UpstreamHost(upstream), '.', '-');
    assert forall i :: 0 <= i < |name| ==> name[i] != '.';
    name
  }

  /** Two upstreams that differ only after the first ':' get the same name. */
  lemma CacheNameIgnoresPort(host: string, port: string)
    requires ':' !in host
    ensures CacheName(host + ":" + port) == CacheName(host)
  {
    SplitHeadBeforeSeparator(host, port, ':');
    SplitNoSeparator(host, ':');
  }

  /** The name does not separate "a.b" from "a-b": distinct upstreams can
      share one object name. */
  lemma CacheNameCollides(dotted: string, dashed: string)
    requires dotted == "a.b" && dashed == "a-b"
    ensures dotted != dashed && CacheName(dotted) == CacheName(dashed)
  {
    assert dotted[1] != dashed[1];
    SplitNoSeparator(dotted, ':');
    SplitNoSeparator(dashed, ':');
    var n1 := CacheName(dotted);
    var n2 := CacheName(dashed);
    assert |n1| == |n2| == |NamePrefix| + 3;
    forall i | 0 <= i < |n1| ensures n1[i] == n2[i] {
      if i < |NamePrefix| {
        assert n1[i] == n1[..|NamePrefix|][i];
        assert n2[i] == n2[..|NamePrefix|][i];
      } else {
        var k := i - |NamePrefix|;
        assert n1[|NamePrefix| + k] == n2[|NamePrefix| + k];
      }
    }
  }

  /** An example of CacheNameIgnoresPort: "docker.io" and "docker.io:443"
      share one object name. */
  lemma CacheNamePortCollides(withPort: string, plain: string)
    requires plain == "docker.io" && withPort == "docker.io:443"
    ensures CacheName(withPort) == CacheName(plain)
  {
    assert withPort == plain + ":" + "443";
    CacheNameIgnoresPort(plain, "443");
  }

  /** The URL the cache proxies: only exactly "docker.io" is rewritten. */
  function UpstreamURL(upstream: string): (url: string)
    ensures upstream == "docker.io" ==> url == "https://registry-1.docker.io"
    ensures upstream != "docker.io" ==> url == "https://" + upstream
  {
    var host := if upstream == "docker.io" then "registry-1.docker.io" else upstream;
    "https://" + host
  }

  /** strconv.FormatBool. */
  function FormatBool(b: bool): string
  {
    if b then "true" else "false"
  }

  /** The single-quoted form of a password. */
  function Quote(s: string): (q: string)
    ensures |q| == |s| + 2 && q[0] == '\'' && q[|q| - 1] == '\''
  {
    "'" + s + "'"
  }

  /** The cache container's environment. */
  function EnvVars(upstream: string, gcEnabled: bool, username: string, password: string): (env: seq<EnvVar>)
    ensures |env| == 4 <==> |username| > 0 && |password| > 0
    ensures |env| == 2 <==> |username| == 0 || |password| == 0
    ensures env[0] == EnvVar(EnvRemoteURL, UpstreamURL(upstream))
    ensures env[1] == EnvVar(EnvDeleteEnabled, FormatBool(gcEnabled))
    ensures |env| == 4 ==> env[2] == EnvVar(EnvUsername, username) && env[3].name == EnvPassword
    ensures |env| == 4 ==> env[3].value == Quote(password)
  {
    var base := [EnvVar(EnvRemoteURL, UpstreamURL(upstream)), EnvVar(EnvDeleteEnabled, FormatBool(gcEnabled))];
    if |username| > 0 && |password| > 0 then
      base + [EnvVar(EnvUsername, username), EnvVar(EnvPassword, Quote(password))]
    else base
  }

  /** Stripping the quotes from the password variable gives back the password,
      whatever characters it holds. */
  lemma PasswordRoundTrip(upstream: string, gcEnabled: bool, username: string, password: string)
    requires |username| > 0 && |password| > 0
    ensures var v := EnvVars(upstream, gcEnabled, username, password)[3].value;
            v[1..|v| - 1] == password
  {
    var v := Quote(password);
    assert v == "'" + password + "'";
    assert v[1..|v| - 1] == password;
  }

  /** The label set Ensure gives every object: the caller's labels (or
      app=<name> when there were none) plus the upstream label. */
  function CacheLabels(labels: Option<Labels>, name: string, upstream: string): (l: Labels)
    ensures UpstreamLabel in l && l[UpstreamLabel] == upstream
    ensures labels.None? ==> l.Keys == {"app", UpstreamLabel} && l["app"] == name
    ensures labels.Some? ==> l.Keys == labels.value.Keys + {UpstreamLabel}
    ensures labels.Some? ==> forall k :: k in labels.value && k != UpstreamLabel ==> l[k] == labels.value[k]
  {
    var initial := if labels.None? then map["app" := name] else labels.value;
    initial[UpstreamLabel := upstream]
  }

  /** The Service routes to the StatefulSet's pods: same name, its selector is
      the pod labels, and its one port targets the container port by name. */
  predicate ServiceMatchesPods(svc: Service, sts: StatefulSet)
  {
    && sts.serviceName == svc.name
    && svc.selector == sts.podLabels == sts.matchLabels
    && |svc.ports| == 1 && |sts.containers| == 1
    && exists p :: p in sts.containers[0].ports && p.name == svc.ports[0].targetPort
  }

  /** Every claim template is mounted by the container. */
  predicate ClaimsMounted(sts: StatefulSet)
  {
    && |sts.containers| == 1
    && forall c :: c in sts.claims ==> exists m :: m in sts.containers[0].mounts && m.name == c.name
  }

  /** registryCache.Ensure: the Service and the StatefulSet for one upstream.
      The source never returns an error here, so neither does the model. */
  function Ensure(c: Cache): (r: Synthesized)
    ensures r.cache.name == CacheName(c.upstream)
    ensures r.cache.labels == Some(CacheLabels(c.labels, r.cache.name, c.upstream))
    ensures r.cache.(name := c.name, labels := c.labels) == c
    ensures |r.objects| == 2 && r.objects[0].ServiceObject? && r.objects[1].StatefulSetObject?
    ensures var svc := r.objects[0].service;
            var l := r.cache.labels.value;
            && svc.name == r.cache.name && svc.namespace == CacheNamespace
            && svc.labels == l && svc.selector == l
            && svc.ports == [ServicePort(InternalName, CachePort, "TCP", InternalName)]
            && svc.serviceType == "ClusterIP"
    ensures var sts := r.objects[1].statefulSet;
            var l := r.cache.labels.value;
            && sts.name == r.cache.name && sts.namespace == CacheNamespace && sts.labels == l
            && sts.replicas == 1
            && |sts.containers| == 1
            && sts.containers[0].image == c.image
            && sts.containers[0].env == EnvVars(c.upstream, c.gcEnabled, c.username, c.password)
            && sts.containers[0].mounts == [VolumeMount(VolumeName, false, VolumeMountPath)]
            && sts.claims == [ClaimTemplate(VolumeName, l, ["ReadWriteOnce"], c.volumeSize)]
    ensures ServiceMatchesPods(r.objects[0].service, r.objects[1].statefulSet)
    ensures ClaimsMounted(r.objects[1].statefulSet)
  {
    var name := CacheName(c.upstream);
    var labels := CacheLabels(c.labels, name, c.upstream);
    var svc := Service(name, CacheNamespace, labels, labels,
                       [ServicePort(InternalName, CachePort, "TCP", InternalName)], "ClusterIP");
    var container := Container(InternalName, c.image, "IfNotPresent",
                               [ContainerPort(InternalName, CachePort)],
                               EnvVars(c.upstream, c.gcEnabled, c.username, c.password),
                               [VolumeMount(VolumeName, false, VolumeMountPath)]);
    var sts := StatefulSet(name, CacheNamespace, labels, svc.name, labels, 1, labels, [container],
                           [ClaimTemplate(VolumeName, labels, ["ReadWriteOnce"], c.volumeSize)]);
    assert container.ports[0] in container.ports;
    assert container.mounts[0] in container.mounts;
    Synthesized(c.(name := name, labels := Some(labels)), [ServiceObject(svc), StatefulSetObject(sts)])
  }

  /** The derived name and labels depend on nothing but the upstream and the
      labels on entry: the name, credentials, image and size play no part. */
  lemma EnsureNameDependsOnlyOnUpstream(c1: Cache, c2: Cache)
    requires c1.upstream == c2.upstream && c1.labels == c2.labels
    ensures Ensure(c1).cache.name == Ensure(c2).cache.name
    ensures Ensure(c1).cache.labels == Ensure(c2).cache.labels
    ensures Ensure(c1).objects[0] == Ensure(c2).objects[0]
  {
  }
}
