/**
 The OperatingSystemConfig webhook of the registry cache. It reads the
 caches the registry-cache Extension reports in its provider status and
 writes one containerd hosts.toml per upstream into the node's files, so
 that containerd pulls that upstream through the in-cluster cache endpoint
 first and falls back to the upstream itself.
 */
module StatusEnsurer {
  import opened Base
  import opened NodeConfig
  import Keyed

  /** The directory containerd reads per-registry host configuration from. */
  const HostsDirectory := "/etc/containerd/certs.d"
  const HostsFileName := "hosts.toml"

  /** One cache as the actuator reports it: the upstream it mirrors and the
      endpoint (scheme, cluster IP and port) at which it serves. */
  datatype ProvisionedCache = ProvisionedCache(upstream: string, endpoint: string)

  datatype RegistryStatus = RegistryStatus(caches: seq<ProvisionedCache>)

  /** What the webhook needs of the Cluster resource. */
  datatype ClusterView = ClusterView(name: string, shootDeleting: bool, hibernationEnabled: bool)

  /** The registry-cache Extension; None is a nil provider status. */
  datatype Extension = Extension(providerStatus: Option<Raw<RegistryStatus>>)

  datatype Error =
    | ClusterLookupFailed(reason: string)
    | ExtensionLookupFailed(reason: string)
    | MissingProviderStatus
    | StatusUndecodable(reason: string)

  /** The hosts.toml that sends pulls of an upstream to a cache first. */
  function HostsToml(server: string, host: string): string
  {
    "server = \"" + server + "\"\n\n[host.\"" + host + "\"]\n  capabilities = [\"pull\", \"resolve\"]\n"
  }

  /** Two hosts.toml files with servers of the same length are equal only
      when their servers and hosts are. */
  lemma HostsTomlInjective(server1: string, host1: string, server2: string, host2: string)
    requires |server1| == |server2|
    ensures HostsToml(server1, host1) == HostsToml(server2, host2) ==> server1 == server2 && host1 == host2
  {
    TwoHolesInjective("server = \"", server1, "\"\n\n[host.\"", host1, "\"]\n  capabilities = [\"pull\", \"resolve\"]\n",
                      server2, host2);
  }

  /** Where the hosts.toml of an upstream is written: filepath.Join of the
      hosts directory, the upstream and the file name. */
  function MirrorPath(upstream: string): string
  {
    JoinPath(HostsDirectory, upstream, HostsFileName)
  }

  /** The file for one cache; `upstreamURL` is the URL the upstream is
      reached at (computed by a helper outside this model). */
  function MirrorFile(cache: ProvisionedCache, upstreamURL: string -> string): (f: File)
    ensures f.path == MirrorPath(cache.upstream)
    ensures f.permissions == Some(Mode0644)
    ensures f.content == Inline("", HostsToml(upstreamURL(cache.upstream), cache.endpoint))
  {
    File(MirrorPath(cache.upstream), Some(Mode0644), Inline("", HostsToml(upstreamURL(cache.upstream), cache.endpoint)))
  }

  /** The files of all caches, in status order. */
  function MirrorFiles(caches: seq<ProvisionedCache>, upstreamURL: string -> string): (fs: seq<File>)
    ensures |fs| == |caches|
    ensures forall i :: 0 <= i < |caches| ==> fs[i] == MirrorFile(caches[i], upstreamURL)
  {
    seq(|caches|, i requires 0 <= i < |caches| => MirrorFile(caches[i], upstreamURL))
  }

  /** The files after the loop over the reported caches: each cache's file
      replaces whatever had its path, in status order. */
  function WithMirrors(files: seq<File>, caches: seq<ProvisionedCache>, upstreamURL: string -> string): seq<File>
  {
    Keyed.AppendAll(files, PathOf, MirrorFiles(caches, upstreamURL))
  }

  /** The loop as the source writes it: appendUniqueFile once per cache. */
  method AddMirrors(files: seq<File>, caches: seq<ProvisionedCache>, upstreamURL: string -> string)
    returns (r: seq<File>)
    ensures r == WithMirrors(files, caches, upstreamURL)
  {
    var mirrors := MirrorFiles(caches, upstreamURL);
    r := files;
    var i := 0;
    while i < |caches|
      invariant 0 <= i <= |caches|
      invariant r == Keyed.AppendAll(files, PathOf, mirrors[..i])
    {
      assert mirrors[..i + 1][..i] == mirrors[..i];
      r := AppendUniqueFile(r, MirrorFile(caches[i], upstreamURL));
      i := i + 1;
    }
    assert mirrors[..i] == mirrors;
  }

  /** EnsureAdditionalFiles. The webhook leaves the files alone while the
      shoot is being deleted or is hibernated, and on every error. */
  function EnsureAdditionalFiles(cluster: Result<ClusterView, string>, extension: Result<Extension, string>,
                                 upstreamURL: string -> string, files: seq<File>): (r: Ensured<seq<File>, Error>)
    ensures r.error.Some? ==> r.value == files
    ensures cluster.Err? ==> r == Ensured(files, Some(ClusterLookupFailed(cluster.error)))
    ensures cluster.Ok? && (cluster.value.shootDeleting || cluster.value.hibernationEnabled)
            ==> r == Ensured(files, None)
  {
    match cluster
    case Err(e) => Ensured(files, Some(ClusterLookupFailed(e)))
    case Ok(c) =>
      if c.shootDeleting || c.hibernationEnabled then Ensured(files, None)
      else
        match extension
        case Err(e) => Ensured(files, Some(ExtensionLookupFailed(e)))
        case Ok(ext) =>
          match ext.providerStatus
          case None => Ensured(files, Some(MissingProviderStatus))
          case Some(Undecodable(reason)) => Ensured(files, Some(StatusUndecodable(reason)))
          case Some(Decodes(status)) => Ensured(WithMirrors(files, status.caches, upstreamURL), None)
  }

  /** The mutation goes ahead exactly when the cluster is found, the shoot is
      neither being deleted nor hibernated, and the Extension carries a
      decodable status; it then adds the status's mirror files. */
  lemma EnsureSucceeds(cluster: Result<ClusterView, string>, extension: Result<Extension, string>,
                       upstreamURL: string -> string, files: seq<File>)
    ensures cluster.Ok? && !cluster.value.shootDeleting && !cluster.value.hibernationEnabled &&
            extension.Ok? && extension.value.providerStatus.Some? && extension.value.providerStatus.value.Decodes? ==>
              EnsureAdditionalFiles(cluster, extension, upstreamURL, files)
              == Ensured(WithMirrors(files, extension.value.providerStatus.value.value.caches, upstreamURL), None)
    ensures cluster.Ok? && !cluster.value.shootDeleting && !cluster.value.hibernationEnabled ==>
              var r := EnsureAdditionalFiles(cluster, extension, upstreamURL, files);
              r.error.None? <==> extension.Ok? && extension.value.providerStatus.Some? &&
                                 extension.value.providerStatus.value.Decodes?
  {
  }

  /** After the mutation there is exactly one file at each reported cache's
      path, and it is the file of the last cache reported with that path. */
  lemma {:induction false} OneFilePerMirror(files: seq<File>, caches: seq<ProvisionedCache>,
                                            upstreamURL: string -> string, i: nat)
    requires i < |caches|
    requires forall j :: i < j < |caches| ==> MirrorPath(caches[j].upstream) != MirrorPath(caches[i].upstream)
    ensures Keyed.Only(WithMirrors(files, caches, upstreamURL), PathOf, MirrorPath(caches[i].upstream))
            == [MirrorFile(caches[i], upstreamURL)]
  {
    var mirrors := MirrorFiles(caches, upstreamURL);
    var p := MirrorPath(caches[i].upstream);
    Keyed.AppendAllOnly(files, PathOf, mirrors, p);
    Keyed.LastWithKeyAt(mirrors, PathOf, p, i);
  }

  /** Files at paths no cache writes survive, in their original order, ahead
      of the mirror files. */
  lemma OtherFilesKept(files: seq<File>, caches: seq<ProvisionedCache>, upstreamURL: string -> string)
    ensures var mirrors := MirrorFiles(caches, upstreamURL);
            WithMirrors(files, caches, upstreamURL) ==
              Keyed.WithoutKeys(files, PathOf, Keyed.KeysOf(mirrors, PathOf)) + Keyed.AppendAll([], PathOf, mirrors)
  {
    Keyed.AppendAllShape(files, PathOf, MirrorFiles(caches, upstreamURL));
  }

  /** Mutating twice with the same Extension gives what mutating once gives. */
  lemma EnsureIdempotent(cluster: Result<ClusterView, string>, extension: Result<Extension, string>,
                         upstreamURL: string -> string, files: seq<File>)
    ensures var once := EnsureAdditionalFiles(cluster, extension, upstreamURL, files);
            EnsureAdditionalFiles(cluster, extension, upstreamURL, once.value) == once
  {
    var once := EnsureAdditionalFiles(cluster, extension, upstreamURL, files);
    if cluster.Ok? && extension.Ok? && extension.value.providerStatus.Some? &&
       extension.value.providerStatus.value.Decodes? {
      Keyed.AppendAllIdempotent(files, PathOf, MirrorFiles(extension.value.providerStatus.value.value.caches, upstreamURL));
    }
  }

  /** For an upstream that is a single plain path segment (a host name with
      an optional port, as validation demands) the file lands at
      /etc/containerd/certs.d/<upstream>/hosts.toml. */
  lemma MirrorPathOfPlainUpstream(upstream: string)
    requires IsPlainSegment(upstream)
    ensures MirrorPath(upstream) == "/etc/containerd/certs.d/" + upstream + "/hosts.toml"
  {
    var dirSegments := HostsDirectorySegments();
    assert IsPlainSegment(HostsFileName);
    JoinPathPlain(dirSegments, upstream, HostsFileName);
    LiteralPath(upstream);
  }

  /** The hosts directory as a rooted join of plain segments. */
  lemma HostsDirectorySegments() returns (dirSegments: seq<string>)
    ensures |dirSegments| >= 1 && (forall i :: 0 <= i < |dirSegments| ==> IsPlainSegment(dirSegments[i]))
    ensures "/" + Join(dirSegments, '/') == HostsDirectory
  {
    dirSegments := ["etc", "containerd", "certs.d"];
    assert dirSegments[1..][1..] == ["certs.d"];
    assert Join(dirSegments[1..], '/') == "containerd" + "/" + "certs.d";
    assert Join(dirSegments, '/') == "etc" + "/" + "containerd/certs.d";
  }

  lemma LiteralPath(upstream: string)
    ensures HostsDirectory + "/" + upstream + "/" + HostsFileName == "/etc/containerd/certs.d/" + upstream + "/hosts.toml"
  {
  }
}
