/**
 The control-plane webhook of the registry cache. Once the registry-cache
 Extension has last succeeded, it lists the cache Services in the shoot
 (those carrying the upstream label) and writes one containerd hosts.toml
 per Service, pointing pulls of the labelled upstream at the Service's
 cluster IP and first port.
 */
module ServiceEnsurer {
  import opened Base
  import opened NodeConfig
  import Keyed
  import RegistryCache
  import StatusEnsurer

  /** A Service in the shoot, as far as the webhook reads it. */
  datatype Service = Service(labels: map<string, string>, clusterIP: string, ports: seq<int>)

  datatype OperationState = Processing | Succeeded | Error | Failed | Pending | Aborted

  /** The registry-cache Extension; None is a nil last operation. */
  datatype Extension = Extension(lastOperation: Option<OperationState>)

  datatype Error =
    | ClusterLookupFailed(reason: string)
    | ExtensionLookupFailed(reason: string)
    | ExtensionNotSucceeded
    | ShootClientFailed(reason: string)
    | ListFailed(reason: string)
    | MissingUpstreamLabel
    /** Reading the first port of a Service that has none: a Go panic. */
    | NoServicePort

  /** The label selector the listing uses: the upstream label exists. */
  predicate Selected(svc: Service)
  {
    RegistryCache.UpstreamLabel in svc.labels
  }

  /** The Services a label-selected List returns, in the shoot's order. */
  function ListSelected(all: seq<Service>): (listed: seq<Service>)
    ensures |listed| <= |all|
    ensures forall i :: 0 <= i < |listed| ==> Selected(listed[i]) && listed[i] in all
    ensures forall i :: 0 <= i < |all| && Selected(all[i]) ==> all[i] in listed
  {
    if |all| == 0 then []
    else if Selected(all[0]) then [all[0]] + ListSelected(all[1..])
    else ListSelected(all[1..])
  }

  /** A Service the webhook can write a file for: labelled, with a port. */
  predicate HasFile(svc: Service)
  {
    Selected(svc) && |svc.ports| > 0
  }

  /** The upstream a labelled Service mirrors. */
  function UpstreamOf(svc: Service): string
    requires Selected(svc)
  {
    svc.labels[RegistryCache.UpstreamLabel]
  }

  /** The server name for an upstream: docker.io is served from registry-1.docker.io. */
  function ServerHost(upstream: string): (host: string)
    ensures upstream == "docker.io" ==> host == "registry-1.docker.io"
    ensures upstream != "docker.io" ==> host == upstream
  {
    if upstream == "docker.io" then "registry-1.docker.io" else upstream
  }

  /** The server this webhook writes for an upstream is the URL the cache
      Service for that upstream proxies to: both rewrite exactly docker.io. */
  lemma ServerMatchesCacheUpstream(upstream: string)
    ensures "https://" + ServerHost(upstream) == RegistryCache.UpstreamURL(upstream)
  {
  }

  /** The hosts.toml pointing an upstream at a cache Service. Its first line
      names as server the registry the cache for that upstream proxies to. */
  function ServiceHostsToml(upstream: string, clusterIP: string, port: int): (toml: string)
    ensures var server := "server=\"" + RegistryCache.UpstreamURL(upstream) + "\"\n";
            |server| <= |toml| && toml[..|server|] == server
  {
    var head := "server=\"https://" + ServerHost(upstream) + "\"\n";
    var tail := "[host.\"http://" + clusterIP + ":" + IntToString(port) + "\"]\n  capabilities = [\"pull\", \"resolve\"]\n";
    ServerLine(upstream, "server=\"", "https://", "server=\"https://");
    assert (head + tail)[..|head|] == head;
    head + tail
  }

  /** The server line, written with this webhook's own rewrite, is the line
      for the cache's upstream URL. */
  lemma ServerLine(upstream: string, key: string, scheme: string, keyScheme: string)
    requires key == "server=\"" && scheme == "https://" && keyScheme == "server=\"https://"
    ensures keyScheme + ServerHost(upstream) + "\"\n" == key + RegistryCache.UpstreamURL(upstream) + "\"\n"
  {
    assert keyScheme == key + scheme;
    ServerMatchesCacheUpstream(upstream);
    ConcatAssoc(key, scheme, ServerHost(upstream));
  }

  /** The path of an upstream's hosts.toml; formatted, not cleaned. */
  function ServicePath(upstream: string): string
  {
    "/etc/containerd/certs.d/" + upstream + "/hosts.toml"
  }

  /** The file for one listed Service, or why there is none. */
  function ServiceFile(svc: Service): (r: Result<File, Error>)
    ensures r.Ok? <==> HasFile(svc)
    ensures !Selected(svc) ==> r == Err(MissingUpstreamLabel)
    ensures Selected(svc) && |svc.ports| == 0 ==> r == Err(NoServicePort)
    ensures r.Ok? ==>
              var upstream := svc.labels[RegistryCache.UpstreamLabel];
              r.value == File(ServicePath(upstream), Some(Mode0644),
                              Inline("", ServiceHostsToml(upstream, svc.clusterIP, svc.ports[0])))
  {
    if RegistryCache.UpstreamLabel !in svc.labels then Err(MissingUpstreamLabel)
    else if |svc.ports| == 0 then Err(NoServicePort)
    else
      var upstream := svc.labels[RegistryCache.UpstreamLabel];
      Ok(File(ServicePath(upstream), Some(Mode0644),
              Inline("", ServiceHostsToml(upstream, svc.clusterIP, svc.ports[0]))))
  }

  /** The loop over the listed Services. A Service without a file stops it;
      the files appended before that stay. */
  function AddServiceFiles(files: seq<File>, services: seq<Service>): (r: Ensured<seq<File>, Error>)
    ensures r.error.None? <==> forall i :: 0 <= i < |services| ==> HasFile(services[i])
    decreases |services|
  {
    if |services| == 0 then Ensured(files, None)
    else
      match ServiceFile(services[0])
      case Err(e) => Ensured(files, Some(e))
      case Ok(f) =>
        var rest := AddServiceFiles(Keyed.AppendUnique(files, PathOf, f), services[1..]);
        assert forall i :: 1 <= i < |services| ==> services[i] == services[1..][i - 1];
        rest
  }

  /** The files of all Services, when every Service has one. */
  function ServiceFiles(services: seq<Service>): (fs: seq<File>)
    requires forall i :: 0 <= i < |services| ==> HasFile(services[i])
    ensures |fs| == |services|
    ensures forall i :: 0 <= i < |services| ==> fs[i] == ServiceFile(services[i]).value
  {
    seq(|services|, i requires 0 <= i < |services| && HasFile(services[i]) => ServiceFile(services[i]).value)
  }

  /** A loop that completes appends the files of all Services in order,
      each replacing whatever had its path. */
  lemma {:induction false} AddServiceFilesAll(files: seq<File>, services: seq<Service>)
    requires forall i :: 0 <= i < |services| ==> HasFile(services[i])
    ensures AddServiceFiles(files, services).value == Keyed.AppendAll(files, PathOf, ServiceFiles(services))
    decreases |services|
  {
    if |services| > 0 {
      var f := ServiceFile(services[0]).value;
      var tail := services[1..];
      assert forall i :: 0 <= i < |tail| ==> tail[i] == services[i + 1];
      AddServiceFilesAll(Keyed.AppendUnique(files, PathOf, f), tail);
      Keyed.AppendAllCons(files, PathOf, f, ServiceFiles(tail));
      ServiceFilesCons(services);
    }
  }

  lemma ServiceFilesCons(services: seq<Service>)
    requires |services| > 0
    requires forall i :: 0 <= i < |services| ==> HasFile(services[i])
    ensures ServiceFiles(services) == [ServiceFile(services[0]).value] + ServiceFiles(services[1..])
  {
    var tail := services[1..];
    var a := ServiceFiles(services);
    var b := [ServiceFile(services[0]).value] + ServiceFiles(tail);
    assert |a| == |b|;
    forall i | 0 <= i < |a| ensures a[i] == b[i] {
      if i > 0 {
        assert tail[i - 1] == services[i];
        assert b[i] == ServiceFiles(tail)[i - 1];
      }
    }
  }

  /** EnsureAdditionalFiles. `allServices` is what the shoot holds; the
      webhook sees only the labelled ones. */
  function EnsureAdditionalFiles(clusterName: Result<string, string>, extension: Result<Extension, string>,
                                 shootClient: Option<string>, allServices: Result<seq<Service>, string>,
                                 files: seq<File>): (r: Ensured<seq<File>, Error>)
    ensures clusterName.Err? ==> r == Ensured(files, Some(ClusterLookupFailed(clusterName.error)))
    ensures clusterName.Ok? && extension.Ok? && extension.value.lastOperation != Some(Succeeded)
            ==> r == Ensured(files, Some(ExtensionNotSucceeded))
    ensures r.error.Some? && r.error.value != NoServicePort ==> r.value == files
    ensures clusterName.Ok? && extension.Ok? && extension.value.lastOperation == Some(Succeeded) &&
            shootClient.None? && allServices.Ok? && |ListSelected(allServices.value)| == 0
            ==> r == Ensured(files, None)
    ensures clusterName.Ok? && extension.Ok? && extension.value.lastOperation == Some(Succeeded) &&
            shootClient.None? && allServices.Ok?
            ==> (r.error.None? <==>
                 forall i :: 0 <= i < |ListSelected(allServices.value)| ==> |ListSelected(allServices.value)[i].ports| > 0)
  {
    match clusterName
    case Err(e) => Ensured(files, Some(ClusterLookupFailed(e)))
    case Ok(_) =>
      match extension
      case Err(e) => Ensured(files, Some(ExtensionLookupFailed(e)))
      case Ok(ex) =>
        if ex.lastOperation.None? || ex.lastOperation.value != Succeeded then
          Ensured(files, Some(ExtensionNotSucceeded))
        else if shootClient.Some? then Ensured(files, Some(ShootClientFailed(shootClient.value)))
        else
          match allServices
          case Err(e) => Ensured(files, Some(ListFailed(e)))
          case Ok(all) =>
            var listed := ListSelected(all);
            if |listed| == 0 then Ensured(files, None)
            else
              var r := AddServiceFiles(files, listed);
              AddServiceFilesNoLabelError(files, listed);
              r
  }

  /** Services the selector returned always carry the label, so the loop
      never reports a missing one. */
  lemma {:induction false} AddServiceFilesNoLabelError(files: seq<File>, services: seq<Service>)
    requires forall i :: 0 <= i < |services| ==> Selected(services[i])
    ensures AddServiceFiles(files, services).error != Some(MissingUpstreamLabel)
    ensures AddServiceFiles(files, services).error.Some? ==> AddServiceFiles(files, services).error == Some(NoServicePort)
    decreases |services|
  {
    if |services| > 0 && ServiceFile(services[0]).Ok? {
      var tail := services[1..];
      assert forall i :: 0 <= i < |tail| ==> tail[i] == services[i + 1];
      AddServiceFilesNoLabelError(Keyed.AppendUnique(files, PathOf, ServiceFile(services[0]).value), tail);
    }
  }

  /** A successful mutation over a non-empty listing adds the files of all
      labelled Services, in listing order, each replacing what had its path. */
  lemma EnsureSuccess(clusterName: Result<string, string>, extension: Result<Extension, string>,
                      shootClient: Option<string>, allServices: Result<seq<Service>, string>, files: seq<File>)
    requires allServices.Ok? && |ListSelected(allServices.value)| > 0
    requires EnsureAdditionalFiles(clusterName, extension, shootClient, allServices, files).error.None?
    ensures var listed := ListSelected(allServices.value);
            && (forall i :: 0 <= i < |listed| ==> |listed[i].ports| > 0)
            && EnsureAdditionalFiles(clusterName, extension, shootClient, allServices, files).value
               == Keyed.AppendAll(files, PathOf, ServiceFiles(listed))
  {
    var listed := ListSelected(allServices.value);
    AddServiceFilesAll(files, listed);
  }

  /** The mutation never fails for a missing upstream label: that branch of
      the loop is unreachable behind the label selector. */
  lemma NeverMissingLabel(clusterName: Result<string, string>, extension: Result<Extension, string>,
                          shootClient: Option<string>, allServices: Result<seq<Service>, string>, files: seq<File>)
    ensures EnsureAdditionalFiles(clusterName, extension, shootClient, allServices, files).error
            != Some(MissingUpstreamLabel)
  {
    if clusterName.Ok? && extension.Ok? && extension.value.lastOperation == Some(Succeeded) &&
       shootClient.None? && allServices.Ok? {
      AddServiceFilesNoLabelError(files, ListSelected(allServices.value));
    }
  }

  /** Each labelled upstream ends up with exactly one file, that of the last
      listed Service carrying it. */
  lemma OneFilePerUpstream(files: seq<File>, services: seq<Service>, i: nat)
    requires forall j :: 0 <= j < |services| ==> HasFile(services[j])
    requires i < |services| && HasFile(services[i])
    requires forall j :: i < j < |services| ==> HasFile(services[j]) && UpstreamOf(services[j]) != UpstreamOf(services[i])
    ensures var p := ServicePath(UpstreamOf(services[i]));
            Keyed.Only(AddServiceFiles(files, services).value, PathOf, p) == [ServiceFile(services[i]).value]
  {
    var fs := ServiceFiles(services);
    var p := ServicePath(UpstreamOf(services[i]));
    AddServiceFilesAll(files, services);
    forall j | i < j < |services| ensures PathOf(fs[j]) != p {
      ServicePathInjective(UpstreamOf(services[j]), UpstreamOf(services[i]));
    }
    Keyed.AppendAllOnly(files, PathOf, fs, p);
    Keyed.LastWithKeyAt(fs, PathOf, p, i);
  }

  /** Distinct upstreams get distinct paths. */
  lemma ServicePathInjective(a: string, b: string)
    ensures ServicePath(a) == ServicePath(b) ==> a == b
  {
    var prefix := "/etc/containerd/certs.d/";
    var suffix := "/hosts.toml";
    if ServicePath(a) == ServicePath(b) {
      assert |a| == |b|;
      assert a == ServicePath(a)[|prefix| .. |prefix| + |a|];
      assert b == ServicePath(b)[|prefix| .. |prefix| + |b|];
    }
  }

  /** Mutating twice with the same shoot state gives what mutating once gives. */
  lemma EnsureIdempotent(clusterName: Result<string, string>, extension: Result<Extension, string>,
                         shootClient: Option<string>, allServices: Result<seq<Service>, string>, files: seq<File>)
    requires EnsureAdditionalFiles(clusterName, extension, shootClient, allServices, files).error.None?
    ensures var once := EnsureAdditionalFiles(clusterName, extension, shootClient, allServices, files);
            EnsureAdditionalFiles(clusterName, extension, shootClient, allServices, once.value) == once
  {
    if allServices.Ok? && |ListSelected(allServices.value)| > 0 {
      AddServiceFilesIdempotent(files, ListSelected(allServices.value));
    }
  }

  /** Running the loop again over its own output changes nothing. */
  lemma AddServiceFilesIdempotent(files: seq<File>, services: seq<Service>)
    requires forall i :: 0 <= i < |services| ==> HasFile(services[i])
    ensures AddServiceFiles(AddServiceFiles(files, services).value, services) == AddServiceFiles(files, services)
  {
    var once := AddServiceFiles(files, services);
    AddServiceFilesAll(files, services);
    AddServiceFilesAll(once.value, services);
    Keyed.AppendAllIdempotent(files, PathOf, ServiceFiles(services));
  }

  /** For an upstream that is a single plain path segment, this webhook and
      the OperatingSystemConfig webhook write the same file. */
  lemma SamePathAsStatusEnsurer(upstream: string)
    requires IsPlainSegment(upstream)
    ensures ServicePath(upstream) == StatusEnsurer.MirrorPath(upstream)
  {
    StatusEnsurer.MirrorPathOfPlainUpstream(upstream);
  }
}
