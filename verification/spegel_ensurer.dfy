/**
 The registry-spegel OperatingSystemConfig webhook. From the ports of the
 extension's provider config it installs the spegel daemon on every node:
 a default containerd hosts.toml pointing at the node-local spegel
 registry, the spegel binary and a metrics scraper script, two systemd
 units, and a containerd patch that puts the node-local mirror in front of
 every configured registry.
 */
module SpegelEnsurer {
  import opened Base
  import opened NodeConfig
  import opened SpegelApi
  import Keyed

  const DefaultHostsPath := "/etc/containerd/certs.d/_default/hosts.toml"
  /** OperatingSystemConfigFilePathBinaries; the value of this gardener
      constant is assumed. */
  const BinariesDirectory := "/opt/bin"
  const SpegelBinaryPath := BinariesDirectory + "/spegel"
  const MetricsScriptPath := BinariesDirectory + "/spegel_metrics.sh"
  const SpegelImage := "docker.io/kostadinov/spegel:v0.0.28-test"
  const SpegelPathInImage := "/app/spegel"
  /** The B64FileCodecID of the extensions API; its value is assumed. */
  const Base64Encoding := "b64"
  const SpegelUnitName := "spegel.service"
  const MetricsUnitName := "spegel-metrics.service"
  /** metav1.NamespaceSystem. */
  const NamespaceSystem := "kube-system"

  /** What the webhook needs of the Cluster resource. */
  datatype ClusterView = ClusterView(name: string, shootDeleting: bool)

  /** The registry-spegel Extension. The provider config is what the decoder
      produced from the raw payload; None is a nil provider config. */
  datatype Extension = Extension(providerConfig: Option<Raw<SpegelConfig>>)

  datatype Error =
    | ClusterLookupFailed(reason: string)
    | ExtensionLookupFailed(reason: string)
    | MissingProviderConfig
    | DecodeFailed(reason: string)
    /** Dereferencing a nil port of the decoded config: a Go panic. */
    | NilPort(field: string)
    /** Reading the first host of a registry that has none: a Go panic. */
    | EmptyHosts(upstream: string)

  /** The checks the three Ensure methods share, and what they lead to. */
  datatype Gate = Skip | Fail(error: Error) | Proceed(config: SpegelConfig)

  function Admit(cluster: Result<ClusterView, string>, extension: Result<Extension, string>): (g: Gate)
    ensures g.Skip? <==> cluster.Ok? && cluster.value.shootDeleting
    ensures g.Proceed? <==> cluster.Ok? && !cluster.value.shootDeleting && extension.Ok? &&
                            extension.value.providerConfig.Some? && extension.value.providerConfig.value.Decodes?
    ensures g.Proceed? ==> g.config == extension.value.providerConfig.value.value
    ensures cluster.Ok? && !cluster.value.shootDeleting && extension.Ok? && extension.value.providerConfig.None?
            ==> g == Fail(MissingProviderConfig)
  {
    match cluster
    case Err(e) => Fail(ClusterLookupFailed(e))
    case Ok(c) =>
      if c.shootDeleting then Skip
      else
        match extension
        case Err(e) => Fail(ExtensionLookupFailed(e))
        case Ok(ext) =>
          match ext.providerConfig
          case None => Fail(MissingProviderConfig)
          case Some(Undecodable(reason)) => Fail(DecodeFailed(reason))
          case Some(Decodes(config)) => Proceed(config)
  }

  /** %d of a port. */
  function PortText(p: uint16): string
  {
    NatToString(p as nat)
  }

  // ---------------------------------------------------------------------
  // Files
  // ---------------------------------------------------------------------

  /** The default hosts.toml: any registry not configured otherwise is pulled
      from the node-local spegel registry. */
  function DefaultHostsToml(registryPort: uint16): string
  {
    "# managed by gardener-extension-registry-cache\n[host.\"http://localhost:" + PortText(registryPort) +
    "\"]\n  capabilities = [\"pull\", \"resolve\"]"
  }

  /** The scraper script up to the metrics port, and after it. */
  const MetricsScriptHead :=
    "#!/bin/bash\nset -o nounset\nset -o pipefail\n\nfunction scrape_spegel_metrics {\n  while true; do\n" +
    "    curl --request GET -sL \\\n         --url 'http://localhost:"
  const MetricsScriptTail :=
    "/metrics'\\\n         --output \"$output_file.tmp\"\n    mv \"$output_file.tmp\" \"$output_file\"\n" +
    "    sleep $SLEEP_SECONDS\n  done\n}\n\noutput_file=\"var/lib/node-exporter/textfile-collector/spegel.prom\"\n" +
    "SLEEP_SECONDS=5\necho \"Start scraping spegel metrics\"\nscrape_spegel_metrics"

  /** The script that polls spegel's metrics endpoint into the node exporter's
      text collector. */
  function MetricsScript(metricsPort: uint16): string
  {
    MetricsScriptHead + PortText(metricsPort) + MetricsScriptTail
  }

  /** The default hosts.toml and the metrics script each determine the port
      written into them. */
  lemma PortTextsInjective(a: uint16, b: uint16)
    ensures DefaultHostsToml(a) == DefaultHostsToml(b) ==> a == b
    ensures MetricsScript(a) == MetricsScript(b) ==> a == b
  {
    HoleInjective("# managed by gardener-extension-registry-cache\n[host.\"http://localhost:", PortText(a), PortText(b),
                  "\"]\n  capabilities = [\"pull\", \"resolve\"]");
    HoleInjective(MetricsScriptHead, PortText(a), PortText(b), MetricsScriptTail);
    NatToStringInjective(a as nat, b as nat);
  }

  /** The three files the webhook ensures, in order; `encode` is base64. */
  function SpegelFiles(registryPort: uint16, metricsPort: uint16, encode: string -> string): (fs: seq<File>)
    ensures |fs| == 3 && Keyed.DistinctKeys(fs, PathOf)
    ensures fs[0] == File(DefaultHostsPath, Some(Mode0644), Inline(Base64Encoding, encode(DefaultHostsToml(registryPort))))
    ensures fs[1] == File(SpegelBinaryPath, Some(Mode0755), ImageRef(SpegelImage, SpegelPathInImage))
    ensures fs[2] == File(MetricsScriptPath, Some(Mode0755), Inline(Base64Encoding, encode(MetricsScript(metricsPort))))
  {
    assert |SpegelBinaryPath| < |MetricsScriptPath| < |DefaultHostsPath|;
    [File(DefaultHostsPath, Some(Mode0644), Inline(Base64Encoding, encode(DefaultHostsToml(registryPort)))),
     File(SpegelBinaryPath, Some(Mode0755), ImageRef(SpegelImage, SpegelPathInImage)),
     File(MetricsScriptPath, Some(Mode0755), Inline(Base64Encoding, encode(MetricsScript(metricsPort))))]
  }

  /** EnsureAdditionalFiles. `ensureFile` is EnsureFileWithPath. */
  function EnsureAdditionalFiles(cluster: Result<ClusterView, string>, extension: Result<Extension, string>,
                                 encode: string -> string, ensureFile: (seq<File>, File) -> seq<File>,
                                 files: seq<File>): (r: Ensured<seq<File>, Error>)
    ensures r.error.Some? || Admit(cluster, extension).Skip? ==> r.value == files
    ensures Admit(cluster, extension).Skip? ==> r.error.None?
    ensures Admit(cluster, extension).Fail? ==> r.error == Some(Admit(cluster, extension).error)
    ensures Admit(cluster, extension).Proceed? ==>
              (r.error.None? <==> Admit(cluster, extension).config.registryPort.Some? &&
                                  Admit(cluster, extension).config.metricsPort.Some?)
    ensures r.error.None? && Admit(cluster, extension).Proceed? ==>
              var c := Admit(cluster, extension).config;
              c.registryPort.Some? && c.metricsPort.Some? &&
              r.value == Keyed.EnsureEach(files, ensureFile, SpegelFiles(c.registryPort.value, c.metricsPort.value, encode))
  {
    match Admit(cluster, extension)
    case Skip => Ensured(files, None)
    case Fail(e) => Ensured(files, Some(e))
    case Proceed(c) =>
      if c.registryPort.None? then Ensured(files, Some(NilPort("registryPort")))
      else if c.metricsPort.None? then Ensured(files, Some(NilPort("metricsPort")))
      else Ensured(Keyed.EnsureEach(files, ensureFile, SpegelFiles(c.registryPort.value, c.metricsPort.value, encode)), None)
  }

  /** When EnsureFileWithPath replaces the first file with the same path or
      appends, each spegel file ends up as the first file at its path, and a
      second run changes nothing. */
  lemma FilesPlacedOnce(cluster: Result<ClusterView, string>, extension: Result<Extension, string>,
                        encode: string -> string, ensureFile: (seq<File>, File) -> seq<File>, files: seq<File>)
    requires forall fs, f :: ensureFile(fs, f) == Keyed.Upsert(fs, PathOf, f)
    requires EnsureAdditionalFiles(cluster, extension, encode, ensureFile, files).error.None?
    requires Admit(cluster, extension).Proceed?
    ensures var c := Admit(cluster, extension).config;
            var once := EnsureAdditionalFiles(cluster, extension, encode, ensureFile, files).value;
            var desired := SpegelFiles(c.registryPort.value, c.metricsPort.value, encode);
            && (forall j :: 0 <= j < 3 ==> Keyed.FirstEntry(once, PathOf, desired[j].path) == Some(desired[j]))
            && EnsureAdditionalFiles(cluster, extension, encode, ensureFile, once).value == once
  {
    var c := Admit(cluster, extension).config;
    var desired := SpegelFiles(c.registryPort.value, c.metricsPort.value, encode);
    var once := EnsureAdditionalFiles(cluster, extension, encode, ensureFile, files).value;
    Keyed.EnsureEachUpsert(files, PathOf, ensureFile, desired);
    Keyed.EnsureEachUpsert(once, PathOf, ensureFile, desired);
    forall j | 0 <= j < 3 ensures Keyed.FirstEntry(once, PathOf, desired[j].path) == Some(desired[j]) {
      Keyed.UpsertEachFirst(files, PathOf, desired, j);
    }
    Keyed.UpsertEachIdempotent(files, PathOf, desired);
  }

  // ---------------------------------------------------------------------
  // Units
  // ---------------------------------------------------------------------

  /** The flags ahead of the three listen addresses. */
  const LeadingFlags := ["registry", "--log-level=DEBUG", "--mirror-resolve-retries=3", "--mirror-resolve-timeout=20ms"]

  /** The flags between the listen addresses and the local address. */
  const MiddleFlags := [
    "--registries",
    "--containerd-sock=/run/containerd/containerd.sock",
    "--containerd-namespace=k8s.io",
    "--containerd-registry-config-path=/etc/containerd/certs.d",
    "--bootstrap-kind=kubernetes",
    "--kubeconfig-path=/var/lib/gardener-node-agent/credentials/kubeconfig",
    "--leader-election-namespace=" + NamespaceSystem,
    "--resolve-latest-tag=true"]

  const ContentPathFlag := "--containerd-content-path=/var/lib/containerd/io.containerd.content.v1.content"

  /** getCLIFlags: the spegel command line for the three ports. */
  function CLIFlags(registryPort: uint16, routerPort: uint16, metricsPort: uint16): (flags: seq<string>)
    ensures |flags| == 17 && flags[0] == "registry"
    ensures flags[4] == "--registry-addr=:" + PortText(registryPort)
    ensures flags[5] == "--router-addr=:" + PortText(routerPort)
    ensures flags[6] == "--metrics-addr=:" + PortText(metricsPort)
    ensures flags[15] == "--local-addr=$(NODE_IP):" + PortText(registryPort)
  {
    var addresses := ["--registry-addr=:" + PortText(registryPort),
                      "--router-addr=:" + PortText(routerPort),
                      "--metrics-addr=:" + PortText(metricsPort)];
    var local := "--local-addr=$(NODE_IP):" + PortText(registryPort);
    LeadingFlags + addresses + MiddleFlags + [local, ContentPathFlag]
  }

  /** The command line determines the ports: distinct port triples give
      distinct command lines, and the local address always advertises the
      port the registry listens on. */
  lemma CLIFlagsDeterminePorts(a: (uint16, uint16, uint16), b: (uint16, uint16, uint16))
    ensures CLIFlags(a.0, a.1, a.2) == CLIFlags(b.0, b.1, b.2) ==> a == b
  {
    var fa, fb := CLIFlags(a.0, a.1, a.2), CLIFlags(b.0, b.1, b.2);
    if fa == fb {
      FlagSuffix("--registry-addr=:", PortText(a.0), PortText(b.0));
      FlagSuffix("--router-addr=:", PortText(a.1), PortText(b.1));
      FlagSuffix("--metrics-addr=:", PortText(a.2), PortText(b.2));
      NatToStringInjective(a.0 as nat, b.0 as nat);
      NatToStringInjective(a.1 as nat, b.1 as nat);
      NatToStringInjective(a.2 as nat, b.2 as nat);
    }
  }

  /** Equal flags with the same name carry equal values. */
  lemma FlagSuffix(name: string, x: string, y: string)
    ensures name + x == name + y ==> x == y
  {
    if name + x == name + y {
      assert x == (name + x)[|name|..];
      assert y == (name + y)[|name|..];
    }
  }

  /** The two units the webhook ensures: the spegel daemon and its metrics
      scraper, both started and enabled, each with the one file it runs. */
  function SpegelUnits(registryPort: uint16, routerPort: uint16, metricsPort: uint16, nodeIP: string): (us: seq<Unit>)
    ensures |us| == 2 && Keyed.DistinctKeys(us, NameOf)
    ensures forall u :: u in us ==> u.command == Some(CommandStart) && u.enable == Some(true) && |u.filePaths| == 1
    ensures us[0].name == SpegelUnitName && us[0].filePaths == [SpegelBinaryPath]
    ensures us[0].content == Some(DaemonUnit(nodeIP, SpegelBinaryPath, CLIFlags(registryPort, routerPort, metricsPort)))
    ensures us[1].name == MetricsUnitName && us[1].filePaths == [MetricsScriptPath]
    ensures us[1].content == Some(ScraperUnit(MetricsScriptPath))
  {
    [Unit(SpegelUnitName, Some(CommandStart), Some(true),
          Some(DaemonUnit(nodeIP, SpegelBinaryPath, CLIFlags(registryPort, routerPort, metricsPort))), [SpegelBinaryPath]),
     Unit(MetricsUnitName, Some(CommandStart), Some(true), Some(ScraperUnit(MetricsScriptPath)), [MetricsScriptPath])]
  }

  /** EnsureAdditionalUnits. `ensureUnit` is EnsureUnitWithName; `nodeIP` is
      the address the daemon advertises, found outside this model. */
  function EnsureAdditionalUnits(cluster: Result<ClusterView, string>, extension: Result<Extension, string>,
                                 nodeIP: string, ensureUnit: (seq<Unit>, Unit) -> seq<Unit>,
                                 units: seq<Unit>): (r: Ensured<seq<Unit>, Error>)
    ensures r.error.Some? || Admit(cluster, extension).Skip? ==> r.value == units
    ensures Admit(cluster, extension).Skip? ==> r.error.None?
    ensures Admit(cluster, extension).Fail? ==> r.error == Some(Admit(cluster, extension).error)
    ensures Admit(cluster, extension).Proceed? ==>
              var c := Admit(cluster, extension).config;
              (r.error.None? <==> c.registryPort.Some? && c.routerPort.Some? && c.metricsPort.Some?) &&
              (r.error.None? ==> r.value == Keyed.EnsureEach(units, ensureUnit,
                                   SpegelUnits(c.registryPort.value, c.routerPort.value, c.metricsPort.value, nodeIP)))
  {
    match Admit(cluster, extension)
    case Skip => Ensured(units, None)
    case Fail(e) => Ensured(units, Some(e))
    case Proceed(c) =>
      if c.registryPort.None? then Ensured(units, Some(NilPort("registryPort")))
      else if c.routerPort.None? then Ensured(units, Some(NilPort("routerPort")))
      else if c.metricsPort.None? then Ensured(units, Some(NilPort("metricsPort")))
      else
        var desired := SpegelUnits(c.registryPort.value, c.routerPort.value, c.metricsPort.value, nodeIP);
        Ensured(Keyed.EnsureEach(units, ensureUnit, desired), None)
  }

  /** When EnsureUnitWithName replaces the first unit with the same name or
      appends, both units end up first under their names, and a second run
      changes nothing. */
  lemma UnitsPlacedOnce(cluster: Result<ClusterView, string>, extension: Result<Extension, string>,
                        nodeIP: string, ensureUnit: (seq<Unit>, Unit) -> seq<Unit>, units: seq<Unit>)
    requires forall us, u :: ensureUnit(us, u) == Keyed.Upsert(us, NameOf, u)
    requires EnsureAdditionalUnits(cluster, extension, nodeIP, ensureUnit, units).error.None?
    requires Admit(cluster, extension).Proceed?
    ensures var c := Admit(cluster, extension).config;
            var once := EnsureAdditionalUnits(cluster, extension, nodeIP, ensureUnit, units).value;
            var desired := SpegelUnits(c.registryPort.value, c.routerPort.value, c.metricsPort.value, nodeIP);
            && (forall j :: 0 <= j < 2 ==> Keyed.FirstEntry(once, NameOf, desired[j].name) == Some(desired[j]))
            && EnsureAdditionalUnits(cluster, extension, nodeIP, ensureUnit, once).value == once
  {
    var c := Admit(cluster, extension).config;
    var desired := SpegelUnits(c.registryPort.value, c.routerPort.value, c.metricsPort.value, nodeIP);
    var once := EnsureAdditionalUnits(cluster, extension, nodeIP, ensureUnit, units).value;
    Keyed.EnsureEachUpsert(units, NameOf, ensureUnit, desired);
    Keyed.EnsureEachUpsert(once, NameOf, ensureUnit, desired);
    forall j | 0 <= j < 2 ensures Keyed.FirstEntry(once, NameOf, desired[j].name) == Some(desired[j]) {
      Keyed.UpsertEachFirst(units, NameOf, desired, j);
    }
    Keyed.UpsertEachIdempotent(units, NameOf, desired);
  }

  // ---------------------------------------------------------------------
  // Container runtime configuration
  // ---------------------------------------------------------------------

  /** The plugin setting that keeps unpacked layers, which spegel serves. */
  const DiscardPlugin := PluginConfig(["io.containerd.grpc.v1.cri", "containerd"], "{\"discard_unpacked_layers\": false}")

  function LocalMirrorURL(registryPort: uint16): string
  {
    "http://localhost:" + PortText(registryPort)
  }

  function LocalMirrorHost(registryPort: uint16): RegistryHost
  {
    RegistryHost(LocalMirrorURL(registryPort), [Pull, Resolve])
  }

  /** One registry: the node-local mirror goes in front unless it already is. */
  function PrependOne(reg: RegistryConfig, registryPort: uint16): (r: RegistryConfig)
    requires |reg.hosts| > 0
    ensures r.upstream == reg.upstream && r.server == reg.server
    ensures reg.hosts[0].url == LocalMirrorURL(registryPort) ==> r == reg
    ensures reg.hosts[0].url != LocalMirrorURL(registryPort) ==> r.hosts == [LocalMirrorHost(registryPort)] + reg.hosts
  {
    if reg.hosts[0].url != LocalMirrorURL(registryPort) then reg.(hosts := [LocalMirrorHost(registryPort)] + reg.hosts)
    else reg
  }

  /** The loop over the registries. Each reads its first host and the
      registry port; a registry without hosts, or a nil port once there is
      a registry, stops it. */
  function PrependLocalMirror(regs: seq<RegistryConfig>, registryPort: Option<uint16>): (r: Result<seq<RegistryConfig>, Error>)
    ensures r.Ok? <==> forall i :: 0 <= i < |regs| ==> |regs[i].hosts| > 0 && registryPort.Some?
    ensures r.Ok? ==> |r.value| == |regs|
    ensures r.Ok? ==> forall i :: 0 <= i < |regs| ==> r.value[i] == PrependOne(regs[i], registryPort.value)
  {
    if |regs| == 0 then Ok([])
    else if |regs[0].hosts| == 0 then Err(EmptyHosts(regs[0].upstream))
    else if registryPort.None? then Err(NilPort("registryPort"))
    else
      assert forall i :: 1 <= i < |regs| ==> regs[i] == regs[1..][i - 1];
      match PrependLocalMirror(regs[1..], registryPort)
      case Err(e) => Err(e)
      case Ok(rest) => Ok([PrependOne(regs[0], registryPort.value)] + rest)
  }

  /** After the loop every registry is tried at the node-local mirror first,
      and running the loop again changes nothing. */
  lemma PrependLocalMirrorIdempotent(regs: seq<RegistryConfig>, registryPort: uint16)
    requires PrependLocalMirror(regs, Some(registryPort)).Ok?
    ensures var once := PrependLocalMirror(regs, Some(registryPort)).value;
            && (forall i :: 0 <= i < |once| ==> |once[i].hosts| > 0 && once[i].hosts[0].url == LocalMirrorURL(registryPort))
            && PrependLocalMirror(once, Some(registryPort)) == Ok(once)
  {
    var once := PrependLocalMirror(regs, Some(registryPort)).value;
    var twice := PrependLocalMirror(once, Some(registryPort));
    assert forall i :: 0 <= i < |once| ==> once[i].hosts[0].url == LocalMirrorURL(registryPort);
    assert twice.Ok?;
    assert forall i :: 0 <= i < |once| ==> twice.value[i] == once[i];
  }

  /** EnsureCRIConfig: initialise the containerd section when nil, append the
      discard_unpacked_layers plugin setting, put the node-local mirror in
      front of every registry. */
  function EnsureCRIConfig(cluster: Result<ClusterView, string>, extension: Result<Extension, string>,
                           cri: CRIConfig): (r: Ensured<CRIConfig, Error>)
    ensures r.error.Some? || Admit(cluster, extension).Skip? ==> r.value == cri
    ensures Admit(cluster, extension).Skip? ==> r.error.None?
    ensures Admit(cluster, extension).Fail? ==> r.error == Some(Admit(cluster, extension).error)
    ensures Admit(cluster, extension).Proceed? ==>
              var before := if cri.containerd.None? then ContainerdConfig([], []) else cri.containerd.value;
              (r.error.None? <==> PrependLocalMirror(before.registries, Admit(cluster, extension).config.registryPort).Ok?)
    ensures r.error.None? && Admit(cluster, extension).Proceed? ==>
              var before := if cri.containerd.None? then ContainerdConfig([], []) else cri.containerd.value;
              var c := Admit(cluster, extension).config;
              && r.value.containerd.Some?
              && r.value.containerd.value.plugins == before.plugins + [DiscardPlugin]
              && PrependLocalMirror(before.registries, c.registryPort).Ok?
              && r.value.containerd.value.registries == PrependLocalMirror(before.registries, c.registryPort).value
  {
    match Admit(cluster, extension)
    case Skip => Ensured(cri, None)
    case Fail(e) => Ensured(cri, Some(e))
    case Proceed(c) =>
      var containerd := if cri.containerd.None? then ContainerdConfig([], []) else cri.containerd.value;
      var plugins := containerd.plugins + [DiscardPlugin];
      match PrependLocalMirror(containerd.registries, c.registryPort)
      case Err(e) => Ensured(cri, Some(e))
      case Ok(registries) => Ensured(CRIConfig(Some(ContainerdConfig(registries, plugins))), None)
  }

  /** The registries part of the patch settles after one run, but the plugin
      list does not: every run appends one more copy of the setting. */
  lemma CRIConfigRerun(cluster: Result<ClusterView, string>, extension: Result<Extension, string>, cri: CRIConfig)
    requires Admit(cluster, extension).Proceed?
    requires EnsureCRIConfig(cluster, extension, cri).error.None?
    ensures var once := EnsureCRIConfig(cluster, extension, cri).value;
            var twice := EnsureCRIConfig(cluster, extension, once);
            && twice.error.None?
            && twice.value.containerd.value.registries == once.containerd.value.registries
            && twice.value.containerd.value.plugins == once.containerd.value.plugins + [DiscardPlugin]
            && twice.value != once
  {
    var c := Admit(cluster, extension).config;
    var once := EnsureCRIConfig(cluster, extension, cri).value;
    var before := if cri.containerd.None? then ContainerdConfig([], []) else cri.containerd.value;
    if |before.registries| > 0 {
      PrependLocalMirrorIdempotent(before.registries, c.registryPort.value);
    }
    var twice := EnsureCRIConfig(cluster, extension, once);
    assert |twice.value.containerd.value.plugins| == |once.containerd.value.plugins| + 1;
  }

  // ---------------------------------------------------------------------
  // The shared gate
  // ---------------------------------------------------------------------

  /** While the shoot is being deleted, none of the three methods changes
      anything or fails, whatever the Extension looks like. */
  lemma DeletionSkipsAll(cluster: Result<ClusterView, string>, extension: Result<Extension, string>,
                         encode: string -> string, ensureFile: (seq<File>, File) -> seq<File>, files: seq<File>,
                         nodeIP: string, ensureUnit: (seq<Unit>, Unit) -> seq<Unit>, units: seq<Unit>, cri: CRIConfig)
    requires cluster.Ok? && cluster.value.shootDeleting
    ensures EnsureAdditionalFiles(cluster, extension, encode, ensureFile, files) == Ensured(files, None)
    ensures EnsureAdditionalUnits(cluster, extension, nodeIP, ensureUnit, units) == Ensured(units, None)
    ensures EnsureCRIConfig(cluster, extension, cri) == Ensured(cri, None)
  {
  }

  /** A config from the defaulting decoder never makes a method dereference
      a nil port. */
  lemma DecodedConfigHasPorts(raw: Raw<VersionedConfig>)
    requires Decode(raw).Ok?
    ensures var c := Decode(raw).value;
            c.registryPort.Some? && c.routerPort.Some? && c.metricsPort.Some?
  {
    SetDefaultsProperties(raw.value);
  }
}
