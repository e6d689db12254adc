# registry-cache extension: a Dafny model

This project models the decision and synthesis logic of the gardener
registry-cache extension, and proves properties of that model. The extension
has two parts.

**Registry caches.** Every upstream registry the shoot owner configures gets
a pull-through cache in the shoot.
- The actuator reconciles the `registry-cache` Extension.
  - For each upstream it builds a Service and a single-replica StatefulSet, with credentials taken from a referenced Secret.
  - It applies them as one bundle.
  - It checks that every cache's Service exists, then writes the monitoring ConfigMap.
- Two node-side webhooks point containerd at the caches, writing one `hosts.toml` per upstream:
  - the OperatingSystemConfig webhook reads the Extension's provider status;
  - the control-plane webhook lists the labelled cache Services in the shoot.

**Spegel.** Spegel is a peer-to-peer image mirror that runs on every node.
- The webhook installs on each node:
  - a default `hosts.toml`;
  - the spegel binary and a metrics scraper;
  - two systemd units;
  - a containerd patch that puts the node-local mirror in front of every registry.
- The provider config has three ports. It is defaulted, validated and converted between its versioned and internal forms.
- An admission validator requires containerd on every worker, and requires a valid provider config.
- A small actuator keeps a Prometheus scrape configuration.

Modules:
- `Base`:
  - `Option`, `Result` and `Raw` (a decoded payload or a decode error);
  - the shapes of a run: `Run` (error plus effects) and `Ensured` (value plus error);
  - Go's `strings.Split`/`Replace`, `%d`, and `filepath.Join` (as path cleaning);
  - a generic loop that stops at the first error.
- `Keyed`: list operations keyed by a function. These include `appendUniqueFile`'s drop-then-append and the replace-first-or-append merge.
- `NodeConfig`: the OperatingSystemConfig types: files, units and the CRI config.
- `RegistryCache`: `registryCache.Ensure`.
- `RegistryActuator`: the registry-cache Extension actuator.
- `StatusEnsurer`: the OperatingSystemConfig webhook.
- `ServiceEnsurer`: the control-plane webhook.
- `SpegelApi`: the spegel provider config.
- `SpegelEnsurer`: the spegel webhook.
- `ShootValidator`: spegel admission.
- `SpegelActuator`: the spegel Extension actuator.

Inputs and outputs:
- Every cluster call becomes an input:
  - lookups are `Result`s;
  - writes are `Option<string>` failures;
  - secret data is a map;
  - listings are sequences.
- What an actuator changes is recorded as a sequence of effects.
- A webhook's mutation is a pure function from the old list (or CRI config) to the new one. It also returns the error.
- A Go panic becomes an error value of its own, so the model says where one happens. These are:
  - `Hosts[0]` on an empty host list;
  - `Ports[0]` on a Service without ports;
  - dereferencing a nil port;
  - reading the name of a nil CRI section.

## Model

| member | source | states |
|---|---|---|
| RegistryCache.UpstreamHost | pkg/controller/registrydeployer.go:59 | the host is a prefix of the upstream holding no ':', and is all of it or is followed by ':' |
| RegistryCache.CacheName | pkg/controller/registrydeployer.go:59 | the name is "registry-" followed by the upstream's host part with every '.' turned into '-', character by character; it holds no '.' |
| RegistryCache.CacheNameIgnoresPort | pkg/controller/registrydeployer.go:59 | upstreams that differ only after the first ':' get the same name |
| RegistryCache.CacheNameCollides | pkg/controller/registrydeployer.go:59 | distinct upstreams "a.b" and "a-b" share one object name |
| RegistryCache.CacheNamePortCollides | pkg/controller/registrydeployer.go:59 | an example of CacheNameIgnoresPort: "docker.io" and "docker.io:443" share one object name |
| RegistryCache.CacheLabels | pkg/controller/registrydeployer.go:61-67 | the upstream label always holds the full upstream; app=<name> is added only when there were no labels; other caller labels are kept |
| RegistryCache.UpstreamURL | pkg/controller/registrydeployer.go:69-73 | exactly "docker.io" becomes https://registry-1.docker.io; anything else, "docker.io:443" included, is https:// plus the upstream |
| RegistryCache.EnvVars | pkg/controller/registrydeployer.go:75-100 | the remote URL and delete flag come first; username and quoted password are added iff both are non-empty, so the length is 2 or 4 |
| RegistryCache.PasswordRoundTrip | pkg/controller/registrydeployer.go:86-100 | stripping the single quotes from the password variable gives back the password |
| RegistryCache.Ensure | pkg/controller/registrydeployer.go:58-185 | exactly [Service, StatefulSet], both named after the upstream in registry-cache, sharing one label map; port 5000 targets the named container port; 1 replica; one claim "cache-volume" of the configured size mounted at /var/lib/registry; the Service selects the StatefulSet's pods; only name and labels of the receiver change; no error |
| RegistryCache.EnsureNameDependsOnlyOnUpstream | pkg/controller/registrydeployer.go:59-67 | name, labels and Service depend only on the upstream and the labels on entry |
| RegistryActuator.LookupReferencedSecret | pkg/controller/actuator.go:699-712 | the first shoot resource with the name decides: "ref-" plus its target when it is a Secret, an error otherwise; no shoot or no match is an error |
| RegistryActuator.ValidateUpstreamRegistrySecret | pkg/controller/actuator.go:715-727 | accepted iff the keys are exactly {username, password}; missing username is reported before missing password, before extra entries |
| RegistryActuator.TwoKeys | pkg/controller/actuator.go:723 | with both keys present, a size of two means no other key |
| RegistryActuator.Credentials | pkg/controller/actuator.go:570-589 | empty credentials without a secret reference; with one, success exactly when the lookup succeeds, the secret is present and it validates, and then the values are the secret's two entries; a failed lookup is returned as it is |
| RegistryActuator.CacheObjects | pkg/controller/actuator.go:558-599 | one cache yields two objects exactly when its credentials resolve |
| RegistryActuator.CachesObjects | pkg/controller/actuator.go:558-600 | the loop succeeds iff every cache's credentials resolve; then it yields 2N objects, and objects 2i and 2i+1 are those of cache i |
| RegistryActuator.Bundle | pkg/controller/actuator.go:548-600 | the bundle is built exactly when every cache's objects are; it has 1 + 2N objects, the cache namespace first and then the per-cache objects in configuration order |
| RegistryActuator.BundleShape | pkg/controller/actuator.go:548-600 | after the namespace, each cache contributes exactly the two objects Ensure builds for it, in config order |
| RegistryActuator.ScrapeJobs | pkg/controller/actuator.go:597 | one scrape job per cache, named after it, in config order |
| RegistryActuator.CreateResources | pkg/controller/actuator.go:543-546 | a missing registry image fails before anything happens |
| RegistryActuator.Reconcile | pkg/controller/actuator.go:503-506 | a nil provider config succeeds with no effects |
| RegistryActuator.BundleCredentialFailure | pkg/controller/actuator.go:570-589 | any cache whose credentials fail makes the bundle fail, with the error of the first failing cache in configuration order |
| RegistryActuator.CredentialFailureAborts | pkg/controller/actuator.go:570-611 | any credential failure ends Reconcile before anything is applied, with the error of the first failing cache |
| RegistryActuator.ServiceCountGate | pkg/controller/actuator.go:633-656 | a listed-service count other than the cache count fails and writes no monitoring ConfigMap |
| RegistryActuator.ReconcileSuccess | pkg/controller/actuator.go:542-660 | a success applied the full bundle, found one service per cache, then wrote the monitoring ConfigMap; no other effect |
| RegistryActuator.ReconcileSucceeds | pkg/controller/actuator.go:542-660 | when the cluster, image, every credential, serialisation, apply, shoot client, listing and monitoring write succeed and one service per cache is found, Reconcile succeeds, applying the bundle and then writing the monitoring ConfigMap |
| RegistryActuator.Delete | pkg/controller/actuator.go:528-530 | the bundle's deletion is requested; the run succeeds iff the request and the wait both succeed |
| RegistryActuator.Restore | pkg/controller/actuator.go:533-535 | behaves exactly as Reconcile |
| RegistryActuator.Migrate | pkg/controller/actuator.go:538-540 | always succeeds with no effects |
| Keyed.AppendUnique | pkg/webhook/operatingsystemconfig/ensurer.go:120-130 | the new entry is last, and every earlier entry is an old one with a different key |
| Keyed.AppendAll | pkg/webhook/operatingsystemconfig/ensurer.go:102-114 | the loop of appendUniqueFile calls, one per added entry; the last added entry ends up last (its partners are AppendAllOnly, AppendAllShape and AppendAllIdempotent) |
| Keyed.Upsert | pkg/webhook/spegel/ensurer.go:108-141 | the replace-or-append behaviour assumed of EnsureFileWithPath: the length grows by one exactly when the key is new, entries with other keys stay where they are, and the new entry is present (partners UpsertIdempotent, UpsertFirstEntry) |
| Keyed.AppendUniqueOnly | pkg/webhook/operatingsystemconfig/ensurer.go:120-130 | afterwards the new entry is the only one with its key; every other key keeps exactly its entries |
| Keyed.AppendUniqueKeepsOthers | pkg/webhook/operatingsystemconfig/ensurer.go:120-130 | entries with other keys stay in their original order |
| Keyed.AppendUniqueIdempotent | pkg/webhook/operatingsystemconfig/ensurer.go:120-130 | applying the same entry twice equals applying it once |
| Keyed.AppendAllOnly | pkg/webhook/operatingsystemconfig/ensurer.go:102-114 | after a loop of appends, each added key has one entry, the last one added with it; other keys are untouched |
| Keyed.AppendAllShape | pkg/webhook/operatingsystemconfig/ensurer.go:102-114 | the result is the old entries with untouched keys, in order, followed by the added ones |
| Keyed.AppendAllIdempotent | pkg/webhook/operatingsystemconfig/ensurer.go:102-114 | running the loop twice with the same entries equals running it once |
| NodeConfig.AppendUniqueFile | pkg/webhook/operatingsystemconfig/ensurer.go:120-130 | the copy loop computes drop-by-path-then-append |
| StatusEnsurer.HostsToml | pkg/webhook/operatingsystemconfig/ensurer.go:36-40 | the hosts.toml template with the server and host filled in |
| StatusEnsurer.HostsTomlInjective | pkg/webhook/operatingsystemconfig/ensurer.go:36-40 | with servers of equal length, equal hosts.toml files have equal servers and equal hosts |
| StatusEnsurer.MirrorPath | pkg/webhook/operatingsystemconfig/ensurer.go:106 | filepath.Join of /etc/containerd/certs.d, the upstream and hosts.toml, cleaned; MirrorPathOfPlainUpstream gives its value for a one-segment upstream |
| StatusEnsurer.WithMirrors | pkg/webhook/operatingsystemconfig/ensurer.go:102-114 | the files after the loop: the keyed fold of the mirror files over the given files (partners OneFilePerMirror, OtherFilesKept) |
| StatusEnsurer.MirrorFile | pkg/webhook/operatingsystemconfig/ensurer.go:36-40 | the file of a cache is keyed by its upstream, has mode 0644, and names the upstream URL as server and the endpoint as host |
| StatusEnsurer.MirrorFiles | pkg/webhook/operatingsystemconfig/ensurer.go:102-114 | one file per reported cache, in status order |
| StatusEnsurer.AddMirrors | pkg/webhook/operatingsystemconfig/ensurer.go:102-114 | the loop of appendUniqueFile calls is the keyed fold over the mirror files |
| StatusEnsurer.EnsureAdditionalFiles | pkg/webhook/operatingsystemconfig/ensurer.go:65-117 | a failed cluster lookup is an error; deletion or hibernation succeeds with the files unchanged; every error leaves the files unchanged |
| StatusEnsurer.EnsureSucceeds | pkg/webhook/operatingsystemconfig/ensurer.go:65-117 | when the cluster is found, the shoot is neither being deleted nor hibernated and the Extension carries a decodable status, the result is success with exactly the status's mirror files folded in; past the skip rules, success iff the Extension has a decodable status |
| StatusEnsurer.OneFilePerMirror | pkg/webhook/operatingsystemconfig/ensurer.go:102-114 | each reported upstream's path holds exactly one file, that of its last cache |
| StatusEnsurer.OtherFilesKept | pkg/webhook/operatingsystemconfig/ensurer.go:102-114 | files at other paths survive in order, ahead of the mirror files |
| StatusEnsurer.EnsureIdempotent | pkg/webhook/operatingsystemconfig/ensurer.go:65-117 | mutating twice equals mutating once |
| StatusEnsurer.MirrorPathOfPlainUpstream | pkg/webhook/operatingsystemconfig/ensurer.go:106 | for a one-segment upstream the path is /etc/containerd/certs.d/<upstream>/hosts.toml |
| ServiceEnsurer.ListSelected | pkg/webhook/controlplane/ensurer.go:77-90 | the listing is exactly the Services carrying the upstream label |
| ServiceEnsurer.ServerHost | pkg/webhook/controlplane/ensurer.go:103-107 | only exactly "docker.io" is rewritten to registry-1.docker.io |
| ServiceEnsurer.ServerMatchesCacheUpstream | pkg/webhook/controlplane/ensurer.go:103-107 | for every upstream, the webhook's server host with https:// is the URL the cache proxies to (pkg/controller/registrydeployer.go:69-73) |
| ServiceEnsurer.ServiceHostsToml | pkg/webhook/controlplane/ensurer.go:103-115 | the file's first line names as server the URL the cache for that upstream proxies to |
| ServiceEnsurer.ServiceFile | pkg/webhook/controlplane/ensurer.go:97-118 | a file exists iff the Service is labelled and has a port; it sits at the verbatim label's path with mode 0644 and points at http://<ClusterIP>:<first port> |
| ServiceEnsurer.AddServiceFiles | pkg/webhook/controlplane/ensurer.go:97-119 | the loop succeeds iff every Service yields a file |
| ServiceEnsurer.ServiceFiles | pkg/webhook/controlplane/ensurer.go:97-119 | one file per Service, in listing order |
| ServiceEnsurer.AddServiceFilesAll | pkg/webhook/controlplane/ensurer.go:97-119 | a successful loop is the keyed fold over the Service files |
| ServiceEnsurer.EnsureAdditionalFiles | pkg/webhook/controlplane/ensurer.go:56-121 | a failed cluster lookup, or a last operation that is missing or not Succeeded, fails before any change; errors other than the port panic leave the files unchanged; an empty listing succeeds with the files unchanged (lines 92-95); past the checks, success exactly when every listed Service has a port |
| ServiceEnsurer.AddServiceFilesNoLabelError | pkg/webhook/controlplane/ensurer.go:97-101 | over selected Services the loop can fail only for a missing port |
| ServiceEnsurer.EnsureSuccess | pkg/webhook/controlplane/ensurer.go:92-119 | a success over a non-empty listing adds the files of all listed Services, in order |
| ServiceEnsurer.NeverMissingLabel | pkg/webhook/controlplane/ensurer.go:77-101 | the missing-label error cannot happen behind the label selector |
| ServiceEnsurer.OneFilePerUpstream | pkg/webhook/controlplane/ensurer.go:109-134 | each labelled upstream gets exactly one file, that of the last Service carrying it |
| ServiceEnsurer.ServicePath | pkg/webhook/controlplane/ensurer.go:110 | the formatted, uncleaned path /etc/containerd/certs.d/<upstream>/hosts.toml (partners ServicePathInjective, SamePathAsStatusEnsurer) |
| ServiceEnsurer.ServicePathInjective | pkg/webhook/controlplane/ensurer.go:110 | distinct upstreams get distinct paths |
| ServiceEnsurer.AddServiceFilesIdempotent | pkg/webhook/controlplane/ensurer.go:97-119 | running the Service-file loop over its own output changes nothing |
| ServiceEnsurer.EnsureIdempotent | pkg/webhook/controlplane/ensurer.go:56-121 | mutating twice equals mutating once |
| ServiceEnsurer.SamePathAsStatusEnsurer | pkg/webhook/controlplane/ensurer.go:110 | for a one-segment upstream both webhooks write the same path |
| SpegelApi.DefaultPort | pkg/apis/spegel/v1alpha1/defaults.go:11-19 | a nil port gets the default, a set one is kept |
| SpegelApi.SetDefaults | pkg/apis/spegel/v1alpha1/defaults.go:10-20 | nil ports become 5000, 5001 and 9090; set ports are left as they are |
| SpegelApi.SetDefaultsProperties | pkg/apis/spegel/v1alpha1/defaults.go:10-20 | afterwards no port is nil; a fully set config is unchanged; defaulting is idempotent |
| SpegelApi.SetDefaultsEmpty | pkg/apis/spegel/v1alpha1/defaults.go:10-20 | an example of SetDefaults' contract: the empty config defaults to 5000, 5001, 9090 |
| SpegelApi.ToInternal | pkg/apis/spegel/v1alpha1/zz_generated.conversion.go:39-44 | every port is copied as it is, nil included, with no error |
| SpegelApi.ToVersioned | pkg/apis/spegel/v1alpha1/zz_generated.conversion.go:51-56 | every port is copied as it is, nil included, with no error |
| SpegelApi.ConversionRoundTrip | pkg/apis/spegel/v1alpha1/zz_generated.conversion.go:39-56 | converting there and back is the identity in both directions |
| SpegelApi.PortErrors | pkg/apis/spegel/validation/validation.go:12-20 | one Required error at the port's child path iff the port is nil |
| SpegelApi.ValidateSpegelConfig | pkg/apis/spegel/validation/validation.go:9-22 | one Required error per nil port, in the order registry, router, metrics, at fldPath's children, with the source's messages; empty iff all set; at most 3 |
| SpegelApi.DecodedIsValid | pkg/apis/spegel/validation/validation.go:9-22 | a defaulted, decoded config passes validation |
| SpegelApi.ValidationIgnoresPortValues | pkg/apis/spegel/validation/validation.go:9-22 | the errors depend only on which ports are nil |
| ShootValidator.ProviderConfigPath | pkg/admission/validator/spegel/shoot.go:50 | the path is exactly spec.extensions[i].providerConfig |
| ShootValidator.CheckWorkers | pkg/admission/validator/spegel/shoot.go:44-48 | passes iff every worker has a containerd CRI |
| ShootValidator.ToAggregate | pkg/admission/validator/spegel/shoot.go:60-63 | no error for an empty list, the aggregate otherwise |
| ShootValidator.Validate | pkg/admission/validator/spegel/shoot.go:33-42 | a non-Shoot object is refused; a shoot without registry-spegel is accepted |
| ShootValidator.WorkersCheckedFirst | pkg/admission/validator/spegel/shoot.go:44-48 | a non-containerd worker is refused whatever the provider config |
| ShootValidator.ProviderConfigDecides | pkg/admission/validator/spegel/shoot.go:50-63 | past the workers: a nil config gives a Required error at spec.extensions[i].providerConfig, a decode failure its error, else exactly the aggregate of the validation errors |
| ShootValidator.DefaultedConfigAdmitted | pkg/admission/validator/spegel/shoot.go:55-63 | a config from the defaulting decoder is admitted once the workers pass |
| SpegelEnsurer.Admit | pkg/webhook/spegel/ensurer.go:79-106 | deletion skips; the methods go ahead iff the cluster is found, not deleting, and the Extension has a decodable provider config; a nil one is an error |
| SpegelEnsurer.DefaultHostsToml | pkg/webhook/spegel/ensurer.go:54-57 | the default hosts.toml template with the registry port filled in |
| SpegelEnsurer.MetricsScript | pkg/webhook/spegel/ensurer.go:58-75 | the metrics scraper script with the metrics port filled in |
| SpegelEnsurer.PortTextsInjective | pkg/webhook/spegel/ensurer.go:54-75 | the default hosts.toml and the metrics script each determine the port written into them |
| SpegelEnsurer.SpegelFiles | pkg/webhook/spegel/ensurer.go:108-141 | three files at distinct paths: the default hosts.toml (0644, base64 of the template with the registry port), the binary (0755, image ref), the metrics script (0755, base64 with the metrics port) |
| SpegelEnsurer.EnsureAdditionalFiles | pkg/webhook/spegel/ensurer.go:78-144 | deletion succeeds unchanged; gate errors pass through unchanged; past the gate, success iff the registry and metrics ports are set, and a success folds the three files in with EnsureFileWithPath |
| SpegelEnsurer.FilesPlacedOnce | pkg/webhook/spegel/ensurer.go:108-141 | with a replace-or-append EnsureFileWithPath, each file is first at its path and a second run changes nothing |
| SpegelEnsurer.CLIFlags | pkg/webhook/spegel/ensurer.go:292-312 | 17 flags starting with "registry"; the three listen addresses carry their ports; local-addr carries the registry port |
| SpegelEnsurer.CLIFlagsDeterminePorts | pkg/webhook/spegel/ensurer.go:292-312 | distinct port triples give distinct command lines |
| SpegelEnsurer.SpegelUnits | pkg/webhook/spegel/ensurer.go:176-215 | spegel.service and spegel-metrics.service, both started and enabled, each with the one file it runs |
| SpegelEnsurer.EnsureAdditionalUnits | pkg/webhook/spegel/ensurer.go:146-218 | deletion succeeds unchanged; past the gate success iff all three ports are set, then the units are folded in with EnsureUnitWithName |
| SpegelEnsurer.UnitsPlacedOnce | pkg/webhook/spegel/ensurer.go:176-215 | with a replace-or-append EnsureUnitWithName, each unit is first under its name and a second run changes nothing |
| SpegelEnsurer.PrependOne | pkg/webhook/spegel/ensurer.go:264-271 | a registry whose first host is the local mirror is untouched; any other gets it prepended with the old hosts kept in order |
| SpegelEnsurer.PrependLocalMirror | pkg/webhook/spegel/ensurer.go:263-272 | succeeds iff every registry has a host and the port is set; the registry count is kept and each registry is treated alone |
| SpegelEnsurer.PrependLocalMirrorIdempotent | pkg/webhook/spegel/ensurer.go:263-272 | afterwards every registry starts with the local mirror, and a second run changes nothing |
| SpegelEnsurer.EnsureCRIConfig | pkg/webhook/spegel/ensurer.go:221-275 | deletion succeeds unchanged; past the gate, success iff the mirror prepend succeeds on every registry; a success initialises a nil containerd section, appends exactly one plugin entry, and prepends the mirror |
| SpegelEnsurer.CRIConfigRerun | pkg/webhook/spegel/ensurer.go:250-272 | a second run leaves the registries alone but appends the plugin entry again, so the config changes |
| SpegelEnsurer.DeletionSkipsAll | pkg/webhook/spegel/ensurer.go:84-87 | with a deletion timestamp all three methods succeed and change nothing |
| SpegelEnsurer.DecodedConfigHasPorts | pkg/apis/spegel/v1alpha1/defaults.go:10-20 | a config from the defaulting decoder never leads to a nil-port dereference |
| SpegelActuator.Reconcile | pkg/controller/spegel/actuator.go:31-51 | hibernation succeeds with no effects before the provider config is checked; a nil one is an error; otherwise success iff the deploy succeeds, and only then the scrape config is written |
| SpegelActuator.Delete | pkg/controller/spegel/actuator.go:53-58 | only the scrape config is destroyed; success iff that succeeds |
| SpegelActuator.ForceDelete | pkg/controller/spegel/actuator.go:60-62 | behaves exactly as Delete |
| SpegelActuator.Restore | pkg/controller/spegel/actuator.go:64-66 | behaves exactly as Reconcile; deploys nothing but the Extension namespace's scrape configuration |
| SpegelActuator.Migrate | pkg/controller/spegel/actuator.go:68-70 | behaves exactly as Delete: it either fails or removes the scrape configuration, never succeeds as a no-op |

## Behaviour to note

- The cache name is "registry-" plus the host part with dots replaced. Nothing is lower-cased, so distinct upstreams can collide (`CacheNameCollides`).
- The actuator never publishes a provider status. `updateStatus` (pkg/controller/actuator.go:693-697) is never called, and its body writes nothing.
- The spegel webhook skips only for a shoot that is being deleted. A hibernated shoot is mutated like any other.
- `EnsureCRIConfig` appends the `discard_unpacked_layers` plugin entry on every call, with no deduplication, so the CRI patch is not idempotent (`CRIConfigRerun`). The registry-host prepend is idempotent.
- The hosts.toml that the control-plane webhook writes names as its server the registry that the cache proxies to, including the docker.io rewrite (`ServiceEnsurer.ServerMatchesCacheUpstream`).

## Left out

- Kubernetes I/O is not modelled. This covers client Get and List, shoot-client creation, the ManagedResource secret and its reconcile, and merge patches. Their outcomes are inputs.
- The bounded two-minute wait of the delete. It is time and context cancellation, so only its outcome is an input.
- Monitoring payloads are opaque configuration blobs; only the scrape job names are modelled. This covers:
  - the scrape config and dashboard constants of pkg/controller/actuator.go;
  - the ScrapeConfig that pkg/controller/spegel/monitoring.go builds.
- `GetOutboundIP` dials UDP. The node IP is a parameter, and the model assumes the dial succeeds. In the source a failed dial calls `log.Fatal` (pkg/webhook/spegel/ensurer.go:279-282). That ends the process inside `EnsureAdditionalUnits`, while the first unit is being built and before any unit is written.
- The systemd unit text is out. A unit's content is modelled as the node IP, the binary it starts and the CLI flags.
- Base64, the provider-config decoders, `GetUpstreamURL`, `FindExtension`, `EnsureFileWithPath` and `EnsureUnitWithName` are calls into code that is not part of this model. Each is a function parameter.
  - The decoders are modelled as inputs: the decoded value or a decode error.
- SpegelEnsurer.FilesPlacedOnce, SpegelEnsurer.UnitsPlacedOnce: these hold only under an assumption. They assume `EnsureFileWithPath` and `EnsureUnitWithName` replace the first entry with the same key in place, or append. Their code is not part of this model.
- SpegelEnsurer.DecodedConfigHasPorts, ShootValidator.DefaultedConfigAdmitted: these take the decoder to be the defaulting one (default, then convert). The decoder's construction is not part of this model.
- Constants from gardener packages that are not part of this model take assumed values:
  - `ReferencedResourcesPrefix` "ref-";
  - `OperatingSystemConfigFilePathBinaries` "/opt/bin";
  - `B64FileCodecID` "b64";
  - `metav1.NamespaceSystem` "kube-system".
- A nil `Shoot` in the Cluster is not modelled for the webhooks, which read its deletion timestamp. The actuator's secret lookup handles a nil shoot.
- `*cache.Size` and `*cache.GarbageCollectionEnabled` are taken as defaulted, never nil.
- In the spegel ensurer, a panic becomes an error value that leaves the input unchanged. The model does not track the writes made before that panic. The two lines below list those writes.
- SpegelEnsurer.EnsureCRIConfig: in the source, a registry with no hosts, or a nil registry port, panics inside the prepend loop. By then the containerd section has been initialised and the plugin entry appended (pkg/webhook/spegel/ensurer.go:250-258). On an empty-hosts panic at a later registry, the earlier registries have also had the mirror prepended. The model returns the CRI config unchanged with the error.
- SpegelEnsurer.EnsureAdditionalFiles: in the source, a nil metrics port panics after two files were already written. The model reports the error with the files unchanged.
- ServiceEnsurer.EnsureAdditionalFiles: in the source, a Service without ports panics part-way through the loop. Like the source, the model keeps the files already appended for the earlier Services and reports the error. Its contract does not state which files those are.
- The registry-cache actuator's provider config is taken as decoded into the v1alpha1 `RegistryConfig` (pkg/controller/actuator.go:515). The decoder is not part of this model.
- pkg/apis/registry/v1alpha2/zz_generated.deepcopy.go only copies values. Deep copies are the identity in a value model, so they do not appear.
- cmd/gardener-extension-registry-cache/app/options.go and pkg/webhook/controlplane/add.go are not part of this model. They only wire flags and register the webhook.
- Concurrency of reconciles is managed by the controller framework.
