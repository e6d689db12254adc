/**
 The registry-spegel Extension controller. Spegel runs on the nodes, put
 there by the OperatingSystemConfig webhook; the controller only keeps the
 Prometheus scrape configuration for spegel's metrics in the shoot's
 control-plane namespace.
 */
module SpegelActuator {
  import opened Base

  /** What the controller needs of the Cluster resource. */
  datatype ClusterView = ClusterView(hibernationEnabled: bool)

  /** The registry-spegel Extension: its namespace and whether it carries a
      provider config at all (the controller never decodes it). */
  datatype Extension = Extension(namespace: string, hasProviderConfig: bool)

  datatype Error =
    | ClusterLookupFailed(reason: string)
    | MissingProviderConfig
    | DeployFailed(reason: string)
    | DestroyFailed(reason: string)

  /** The writes to the seed: the scrape configuration of a namespace is
      created or patched, or deleted. */
  datatype Effect = DeployScrapeConfig(namespace: string) | DestroyScrapeConfig(namespace: string)

  /** The outcomes of the calls the controller makes; None is success. */
  datatype Io = Io(cluster: Result<ClusterView, string>, deploy: Option<string>, destroy: Option<string>)

  type ActuatorRun = Run<Error, Effect>

  /** Reconcile: nothing while hibernated, a provider config is required, the
      scrape configuration is deployed. */
  function Reconcile(ex: Extension, io: Io): (r: ActuatorRun)
    ensures r.effects == [] || r.effects == [DeployScrapeConfig(ex.namespace)]
    ensures r.effects == [DeployScrapeConfig(ex.namespace)] <==>
              io.cluster.Ok? && !io.cluster.value.hibernationEnabled && ex.hasProviderConfig && io.deploy.None?
    ensures r.error.None? <==>
              io.cluster.Ok? && (io.cluster.value.hibernationEnabled || (ex.hasProviderConfig && io.deploy.None?))
    ensures io.cluster.Ok? && !io.cluster.value.hibernationEnabled && !ex.hasProviderConfig ==>
              r == Run(Some(MissingProviderConfig), [])
  {
    match io.cluster
    case Err(e) => Run(Some(ClusterLookupFailed(e)), [])
    case Ok(cluster) =>
      if cluster.hibernationEnabled then Run(None, [])
      else if !ex.hasProviderConfig then Run(Some(MissingProviderConfig), [])
      else if io.deploy.Some? then Run(Some(DeployFailed(io.deploy.value)), [])
      else Run(None, [DeployScrapeConfig(ex.namespace)])
  }

  /** Delete: the scrape configuration is removed, whatever the cluster and
      the Extension look like. */
  function Delete(ex: Extension, io: Io): (r: ActuatorRun)
    ensures r.error.None? <==> io.destroy.None?
    ensures r.error.None? ==> r.effects == [DestroyScrapeConfig(ex.namespace)]
    ensures r.error.Some? ==> r == Run(Some(DestroyFailed(io.destroy.value)), [])
  {
    if io.destroy.Some? then Run(Some(DestroyFailed(io.destroy.value)), [])
    else Run(None, [DestroyScrapeConfig(ex.namespace)])
  }

  /** ForceDelete does what Delete does. */
  function ForceDelete(ex: Extension, io: Io): (r: ActuatorRun)
    ensures r == Delete(ex, io)
  {
    Delete(ex, io)
  }

  /** Restore does what Reconcile does: at most the scrape configuration of
      the Extension's own namespace is deployed. */
  function Restore(ex: Extension, io: Io): (r: ActuatorRun)
    ensures r == Reconcile(ex, io)
    ensures forall e :: e in r.effects ==> e == DeployScrapeConfig(ex.namespace)
  {
    Reconcile(ex, io)
  }

  /** Migrate, unlike the registry-cache controller's, deletes the scrape
      configuration: it does what Delete does, and so is never a no-op. */
  function Migrate(ex: Extension, io: Io): (r: ActuatorRun)
    ensures r == Delete(ex, io)
    ensures r.error.Some? || r.effects == [DestroyScrapeConfig(ex.namespace)]
  {
    Delete(ex, io)
  }
}
