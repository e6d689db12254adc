/**
 The registry-spegel provider configuration: the three node-local ports of
 the spegel daemon, in the versioned form operators write (v1alpha1) and
 the internal form the webhooks read, with defaulting, validation and the
 generated conversions between the two.
 */
module SpegelApi {
  import opened Base

  /** Go's uint16. */
  newtype uint16 = x: int | 0 <= x < 0x1_0000

  const DefaultRegistryPort: uint16 := 5000
  const DefaultRouterPort: uint16 := 5001
  const DefaultMetricsPort: uint16 := 9090

  /** v1alpha1.SpegelConfig; None is a nil pointer. */
  datatype VersionedConfig = VersionedConfig(registryPort: Option<uint16>, routerPort: Option<uint16>, metricsPort: Option<uint16>)

  /** The internal spegel.SpegelConfig. */
  datatype SpegelConfig = SpegelConfig(registryPort: Option<uint16>, routerPort: Option<uint16>, metricsPort: Option<uint16>)

  // ---------------------------------------------------------------------
  // Defaulting
  // ---------------------------------------------------------------------

  function DefaultPort(p: Option<uint16>, d: uint16): (r: Option<uint16>)
    ensures p.None? ==> r == Some(d)
    ensures p.Some? ==> r == p
  {
    if p.None? then Some(d) else p
  }

  /** SetDefaults_SpegelConfig: each nil port gets its default, a set port
      stays as it is. */
  function SetDefaults(c: VersionedConfig): (r: VersionedConfig)
    ensures r.registryPort == if c.registryPort.None? then Some(DefaultRegistryPort) else c.registryPort
    ensures r.routerPort == if c.routerPort.None? then Some(DefaultRouterPort) else c.routerPort
    ensures r.metricsPort == if c.metricsPort.None? then Some(DefaultMetricsPort) else c.metricsPort
  {
    VersionedConfig(DefaultPort(c.registryPort, DefaultRegistryPort),
                    DefaultPort(c.routerPort, DefaultRouterPort),
                    DefaultPort(c.metricsPort, DefaultMetricsPort))
  }

  predicate AllSet(c: VersionedConfig)
  {
    c.registryPort.Some? && c.routerPort.Some? && c.metricsPort.Some?
  }

  /** Defaulting leaves no port nil, does nothing to a config with every
      port set, and so is idempotent. */
  lemma SetDefaultsProperties(c: VersionedConfig)
    ensures AllSet(SetDefaults(c))
    ensures AllSet(c) ==> SetDefaults(c) == c
    ensures SetDefaults(SetDefaults(c)) == SetDefaults(c)
  {
  }

  /** An example of SetDefaults' contract: the empty config defaults to
      ports 5000, 5001 and 9090. */
  lemma SetDefaultsEmpty()
    ensures SetDefaults(VersionedConfig(None, None, None)) == VersionedConfig(Some(5000), Some(5001), Some(9090))
  {
  }

  // ---------------------------------------------------------------------
  // Conversion
  // ---------------------------------------------------------------------

  /** v1alpha1 to internal: every port copied as it is, nil included. The
      generated conversion never fails, so the model returns no error. */
  function ToInternal(c: VersionedConfig): (r: SpegelConfig)
    ensures r.registryPort == c.registryPort && r.routerPort == c.routerPort && r.metricsPort == c.metricsPort
  {
    SpegelConfig(c.registryPort, c.routerPort, c.metricsPort)
  }

  /** Internal to v1alpha1: every port copied as it is, nil included. */
  function ToVersioned(c: SpegelConfig): (r: VersionedConfig)
    ensures r.registryPort == c.registryPort && r.routerPort == c.routerPort && r.metricsPort == c.metricsPort
  {
    VersionedConfig(c.registryPort, c.routerPort, c.metricsPort)
  }

  /** Converting there and back is the identity, in both directions. */
  lemma ConversionRoundTrip(v: VersionedConfig, c: SpegelConfig)
    ensures ToVersioned(ToInternal(v)) == v
    ensures ToInternal(ToVersioned(c)) == c
  {
  }

  /** The decoder the webhooks use: the versioned payload is defaulted and
      converted to the internal form; a payload that does not parse is an
      error. */
  function Decode(raw: Raw<VersionedConfig>): (r: Result<SpegelConfig, string>)
    ensures raw.Undecodable? ==> r == Err(raw.reason)
    ensures raw.Decodes? ==> r == Ok(ToInternal(SetDefaults(raw.value)))
  {
    match raw
    case Undecodable(reason) => Err(reason)
    case Decodes(v) => Ok(ToInternal(SetDefaults(v)))
  }

  // ---------------------------------------------------------------------
  // Field paths and validation
  // ---------------------------------------------------------------------

  datatype PathElement = Field(name: string) | Index(index: int)

  /** A field.Path, from the root. */
  type FieldPath = seq<PathElement>

  function Child(p: FieldPath, name: string): (r: FieldPath)
    ensures |r| == |p| + 1 && r[..|p|] == p && r[|p|] == Field(name)
  {
    p + [Field(name)]
  }

  datatype ErrorType = Required | Invalid | Forbidden

  datatype FieldError = FieldError(errorType: ErrorType, path: FieldPath, detail: string)

  /** A field.Required error. */
  function RequiredError(p: FieldPath, detail: string): FieldError
  {
    FieldError(Required, p, detail)
  }

  /** The errors ValidateSpegelConfig reports for one port. */
  function PortErrors(port: Option<uint16>, fldPath: FieldPath, name: string, detail: string): (errs: seq<FieldError>)
    ensures port.Some? <==> errs == []
    ensures port.None? ==> errs == [RequiredError(Child(fldPath, name), detail)]
  {
    if port.None? then [RequiredError(Child(fldPath, name), detail)] else []
  }

  function NilCount(c: SpegelConfig): nat
  {
    (if c.registryPort.None? then 1 else 0) + (if c.routerPort.None? then 1 else 0) +
    (if c.metricsPort.None? then 1 else 0)
  }

  /** ValidateSpegelConfig: one Required error per nil port, in the order
      registryPort, routerPort, metricsPort, at the port's field under fldPath. */
  function ValidateSpegelConfig(c: SpegelConfig, fldPath: FieldPath): (errs: seq<FieldError>)
    ensures |errs| == NilCount(c) <= 3
    ensures errs == [] <==> c.registryPort.Some? && c.routerPort.Some? && c.metricsPort.Some?
    ensures forall e :: e in errs ==> e.errorType == Required && |e.path| == |fldPath| + 1 && e.path[..|fldPath|] == fldPath
    ensures c.registryPort.None? ==> errs[0] == RequiredError(Child(fldPath, "registryPort"), "registry port must be provided")
    ensures c.metricsPort.None? ==> errs[|errs| - 1] == RequiredError(Child(fldPath, "metricsPort"), "metrics port must be provided")
    ensures c.routerPort.None? ==>
              errs[if c.registryPort.None? then 1 else 0] == RequiredError(Child(fldPath, "routerPort"), "router port must be provided")
  {
    PortErrors(c.registryPort, fldPath, "registryPort", "registry port must be provided") +
    PortErrors(c.routerPort, fldPath, "routerPort", "router port must be provided") +
    PortErrors(c.metricsPort, fldPath, "metricsPort", "metrics port must be provided")
  }

  /** A decoded config always passes validation: the decoder has already
      filled in every port. */
  lemma DecodedIsValid(raw: Raw<VersionedConfig>, fldPath: FieldPath)
    requires Decode(raw).Ok?
    ensures ValidateSpegelConfig(Decode(raw).value, fldPath) == []
  {
  }

  /** Validation looks only at which ports are nil: two configs with the
      same nil ports get the same errors. */
  lemma ValidationIgnoresPortValues(a: SpegelConfig, b: SpegelConfig, fldPath: FieldPath)
    requires a.registryPort.None? == b.registryPort.None?
    requires a.routerPort.None? == b.routerPort.None?
    requires a.metricsPort.None? == b.metricsPort.None?
    ensures ValidateSpegelConfig(a, fldPath) == ValidateSpegelConfig(b, fldPath)
  {
  }
}
