/**
 The admission check for shoots that enable registry-spegel: every worker
 must run containerd, the extension must carry a provider config, and that
 config must pass ValidateSpegelConfig.
 */
module ShootValidator {
  import opened Base
  import opened SpegelApi

  const ExtensionType := "registry-spegel"
  const Containerd := "containerd"

  datatype Cri = Cri(name: string)

  /** A worker pool; None is a nil CRI section. */
  datatype Worker = Worker(cri: Option<Cri>)

  /** A shoot extension entry. The provider config is what the decoder
      produced from the raw payload; None is a nil provider config. */
  datatype Extension = Extension(extensionType: string, providerConfig: Option<Raw<SpegelConfig>>)

  datatype Shoot = Shoot(extensions: seq<Extension>, workers: seq<Worker>)

  /** The object under admission. */
  datatype Object = ShootObject(shoot: Shoot) | OtherObject(kind: string)

  datatype Error =
    | WrongObjectType(kind: string)
    | NotContainerd
    /** Reading the name of a nil CRI section: a Go panic. */
    | NilCri
    | MissingProviderConfig(fieldError: FieldError)
    | DecodeFailed(reason: string)
    /** The aggregate of a non-empty field error list. */
    | Aggregate(errors: seq<FieldError>)

  /** The field path of the i-th extension's provider config. */
  function ProviderConfigPath(i: int): (p: FieldPath)
    ensures p == [Field("spec"), Field("extensions"), Index(i), Field("providerConfig")]
  {
    Child([Field("spec"), Field("extensions"), Index(i)], "providerConfig")
  }

  /** The loop over the workers: the first worker without a containerd CRI
      decides. */
  function CheckWorkers(workers: seq<Worker>): (r: Option<Error>)
    ensures r.None? <==> forall i :: 0 <= i < |workers| ==> workers[i].cri == Some(Cri(Containerd))
    ensures r.Some? ==> r.value == NilCri || r.value == NotContainerd
  {
    if |workers| == 0 then None
    else
      match workers[0].cri
      case None => Some(NilCri)
      case Some(cri) =>
        if cri.name != Containerd then Some(NotContainerd)
        else
          // Index-shift hint: worker i of the tail is worker i + 1 here.
          assert forall i :: 1 <= i < |workers| ==> workers[i] == workers[1..][i - 1];
          CheckWorkers(workers[1..])
  }

  /** field.ErrorList.ToAggregate: nil for an empty list. */
  function ToAggregate(errs: seq<FieldError>): (r: Option<Error>)
    ensures r.None? <==> errs == []
    ensures r.Some? ==> r == Some(Aggregate(errs))
  {
    if errs == [] then None else Some(Aggregate(errs))
  }

  /** Validate. `find` is FindExtension: the index of the first extension of
      the given type and that extension, or -1. */
  function Validate(obj: Object, find: (seq<Extension>, string) -> (int, Extension)): (r: Option<Error>)
    ensures obj.OtherObject? ==> r == Some(WrongObjectType(obj.kind))
    ensures obj.ShootObject? && find(obj.shoot.extensions, ExtensionType).0 == -1 ==> r == None
  {
    match obj
    case OtherObject(kind) => Some(WrongObjectType(kind))
    case ShootObject(shoot) =>
      var (i, ext) := find(shoot.extensions, ExtensionType);
      if i == -1 then None
      else
        match CheckWorkers(shoot.workers)
        case Some(e) => Some(e)
        case None =>
          var path := ProviderConfigPath(i);
          match ext.providerConfig
          case None => Some(MissingProviderConfig(RequiredError(path, "providerConfig is required for the registry-spegel extension")))
          case Some(Undecodable(reason)) => Some(DecodeFailed(reason))
          case Some(Decodes(config)) => ToAggregate(ValidateSpegelConfig(config, path))
  }

  /** With the extension enabled, a worker without containerd is refused
      before the provider config is looked at, whatever that config is. */
  lemma WorkersCheckedFirst(shoot: Shoot, find: (seq<Extension>, string) -> (int, Extension), w: nat)
    requires find(shoot.extensions, ExtensionType).0 != -1
    requires w < |shoot.workers| && shoot.workers[w].cri != Some(Cri(Containerd))
    ensures var r := Validate(ShootObject(shoot), find);
            r == Some(NilCri) || r == Some(NotContainerd)
  {
  }

  /** With the extension enabled and all workers on containerd, the verdict
      is decided by the provider config alone: a Required error at
      spec.extensions[i].providerConfig when it is nil, a decode error, or
      exactly the aggregate of the config's validation errors. */
  lemma ProviderConfigDecides(shoot: Shoot, find: (seq<Extension>, string) -> (int, Extension))
    requires find(shoot.extensions, ExtensionType).0 != -1
    requires forall j :: 0 <= j < |shoot.workers| ==> shoot.workers[j].cri == Some(Cri(Containerd))
    ensures var (i, ext) := find(shoot.extensions, ExtensionType);
            var r := Validate(ShootObject(shoot), find);
            && (ext.providerConfig.None? ==>
                  r.Some? && r.value.MissingProviderConfig? && r.value.fieldError.errorType == Required &&
                  r.value.fieldError.path == [Field("spec"), Field("extensions"), Index(i), Field("providerConfig")])
            && (ext.providerConfig.Some? && ext.providerConfig.value.Undecodable? ==>
                  r == Some(DecodeFailed(ext.providerConfig.value.reason)))
            && (ext.providerConfig.Some? && ext.providerConfig.value.Decodes? ==>
                  var errs := ValidateSpegelConfig(ext.providerConfig.value.value, ProviderConfigPath(i));
                  (r.None? <==> errs == []) && (r.Some? ==> r.value == Aggregate(errs)))
  {
    var (i, ext) := find(shoot.extensions, ExtensionType);
    assert ProviderConfigPath(i) == [Field("spec"), Field("extensions"), Index(i), Field("providerConfig")];
  }

  /** A config the defaulting decoder produced is admitted once the workers
      pass: none of its ports is nil. */
  lemma DefaultedConfigAdmitted(shoot: Shoot, find: (seq<Extension>, string) -> (int, Extension), raw: Raw<VersionedConfig>)
    requires find(shoot.extensions, ExtensionType).0 != -1
    requires forall j :: 0 <= j < |shoot.workers| ==> shoot.workers[j].cri == Some(Cri(Containerd))
    requires Decode(raw).Ok?
    requires find(shoot.extensions, ExtensionType).1.providerConfig == Some(Decodes(Decode(raw).value))
    ensures Validate(ShootObject(shoot), find) == None
  {
    DecodedIsValid(raw, ProviderConfigPath(find(shoot.extensions, ExtensionType).0));
  }
}
