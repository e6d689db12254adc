/**
 The node-side configuration an OperatingSystemConfig carries and the
 extension's webhooks mutate: files addressed by path, systemd units
 addressed by name, and the container runtime's registry configuration.
 */
module NodeConfig {
  import opened Base
  import Keyed

  /** A file's content: inline data (with an encoding, "" for plain text), or
      a file to be pulled out of a container image. */
  datatype FileContent =
    | Inline(encoding: string, data: string)
    | ImageRef(image: string, filePathInImage: string)

  datatype File = File(path: string, permissions: Option<nat>, content: FileContent)

  /** File modes written in octal in the source. */
  const Mode0644: nat := 0x1A4
  const Mode0755: nat := 0x1ED

  /** The key files are merged by. */
  function PathOf(f: File): string { f.path }

  datatype Command = CommandStart | CommandRestart | CommandStop

  /** A unit's body. Units built elsewhere carry opaque text; the two units
      this extension adds are described by what their text configures rather
      than by the rendered systemd syntax. */
  datatype UnitContent =
    | Text(text: string)
    | DaemonUnit(nodeIP: string, execStart: string, args: seq<string>)
    | ScraperUnit(execStart: string)

  datatype Unit = Unit(
    name: string,
    command: Option<Command>,
    enable: Option<bool>,
    content: Option<UnitContent>,
    filePaths: seq<string>)

  /** The key units are merged by. */
  function NameOf(u: Unit): string { u.name }

  datatype Capability = Pull | Resolve | Push

  datatype RegistryHost = RegistryHost(url: string, capabilities: seq<Capability>)

  /** One containerd registry namespace; hosts are tried in order. */
  datatype RegistryConfig = RegistryConfig(upstream: string, server: Option<string>, hosts: seq<RegistryHost>)

  datatype PluginConfig = PluginConfig(path: seq<string>, values: string)

  datatype ContainerdConfig = ContainerdConfig(registries: seq<RegistryConfig>, plugins: seq<PluginConfig>)

  datatype CRIConfig = CRIConfig(containerd: Option<ContainerdConfig>)

  /** appendUniqueFile as the source writes it: copy every file whose path
      differs from the new file's, then append the new file. */
  method AppendUniqueFile(files: seq<File>, file: File) returns (r: seq<File>)
    ensures r == Keyed.AppendUnique(files, PathOf, file)
  {
    var kept: seq<File> := [];
    var i := 0;
    while i < |files|
      invariant 0 <= i <= |files|
      invariant kept == Keyed.Without(files[..i], PathOf, file.path)
    {
      assert files[..i + 1] == files[..i] + [files[i]];
      Keyed.WithoutConcat(files[..i], [files[i]], PathOf, file.path);
      if files[i].path != file.path {
        kept := kept + [files[i]];
      }
      i := i + 1;
    }
    assert files[..i] == files;
    r := kept + [file];
  }
}
