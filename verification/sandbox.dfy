/**
 The pure decisions of `create_new_container` in backend/core/docker_executor.py:
 which image, command, mount and isolation flags a container is started with,
 and which error a failed start raises. The Docker daemon is an input.
 */
module Sandbox {
  import opened Wrappers

  const PythonLanguage: string := "python"
  const PythonImage: string := "lambda_base_python"
  const NodeImage: string := "lambda_base_node"
  const PythonInterpreter: string := "python3"
  const NodeInterpreter: string := "node"
  const MountPrefix: string := "/app/code."
  const ReadOnly: string := "ro"
  const MemLimit: string := "128m"
  const GvisorRuntime: string := "runsc"
  const NoClientMessage: string := "Docker client is not available. Ensure Docker is running."
  const CreateErrorPrefix: string := "Error creating container: "

  /** The `volumes` entry: host file bound at `bind` with `mode`. */
  datatype VolumeBind = VolumeBind(hostPath: string, bind: string, mode: string)

  /** The keyword arguments of `client.containers.run`. */
  datatype ContainerSpec = ContainerSpec(
    image: string,
    command: seq<string>,
    volume: VolumeBind,
    name: string,
    networkDisabled: bool,
    detach: bool,
    memLimit: string,
    stderr: bool,
    runtime: Option<string>)

  /** A started container, known by the arguments it was started with. */
  datatype Container = Container(spec: ContainerSpec)

  /** What the daemon does with a `containers.run` request. */
  datatype DockerRun = Started | Refused(message: string)

  /** `path.split('.')[-1]`: the text after the last '.', or the whole path when there is none. */
  function Extension(path: string): (ext: string)
    ensures '.' !in ext
    ensures |ext| <= |path| && ext == path[|path| - |ext|..]
    ensures |ext| == |path| || path[|path| - |ext| - 1] == '.'
    decreases |path|
  {
    if |path| == 0 then ""
    else if path[|path| - 1] == '.' then ""
    else Extension(path[..|path| - 1]) + [path[|path| - 1]]
  }

  /** Whatever precedes the last dot, the extension is exactly the text after it. */
  lemma {:induction false} ExtensionAfterLastDot(prefix: string, ext: string)
    requires '.' !in ext
    ensures Extension(prefix + "." + ext) == ext
    decreases |ext|
  {
    var path := prefix + "." + ext;
    if |ext| > 0 {
      var init := ext[..|ext| - 1];
      assert path[..|path| - 1] == prefix + "." + init;
      assert path[|path| - 1] == ext[|ext| - 1];
      ExtensionAfterLastDot(prefix, init);
      assert init + [ext[|ext| - 1]] == ext;
    }
  }

  function ImageFor(language: string): string
  {
    if language == PythonLanguage then PythonImage else NodeImage
  }

  function InterpreterFor(language: string): string
  {
    if language == PythonLanguage then PythonInterpreter else NodeInterpreter
  }

  /** Where the code file is mounted inside the container. */
  function ContainerPath(filePath: string): string
  {
    MountPrefix + Extension(filePath)
  }

  /**
   The arguments both branches of `create_new_container` pass to
   `containers.run`; only the gVisor branch adds `runtime='runsc'`.
   The host path is taken as given (`os.path.abspath` is not modelled).
   */
  function ContainerSpecFor(filePath: string, language: string, useGvisor: bool, name: string): ContainerSpec
  {
    var mount := ContainerPath(filePath);
    ContainerSpec(
      ImageFor(language),
      [InterpreterFor(language), mount],
      VolumeBind(filePath, mount, ReadOnly),
      name,
      true,
      true,
      MemLimit,
      true,
      if useGvisor then Some(GvisorRuntime) else None)
  }

  /**
   Image and interpreter are chosen together: the Python pair exactly for
   the language "python", the Node pair for every other language.
   */
  lemma ImageAndCommandFollowLanguage(filePath: string, language: string, useGvisor: bool, name: string)
    ensures var spec := ContainerSpecFor(filePath, language, useGvisor, name);
            && (spec.image == PythonImage <==> language == PythonLanguage)
            && (spec.image == NodeImage <==> language != PythonLanguage)
            && (spec.command[0] == PythonInterpreter <==> spec.image == PythonImage)
            && |spec.command| == 2
            && spec.command[1] == spec.volume.bind
            && spec.volume.hostPath == filePath
  {
  }

  /**
   Both variants are sandboxed the same way (no network, 128m memory, a
   read-only mount) and differ only in the gVisor runtime.
   */
  lemma SandboxFlagsOnBothVariants(filePath: string, language: string, name: string)
    ensures forall g: bool :: var spec := ContainerSpecFor(filePath, language, g, name);
              spec.networkDisabled && spec.memLimit == MemLimit && spec.volume.mode == ReadOnly
              && (spec.runtime == Some(GvisorRuntime) <==> g) && (spec.runtime.None? <==> !g)
    ensures ContainerSpecFor(filePath, language, true, name)
            == ContainerSpecFor(filePath, language, false, name).(runtime := Some(GvisorRuntime))
  {
  }

  /** A file named `<anything>.<ext>` is mounted at "/app/code.<ext>". */
  lemma MountPathKeepsExtension(prefix: string, ext: string)
    requires '.' !in ext
    ensures ContainerPath(prefix + "." + ext) == MountPrefix + ext
  {
    ExtensionAfterLastDot(prefix, ext);
  }

  /**
   `create_new_container`: raises when there is no Docker client or the
   daemon refuses the start; otherwise returns a container started with
   `ContainerSpecFor` under the name "lambda_<hex>".
   */
  function CreateNewContainer(clientAvailable: bool, uuidHex: string, filePath: string, language: string,
                              useGvisor: bool, daemon: DockerRun): (r: Result<Container, string>)
    ensures !clientAvailable ==> r == Err(NoClientMessage)
    ensures clientAvailable && daemon.Refused? ==> r == Err(CreateErrorPrefix + daemon.message)
    ensures r.Ok? <==> clientAvailable && daemon.Started?
    ensures r.Ok? ==> r.value.spec == ContainerSpecFor(filePath, language, useGvisor, "lambda_" + uuidHex)
  {
    if !clientAvailable then Err(NoClientMessage)
    else
      match daemon
      case Refused(message) => Err(CreateErrorPrefix + message)
      case Started => Ok(Container(ContainerSpecFor(filePath, language, useGvisor, "lambda_" + uuidHex)))
  }
}
