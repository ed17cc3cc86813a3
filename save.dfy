/**
  The decision logic of `podman save` (cmd/podman/save.go): which name an
  exported image carries, which destination reference a format selects, the
  order in which the command's guards run, and the best-effort removal of the
  output after a failed push.

  Everything the command asks of the outside world (the runtime, the local
  image store, the reference constructors, tag parsing, the push itself, the
  terminal test, file-name validation and `os.Remove`) is a field of `Env`.
  The only state the command changes is the set of paths in the `Host`'s
  file system; the `Host` also keeps a ghost journal of the collaborators
  consulted, in order, so that the order of the checks can be stated.
 */
module Save {
  import opened Wrappers
  import opened GoStrings

  // ---------------------------------------------------------------------
  // Constants
  // ---------------------------------------------------------------------

  /** The two directory formats (save.go:24-27). */
  const OciManifestDir: string := "oci-dir"
  const V2s2ManifestDir: string := "docker-dir"
  /** The two archive formats named in the format switch. */
  const OciArchiveFormat: string := "oci-archive"
  const DockerArchiveFormat: string := "docker-archive"
  /** The default of the --output flag. */
  const DefaultOutput: string := "/dev/stdout"

  /** libpod/image's DefaultLocalRegistry and the prefix built from it. */
  const DefaultLocalRegistry: string := "localhost"
  const LocalRegistryPrefix: string := DefaultLocalRegistry + "/"

  /** The manifest media types handed to the push for the directory formats. */
  const MediaTypeImageManifest: string := "application/vnd.oci.image.manifest.v1+json"
  const DockerV2Schema2MediaType: string := "application/vnd.docker.distribution.manifest.v2+json"

  // ---------------------------------------------------------------------
  // Data model
  // ---------------------------------------------------------------------

  /** A local image as the store hands it out: its content ID and its names. */
  datatype Image = Image(id: string, names: seq<string>)

  /** The parsed command line (cliconfig.SaveValues). `compressChanged` is
      "the --compress flag was given", `compress` its value. */
  datatype SaveValues = SaveValues(
    inputArgs: seq<string>,
    format: string,
    output: string,
    compressChanged: bool,
    compress: bool,
    quiet: bool)

  /** Where progress text goes: nowhere (a nil writer) or standard error. */
  datatype StatusWriter = NoWriter | Stderr

  /** The destination references the format switch can build. */
  datatype ImageReference =
    | OciArchiveReference(path: string, name: string)
    | DirectoryReference(path: string)
    | DockerArchiveReference(spec: string)

  /** What the format switch decides: a reference and a manifest type ("" = the writer's default). */
  datatype Target = Target(ref: ImageReference, manifestType: string)

  /** The arguments of the one push call. */
  datatype PushRequest = PushRequest(
    image: Image,
    dest: ImageReference,
    manifestType: string,
    writer: StatusWriter,
    compress: bool,
    additionalTags: seq<string>)

  /** The outcome of a push: whether it succeeded and whether it left a file at the output path. */
  datatype PushOutcome = PushOutcome(ok: bool, createdOutput: bool)

  /** The collaborators, as oracles. */
  datatype Env = Env(
    runtimeAvailable: bool,
    stdoutIsTerminal: bool,
    validFileName: string -> bool,
    lookup: string -> Option<Image>,
    referenceOk: ImageReference -> bool,
    parseTags: seq<string> -> Option<seq<string>>,
    push: PushRequest -> PushOutcome,
    removeRefused: string -> bool)

  /** The error kinds `saveCmd` returns. */
  datatype SaveError =
    | MissingArgument
    | RuntimeUnavailable
    | CompressWithoutDirFormat
    | RefusedTerminal
    | InvalidFileName(path: string)
    | ImageNotFound(source: string)
    | ReferenceFailed(ref: ImageReference)
    | UnknownFormat(format: string)
    | BadAdditionalTag
    | SaveFailed(args: seq<string>)

  /** One consultation of a collaborator, as recorded in the journal. */
  datatype Call =
    | GetRuntime
    | IsTerminal
    | ValidateFileName(path: string)
    | NewFromLocal(name: string)
    | NewReference(ref: ImageReference)
    | GetAdditionalTags(names: seq<string>)
    | PushImageToReference(req: PushRequest)
    | Remove(path: string)
    | LogRemoveFailure(path: string)

  // ---------------------------------------------------------------------
  // The name embedded in an archive
  // ---------------------------------------------------------------------

  /** `name` shows that local lookup qualified `input` with the local registry:
      it carries the prefix and ends with the input or with `input:latest`. */
  predicate QualifiedByLookup(name: string, input: string)
  {
    HasPrefix(name, LocalRegistryPrefix)
    && (HasSuffix(name, input) || HasSuffix(name, input + ":latest"))
  }

  /** The name rule, stated over the set of the image's names. */
  ghost function DestinationName(img: Image, input: string): string
  {
    if Contains(img.id, input) then ""
    else if !HasPrefix(input, LocalRegistryPrefix) && exists name :: name in img.names && QualifiedByLookup(name, input)
    then LocalRegistryPrefix + input
    else input
  }

  /** imageNameForSaveDestination: scans the names and stops at the first one
      that shows a silently added local-registry prefix. */
  method ImageNameForSaveDestination(img: Image, imgUserInput: string) returns (r: string)
    ensures r == DestinationName(img, imgUserInput)
  {
    if Contains(img.id, imgUserInput) {
      return "";
    }
    var prepend := "";
    if !HasPrefix(imgUserInput, LocalRegistryPrefix) {
      var i := 0;
      while i < |img.names|
        invariant 0 <= i <= |img.names|
        invariant prepend == ""
        invariant forall j :: 0 <= j < i ==> !QualifiedByLookup(img.names[j], imgUserInput)
      {
        var name := img.names[i];
        if HasPrefix(name, LocalRegistryPrefix) && (HasSuffix(name, imgUserInput) || HasSuffix(name, imgUserInput + ":latest")) {
          prepend := LocalRegistryPrefix;
          assert name in img.names && QualifiedByLookup(name, imgUserInput);
          break;
        }
        i := i + 1;
      }
      assert prepend == "" ==> forall name :: name in img.names ==> !QualifiedByLookup(name, imgUserInput);
    }
    r := prepend + imgUserInput;
  }

  /** An input found in the ID (every prefix of the ID and the empty input among them) gives no name. */
  lemma IdInputGivesNoName(img: Image, input: string)
    requires Contains(img.id, input) || HasPrefix(img.id, input) || input == ""
    ensures DestinationName(img, input) == ""
  {
    if HasPrefix(img.id, input) || input == "" {
      PrefixContained(img.id, input);
    }
  }

  /** The name is empty exactly when the input occurs in the ID. */
  lemma NoNameIffIdInput(img: Image, input: string)
    ensures DestinationName(img, input) == "" <==> Contains(img.id, input)
  {
    if !Contains(img.id, input) && input == "" {
      PrefixContained(img.id, input);
    }
  }

  /** Otherwise the name is the input, bare or behind the local-registry prefix, so it ends with the input. */
  lemma NameEndsWithInput(img: Image, input: string)
    requires !Contains(img.id, input)
    ensures DestinationName(img, input) == input || DestinationName(img, input) == LocalRegistryPrefix + input
    ensures HasSuffix(DestinationName(img, input), input)
  {
    ConcatPrefixSuffix(LocalRegistryPrefix, input);
  }

  /** An input that already carries the local-registry prefix gets nothing prepended. */
  lemma QualifiedInputUnchanged(img: Image, input: string)
    requires HasPrefix(input, LocalRegistryPrefix) && !Contains(img.id, input)
    ensures DestinationName(img, input) == input
  {
  }

  /** The prefix is prepended exactly when the input lacks it and some name shows lookup added it. */
  lemma PrependIff(img: Image, input: string)
    ensures DestinationName(img, input) == LocalRegistryPrefix + input
        <==> !Contains(img.id, input) && !HasPrefix(input, LocalRegistryPrefix)
             && exists name :: name in img.names && QualifiedByLookup(name, input)
  {
    assert |LocalRegistryPrefix + input| > |input|;
  }

  /** Only which names the image has matters, not their order or repetition. */
  lemma NameOrderIrrelevant(img: Image, names: seq<string>, input: string)
    requires forall n :: n in names <==> n in img.names
    ensures DestinationName(Image(img.id, names), input) == DestinationName(img, input)
  {
  }

  /** A bare name that lookup qualified as `localhost/<input>:latest` is saved qualified. */
  lemma LatestTagQualified(img: Image, input: string)
    requires !Contains(img.id, input) && !HasPrefix(input, LocalRegistryPrefix)
    requires LocalRegistryPrefix + input + ":latest" in img.names
    ensures DestinationName(img, input) == LocalRegistryPrefix + input
  {
    var name := LocalRegistryPrefix + input + ":latest";
    ConcatPrefixSuffix(LocalRegistryPrefix, input + ":latest");
    assert name == LocalRegistryPrefix + (input + ":latest");
    ConcatPrefixSuffix(LocalRegistryPrefix + input, ":latest");
    assert QualifiedByLookup(name, input);
  }

  /** Content IDs are lower-case hex digests. */
  predicate IsHexId(id: string)
  {
    forall ch :: ch in id ==> ch in "0123456789abcdef"
  }

  /** A bare name that lookup stored as `localhost/foo:latest` is saved as `localhost/foo`. */
  lemma BareNameExample(id: string)
    requires IsHexId(id)
    ensures DestinationName(Image(id, ["localhost/foo:latest"]), "foo") == "localhost/foo"
  {
    var img := Image(id, ["localhost/foo:latest"]);
    assert img.names[0] == LocalRegistryPrefix + "foo" + ":latest" by {
      assert LocalRegistryPrefix == "localhost/";
    }
    assert !Contains(id, "foo") by {
      assert "foo"[1] !in id;
      MissingCharNotContained(id, "foo", 1);
    }
    LatestTagQualified(img, "foo");
    assert LocalRegistryPrefix + "foo" == "localhost/foo";
  }

  /** An image named only `registry.example.com/foo:v1`, saved under that name, keeps it as typed. */
  lemma RemoteNameExample(id: string)
    requires IsHexId(id)
    ensures DestinationName(Image(id, ["registry.example.com/foo:v1"]), "registry.example.com/foo:v1")
         == "registry.example.com/foo:v1"
  {
    var img := Image(id, ["registry.example.com/foo:v1"]);
    var input := "registry.example.com/foo:v1";
    assert !Contains(id, input) by {
      assert input[0] !in id;
      MissingCharNotContained(id, input, 0);
    }
    assert !HasPrefix(input, LocalRegistryPrefix) by {
      assert input[0] != LocalRegistryPrefix[0];
    }
  }

  // ---------------------------------------------------------------------
  // The format switch
  // ---------------------------------------------------------------------

  /** The format switch of saveCmd: which reference and manifest type a format selects,
      given the output path and the name from the name rule; None for an unknown format. */
  function Dispatch(format: string, output: string, name: string): Option<Target>
  {
    if format == OciArchiveFormat then Some(Target(OciArchiveReference(output, name), ""))
    else if format == OciManifestDir then Some(Target(DirectoryReference(output), MediaTypeImageManifest))
    else if format == V2s2ManifestDir then Some(Target(DirectoryReference(output), DockerV2Schema2MediaType))
    else if format == DockerArchiveFormat || format == "" then
      Some(Target(DockerArchiveReference(if name != "" then output + ":" + name else output), ""))
    else None
  }

  /** The formats the switch knows. */
  const KnownFormats: set<string> := {OciArchiveFormat, OciManifestDir, V2s2ManifestDir, DockerArchiveFormat, ""}

  /** A format is rejected exactly when the switch does not know it. */
  lemma UnknownFormatIff(format: string, output: string, name: string)
    ensures Dispatch(format, output, name).None? <==> format !in KnownFormats
  {
  }

  /** The per-format values: `oci-archive` embeds the output and the name; `oci-dir` gets the
      OCI image manifest type and `docker-dir` the Docker v2 schema 2 type, both at the output. */
  lemma FormatTargets(output: string, name: string)
    ensures Dispatch(OciArchiveFormat, output, name) == Some(Target(OciArchiveReference(output, name), ""))
    ensures Dispatch(OciManifestDir, output, name) == Some(Target(DirectoryReference(output), MediaTypeImageManifest))
    ensures Dispatch(V2s2ManifestDir, output, name) == Some(Target(DirectoryReference(output), DockerV2Schema2MediaType))
    ensures MediaTypeImageManifest != DockerV2Schema2MediaType
  {
  }

  /** Directory targets sit at the output path, carry no name and always set a manifest type;
      archive targets leave the manifest type to the archive writer. */
  lemma TargetShape(format: string, output: string, name: string, other: string)
    requires Dispatch(format, output, name).Some?
    ensures var t := Dispatch(format, output, name).value;
      && (t.ref.DirectoryReference? <==> format in {OciManifestDir, V2s2ManifestDir})
      && (t.ref.DirectoryReference? ==> t.ref.path == output && Dispatch(format, output, other) == Some(t))
      && (t.manifestType == "" <==> !t.ref.DirectoryReference?)
  {
  }

  /** A docker archive goes to `output`, or to `output:name` when there is a name; the
      output path can be read back off the reference string. */
  lemma DockerArchiveSpec(format: string, output: string, name: string)
    requires format == DockerArchiveFormat || format == ""
    ensures Dispatch(format, output, name).Some?
    ensures var spec := Dispatch(format, output, name).value.ref.spec;
      && HasPrefix(spec, output)
      && (name == "" ==> spec == output)
      && (name != "" ==> spec[|output|..] == ":" + name)
  {
    if name != "" {
      ConcatPrefixSuffix(output, ":" + name);
      assert output + ":" + name == output + (":" + name);
    }
  }

  /** For the default format, the archive reference carries the user's input exactly when
      the input is not found in the image ID, and then ends with it. */
  lemma DefaultArchiveNamesInput(img: Image, output: string, input: string)
    ensures var spec := Dispatch("", output, DestinationName(img, input)).value.ref.spec;
      && (Contains(img.id, input) <==> spec == output)
      && (!Contains(img.id, input) ==> HasSuffix(spec, input))
  {
    var name := DestinationName(img, input);
    NoNameIffIdInput(img, input);
    if !Contains(img.id, input) {
      NameEndsWithInput(img, input);
      assert |output + ":" + name| > |output|;
      assert output + ":" + name == (output + ":") + name;
      ConcatPrefixSuffix(output + ":", name);
    }
  }

  /** The format switch of saveCmd as it runs: the name rule is consulted for the two
      archive formats only. */
  method SelectTarget(format: string, output: string, img: Image, source: string) returns (t: Option<Target>)
    ensures t == Dispatch(format, output, DestinationName(img, source))
  {
    if format == OciArchiveFormat {
      var destImageName := ImageNameForSaveDestination(img, source);
      t := Some(Target(OciArchiveReference(output, destImageName), ""));
    } else if format == OciManifestDir {
      t := Some(Target(DirectoryReference(output), MediaTypeImageManifest));
    } else if format == V2s2ManifestDir {
      t := Some(Target(DirectoryReference(output), DockerV2Schema2MediaType));
    } else if format == DockerArchiveFormat || format == "" {
      var dst := output;
      var destImageName := ImageNameForSaveDestination(img, source);
      if destImageName != "" {
        dst := dst + ":" + destImageName;
      }
      t := Some(Target(DockerArchiveReference(dst), ""));
    } else {
      t := None;
    }
  }

  // ---------------------------------------------------------------------
  // The guards, and what each stage of saveCmd works with
  // ---------------------------------------------------------------------

  /** The --compress guard exactly as written in saveCmd. */
  predicate CompressRejected(c: SaveValues)
  {
    c.compressChanged && (c.format != OciManifestDir && c.format != V2s2ManifestDir && c.format == "")
  }

  /** As written, the guard rejects --compress only with the default (empty) format:
      the archive formats and unknown formats pass it. */
  lemma CompressRejectedOnlyForDefaultFormat(c: SaveValues)
    ensures CompressRejected(c) <==> c.compressChanged && c.format == ""
  {
  }

  /** The terminal guard: only the default output, and only when stdout is a terminal. */
  predicate TerminalRefused(c: SaveValues, env: Env)
  {
    c.output == DefaultOutput && env.stdoutIsTerminal
  }

  /** The calls that check the output path: the terminal test (default output only), then validation. */
  function OutputChecks(c: SaveValues): seq<Call>
  {
    (if c.output == DefaultOutput then [IsTerminal] else []) + [ValidateFileName(c.output)]
  }

  ghost predicate PassesFlags(c: SaveValues, env: Env)
  {
    |c.inputArgs| > 0 && env.runtimeAvailable && !CompressRejected(c)
  }

  ghost predicate PassesOutput(c: SaveValues, env: Env)
  {
    PassesFlags(c, env) && !TerminalRefused(c, env) && env.validFileName(c.output)
  }

  ghost predicate FindsImage(c: SaveValues, env: Env)
  {
    PassesOutput(c, env) && env.lookup(c.inputArgs[0]).Some?
  }

  /** The calls made up to and including the local lookup. */
  ghost function ThroughLookup(c: SaveValues): seq<Call>
    requires |c.inputArgs| > 0
  {
    [GetRuntime] + OutputChecks(c) + [NewFromLocal(c.inputArgs[0])]
  }

  /** The target the switch selects for the image found. */
  ghost function TargetOf(c: SaveValues, env: Env): Option<Target>
    requires FindsImage(c, env)
  {
    var source := c.inputArgs[0];
    Dispatch(c.format, c.output, DestinationName(env.lookup(source).value, source))
  }

  ghost predicate BuildsReference(c: SaveValues, env: Env)
  {
    FindsImage(c, env) && TargetOf(c, env).Some? && env.referenceOk(TargetOf(c, env).value.ref)
  }

  /** The tag-parsing call, made only when there is more than one argument. */
  function TagCalls(c: SaveValues): seq<Call>
  {
    if |c.inputArgs| > 1 then [GetAdditionalTags(c.inputArgs[1..])] else []
  }

  ghost predicate ParsesTags(c: SaveValues, env: Env)
  {
    BuildsReference(c, env) && (|c.inputArgs| > 1 ==> env.parseTags(c.inputArgs[1..]).Some?)
  }

  /** The push request saveCmd issues once every earlier step has passed. */
  ghost function PushOf(c: SaveValues, env: Env): PushRequest
    requires ParsesTags(c, env)
  {
    var t := TargetOf(c, env).value;
    PushRequest(
      env.lookup(c.inputArgs[0]).value,
      t.ref,
      t.manifestType,
      if c.quiet then NoWriter else Stderr,
      c.compress,
      if |c.inputArgs| > 1 then env.parseTags(c.inputArgs[1..]).value else [])
  }

  /** The push carries the --compress value, no status writer exactly under --quiet, and
      the parsed extra tags (none with a single argument). */
  lemma PushRequestShape(c: SaveValues, env: Env)
    requires ParsesTags(c, env)
    ensures PushOf(c, env).writer == NoWriter <==> c.quiet
    ensures PushOf(c, env).compress == c.compress
    ensures |c.inputArgs| == 1 ==> PushOf(c, env).additionalTags == []
    ensures PushOf(c, env).image == env.lookup(c.inputArgs[0]).value
  {
  }

  // ---------------------------------------------------------------------
  // The host the command runs on
  // ---------------------------------------------------------------------

  class Host {
    /** The paths present in the file system. */
    var files: set<string>
    /** Every collaborator consulted so far, in order. */
    ghost var calls: seq<Call>

    constructor (present: set<string>)
      ensures files == present && calls == []
    {
      files := present;
      calls := [];
    }

    /** os.Remove: fails when the path is absent or removal is refused; otherwise the path is gone. */
    method RemovePath(path: string, env: Env) returns (ok: bool)
      modifies this
      ensures ok <==> path in old(files) && !env.removeRefused(path)
      ensures files == if ok then old(files) - {path} else old(files)
      ensures calls == old(calls) + [Remove(path)]
    {
      calls := calls + [Remove(path)];
      ok := path in files && !env.removeRefused(path);
      if ok {
        files := files - {path};
      }
    }

    /** saveCmd. Returns None for success (a nil error). */
    method SaveCmd(c: SaveValues, env: Env) returns (err: Option<SaveError>)
      modifies this
      // only the output path can appear or disappear
      ensures files - {c.output} == old(files) - {c.output}
      // no arguments: fail before anything else
      ensures |c.inputArgs| == 0 ==>
        err == Some(MissingArgument) && files == old(files) && calls == old(calls)
      // the runtime comes first, and the compress guard right after it
      ensures |c.inputArgs| > 0 && !env.runtimeAvailable ==>
        err == Some(RuntimeUnavailable) && files == old(files) && calls == old(calls) + [GetRuntime]
      ensures |c.inputArgs| > 0 && env.runtimeAvailable && CompressRejected(c) ==>
        err == Some(CompressWithoutDirFormat) && files == old(files) && calls == old(calls) + [GetRuntime]
      // then the terminal guard, then the file name
      ensures PassesFlags(c, env) && TerminalRefused(c, env) ==>
        err == Some(RefusedTerminal) && files == old(files) && calls == old(calls) + [GetRuntime, IsTerminal]
      ensures PassesFlags(c, env) && !TerminalRefused(c, env) && !env.validFileName(c.output) ==>
        err == Some(InvalidFileName(c.output)) && files == old(files)
        && calls == old(calls) + [GetRuntime] + OutputChecks(c)
      // only then the image lookup
      ensures PassesOutput(c, env) && env.lookup(c.inputArgs[0]).None? ==>
        err == Some(ImageNotFound(c.inputArgs[0])) && files == old(files)
        && calls == old(calls) + ThroughLookup(c)
      // and, with the image found, the export itself
      ensures FindsImage(c, env) ==>
        |calls| >= |old(calls)| + |ThroughLookup(c)|
        && calls[..|old(calls)| + |ThroughLookup(c)|] == old(calls) + ThroughLookup(c)
        && Exported(c, env, old(files), err, files, calls[|old(calls)| + |ThroughLookup(c)|..])
    {
      var args := c.inputArgs;
      if |args| == 0 {
        return Some(MissingArgument);
      }

      calls := calls + [GetRuntime];
      if !env.runtimeAvailable {
        return Some(RuntimeUnavailable);
      }

      if CompressRejected(c) {
        return Some(CompressWithoutDirFormat);
      }

      var writer := NoWriter;
      if !c.quiet {
        writer := Stderr;
      }

      var output := c.output;
      if output == DefaultOutput {
        calls := calls + [IsTerminal];
        if env.stdoutIsTerminal {
          return Some(RefusedTerminal);
        }
      }
      calls := calls + [ValidateFileName(output)];
      if !env.validFileName(output) {
        return Some(InvalidFileName(output));
      }

      var source := args[0];
      calls := calls + [NewFromLocal(source)];
      var found := env.lookup(source);
      if found.None? {
        return Some(ImageNotFound(source));
      }
      assert calls == old(calls) + ThroughLookup(c);
      ghost var before := calls;
      ghost var made;
      err, made := Export(c, env, found.value, writer);
      assert calls[..|before|] == before && calls[|before|..] == made;
    }

    /** The rest of saveCmd once the image is found: the format switch, the extra tags,
        the push and the clean-up after a failed push. */
    method Export(c: SaveValues, env: Env, newImage: Image, writer: StatusWriter)
      returns (err: Option<SaveError>, ghost made: seq<Call>)
      requires FindsImage(c, env) && newImage == env.lookup(c.inputArgs[0]).value
      requires writer == if c.quiet then NoWriter else Stderr
      modifies this
      ensures calls == old(calls) + made
      ensures Exported(c, env, old(files), err, files, made)
    {
      var args := c.inputArgs;
      var source := args[0];
      var output := c.output;
      made := [];
      var target := SelectTarget(c.format, output, newImage, source);
      if target.None? {
        return Some(UnknownFormat(c.format)), made;
      }
      var destRef := target.value.ref;
      var manifestType := target.value.manifestType;
      calls, made := calls + [NewReference(destRef)], made + [NewReference(destRef)];
      if !env.referenceOk(destRef) {
        return Some(ReferenceFailed(destRef)), made;
      }

      var additionalTags: seq<string> := [];
      if |args| > 1 {
        calls, made := calls + [GetAdditionalTags(args[1..])], made + [GetAdditionalTags(args[1..])];
        var parsed := env.parseTags(args[1..]);
        if parsed.None? {
          return Some(BadAdditionalTag), made;
        }
        additionalTags := parsed.value;
      }

      var req := PushRequest(newImage, destRef, manifestType, writer, c.compress, additionalTags);
      assert req == PushOf(c, env);
      ghost var pushed;
      err, pushed := PushOrCleanUp(req, output, args, env);
      made := made + pushed;
    }

    /** The last step of saveCmd: push, and after a failed push remove the output (best effort),
        log a failed removal, and return the push error whatever the removal did. */
    method PushOrCleanUp(req: PushRequest, output: string, args: seq<string>, env: Env)
      returns (err: Option<SaveError>, ghost made: seq<Call>)
      modifies this
      ensures calls == old(calls) + made
      ensures Pushed(req, output, args, env, old(files), err, files, made)
    {
      calls, made := calls + [PushImageToReference(req)], [PushImageToReference(req)];
      var outcome := env.push(req);
      if outcome.createdOutput {
        files := files + {output};
      }
      if !outcome.ok {
        var removed := RemovePath(output, env);
        made := made + [Remove(output)];
        if !removed {
          calls, made := calls + [LogRemoveFailure(output)], made + [LogRemoveFailure(output)];
        }
        return Some(SaveFailed(args)), made;
      }
      return None, made;
    }
  }

  /** What saveCmd does once the image is found, from the file system `before` to `after`,
      with `made` the collaborators consulted from the format switch on. */
  ghost predicate Exported(c: SaveValues, env: Env, before: set<string>, err: Option<SaveError>,
                           after: set<string>, made: seq<Call>)
    requires FindsImage(c, env)
  {
    if TargetOf(c, env).None? then
      // an unknown format is reported before any reference is built
      err == Some(UnknownFormat(c.format)) && after == before && made == []
    else
      var ref := TargetOf(c, env).value.ref;
      if !env.referenceOk(ref) then
        err == Some(ReferenceFailed(ref)) && after == before && made == [NewReference(ref)]
      else if !ParsesTags(c, env) then
        // a bad extra tag is reported after the reference is built, before the push
        err == Some(BadAdditionalTag) && after == before && made == [NewReference(ref)] + TagCalls(c)
      else
        exists pushed :: made == [NewReference(ref)] + TagCalls(c) + pushed
          && Pushed(PushOf(c, env), c.output, c.inputArgs, env, before, err, after, pushed)
  }

  /** The push of `req` to `output`, from the file system `before` to `after`, with `made`
      the collaborators consulted. */
  ghost predicate Pushed(req: PushRequest, output: string, args: seq<string>, env: Env,
                         before: set<string>, err: Option<SaveError>, after: set<string>, made: seq<Call>)
  {
    var outcome := env.push(req);
    var written := before + (if outcome.createdOutput then {output} else {});
    if outcome.ok then
      // success keeps what the push wrote and removes nothing
      err == None && after == written && made == [PushImageToReference(req)]
    else
      // failure: the output is removed if it can be; the push error is returned either way
      var removed := output in written && !env.removeRefused(output);
      && err == Some(SaveFailed(args))
      && after == (if removed then written - {output} else written)
      && made == [PushImageToReference(req), Remove(output)] + (if removed then [] else [LogRemoveFailure(output)])
  }

  /** A failed push returns the push error; the output is gone afterwards unless its removal was refused. */
  lemma FailedPushRemovesOutput(req: PushRequest, output: string, args: seq<string>, env: Env,
                                before: set<string>, err: Option<SaveError>, after: set<string>, made: seq<Call>)
    requires Pushed(req, output, args, env, before, err, after, made) && !env.push(req).ok
    ensures err == Some(SaveFailed(args))
    ensures !env.removeRefused(output) ==> output !in after
    ensures after - {output} == before - {output}
    ensures output in after ==> made[|made| - 1] == LogRemoveFailure(output)
  {
  }

  /** A successful push removes nothing and reports no error. */
  lemma SuccessfulPushKeepsFiles(req: PushRequest, output: string, args: seq<string>, env: Env,
                                 before: set<string>, err: Option<SaveError>, after: set<string>, made: seq<Call>)
    requires Pushed(req, output, args, env, before, err, after, made) && env.push(req).ok
    ensures err == None && before <= after && after <= before + {output}
    ensures Remove(output) !in made
  {
  }

  /** With an unknown format nothing is built, pushed or removed once the image is found. */
  lemma UnknownFormatDoesNoIO(c: SaveValues, env: Env, before: set<string>, err: Option<SaveError>,
                              after: set<string>, made: seq<Call>)
    requires FindsImage(c, env) && c.format !in KnownFormats
    requires Exported(c, env, before, err, after, made)
    ensures err == Some(UnknownFormat(c.format)) && after == before && made == []
  {
    var source := c.inputArgs[0];
    UnknownFormatIff(c.format, c.output, DestinationName(env.lookup(source).value, source));
  }
}
