# podman save: export decisions, modelled in Dafny

This project models the decision logic of `podman save` (`cmd/podman/save.go`)
and proves properties of it. It covers two things:

- the name rule `imageNameForSaveDestination`, which decides what name an
  exported archive carries: none, the input as typed, or the input behind the
  local-registry prefix `localhost/`;
- the command `saveCmd`: its guards in their order, the four-way format switch
  that picks a destination reference and a manifest type, the extra-tag
  parsing, the push, and the best-effort removal of the output after a failed
  push.

Files:

- `go_strings.dfy` (module `GoStrings`): `HasPrefix`, `HasSuffix` and
  `Contains` from Go's `strings` package, with lemmas about them.
- `wrappers.dfy` (module `Wrappers`): `Option`.
- `save.dfy` (module `Save`): the constants, the data model, the name rule, the
  format switch, and class `Host`, whose `files` set is the file system the
  command can change.

Collaborators are oracles, collected in the datatype `Env`. These are the
runtime, the terminal test, `validateFileName`, `NewFromLocal`, the three
reference constructors, `GetAdditionalTags`, `PushImageToReference` and the
refusal side of `os.Remove`. `Host` keeps a ghost journal `calls` of every
collaborator consulted, in order. The order of the checks is stated on that
journal. `SaveCmd` is split into three methods, `SaveCmd`, `Export` and
`PushOrCleanUp`, and the format switch is the method `SelectTarget`. Together
they run the steps of the one Go function in the same order.

Behaviour modelled as written:

- The `--compress` guard (save.go:70) is `Format != "oci-dir" && Format !=
  "docker-dir" && Format == ""`, which is just `Format == ""`. So `--compress`
  is refused only with the default format. `oci-archive`, `docker-archive`
  and unknown formats all pass it (`CompressRejectedOnlyForDefaultFormat`).
  The flag's help text (save.go:51) and the guard's own error message
  (save.go:71) say the flag is only for `oci-dir` and `docker-dir`; the model
  follows the guard.
- A bad extra tag is reported after the destination reference has been built,
  but before the push.
- After a failed push, `os.Remove(output)` runs for every output path, so it
  also runs for the default `/dev/stdout` when standard output is not a
  terminal. The push error is returned whatever the removal did.

The two manifest media types are the ones from the OCI image specification
(`application/vnd.oci.image.manifest.v1+json`) and from Docker's image
manifest version 2, schema 2
(`application/vnd.docker.distribution.manifest.v2+json`). Their Go definitions
and `DefaultLocalRegistry` (`localhost`) live in packages that are not part of
this model.

## Model

| member | source | states |
|---|---|---|
| `Save.ImageNameForSaveDestination` | cmd/podman/save.go:152-172 | the loop that stops at the first matching name returns exactly the set-based rule `DestinationName` |
| `Save.IdInputGivesNoName` | cmd/podman/save.go:153-155 | an input found in the content ID gives the empty name; this covers every prefix of the ID and the empty input |
| `Save.NoNameIffIdInput` | cmd/podman/save.go:153-171 | the name is empty exactly when the input occurs in the content ID (both directions) |
| `Save.NameEndsWithInput` | cmd/podman/save.go:157-171 | an input not found in the ID is returned bare or behind `localhost/`, so the name always ends with the input |
| `Save.QualifiedInputUnchanged` | cmd/podman/save.go:159-171 | an input that already starts with `localhost/` gets nothing prepended |
| `Save.PrependIff` | cmd/podman/save.go:159-169 | `localhost/` is prepended exactly when the input is not in the ID, lacks the prefix, and some name has the prefix and ends with the input or with `input:latest` |
| `Save.NameOrderIrrelevant` | cmd/podman/save.go:161-168 | only the set of the image's names matters, not their order or repetition |
| `Save.LatestTagQualified` | cmd/podman/save.go:165-166 | a stored name `localhost/<input>:latest` makes the rule prepend the prefix |
| `Save.BareNameExample` | cmd/podman/save.go:161-171 | for any hex ID, names `[localhost/foo:latest]` and input `foo` give `localhost/foo` |
| `Save.RemoteNameExample` | cmd/podman/save.go:153-171 | for any hex ID, names `[registry.example.com/foo:v1]` and that same input give the input unchanged |
| `GoStrings.ContainsAt` | cmd/podman/save.go:153 | `Contains(s, t)` holds exactly when `t` occurs at some offset of `s` |
| `GoStrings.MissingCharNotContained` | cmd/podman/save.go:153 | a string that has a character the ID lacks is not contained in the ID |
| `Save.SelectTarget` | cmd/podman/save.go:98-129 | the switch as it runs, consulting the name rule only for the two archive formats, yields `Dispatch` of the format, the output and the rule's name; `Dispatch` is the table of save.go:98-129 itself: `FormatTargets` states its per-format values, and `UnknownFormatIff`, `TargetShape` and `DockerArchiveSpec` state its shape (which formats are known, directory versus archive, the docker-archive string) |
| `Save.FormatTargets` | cmd/podman/save.go:99-116 | `oci-archive` gives an OCI archive reference of `(output, name)` with no manifest type; `oci-dir` gives a directory at the output with the OCI image manifest type; `docker-dir` gives a directory at the output with the Docker v2 schema 2 type; the two types differ |
| `Save.UnknownFormatIff` | cmd/podman/save.go:127-128 | the switch rejects a format exactly when it is not one of `oci-archive`, `oci-dir`, `docker-dir`, `docker-archive`, `""` |
| `Save.TargetShape` | cmd/podman/save.go:98-129 | directory references come exactly from the two directory formats, sit at the output and never depend on the name; the manifest type is empty exactly for archive references |
| `Save.DockerArchiveSpec` | cmd/podman/save.go:117-126 | a docker archive goes to `output`, or to `output:name` when the name is non-empty |
| `Save.DefaultArchiveNamesInput` | cmd/podman/save.go:117-123 | with the default format the archive reference is the bare output exactly when the input is in the ID, and otherwise ends with the input |
| `Save.CompressRejectedOnlyForDefaultFormat` | cmd/podman/save.go:70-72 | the guard as written refuses `--compress` exactly when the flag was set and the format is empty |
| `Save.PushRequestShape` | cmd/podman/save.go:74-77 | the push gets no status writer exactly under `--quiet`, gets the `--compress` value and the image found, and with one argument gets no extra tags |
| `Save.Host.RemovePath` | cmd/podman/save.go:140 | `os.Remove` succeeds exactly when the path exists and removal is not refused; only then is the path gone |
| `Save.Host.SaveCmd` | cmd/podman/save.go:58-147 | the guards in order (arguments, runtime, compress, terminal, file name, lookup), each with its error, the journal of calls made so far and an unchanged file system; only the output path can ever appear or disappear |
| `Save.Host.Export` | cmd/podman/save.go:96-138 | after the lookup: unknown format with no call, reference failure after the reference call, bad extra tag after parsing `args[1..]` (only with more than one argument) and before the push |
| `Save.Host.PushOrCleanUp` | cmd/podman/save.go:139-146 | a successful push returns nil and removes nothing; a failed one removes the output if it can, logs a failed removal, and returns the wrapped push error either way |
| `Save.FailedPushRemovesOutput` | cmd/podman/save.go:139-144 | after a failed push the error is `SaveFailed(args)`, the output is gone unless removal was refused, nothing else changed, and a left-over output was logged |
| `Save.SuccessfulPushKeepsFiles` | cmd/podman/save.go:139-146 | after a successful push nothing is removed and no removal is attempted |
| `Save.UnknownFormatDoesNoIO` | cmd/podman/save.go:127-128 | with an unknown format, once the image is found, no reference is built, nothing is pushed and the file system is unchanged |

## Left out

- Flag registration with cobra (save.go:29-55) is left out. Only the default output `/dev/stdout` is kept, as `DefaultOutput`.
- Runtime shutdown (save.go:68) is resource release with no effect on the result, so it is left out. Runtime creation is kept, as an oracle that may fail.
- The inside of `ociarchive.NewReference`, `directory.NewReference`, `dockerarchive.ParseReference`, `GetAdditionalTags`, `validateFileName` and `NewFromLocal` is not modelled. Each is an oracle that succeeds or fails. The reference constructors share the one oracle `referenceOk`, keyed by the reference they are asked for.
- `PushImageToReference` is modelled as one outcome: whether it succeeded, and whether it left a file at the output path. The transfer, the archive layout and the signing and registry options are out of scope.
- `os.Remove` is modelled only by its effect on the set of paths. It fails when the path is absent or when the `removeRefused` oracle says so, for example a permission error or a non-empty directory.
- Error wording and `errors.Wrapf` formatting are reduced to error kinds with the context each carries. The logged variable at save.go:141 is kept only as the fact that a failed removal is logged.
- Go strings are byte strings. They are modelled as `string`, which is enough because the three `strings` predicates only compare elements.
- `cmd/podman/system/info.go` (the `info` command) is output formatting over library serialisers, so it is not part of this model.
