# zkMove client core in Dafny

This project models the logic of the zkMove command-line client (`crates/client`) that
belongs to the client itself:

- `ProveCommand::run` (`prove_cmd.rs`) loads a witness trace and builds the VM circuit.
  It narrows the KZG universal parameters to the circuit's `best_k`, sets up keys, proves
  and verifies. Only then does it write the proof as hex text to
  `<output dir>/<witness stem>.proof.hex`. The model is in `prove_cmd.dfy` and `storage.dfy`.
  - `ParamsKzg` is a class. `Clone` and an in-place `Downsize` act on it, as the source
    clones the caller's parameters and downsizes only the clone.
  - `Decide` is the pipeline's decision as a pure function.
  - `Apply` carries that decision out on a file-system state (`create_dir_all`, then `write`).
  - `Run` is the imperative method. It is proved to change the `FileSystem` object exactly
    as `Apply(Decide(...))` says, and to leave the caller's parameters untouched.
- `HexEncodedBytes::to_string` (`aptos_utils.rs`) renders bytes as `"0x"` followed by
  lowercase Base16 (section 8 of RFC 4648, lowercase alphabet). The model is in
  `aptos_utils.dfy`. `Encode` is `hex::encode`, and `Decode` and `FromString` are its inverses.
- `ModuleIdWrapper::from_str` (`aptos_cmds.rs`) parses `address::name`. The model is in
  `aptos_cmds.dfy`. `Split` models Rust's `str::split`, which finds separators left to
  right without overlap. Address parsing and identifier validation belong to the Move core
  types library, so they are function parameters.

The proving library `vm_circuit` is foreign. In the model, `best_k`, `setup_circuit`,
`InstanceFields::new`, `prove_circuit`, `verify_circuit` and `mock_prove_circuit` are
opaque total functions held in a `Backend` value. `VmCircuit::new` is the constructor
`Circuit(package, traces, pubsIndices)`, so the circuit is determined by its inputs. The witness load, package-root lookup,
manifest parsing and compiled-package load come before circuit building. They are given
as their results in an `Inputs` value. Whether the file system refuses an operation is
given as a set of denied paths.

`run` has no "parameters too small" check. When `best_k` is not below the loaded `k`, the
parameters are used exactly as loaded (`UsedParams`).

## Model

| member | source | states |
|---|---|---|
| `AptosUtils.HexDigit` | crates/client/src/aptos_utils.rs:21 | a nibble's digit is the character at that position of `0123456789abcdef` |
| `AptosUtils.DigitValue` | crates/client/src/aptos_utils.rs:21 | a character has a value exactly when it is a lowercase hex digit, and the value maps back to that digit |
| `AptosUtils.Encode` | crates/client/src/aptos_utils.rs:21 | `hex::encode` gives 2 characters per byte, all lowercase hex digits; byte i sits at positions 2i and 2i+1, high nibble first |
| `AptosUtils.Decode` | crates/client/src/aptos_utils.rs:21 | a successful pairwise decode is half as long as its text |
| `AptosUtils.ToString` | crates/client/src/aptos_utils.rs:19-23 | output starts with `0x` and has length 2 + 2n; every later character is a lowercase hex digit; byte i is at positions 2+2i and 3+2i, high nibble first |
| `AptosUtils.FromString` | crates/client/src/aptos_utils.rs:19-23 | accepted text carries the `0x` prefix and has length 2 + 2n for the n bytes read |
| `AptosUtils.EmptyIsPrefixOnly` | crates/client/src/aptos_utils.rs:21 | an empty vector renders as exactly `0x` |
| `AptosUtils.DecodeEncode` | crates/client/src/aptos_utils.rs:21 | decoding an encoding returns the original bytes |
| `AptosUtils.EncodeDecode` | crates/client/src/aptos_utils.rs:21 | any text the decoder accepts is the encoding of the decoded bytes |
| `AptosUtils.ToStringRoundTrip` | crates/client/src/aptos_utils.rs:19-23 | reading back the rendered string recovers the bytes |
| `AptosUtils.ToStringInjective` | crates/client/src/aptos_utils.rs:19-23 | distinct byte vectors render as distinct strings |
| `AptosUtils.FromStringToString` | crates/client/src/aptos_utils.rs:19-23 | every string that reads back is the rendering of what it reads back to |
| `AptosCmds.Find` | crates/client/src/aptos_cmds.rs:202 | finds the leftmost occurrence of the separator, or none exactly when it does not occur |
| `AptosCmds.Split` | crates/client/src/aptos_cmds.rs:202 | `str::split`: at least one part; the parts joined with the separator rebuild the input; no part holds the separator; each cut is at the first occurrence in what remains |
| `AptosCmds.SplitUnique` | crates/client/src/aptos_cmds.rs:202 | any parts that rebuild the input, hold no separator and cut at first occurrences are exactly the result of `Split` |
| `AptosCmds.FourColonsSplit` | crates/client/src/aptos_cmds.rs:202-204 | `::::` splits into three empty parts, so it fails the two-part check |
| `AptosCmds.SplitSingleIff` | crates/client/src/aptos_cmds.rs:202-204 | one part exactly when the separator does not occur |
| `AptosCmds.SplitAtLeastThree` | crates/client/src/aptos_cmds.rs:202-204 | two non-overlapping separators give at least three parts |
| `AptosCmds.SplitTwoIff` | crates/client/src/aptos_cmds.rs:202-203 | the split is `[a, b]` iff input = a ++ sep ++ b, the first separator starts right after `a`, and `b` holds none |
| `AptosCmds.ParseModuleId` | crates/client/src/aptos_cmds.rs:198-211 | a format error iff the split does not give two parts, and a format error always carries the message "Invalid module id format. Expected 'address::name'". On success, parts[0] ++ "::" ++ parts[1] is the input, the address is parsed from parts[0], and the name is the valid identifier parts[1]. Address and identifier failures are returned as errors from those parts |
| `AptosCmds.ParseModuleIdSucceedsIff` | crates/client/src/aptos_cmds.rs:202-209 | for input "a::n", the result is (address of a, n) iff the first "::" follows `a`, `n` holds no "::", `a` parses and `n` is a valid identifier |
| `AptosCmds.NoSeparatorRejected` | crates/client/src/aptos_cmds.rs:202-204 | a string without "::" is rejected with the format message |
| `AptosCmds.TwoSeparatorsRejected` | crates/client/src/aptos_cmds.rs:202-204 | a string with two non-overlapping "::" is rejected with the format message |
| `AptosCmds.FunctionPathRejected` | crates/client/src/aptos_cmds.rs:202-204 | `0x1::m::f` is rejected with the format message |
| `AptosCmds.TripleColonSplit` | crates/client/src/aptos_cmds.rs:202-208 | `a:::b` splits into `a` and `:b`, passes the part count and is left to identifier validation |
| `Storage.Join` | crates/client/src/prove_cmd.rs:109-111 | joining a component appends it: the result's parent is the base and its last component is the name |
| `Storage.LastDot` | crates/client/src/prove_cmd.rs:113 | the position of a '.' with no '.' after it, or none exactly when the name has no '.' |
| `Storage.FileStem` | crates/client/src/prove_cmd.rs:113 | `file_stem` is a non-empty prefix of the file name. It is the whole name exactly when no '.' follows the first character; otherwise it is the name cut at its last '.' |
| `Storage.AfterCreateDirAll` | crates/client/src/prove_cmd.rs:110 | `create_dir_all` succeeds iff the directory exists or is not denied. On success the directory exists, and if it was new all its ancestors exist too. Only the directory and its ancestors are added; files are untouched; failure changes nothing |
| `Storage.AfterWrite` | crates/client/src/prove_cmd.rs:115 | `write` succeeds iff the parent exists and the path is not denied. It sets the file's contents and adds no other path; every other file and all directories stay unchanged; failure changes nothing |
| `Storage.CreateDirAllIdempotent` | crates/client/src/prove_cmd.rs:110 | creating the directory again after success changes nothing |
| `Storage.WriteFileOverwrites` | crates/client/src/prove_cmd.rs:115 | a second write to the same path replaces the first: the last write decides |
| `Storage.FileSystem.CreateDirAll` | crates/client/src/prove_cmd.rs:110 | the object's new state and result are those of `AfterCreateDirAll` on its old state |
| `Storage.FileSystem.Write` | crates/client/src/prove_cmd.rs:115 | the object's new state and result are those of `AfterWrite` on its old state |
| `ProveCmd.Truncated` | crates/client/src/prove_cmd.rs:80 | downsizing to k keeps a prefix of the points, exactly 2^k of them |
| `ProveCmd.UsedParams` | crates/client/src/prove_cmd.rs:75-81 | the k used is min(best_k, loaded k); the points are a prefix of the loaded ones; when best_k is at least the loaded k the parameters are used exactly as loaded, with no error |
| `ProveCmd.UsedParamsIdempotent` | crates/client/src/prove_cmd.rs:75-81 | applying the narrowing rule twice gives the same parameters as once |
| `ProveCmd.ParamsKzg.Clone` | crates/client/src/prove_cmd.rs:78 | the clone is a fresh object with the same value |
| `ProveCmd.ParamsKzg.Downsize` | crates/client/src/prove_cmd.rs:79-81 | in place, the object becomes the parameters truncated to the new k; this is called only with a k below the current one |
| `ProveCmd.Apply` | crates/client/src/prove_cmd.rs:106-115 | a stop leaves the file system unchanged. Only a persist decision changes files or directories. A persist ends Ok iff the directory exists or may be created and the file path is not denied; otherwise it ends with an I/O error. On success the output directory exists and exactly the artifact file is set to the contents. A persist adds only the output directory and its ancestors, and any outcome other than Ok leaves every file as it was |
| `ProveCmd.ProofOutputDir` | crates/client/src/prove_cmd.rs:106-109 | the override directory when given, else the `proofs` child of the package root |
| `ProveCmd.ProofFileName` | crates/client/src/prove_cmd.rs:111-114 | the name ends in `.proof.hex`, and what precedes the suffix is the file stem of the witness path, a prefix of its file name |
| `ProveCmd.Decide` | crates/client/src/prove_cmd.rs:47-115 | a witness load failure stops with that error. A persist happens only in a production build after every loading step and yields the `<stem>.proof.hex` name. Panics are only "Entry not found", "proof generation should not fail" or "verify proof should be ok", and after loading only a production build panics. No I/O error is decided before the file system is touched |
| `ProveCmd.FailureOutcomes` | crates/client/src/prove_cmd.rs:47-104 | after an entry is found, a failing package root or package stops with that load error. Once everything is loaded, a failing key setup stops with that error in every build. In a production build a failed proof panics with "proof generation should not fail", and a rejected proof panics with "verify proof should be ok". Ending Ok without an artifact happens only in a `test-circuits` build |
| `ProveCmd.Run` | crates/client/src/prove_cmd.rs:44-119 | the caller's parameters are unchanged; the outcome and the new file-system state are `Apply` of the pipeline's decision to the old state |
| `ProveCmd.NoEntryStopsBeforeSetup` | crates/client/src/prove_cmd.rs:47-48 | a trace without an entry panics with "Entry not found", and the decision does not depend on parameters, proving library or build, so setup is never reached |
| `ProveCmd.PersistIffVerified` | crates/client/src/prove_cmd.rs:99-115 | the artifact is persisted iff it is a production build, loading, setup and `prove_circuit` succeeded, and `verify_circuit` accepted the proof; the contents decode to that verified proof |
| `ProveCmd.ArtifactLocation` | crates/client/src/prove_cmd.rs:106-114 | the directory is the override if given, else `<root>/proofs`; the file is `<witness stem>.proof.hex` |
| `ProveCmd.TestCircuitsNeverPersist` | crates/client/src/prove_cmd.rs:92-117 | a `test-circuits` build always stops without writing; without the mock proof it reports the setup result |
| `ProveCmd.RerunIdempotent` | crates/client/src/prove_cmd.rs:110-115 | carrying out a decision again after it succeeded changes nothing and succeeds again |
| `ProveCmd.RunTwiceSameArtifact` | crates/client/src/prove_cmd.rs:106-115 | a rerun with the same inputs overwrites the same path with identical contents, leaving the state of one run |
| `ProveCmd.ExampleProofFileName` | crates/client/src/prove_cmd.rs:111-114 | the witness `traces/add.json` gives the file name `add.proof.hex` |
| `ProveCmd.ExampleNarrowing` | crates/client/src/prove_cmd.rs:75-81 | parameters at k = 12 become k = 10 with the first 1024 points for a k = 10 circuit, and stay as loaded for a k = 14 circuit |

## Left out

- The internals of `vm_circuit` are foreign KZG/BN254 cryptography. `best_k`, `setup_circuit`,
  `InstanceFields::new`, `prove_circuit`, `verify_circuit` and `mock_prove_circuit` are opaque
  functions here. That includes the bounds check of the public-input indices inside
  `InstanceFields`. The gate layout built by `VmCircuit::new` is not modelled, only its inputs.
- Halo2's parameters are modelled as the size exponent and the list of commitment-key
  points. The Lagrange-basis points and the G2 elements that `downsize` recomputes or keeps
  are not modelled.
- Witness loading (`Footprints::load`), package-root discovery, manifest reading and parsing,
  and compiled-package loading are I/O and library calls. They enter only as their results.
- The trigger of the `test-circuits` mock branch refers to a variable that is not in scope in
  the source. It is an explicit flag in `Build.TestCircuits`.
- File-system failures are abstracted as a set of denied paths. Absolute paths replacing the
  base in `Path::join`, symbolic links and encodings of file names are not modelled.
- `ProveCmd.Run`: requires a witness path with a file name, because the source's
  `file_stem().unwrap()` and `to_str().unwrap()` panic otherwise.
- Logging (`debug!`) and the `print_cs_info` diagnostic are not modelled. The command's
  `debug` flag only gates that diagnostic.
- `AptosUtils.FromString` and `AptosUtils.Decode` accept only lowercase digits, the image of
  the encoder. They are reference inverses, not models of `hex::decode`, which also accepts
  uppercase.
- The `main.rs` parameter-file read and its optional `downsize` are not modelled. That step
  only supplies the loaded parameters that `Run` receives.
- The aptos subcommand handlers are stubs that return `Ok(())`. They, the clap argument
  structures and `KZGVariant` are command-line surface. `util_cmd.rs` (printing parameter
  points) and `constants.rs` (string literals) are not part of this model.
