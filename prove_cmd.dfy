/** `ProveCommand::run` of crates/client/src/prove_cmd.rs: load the witness, build the
    circuit, narrow the universal parameters to the circuit's size, set up the keys,
    prove, verify the proof, and only then persist it as hex text.

    The proving library (`vm_circuit`) is foreign: circuit sizing, key setup, instance
    extraction, proving, verification and mock proving are the fields of a `Backend`
    value, opaque total functions. The loading steps that precede circuit building
    (witness JSON, package root, manifest, compiled package) are given as their
    results in `Inputs`. */
module ProveCmd {
  import opened Results
  import opened Storage
  import AptosUtils

  function Pow2(n: nat): (r: nat)
    ensures r >= 1
  {
    if n == 0 then 1 else 2 * Pow2(n - 1)
  }

  lemma {:induction false} Pow2Monotone(a: nat, b: nat)
    requires a <= b
    ensures Pow2(a) <= Pow2(b)
  {
    if a < b {
      Pow2Monotone(a, b - 1);
    }
  }

  /** The value of a set of KZG universal parameters as far as the pipeline depends on it:
      the size exponent k and the 2^k commitment-key points, each an opaque handle. */
  datatype ParamsView = ParamsView(k: nat, g: seq<int>) {
    predicate Valid() {
      |g| == Pow2(k)
    }
  }

  /** Parameters cut down to size k: the first 2^k points of the same setup. */
  function Truncated(p: ParamsView, k: nat): (r: ParamsView)
    requires p.Valid() && k <= p.k
    ensures r.Valid() && r.k == k && r.g <= p.g
  {
    Pow2Monotone(k, p.k);
    ParamsView(k, p.g[..Pow2(k)])
  }

  /** The parameters used for setup, proving and verifying: the loaded ones narrowed to
      `bestK` when that is smaller, and the loaded ones unchanged otherwise. There is no
      error for a `bestK` above the loaded size. */
  function UsedParams(loaded: ParamsView, bestK: nat): (r: ParamsView)
    requires loaded.Valid()
    ensures r.Valid() && r.g <= loaded.g
    ensures r.k <= loaded.k && r.k <= bestK && (r.k == loaded.k || r.k == bestK)
    ensures loaded.k <= bestK ==> r == loaded
  {
    if bestK < loaded.k then Truncated(loaded, bestK) else loaded
  }

  /** Applying the narrowing rule a second time changes nothing. */
  lemma UsedParamsIdempotent(loaded: ParamsView, bestK: nat)
    requires loaded.Valid()
    ensures UsedParams(UsedParams(loaded, bestK), bestK) == UsedParams(loaded, bestK)
  {
  }

  /** `ParamsKZG<Bn256>`, an object whose `downsize` changes it in place. */
  class ParamsKzg {
    var k: nat
    var g: seq<int>

    function View(): ParamsView
      reads this
    {
      ParamsView(k, g)
    }

    constructor (k: nat, g: seq<int>)
      requires |g| == Pow2(k)
      ensures View() == ParamsView(k, g) && View().Valid()
    {
      this.k := k;
      this.g := g;
    }

    method Clone() returns (c: ParamsKzg)
      requires View().Valid()
      ensures fresh(c) && c.View() == View()
    {
      c := new ParamsKzg(k, g);
    }

    /** halo2's `downsize`, which asserts that the new size is not larger. */
    method Downsize(newK: nat)
      requires View().Valid() && newK <= k
      modifies this
      ensures View() == Truncated(old(View()), newK)
    {
      Pow2Monotone(newK, k);
      g := g[..Pow2(newK)];
      k := newK;
    }
  }

  /** One recorded call: the function and its argument values. */
  datatype Invocation = Invocation(functionId: string, args: seq<int>)

  /** A loaded witness trace; `entry` is what `Footprints::entry` yields. */
  datatype Footprints = Footprints(invocations: seq<Invocation>, entry: Option<Invocation>)

  datatype CompiledPackage = CompiledPackage(name: string, modules: seq<seq<AptosUtils.byte>>)

  /** `VmCircuit::new` with the default configuration: the circuit is determined by the
      package, the trace and the public-input indices. */
  datatype Circuit = Circuit(package: CompiledPackage, traces: Footprints, pubsIndices: seq<nat>)

  datatype ProvingKey = ProvingKey(handle: int)
  datatype VerifyingKey = VerifyingKey(handle: int)
  datatype Keys = Keys(vk: VerifyingKey, pk: ProvingKey)

  /** Public instance columns, one sequence of field elements per column. */
  type Instances = seq<seq<int>>

  /** The foreign proving library. */
  datatype Backend = Backend(
    bestK: Circuit -> nat,
    setup: (Circuit, ParamsView) -> Result<Keys, string>,
    instances: (seq<int>, seq<nat>) -> Instances,
    prove: (Circuit, Instances, ParamsView, ProvingKey) -> Result<seq<AptosUtils.byte>, string>,
    verify: (Instances, ParamsView, VerifyingKey, seq<AptosUtils.byte>) -> bool,
    mockProve: (Circuit, Instances, nat) -> Result<(), string>)

  /** Results of the loading steps that precede circuit building. */
  datatype Inputs = Inputs(
    footprints: Result<Footprints, string>,
    root: Result<Path, string>,
    package: Result<CompiledPackage, string>)

  datatype ProveCommand = ProveCommand(
    witnessPath: Path,
    pubsIndices: seq<nat>,
    proofOutputDir: Option<Path>,
    debug: bool)  // only gates the `print_cs_info` diagnostic, which is not modelled

  /** Whether the crate was built with the `test-circuits` feature. That build replaces
      proving, verifying and persisting with an optional mock proof; whether the mock
      proof runs is an explicit flag here. */
  datatype Build = Production | TestCircuits(mockProve: bool)

  datatype RunError =
    | LoadFailed(message: string)
    | SetupFailed(message: string)
    | MockProveFailed(message: string)
    | IoFailed(path: Path)

  /** `Ok(())`, an error returned through `?`, or a panic from `expect`. */
  datatype RunOutcome = Ok | Err(error: RunError) | Panic(message: string)

  const EntryNotFound: string := "Entry not found"
  const ProofGenerationFailed: string := "proof generation should not fail"
  const VerificationFailed: string := "verify proof should be ok"

  const ProofsDirName: string := "proofs"
  const ProofFileSuffix: string := ".proof.hex"

  /** What the pipeline decides before it touches the file system: stop with an outcome,
      or persist `contents` as `fileName` inside `dir`. */
  datatype Decision =
    | Stop(outcome: RunOutcome)
    | Persist(dir: Path, fileName: string, contents: string)

  /** The output directory: the override when given, else `proofs` under the package root. */
  function ProofOutputDir(proofOutputDir: Option<Path>, root: Path): (dir: Path)
    ensures proofOutputDir.Some? ==> dir == proofOutputDir.value
    ensures proofOutputDir.None? ==>
      |dir.components| == |root.components| + 1 && Parent(dir) == root && LastComponent(dir) == "proofs"
  {
    match proofOutputDir
    case Some(dir) => dir
    case None => Join(root, ProofsDirName)
  }

  /** `<witness file stem>.proof.hex`. */
  function ProofFileName(witnessPath: Path): (name: string)
    requires HasFileName(witnessPath)
    ensures |name| > |ProofFileSuffix| && name[|name| - |ProofFileSuffix|..] == ".proof.hex"
    ensures name[..|name| - |ProofFileSuffix|] <= LastComponent(witnessPath)
    ensures name[..|name| - |ProofFileSuffix|] == FileStem(LastComponent(witnessPath))
  {
    FileStem(LastComponent(witnessPath)) + ProofFileSuffix
  }

  /** The pipeline of `ProveCommand::run`, stage by stage, as a decision. */
  function Decide(cmd: ProveCommand, loaded: ParamsView, inputs: Inputs, backend: Backend, build: Build): (d: Decision)
    requires loaded.Valid() && HasFileName(cmd.witnessPath)
    ensures inputs.footprints.Failure? ==> d == Stop(Err(LoadFailed(inputs.footprints.error)))
    ensures d.Persist? ==> build == Production && Loaded(inputs)
    ensures d.Persist? ==> d.fileName == ProofFileName(cmd.witnessPath)
    ensures d.Stop? && d.outcome.Panic? ==>
      d.outcome.message in {EntryNotFound, ProofGenerationFailed, VerificationFailed}
    ensures d.Stop? && d.outcome.Panic? && Loaded(inputs) ==> build == Production
    ensures d.Stop? && d.outcome.Err? ==> !d.outcome.error.IoFailed?
  {
    match inputs.footprints
    case Failure(e) => Stop(Err(LoadFailed(e)))
    case Success(traces) =>
      match traces.entry
      case None => Stop(Panic(EntryNotFound))
      case Some(entry) =>
        match inputs.root
        case Failure(e) => Stop(Err(LoadFailed(e)))
        case Success(root) =>
          match inputs.package
          case Failure(e) => Stop(Err(LoadFailed(e)))
          case Success(package) =>
            var circuit := Circuit(package, traces, cmd.pubsIndices);
            var k := backend.bestK(circuit);
            var params := UsedParams(loaded, k);
            match backend.setup(circuit, params)
            case Failure(e) => Stop(Err(SetupFailed(e)))
            case Success(keys) =>
              var instances := backend.instances(entry.args, cmd.pubsIndices);
              match build
              case TestCircuits(mock) =>
                if mock && backend.mockProve(circuit, instances, k).Failure? then
                  Stop(Err(MockProveFailed(backend.mockProve(circuit, instances, k).error)))
                else Stop(Ok)
              case Production =>
                match backend.prove(circuit, instances, params, keys.pk)
                case Failure(_) => Stop(Panic(ProofGenerationFailed))
                case Success(proof) =>
                  if !backend.verify(instances, params, keys.vk, proof) then Stop(Panic(VerificationFailed))
                  else Persist(ProofOutputDir(cmd.proofOutputDir, root), ProofFileName(cmd.witnessPath), AptosUtils.Encode(proof))
  }

  /** Carries out a decision on the file system: `create_dir_all` on the directory, then
      `write` of the file. A stop leaves the file system as it was. */
  function Apply(s: FsState, denied: set<Path>, d: Decision): (r: (RunOutcome, FsState))
    ensures d.Stop? ==> r == (d.outcome, s)
    ensures r.1.files != s.files ==> d.Persist? && r.1.files == s.files[Join(d.dir, d.fileName) := d.contents]
    ensures r.1.dirs != s.dirs ==> d.Persist?
    ensures r.0 == Ok && d.Persist? ==>
      d.dir in r.1.dirs && r.1.files == s.files[Join(d.dir, d.fileName) := d.contents]
    ensures d.Persist? ==>
      (r.0 == Ok <==> (d.dir in s.dirs || d.dir !in denied) && Join(d.dir, d.fileName) !in denied)
    ensures d.Persist? && r.0 != Ok ==> r.0.Err? && r.0.error.IoFailed?
    ensures d.Persist? ==> s.dirs <= r.1.dirs <= s.dirs + Ancestors(d.dir)
    ensures r.0 != Ok ==> r.1.files == s.files
  {
    match d
    case Stop(outcome) => (outcome, s)
    case Persist(dir, fileName, contents) =>
      var (made, s1) := AfterCreateDirAll(s, denied, dir);
      if made.Failure? then (Err(IoFailed(made.error)), s1)
      else
        var (written, s2) := AfterWrite(s1, denied, Join(dir, fileName), contents);
        if written.Failure? then (Err(IoFailed(written.error)), s2)
        else
          assert s2.files == s.files[Join(dir, fileName) := contents];
          (Ok, s2)
  }

  /** `ProveCommand::run`. The caller's parameters are cloned and only the clone is
      narrowed; the file system changes exactly as `Apply` of the pipeline's decision. */
  method Run(cmd: ProveCommand, params: ParamsKzg, inputs: Inputs, backend: Backend, build: Build, fs: FileSystem)
    returns (outcome: RunOutcome)
    requires params.View().Valid() && HasFileName(cmd.witnessPath)
    modifies fs
    ensures params.View() == old(params.View())
    ensures (outcome, fs.State()) == Apply(old(fs.State()), fs.denied, Decide(cmd, params.View(), inputs, backend, build))
  {
    if inputs.footprints.Failure? {
      return Err(LoadFailed(inputs.footprints.error));
    }
    var traces := inputs.footprints.value;
    if traces.entry.None? {
      return Panic(EntryNotFound);
    }
    var entry := traces.entry.value;
    if inputs.root.Failure? {
      return Err(LoadFailed(inputs.root.error));
    }
    var root := inputs.root.value;
    if inputs.package.Failure? {
      return Err(LoadFailed(inputs.package.error));
    }
    var circuit := Circuit(inputs.package.value, traces, cmd.pubsIndices);
    var k := backend.bestK(circuit);

    var local := params.Clone();
    if k < local.k {
      local.Downsize(k);
    }
    assert local.View() == UsedParams(params.View(), k);

    var keys := backend.setup(circuit, local.View());
    if keys.Failure? {
      return Err(SetupFailed(keys.error));
    }
    var instances := backend.instances(entry.args, cmd.pubsIndices);

    if build.TestCircuits? {
      if build.mockProve {
        var mocked := backend.mockProve(circuit, instances, k);
        if mocked.Failure? {
          return Err(MockProveFailed(mocked.error));
        }
      }
      return Ok;
    }

    var proof := backend.prove(circuit, instances, local.View(), keys.value.pk);
    if proof.Failure? {
      return Panic(ProofGenerationFailed);
    }
    var verified := backend.verify(instances, local.View(), keys.value.vk, proof.value);
    if !verified {
      return Panic(VerificationFailed);
    }

    var dir := ProofOutputDir(cmd.proofOutputDir, root);
    var made := fs.CreateDirAll(dir);
    if made.Failure? {
      return Err(IoFailed(made.error));
    }
    var path := Join(dir, ProofFileName(cmd.witnessPath));
    var written := fs.Write(path, AptosUtils.Encode(proof.value));
    if written.Failure? {
      return Err(IoFailed(written.error));
    }
    return Ok;
  }

  /** A trace without an entry invocation stops with the "Entry not found" panic, whatever
      the parameters, the proving library and the build: key setup is never reached. */
  lemma NoEntryStopsBeforeSetup(
    cmd: ProveCommand, inputs: Inputs,
    loaded: ParamsView, backend: Backend, build: Build,
    otherLoaded: ParamsView, otherBackend: Backend, otherBuild: Build)
    requires loaded.Valid() && otherLoaded.Valid() && HasFileName(cmd.witnessPath)
    requires inputs.footprints.Success? && inputs.footprints.value.entry.None?
    ensures Decide(cmd, loaded, inputs, backend, build) == Stop(Panic(EntryNotFound))
    ensures Decide(cmd, loaded, inputs, backend, build) == Decide(cmd, otherLoaded, inputs, otherBackend, otherBuild)
  {
  }

  /** The circuit `run` builds once loading has succeeded. */
  function CircuitOf(cmd: ProveCommand, inputs: Inputs): Circuit
    requires inputs.footprints.Success? && inputs.package.Success?
  {
    Circuit(inputs.package.value, inputs.footprints.value, cmd.pubsIndices)
  }

  /** Every loading step succeeded and the trace has an entry. */
  predicate Loaded(inputs: Inputs) {
    inputs.footprints.Success? && inputs.footprints.value.entry.Some? && inputs.root.Success? && inputs.package.Success?
  }

  /** The pipeline persists exactly when the build is a production build, loading succeeded,
      key setup succeeded, proving succeeded and verification accepted the proof; the
      contents are then the hex encoding of that verified proof. */
  lemma PersistIffVerified(cmd: ProveCommand, loaded: ParamsView, inputs: Inputs, backend: Backend, build: Build)
    requires loaded.Valid() && HasFileName(cmd.witnessPath)
    ensures Decide(cmd, loaded, inputs, backend, build).Persist? <==>
      && build == Production
      && Loaded(inputs)
      && var circuit := CircuitOf(cmd, inputs);
         var params := UsedParams(loaded, backend.bestK(circuit));
         var instances := backend.instances(inputs.footprints.value.entry.value.args, cmd.pubsIndices);
         && backend.setup(circuit, params).Success?
         && var keys := backend.setup(circuit, params).value;
            && backend.prove(circuit, instances, params, keys.pk).Success?
            && backend.verify(instances, params, keys.vk, backend.prove(circuit, instances, params, keys.pk).value)
    ensures Decide(cmd, loaded, inputs, backend, build).Persist? ==>
      var circuit := CircuitOf(cmd, inputs);
      var params := UsedParams(loaded, backend.bestK(circuit));
      var instances := backend.instances(inputs.footprints.value.entry.value.args, cmd.pubsIndices);
      var proof := backend.prove(circuit, instances, params, backend.setup(circuit, params).value.pk).value;
      AptosUtils.Decode(Decide(cmd, loaded, inputs, backend, build).contents) == Some(proof)
  {
    var d := Decide(cmd, loaded, inputs, backend, build);
    if d.Persist? {
      var circuit := CircuitOf(cmd, inputs);
      var params := UsedParams(loaded, backend.bestK(circuit));
      var instances := backend.instances(inputs.footprints.value.entry.value.args, cmd.pubsIndices);
      var proof := backend.prove(circuit, instances, params, backend.setup(circuit, params).value.pk).value;
      assert d.contents == AptosUtils.Encode(proof);
      AptosUtils.DecodeEncode(proof);
    }
  }

  /** Each failure stage ends the pipeline as the source does. Failures of the package root,
      the package and key setup are returned through `?`. In a production build a failed
      proof and a rejected proof are the two `expect` panics. `Ok` without an artifact
      happens only in a `test-circuits` build. */
  lemma FailureOutcomes(cmd: ProveCommand, loaded: ParamsView, inputs: Inputs, backend: Backend, build: Build)
    requires loaded.Valid() && HasFileName(cmd.witnessPath)
    ensures var d := Decide(cmd, loaded, inputs, backend, build);
      && (inputs.footprints.Success? && inputs.footprints.value.entry.Some? && inputs.root.Failure? ==>
            d == Stop(Err(LoadFailed(inputs.root.error))))
      && (inputs.footprints.Success? && inputs.footprints.value.entry.Some? && inputs.root.Success?
          && inputs.package.Failure? ==>
            d == Stop(Err(LoadFailed(inputs.package.error))))
      && (d == Stop(Ok) ==> build.TestCircuits?)
    ensures Loaded(inputs) ==>
      var d := Decide(cmd, loaded, inputs, backend, build);
      var circuit := CircuitOf(cmd, inputs);
      var params := UsedParams(loaded, backend.bestK(circuit));
      var instances := backend.instances(inputs.footprints.value.entry.value.args, cmd.pubsIndices);
      var keys := backend.setup(circuit, params);
      && (keys.Failure? ==> d == Stop(Err(SetupFailed(keys.error))))
      && (build == Production && keys.Success? ==>
            var proof := backend.prove(circuit, instances, params, keys.value.pk);
            && (proof.Failure? ==> d == Stop(Panic(ProofGenerationFailed)))
            && (proof.Success? && !backend.verify(instances, params, keys.value.vk, proof.value) ==>
                  d == Stop(Panic(VerificationFailed))))
  {
  }

  /** The artifact goes to the override directory when one is given, else to `proofs` under
      the package root, under the name `<witness stem>.proof.hex`, where the stem is the
      witness file name up to its last extension. */
  lemma ArtifactLocation(cmd: ProveCommand, loaded: ParamsView, inputs: Inputs, backend: Backend, build: Build)
    requires loaded.Valid() && HasFileName(cmd.witnessPath)
    requires Decide(cmd, loaded, inputs, backend, build).Persist?
    ensures var d := Decide(cmd, loaded, inputs, backend, build);
      && (cmd.proofOutputDir.Some? ==> d.dir == cmd.proofOutputDir.value)
      && (cmd.proofOutputDir.None? ==> d.dir == Join(inputs.root.value, "proofs"))
      && d.fileName == FileStem(LastComponent(cmd.witnessPath)) + ".proof.hex"
      && FileStem(LastComponent(cmd.witnessPath)) <= LastComponent(cmd.witnessPath)
  {
  }

  /** A build with the `test-circuits` feature never persists an artifact. */
  lemma TestCircuitsNeverPersist(cmd: ProveCommand, loaded: ParamsView, inputs: Inputs, backend: Backend, mock: bool)
    requires loaded.Valid() && HasFileName(cmd.witnessPath)
    ensures Decide(cmd, loaded, inputs, backend, TestCircuits(mock)).Stop?
    ensures !mock && Loaded(inputs) ==>
      var circuit := CircuitOf(cmd, inputs);
      Decide(cmd, loaded, inputs, backend, TestCircuits(mock)).outcome ==
        if backend.setup(circuit, UsedParams(loaded, backend.bestK(circuit))).Success? then Ok
        else Err(SetupFailed(backend.setup(circuit, UsedParams(loaded, backend.bestK(circuit))).error))
  {
  }

  /** Running a decision again after it succeeded finds the directory in place and
      overwrites the file with the same contents: nothing changes. */
  lemma {:induction false} RerunIdempotent(s: FsState, denied: set<Path>, d: Decision)
    requires Apply(s, denied, d).0 == Ok
    ensures Apply(Apply(s, denied, d).1, denied, d) == Apply(s, denied, d)
  {
    if d.Persist? {
      var s1 := Apply(s, denied, d).1;
      var (made, t1) := AfterCreateDirAll(s, denied, d.dir);
      CreateDirAllIdempotent(s, denied, d.dir);
      var (written, t2) := AfterWrite(t1, denied, Join(d.dir, d.fileName), d.contents);
      assert s1 == t2;
      assert AfterCreateDirAll(s1, denied, d.dir) == (Success(()), s1);
      assert s1.files[Join(d.dir, d.fileName) := d.contents] == s1.files;
    }
  }

  /** Two runs with the same command, parameters, inputs and proving library leave the file
      system as one run does, and both report success. */
  lemma RunTwiceSameArtifact(
    cmd: ProveCommand, loaded: ParamsView, inputs: Inputs, backend: Backend, build: Build,
    s: FsState, denied: set<Path>)
    requires loaded.Valid() && HasFileName(cmd.witnessPath)
    requires Apply(s, denied, Decide(cmd, loaded, inputs, backend, build)).0 == Ok
    ensures var once := Apply(s, denied, Decide(cmd, loaded, inputs, backend, build));
      Apply(once.1, denied, Decide(cmd, loaded, inputs, backend, build)) == once
  {
    RerunIdempotent(s, denied, Decide(cmd, loaded, inputs, backend, build));
  }

  /** A witness at `traces/add.json` yields the artifact `add.proof.hex`. */
  lemma ExampleProofFileName()
    ensures ProofFileName(Path(["traces", "add.json"])) == "add.proof.hex"
  {
    var name := LastComponent(Path(["traces", "add.json"]));
    assert name == "add.json";
    assert '.' !in name[4..];
    LastDotAt(name, 3);
  }

  /** Parameters loaded at k = 12 for a circuit of k = 10 are narrowed to k = 10 and keep the
      first 2^10 points; for a circuit of k = 14 they are used as loaded. */
  lemma ExampleNarrowing(loaded: ParamsView)
    requires loaded.Valid() && loaded.k == 12
    ensures UsedParams(loaded, 10).k == 10 && UsedParams(loaded, 10).g == loaded.g[..1024]
    ensures UsedParams(loaded, 14) == loaded
  {
  }
}
