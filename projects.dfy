/** `PyDssProject` (PyDSS/pydss_project.py): a named project directory
    holding scenarios and the simulation settings, with the guards on its
    optional collaborators, the run loop over the scenarios, the
    bookkeeping records it writes into the settings, and loading a
    project back from the filesystem. */
module Projects {
  import opened Errors
  import opened PyStrings
  import opened Sequences
  import opened ProjectConfig
  import opened Scenarios
  import opened Packaging

  /** `SCENARIOS`: the directory of the scenarios inside a project. */
  const SCENARIOS: string := "Scenarios"

  // ---------------------------------------------------------------------------
  // The filesystem interface
  // ---------------------------------------------------------------------------

  /** The three interfaces a project can be read through. */
  datatype Backend = DirectoryBackend | TarBackend | ZipBackend

  /** PyDssArchiveFileInterfaceBase covers the tar and zip interfaces. */
  predicate IsArchive(b: Backend)
  {
    b.TarBackend? || b.ZipBackend?
  }

  /** What the interface reads back for one scenario: its controller,
      export and plot configurations. */
  datatype StoredScenario = StoredScenario(controllers: Configs, exports: Configs, plots: Document)

  /** A filesystem interface, as the values it reads: the simulation
      settings, the stored scenarios and the export metadata of each
      scenario that has any. */
  datatype FsInterface = FsInterface(
    backend: Backend,
    simulationConfig: Document,
    stored: map<string, StoredScenario>,
    exportMetadata: map<string, Document>)

  /** The interface `load_project` picks: the tar archive if it exists,
      else the zip archive if it exists, else the directory. */
  function ProbeBackend(existing: set<string>, path: string): (b: Backend)
    ensures b.TarBackend? <==> PathJoin(path, PROJECT_TAR) in existing
    ensures b.ZipBackend? <==> PathJoin(path, PROJECT_TAR) !in existing && PathJoin(path, PROJECT_ZIP) in existing
    ensures b.DirectoryBackend? <==> PathJoin(path, PROJECT_TAR) !in existing && PathJoin(path, PROJECT_ZIP) !in existing
  {
    if PathJoin(path, PROJECT_TAR) in existing then TarBackend
    else if PathJoin(path, PROJECT_ZIP) in existing then ZipBackend
    else DirectoryBackend
  }

  /** The interface of the kind `b` (`PyDssTarFileInterface`,
      `PyDssZipFileInterface` or `PyDssDirectoryInterface`), reading what
      `open` gives for it. */
  function Opened(open: Backend -> FsInterface, b: Backend): (fs: FsInterface)
    ensures fs.backend == b
  {
    open(b).(backend := b)
  }

  /** A project that has both archives is read from the tar archive, which
      is an archive: `LoadThenRun` shows such a project cannot run. */
  lemma ProbePrefersTar(existing: set<string>, path: string)
    requires PathJoin(path, PROJECT_TAR) in existing && PathJoin(path, PROJECT_ZIP) in existing
    ensures ProbeBackend(existing, path) == TarBackend && IsArchive(ProbeBackend(existing, path))
  {
  }

  // ---------------------------------------------------------------------------
  // The run loop
  // ---------------------------------------------------------------------------

  /** `inst.run(config, project, scenario, dry_run)` followed by
      `inst.get_estimated_space()`: the space the solver estimates for the
      scenario under the given settings, or None when it raises. */
  type Solver = (Document, string, bool) -> Option<nat>

  /** The settings with `Project.Active Scenario` set to `name`. */
  function Activated(config: Document, name: string): Document
    requires "Project" in config
  {
    config["Project" := config["Project"]["Active Scenario" := Text(name)]]
  }

  /** The state the loop of `run` works on. */
  datatype RunState = RunState(outcome: Outcome, config: Document, space: map<string, nat>)

  /** One iteration of the loop of `run`: set the active scenario to `name`
      (KeyError without a Project category), run the solver and record its
      estimate under the scenario's name. */
  function RunOne(config: Document, space: map<string, nat>, name: string, dryRun: bool, solver: Solver): RunState
  {
    match SetParam(config, "Project", "Active Scenario", Text(name))
    case Err(e) => RunState(Fail(e), config, space)
    case Ok(c) =>
      match solver(c, name, dryRun)
      case None => RunState(Fail(SolverFailed(name)), c, space)
      case Some(n) => RunState(Pass, c, space[name := n])
  }

  /** The loop of `run` over the scenarios named `names`, in order, stopping
      at the first iteration that raises. */
  function RunScenarios(config: Document, space: map<string, nat>, names: seq<string>,
                        dryRun: bool, solver: Solver): RunState
    decreases |names|
  {
    if names == [] then RunState(Pass, config, space)
    else
      var first := RunOne(config, space, names[0], dryRun, solver);
      if first.outcome.Fail? then first
      else RunScenarios(first.config, first.space, names[1..], dryRun, solver)
  }

  /** The loop from position `i` on is its iteration at `i` followed, when
      that passes, by the loop from `i + 1` on. */
  lemma RunScenariosAt(config: Document, space: map<string, nat>, names: seq<string>, i: nat,
                       dryRun: bool, solver: Solver)
    requires i < |names|
    ensures var first := RunOne(config, space, names[i], dryRun, solver);
            RunScenarios(config, space, names[i..], dryRun, solver)
            == if first.outcome.Fail? then first
               else RunScenarios(first.config, first.space, names[i + 1..], dryRun, solver)
  {
    assert names[i..][0] == names[i] && names[i..][1..] == names[i + 1..];
  }

  /** Setting the active scenario twice keeps the second. */
  lemma ActivatedTwice(config: Document, a: string, b: string)
    requires "Project" in config
    ensures Activated(Activated(config, a), b) == Activated(config, b)
  {
    assert config["Project"]["Active Scenario" := Text(a)]["Active Scenario" := Text(b)]
           == config["Project"]["Active Scenario" := Text(b)];
  }

  /** One iteration of the loop whose run succeeds: the rest of the loop
      starts from the settings with that scenario active and its estimate
      recorded. */
  lemma RunScenariosStep(config: Document, space: map<string, nat>, names: seq<string>,
                         dryRun: bool, solver: Solver)
    requires "Project" in config && names != []
    requires solver(Activated(config, names[0]), names[0], dryRun).Some?
    ensures RunScenarios(config, space, names, dryRun, solver)
            == RunScenarios(Activated(config, names[0]),
                            space[names[0] := solver(Activated(config, names[0]), names[0], dryRun).value],
                            names[1..], dryRun, solver)
  {
    assert SetParam(config, "Project", "Active Scenario", Text(names[0])) == Ok(Activated(config, names[0]));
  }

  /** Every later run sees the settings as if only its own scenario had
      been made active. */
  lemma ActivatedAfter(config: Document, a: string)
    requires "Project" in config
    ensures forall n :: Activated(Activated(config, a), n) == Activated(config, n)
  {
    forall n ensures Activated(Activated(config, a), n) == Activated(config, n) {
      ActivatedTwice(config, a, n);
    }
  }

  /** Runs that succeed after the first one still succeed when the loop
      resumes from the first one's settings. */
  lemma RunsShift(config: Document, names: seq<string>, dryRun: bool, solver: Solver, k: nat)
    requires "Project" in config && 0 < k <= |names|
    requires forall j :: 0 <= j < k ==> solver(Activated(config, names[j]), names[j], dryRun).Some?
    ensures forall j :: 0 <= j < k - 1 ==>
              solver(Activated(Activated(config, names[0]), names[1..][j]), names[1..][j], dryRun).Some?
  {
    forall j | 0 <= j < k - 1
      ensures solver(Activated(Activated(config, names[0]), names[1..][j]), names[1..][j], dryRun).Some?
    {
      assert names[1..][j] == names[j + 1];
      ActivatedTwice(config, names[0], names[j + 1]);
    }
  }

  /** Without a Project category the loop fails on its first scenario and
      changes nothing. */
  lemma RunScenariosNoProject(config: Document, space: map<string, nat>, names: seq<string>,
                              dryRun: bool, solver: Solver)
    requires "Project" !in config && names != []
    ensures RunScenarios(config, space, names, dryRun, solver)
            == RunState(Fail(KeyError(StrKey("Project"))), config, space)
  {
  }

  /** When the solver succeeds on every scenario, each run seeing the
      settings with that scenario active, the loop passes and leaves the
      last scenario active. */
  lemma {:induction false} RunScenariosAllPass(config: Document, space: map<string, nat>, names: seq<string>,
                                               dryRun: bool, solver: Solver)
    requires "Project" in config
    requires forall i :: 0 <= i < |names| ==> solver(Activated(config, names[i]), names[i], dryRun).Some?
    ensures RunScenarios(config, space, names, dryRun, solver).outcome == Pass
    ensures RunScenarios(config, space, names, dryRun, solver).config
            == if names == [] then config else Activated(config, names[|names| - 1])
    decreases |names|
  {
    if names != [] {
      var c := Activated(config, names[0]);
      var rest := names[1..];
      var space' := space[names[0] := solver(c, names[0], dryRun).value];
      assert RunScenarios(config, space, names, dryRun, solver) == RunScenarios(c, space', rest, dryRun, solver) by {
        RunScenariosStep(config, space, names, dryRun, solver);
      }
      assert forall j :: 0 <= j < |rest| ==> solver(Activated(c, rest[j]), rest[j], dryRun).Some? by {
        RunsShift(config, names, dryRun, solver, |names|);
      }
      RunScenariosAllPass(c, space', rest, dryRun, solver);
      if rest != [] {
        ActivatedTwice(config, names[0], rest[|rest| - 1]);
        TailLast(names);
      }
    }
  }

  /** Under the same conditions, every scenario name has the estimate of
      its own run and nothing else in the map changes. */
  lemma {:induction false} RunScenariosEstimates(config: Document, space: map<string, nat>, names: seq<string>,
                                                 dryRun: bool, solver: Solver)
    requires "Project" in config
    requires forall i :: 0 <= i < |names| ==> solver(Activated(config, names[i]), names[i], dryRun).Some?
    ensures forall n :: n in RunScenarios(config, space, names, dryRun, solver).space <==> n in space || n in names
    ensures forall n :: n in names ==>
              RunScenarios(config, space, names, dryRun, solver).space[n] == solver(Activated(config, n), n, dryRun).value
    ensures forall n :: n in space && n !in names ==>
              RunScenarios(config, space, names, dryRun, solver).space[n] == space[n]
    decreases |names|
  {
    if names != [] {
      var c := Activated(config, names[0]);
      var rest := names[1..];
      var space' := space[names[0] := solver(c, names[0], dryRun).value];
      var tail := RunScenarios(c, space', rest, dryRun, solver);
      assert RunScenarios(config, space, names, dryRun, solver) == tail by {
        RunScenariosStep(config, space, names, dryRun, solver);
      }
      assert forall j :: 0 <= j < |rest| ==> solver(Activated(c, rest[j]), rest[j], dryRun).Some? by {
        RunsShift(config, names, dryRun, solver, |names|);
      }
      RunScenariosEstimates(c, space', rest, dryRun, solver);
      assert forall n :: Activated(c, n) == Activated(config, n) by {
        ActivatedAfter(config, names[0]);
      }
      assert forall n :: n in names <==> n == names[0] || n in rest by {
        assert names == [names[0]] + rest;
      }
    }
  }

  /** The loop passes only when the solver succeeded on every scenario. */
  lemma {:induction false} RunScenariosPassOnlyIf(config: Document, space: map<string, nat>, names: seq<string>,
                                                  dryRun: bool, solver: Solver)
    requires "Project" in config
    requires RunScenarios(config, space, names, dryRun, solver).outcome.Pass?
    ensures forall i :: 0 <= i < |names| ==> solver(Activated(config, names[i]), names[i], dryRun).Some?
    decreases |names|
  {
    if names != [] {
      var c := Activated(config, names[0]);
      assert SetParam(config, "Project", "Active Scenario", Text(names[0])) == Ok(c);
      var v := solver(c, names[0], dryRun);
      var rest := names[1..];
      RunScenariosPassOnlyIf(c, space[names[0] := v.value], rest, dryRun, solver);
      forall i | 0 <= i < |names| ensures solver(Activated(config, names[i]), names[i], dryRun).Some? {
        if i > 0 {
          assert names[i] == rest[i - 1];
          ActivatedTwice(config, names[0], names[i]);
        }
      }
    }
  }

  /** When the first scenario whose run raises is `names[k]`, the loop
      fails with it, leaves it active and has recorded the runs before
      it. */
  lemma {:induction false} RunScenariosFailAt(config: Document, space: map<string, nat>, names: seq<string>,
                                              dryRun: bool, solver: Solver, k: nat)
    requires "Project" in config && k < |names|
    requires solver(Activated(config, names[k]), names[k], dryRun).None?
    requires forall j :: 0 <= j < k ==> solver(Activated(config, names[j]), names[j], dryRun).Some?
    ensures RunScenarios(config, space, names, dryRun, solver).outcome == Fail(SolverFailed(names[k]))
    ensures RunScenarios(config, space, names, dryRun, solver).config == Activated(config, names[k])
    ensures RunScenarios(config, space, names, dryRun, solver).space.Keys == space.Keys + Elements(names[..k])
    decreases k
  {
    if k == 0 {
      assert SetParam(config, "Project", "Active Scenario", Text(names[0])) == Ok(Activated(config, names[0]));
      assert names[..0] == [];
    } else {
      var c := Activated(config, names[0]);
      var v := solver(c, names[0], dryRun);
      var rest := names[1..];
      RunScenariosStep(config, space, names, dryRun, solver);
      TakeTail(names, k);
      assert Activated(c, rest[k - 1]) == Activated(config, names[k]) by {
        ActivatedTwice(config, names[0], names[k]);
      }
      RunsShift(config, names, dryRun, solver, k);
      var space' := space[names[0] := v.value];
      RunScenariosFailAt(c, space', rest, dryRun, solver, k - 1);
      assert space'.Keys + Elements(rest[..k - 1]) == space.Keys + Elements(names[..k]) by {
        assert space'.Keys == space.Keys + {names[0]};
      }
    }
  }

  /** `os.path.join(dir, STORE_FILENAME)` in the temporary directory for a
      dry run, in the project directory otherwise. */
  function StoreFilename(projectDir: string, tempDir: string, dryRun: bool): (r: string)
    ensures Basename(r) == STORE_FILENAME
    ensures !dryRun ==> r == PathJoin(projectDir, STORE_FILENAME)
    ensures dryRun ==> r == PathJoin(tempDir, STORE_FILENAME)
  {
    BasenameOfJoin(if dryRun then tempDir else projectDir, STORE_FILENAME);
    PathJoin(if dryRun then tempDir else projectDir, STORE_FILENAME)
  }

  // ---------------------------------------------------------------------------
  // The bookkeeping records of _serialize_scenarios
  // ---------------------------------------------------------------------------

  /** `{"script": pp_info["script"], "config_file": pp_info["config_file"]}`:
      KeyError names the first field that is missing. */
  function ReducedInfo(info: PostProcessInfo): (r: Result<PostProcessInfo>)
    ensures r.Ok? <==> "script" in info && "config_file" in info
    ensures r.Ok? ==> r.value.Keys == {"script", "config_file"}
                      && r.value["script"] == info["script"] && r.value["config_file"] == info["config_file"]
    ensures "script" !in info ==> r == Err(KeyError(StrKey("script")))
    ensures "script" in info && "config_file" !in info ==> r == Err(KeyError(StrKey("config_file")))
  {
    if "script" !in info then Err(KeyError(StrKey("script")))
    else if "config_file" !in info then Err(KeyError(StrKey("config_file")))
    else Ok(map["script" := info["script"], "config_file" := info["config_file"]])
  }

  /** The reduced entries of one scenario, in order, or the first KeyError. */
  function ReducedInfos(infos: seq<PostProcessInfo>): (r: Result<seq<PostProcessInfo>>)
    ensures r.Ok? <==> forall i :: 0 <= i < |infos| ==> ReducedInfo(infos[i]).Ok?
    ensures r.Ok? ==> |r.value| == |infos| && forall i :: 0 <= i < |infos| ==> r.value[i] == ReducedInfo(infos[i]).value
  {
    if infos == [] then Ok([])
    else
      var first :- ReducedInfo(infos[0]);
      var rest :- ReducedInfos(infos[1..]);
      assert forall i :: 0 < i < |infos| ==> infos[i] == infos[1..][i - 1];
      Ok([first] + rest)
  }

  /** One record of `Project.Scenarios`. */
  function RecordOf(s: ScenarioState): Result<ScenarioRecord>
  {
    var infos :- ReducedInfos(s.postProcessInfos);
    Ok(ScenarioRecord(s.name, infos))
  }

  /** The records written, in scenario order, and whether a scenario's
      entries raised; the record of the scenario that raises is not
      written. */
  function WrittenRecords(states: seq<ScenarioState>): (seq<ScenarioRecord>, Outcome)
  {
    if states == [] then ([], Pass)
    else
      match RecordOf(states[0])
      case Err(e) => ([], Fail(e))
      case Ok(rec) =>
        var rest := WrittenRecords(states[1..]);
        ([rec] + rest.0, rest.1)
  }

  /** Records are written for every scenario exactly when every entry has
      both fields; then record `i` carries scenario `i`'s name and its
      reduced entries. */
  lemma {:induction false} WrittenRecordsSpec(states: seq<ScenarioState>)
    ensures WrittenRecords(states).1.Pass? <==> forall i :: 0 <= i < |states| ==> RecordOf(states[i]).Ok?
    ensures WrittenRecords(states).1.Pass? ==>
              |WrittenRecords(states).0| == |states|
              && forall i :: 0 <= i < |states| ==>
                   WrittenRecords(states).0[i] == ScenarioRecord(states[i].name, ReducedInfos(states[i].postProcessInfos).value)
  {
    if states != [] {
      var rest := states[1..];
      WrittenRecordsSpec(rest);
      forall i | 0 < i < |states| ensures states[i] == rest[i - 1] {
      }
      if RecordOf(states[0]).Ok? && WrittenRecords(rest).1.Pass? {
        var rec := RecordOf(states[0]).value;
        forall i | 0 <= i < |states|
          ensures WrittenRecords(states).0[i] == ScenarioRecord(states[i].name, ReducedInfos(states[i].postProcessInfos).value)
        {
          if i > 0 {
            assert WrittenRecords(states).0[i] == WrittenRecords(rest).0[i - 1];
          }
        }
      }
    }
  }

  /** Scenarios whose entries passed `add_post_process` always have both
      fields, so their records are all written. */
  lemma CheckedInfosSerialize(env: Env, states: seq<ScenarioState>)
    requires forall i, k :: 0 <= i < |states| && 0 <= k < |states[i].postProcessInfos| ==>
               CheckPostProcess(env, states[i].postProcessInfos[k]).Pass?
    ensures WrittenRecords(states).1.Pass?
  {
    WrittenRecordsSpec(states);
    forall i | 0 <= i < |states| ensures RecordOf(states[i]).Ok? {
      var infos := states[i].postProcessInfos;
      forall k | 0 <= k < |infos| ensures ReducedInfo(infos[k]).Ok? {
        assert CheckPostProcess(env, infos[k]).Pass?;
      }
    }
  }

  /** `_serialize_scenarios` on the settings: `Project.Scenarios` is reset
      (KeyError without a Project category) and then holds the records
      written; nothing else changes. */
  function SerializedConfig(config: Document, states: seq<ScenarioState>): (Document, Outcome)
  {
    if "Project" !in config then (config, Fail(KeyError(StrKey("Project"))))
    else
      var recs := WrittenRecords(states);
      (config["Project" := config["Project"]["Scenarios" := Records(recs.0)]], recs.1)
  }

  // ---------------------------------------------------------------------------
  // Loading
  // ---------------------------------------------------------------------------

  /** The message of the TypeError raised when `Project.Scenarios` cannot be
      iterated as records: a number or flag is not iterable, and the
      characters of a string or the keys of a table cannot be indexed by
      "name". */
  const NOT_RECORDS: string := "Project.Scenarios is not a list of scenario records"

  /** Iterating `Project.Scenarios` yields nothing: an empty list, an empty
      string or an empty table. */
  predicate NoRecords(p: Param)
  {
    p == Records([]) || p == Text("") || p == Table([])
  }

  /** `simulation_config["Project"]["Scenarios"]` as the records the
      comprehension of `load_project` iterates over. */
  function ScenarioRecords(config: Document): (r: Result<seq<ScenarioRecord>>)
    ensures r.Ok? <==> "Project" in config && "Scenarios" in config["Project"]
                       && (config["Project"]["Scenarios"].Records? || NoRecords(config["Project"]["Scenarios"]))
    ensures r.Ok? && config["Project"]["Scenarios"].Records? ==> r.value == config["Project"]["Scenarios"].records
    ensures r.Ok? && NoRecords(config["Project"]["Scenarios"]) ==> r.value == []
    ensures "Project" !in config ==> r == Err(KeyError(StrKey("Project")))
    ensures "Project" in config && "Scenarios" !in config["Project"] ==> r == Err(KeyError(StrKey("Scenarios")))
    ensures "Project" in config && "Scenarios" in config["Project"]
            && !config["Project"]["Scenarios"].Records? && !NoRecords(config["Project"]["Scenarios"])
            ==> r == Err(TypeError(NOT_RECORDS))
  {
    if "Project" !in config then Err(KeyError(StrKey("Project")))
    else if "Scenarios" !in config["Project"] then Err(KeyError(StrKey("Scenarios")))
    else match config["Project"]["Scenarios"]
      case Records(records) => Ok(records)
      case Text(s) => if s == "" then Ok([]) else Err(TypeError(NOT_RECORDS))
      case Table(keys) => if keys == [] then Ok([]) else Err(TypeError(NOT_RECORDS))
      case _ => Err(TypeError(NOT_RECORDS))
  }

  /** `PyDssScenario.deserialize(fs_intf, name, post_process_infos)` for one
      record: FileNotFound when the interface has no stored scenario of
      that name. */
  function LoadedState(env: Env, fs: FsInterface, rec: ScenarioRecord): Result<ScenarioState>
  {
    if rec.name !in fs.stored then Err(FileNotFound(rec.name))
    else
      var st := fs.stored[rec.name];
      Construct(env, rec.name, DeserializeArgs(st.controllers, st.exports, st.plots, rec.postProcessInfos))
  }

  /** The scenarios of `load_project`, in record order, or the first
      error. */
  function LoadedStates(env: Env, fs: FsInterface, records: seq<ScenarioRecord>): (r: Result<seq<ScenarioState>>)
    ensures r.Ok? <==> forall i :: 0 <= i < |records| ==> LoadedState(env, fs, records[i]).Ok?
    ensures r.Ok? ==> |r.value| == |records|
                      && forall i :: 0 <= i < |records| ==> r.value[i] == LoadedState(env, fs, records[i]).value
  {
    if records == [] then Ok([])
    else
      var first :- LoadedState(env, fs, records[0]);
      var rest :- LoadedStates(env, fs, records[1..]);
      assert forall i :: 0 < i < |records| ==> records[i] == records[1..][i - 1];
      Ok([first] + rest)
  }

  /** The settings `load_project` ends up with: the interface's settings,
      merged with the options when there are any. */
  function LoadedConfig(fs: FsInterface, options: Option<Document>): Document
  {
    if options.Some? then Merged(fs.simulationConfig, options.value) else fs.simulationConfig
  }

  /** What `load_project` builds its scenarios from, or the first error. */
  function LoadScenarios(env: Env, fs: FsInterface, config: Document): Result<seq<ScenarioState>>
  {
    var records :- ScenarioRecords(config);
    LoadedStates(env, fs, records)
  }

  /** A scenario as it comes back from its record: the same name and
      configuration, with its entries reduced to the two fields. */
  function Reloaded(s: ScenarioState): ScenarioState
    requires ReducedInfos(s.postProcessInfos).Ok?
  {
    s.(postProcessInfos := ReducedInfos(s.postProcessInfos).value)
  }

  /** The interface holds the configuration each scenario was saved with. */
  predicate StoresAll(fs: FsInterface, states: seq<ScenarioState>)
  {
    forall i :: 0 <= i < |states| ==>
      states[i].name in fs.stored
      && fs.stored[states[i].name] == StoredScenario(states[i].controllers, states[i].exports, states[i].plots)
  }

  /** Reducing an entry keeps what add_post_process checks. */
  lemma ReducedInfoChecks(env: Env, info: PostProcessInfo)
    requires CheckPostProcess(env, info).Pass?
    ensures ReducedInfo(info).Ok? && CheckPostProcess(env, ReducedInfo(info).value).Pass?
  {
  }

  /** Serializing then loading: the records written into the settings load
      back as the same scenarios, in the same order, with their entries
      reduced to `script` and `config_file`. */
  lemma SerializeThenLoad(env: Env, fs: FsInterface, config: Document, states: seq<ScenarioState>)
    requires "Project" in config
    requires forall i, k :: 0 <= i < |states| && 0 <= k < |states[i].postProcessInfos| ==>
               CheckPostProcess(env, states[i].postProcessInfos[k]).Pass?
    requires StoresAll(fs, states)
    ensures SerializedConfig(config, states).1.Pass?
    ensures var loaded := LoadScenarios(env, fs, SerializedConfig(config, states).0);
            loaded.Ok? && |loaded.value| == |states|
            && forall i :: 0 <= i < |states| ==>
                 ReducedInfos(states[i].postProcessInfos).Ok? && loaded.value[i] == Reloaded(states[i])
  {
    CheckedInfosSerialize(env, states);
    WrittenRecordsSpec(states);
    var recs := WrittenRecords(states).0;
    assert ScenarioRecords(SerializedConfig(config, states).0) == Ok(recs);
    forall i | 0 <= i < |states|
      ensures ReducedInfos(states[i].postProcessInfos).Ok?
      ensures LoadedState(env, fs, recs[i]) == Ok(Reloaded(states[i]))
    {
      var s := states[i];
      var reduced := ReducedInfos(s.postProcessInfos).value;
      forall k | 0 <= k < |reduced| ensures CheckPostProcess(env, reduced[k]).Pass? {
        ReducedInfoChecks(env, s.postProcessInfos[k]);
      }
      DeserializeKeepsMappings(env, s.name, s.controllers, s.exports, s.plots, reduced);
    }
  }

  // ---------------------------------------------------------------------------
  // The project
  // ---------------------------------------------------------------------------

  /** The InvalidParameter of `get_scenario`. */
  function NotAScenarioMessage(name: string): string
  {
    name + " is not a valid scenario"
  }

  /** The position of the first `name` in `names`. */
  function FirstIndex(names: seq<string>, name: string): (r: Option<nat>)
    ensures r.None? <==> name !in names
    ensures r.Some? ==> r.value < |names| && names[r.value] == name
                        && forall j :: 0 <= j < r.value ==> names[j] != name
  {
    if names == [] then None
    else if names[0] == name then Some(0)
    else match FirstIndex(names[1..], name)
      case None => None
      case Some(i) => Some(i + 1)
  }

  class Project {
    const name: string
    /** `_project_dir`: `os.path.join(path, name)`. */
    const projectDir: string
    /** `_scenarios_dir`: the Scenarios directory inside the project. */
    const scenariosDir: string
    var scenarios: seq<Scenario>
    var simulationConfig: Document
    /** `_fs_intf`: only set for a project loaded from the filesystem. */
    const fsIntf: Option<FsInterface>
    /** `_hdf_store`: the file name of the store once `run` opened it. */
    var hdfStore: Option<string>
    /** `_estimated_space` */
    var estimatedSpace: map<string, nat>
    /** The files of the project directory, which the packers work on. */
    const root: ProjectRoot

    /** `PyDssProject(path, name, scenarios, simulation_config, fs_intf)` */
    constructor (path: string, name: string, scenarios: seq<Scenario>, simulationConfig: Document,
                 fsIntf: Option<FsInterface>, root: ProjectRoot)
      ensures this.name == name && this.scenarios == scenarios && this.simulationConfig == simulationConfig
      ensures projectDir == PathJoin(path, name) && scenariosDir == PathJoin(projectDir, SCENARIOS)
      ensures this.fsIntf == fsIntf && this.root == root
      ensures hdfStore == None && estimatedSpace == map[]
    {
      this.name := name;
      this.scenarios := scenarios;
      this.simulationConfig := simulationConfig;
      projectDir := PathJoin(path, name);
      scenariosDir := PathJoin(PathJoin(path, name), SCENARIOS);
      this.fsIntf := fsIntf;
      hdfStore := None;
      estimatedSpace := map[];
      this.root := root;
    }

    /** `list_scenario_names()`: the scenario names in list order. */
    function ListScenarioNames(): (r: seq<string>)
      reads this`scenarios
      ensures |r| == |scenarios| && forall i :: 0 <= i < |r| ==> r[i] == scenarios[i].name
    {
      NamesOf(scenarios)
    }

    /** `hdf_store`: InvalidConfiguration until `run` opened the store. */
    function HdfStore(): (r: Result<string>)
      reads this
      ensures r.Err? <==> hdfStore.None?
      ensures r.Ok? ==> r.value == hdfStore.value
      ensures r.Err? ==> r.error == InvalidConfiguration("hdf_store is not defined")
    {
      if hdfStore.None? then Err(InvalidConfiguration("hdf_store is not defined")) else Ok(hdfStore.value)
    }

    /** `fs_interface`: InvalidConfiguration for a project not loaded from
        the filesystem. */
    function Interface(): (r: Result<FsInterface>)
      ensures r.Err? <==> fsIntf.None?
      ensures r.Ok? ==> r.value == fsIntf.value
      ensures r.Err? ==> r.error == InvalidConfiguration("fs interface is not defined")
    {
      if fsIntf.None? then Err(InvalidConfiguration("fs interface is not defined")) else Ok(fsIntf.value)
    }

    /** `get_hdf_store_filename()`: the store in the project directory, if it
        exists. */
    function GetHdfStoreFilename(existing: set<string>): (r: Result<string>)
      ensures r.Ok? <==> PathJoin(projectDir, STORE_FILENAME) in existing
      ensures r.Ok? ==> r.value == PathJoin(projectDir, STORE_FILENAME)
      ensures r.Err? ==> r.error == InvalidConfiguration("HDFStore does not exist")
    {
      var filename := PathJoin(projectDir, STORE_FILENAME);
      if filename !in existing then Err(InvalidConfiguration("HDFStore does not exist")) else Ok(filename)
    }

    /** `get_scenario(name)`: the first scenario with that name, in list
        order. */
    method GetScenario(name: string) returns (r: Result<Scenario>)
      ensures r.Ok? <==> name in ListScenarioNames()
      ensures r.Ok? ==> r.value == scenarios[FirstIndex(ListScenarioNames(), name).value]
      ensures r.Err? ==> r.error == InvalidParameter(NotAScenarioMessage(name))
    {
      ghost var names := ListScenarioNames();
      var i := 0;
      while i < |scenarios|
        invariant 0 <= i <= |scenarios|
        invariant forall j :: 0 <= j < i ==> names[j] != name
      {
        if scenarios[i].name == name {
          FirstIndexAt(names, name, i);
          return Ok(scenarios[i]);
        }
        i := i + 1;
      }
      return Err(InvalidParameter(NotAScenarioMessage(name)));
    }

    /** `get_post_process_directory(scenario_name)`: the scenario must exist. */
    method GetPostProcessDirectory(scenarioName: string) returns (r: Result<string>)
      ensures r.Ok? <==> scenarioName in ListScenarioNames()
      ensures r.Ok? ==> r.value == PathJoinAll(projectDir, [SCENARIOS, scenarioName, "PostProcess"])
      ensures r.Err? ==> r.error == InvalidParameter(NotAScenarioMessage(scenarioName))
    {
      var scenario := GetScenario(scenarioName);
      if scenario.Err? {
        return Err(scenario.error);
      }
      return Ok(PathJoinAll(projectDir, [SCENARIOS, scenarioName, "PostProcess"]));
    }

    /** `read_scenario_export_metadata(scenario_name)`: the interface must
        be set and the scenario must exist; the interface reports a missing
        metadata file. */
    function ReadScenarioExportMetadata(scenarioName: string): (r: Result<Document>)
      reads this
      ensures fsIntf.None? ==> r == Err(InvalidConfiguration("pydss fs interface is not defined"))
      ensures fsIntf.Some? && scenarioName !in ListScenarioNames()
              ==> r == Err(InvalidParameter("invalid scenario: " + scenarioName))
      ensures r.Ok? <==> fsIntf.Some? && scenarioName in ListScenarioNames()
                         && scenarioName in fsIntf.value.exportMetadata
      ensures r.Ok? ==> r.value == fsIntf.value.exportMetadata[scenarioName]
    {
      if fsIntf.None? then Err(InvalidConfiguration("pydss fs interface is not defined"))
      else if scenarioName !in ListScenarioNames() then Err(InvalidParameter("invalid scenario: " + scenarioName))
      else if scenarioName !in fsIntf.value.exportMetadata then Err(FileNotFound(scenarioName))
      else Ok(fsIntf.value.exportMetadata[scenarioName])
    }

    /** `run(logging_configured, tar_project, zip_project, dry_run)`. The
        checks come first and change nothing; the logging flag is written
        before the Exports category is looked up; the loop runs the
        scenarios in order; the project is then packed with tar in
        preference to zip. */
    method Run(loggingConfigured: bool, tarProject: bool, zipProject: bool, dryRun: bool,
               tempDir: string, solver: Solver) returns (r: Outcome)
      modifies this, root
      ensures fsIntf.Some? && IsArchive(fsIntf.value.backend)
              ==> r == Fail(InvalidConfiguration("cannot run from an archived project"))
                  && unchanged(this) && unchanged(root)
      ensures !(fsIntf.Some? && IsArchive(fsIntf.value.backend)) && tarProject && zipProject
              ==> r == Fail(InvalidParameter("tar_project and zip_project cannot both be True"))
                  && unchanged(this) && unchanged(root)
      ensures !(fsIntf.Some? && IsArchive(fsIntf.value.backend)) && !(tarProject && zipProject) ==>
                var logged := SetParam(old(simulationConfig), "Logging", "Pre-configured logging", Flag(loggingConfigured));
                scenarios == old(scenarios)
                && (logged.Err? ==> r == Fail(logged.error) && unchanged(this) && unchanged(root))
                && (logged.Ok? && "Exports" !in logged.value ==>
                      r == Fail(KeyError(StrKey("Exports"))) && simulationConfig == logged.value
                      && hdfStore == old(hdfStore) && estimatedSpace == old(estimatedSpace) && unchanged(root))
                && (logged.Ok? && "Exports" in logged.value ==>
                      var loop := RunScenarios(logged.value, old(estimatedSpace), old(ListScenarioNames()), dryRun, solver);
                      hdfStore == Some(StoreFilename(projectDir, tempDir, dryRun))
                      && simulationConfig == loop.config && estimatedSpace == loop.space
                      && (loop.outcome.Fail? ==> r == loop.outcome && unchanged(root))
                      && (loop.outcome.Pass? && tarProject ==>
                            root.cwd == old(root.cwd)
                            && Packed(root.entries, root.archive, r) == Tar(old(root.entries), root.unreadable, true))
                      && (loop.outcome.Pass? && !tarProject && zipProject ==>
                            root.cwd == old(root.cwd)
                            && Packed(root.entries, root.archive, r) == Zip(old(root.entries), root.unreadable, true))
                      && (loop.outcome.Pass? && !tarProject && !zipProject ==> r == Pass && unchanged(root)))
    {
      if fsIntf.Some? && IsArchive(fsIntf.value.backend) {
        return Fail(InvalidConfiguration("cannot run from an archived project"));
      }
      if tarProject && zipProject {
        return Fail(InvalidParameter("tar_project and zip_project cannot both be True"));
      }
      var logged := SetParam(simulationConfig, "Logging", "Pre-configured logging", Flag(loggingConfigured));
      if logged.Err? {
        return Fail(logged.error);
      }
      simulationConfig := logged.value;
      var storeFilename := StoreFilename(projectDir, tempDir, dryRun);
      if "Exports" !in simulationConfig {
        return Fail(KeyError(StrKey("Exports")));
      }
      hdfStore := Some(storeFilename);
      ghost var loop := RunScenarios(simulationConfig, estimatedSpace, ListScenarioNames(), dryRun, solver);
      r := RunLoop(dryRun, solver);
      assert r == loop.outcome && simulationConfig == loop.config && estimatedSpace == loop.space;
      assert loop == RunScenarios(logged.value, old(estimatedSpace), old(ListScenarioNames()), dryRun, solver);
      if r.Fail? {
        return;
      }
      if tarProject {
        r := root.TarProjectFiles(projectDir, true);
      } else if zipProject {
        r := root.ZipProjectFiles(projectDir, true);
      }
    }

    /** The scenario loop of `run`. */
    method RunLoop(dryRun: bool, solver: Solver) returns (r: Outcome)
      modifies this
      ensures var loop := RunScenarios(old(simulationConfig), old(estimatedSpace), old(ListScenarioNames()), dryRun, solver);
              r == loop.outcome && simulationConfig == loop.config && estimatedSpace == loop.space
      ensures scenarios == old(scenarios) && hdfStore == old(hdfStore)
    {
      ghost var names := ListScenarioNames();
      ghost var want := RunScenarios(simulationConfig, estimatedSpace, names, dryRun, solver);
      var i := 0;
      while i < |scenarios|
        invariant 0 <= i <= |scenarios| && scenarios == old(scenarios) && hdfStore == old(hdfStore)
        invariant want == RunScenarios(simulationConfig, estimatedSpace, names[i..], dryRun, solver)
      {
        var scenarioName := scenarios[i].name;
        assert names[i] == scenarioName;
        RunScenariosAt(simulationConfig, estimatedSpace, names, i, dryRun, solver);
        r := RunScenario(scenarioName, dryRun, solver);
        if r.Fail? {
          return;
        }
        i := i + 1;
      }
      assert names[i..] == [];
      return Pass;
    }

    /** The body of the loop of `run` for one scenario. */
    method RunScenario(scenarioName: string, dryRun: bool, solver: Solver) returns (r: Outcome)
      modifies this
      ensures var one := RunOne(old(simulationConfig), old(estimatedSpace), scenarioName, dryRun, solver);
              r == one.outcome && simulationConfig == one.config && estimatedSpace == one.space
      ensures scenarios == old(scenarios) && hdfStore == old(hdfStore)
    {
      var active := SetParam(simulationConfig, "Project", "Active Scenario", Text(scenarioName));
      if active.Err? {
        return Fail(active.error);
      }
      simulationConfig := active.value;
      var space := solver(simulationConfig, scenarioName, dryRun);
      if space.None? {
        return Fail(SolverFailed(scenarioName));
      }
      estimatedSpace := estimatedSpace[scenarioName := space.value];
      return Pass;
    }

    /** `_serialize_scenarios()`: the records, in scenario order, into
        `Project.Scenarios`. */
    method SerializeScenarios() returns (r: Outcome)
      modifies this
      ensures (simulationConfig, r) == SerializedConfig(old(simulationConfig), old(StatesOf(scenarios)))
      ensures scenarios == old(scenarios) && hdfStore == old(hdfStore) && estimatedSpace == old(estimatedSpace)
    {
      ghost var states := StatesOf(scenarios);
      if "Project" !in simulationConfig {
        return Fail(KeyError(StrKey("Project")));
      }
      var base := simulationConfig;
      var project := simulationConfig["Project"];
      var written: seq<ScenarioRecord> := [];
      simulationConfig := base["Project" := project["Scenarios" := Records(written)]];
      assert states[0..] == states && [] + WrittenRecords(states).0 == WrittenRecords(states).0;
      var i := 0;
      while i < |scenarios|
        invariant 0 <= i <= |scenarios| && scenarios == old(scenarios)
        invariant hdfStore == old(hdfStore) && estimatedSpace == old(estimatedSpace)
        invariant simulationConfig == base["Project" := project["Scenarios" := Records(written)]]
        invariant WrittenRecords(states) == (written + WrittenRecords(states[i..]).0, WrittenRecords(states[i..]).1)
      {
        assert states[i] == scenarios[i].State();
        assert states[i..][0] == states[i] && states[i..][1..] == states[i + 1..];
        var infos := ReduceInfos(scenarios[i].postProcessInfos);
        if infos.Err? {
          assert written + [] == written;
          return Fail(infos.error);
        }
        AppendAssoc(written, [ScenarioRecord(scenarios[i].name, infos.value)], WrittenRecords(states[i + 1..]).0);
        written := written + [ScenarioRecord(scenarios[i].name, infos.value)];
        simulationConfig := base["Project" := project["Scenarios" := Records(written)]];
        i := i + 1;
      }
      assert states[i..] == [];
      assert written + [] == written;
      return Pass;
    }

    /** `load_project(path, options)`: the interface the probe picks (`open`
        gives what it reads for `path`; its kind is the probed one), its
        settings merged with the options, and one scenario per record, in
        record order; the project lives in the parent directory of `path`
        under the name `basename(path)`, which is `path` itself when it has
        no "//". */
    static method LoadProject(env: Env, path: string, options: Option<Document>, existing: set<string>,
                              open: Backend -> FsInterface, root: ProjectRoot)
      returns (r: Result<Project>)
      ensures r.Ok? ==> r.value.fsIntf.Some? && r.value.fsIntf.value.backend == ProbeBackend(existing, path)
      ensures r.Ok? && NoDoubleSlash(path) ==> r.value.projectDir == path
      ensures var fs := Opened(open, ProbeBackend(existing, path));
              var loaded := LoadScenarios(env, fs, LoadedConfig(fs, options));
              (r.Ok? <==> loaded.Ok?)
              && (r.Err? ==> r.error == loaded.error)
              && (r.Ok? ==> fresh(r.value)
                            && r.value.name == Basename(path)
                            && r.value.projectDir == PathJoin(Dirname(path), Basename(path))
                            && r.value.simulationConfig == LoadedConfig(fs, options)
                            && r.value.fsIntf == Some(fs) && r.value.root == root
                            && r.value.hdfStore == None && r.value.estimatedSpace == map[]
                            && StatesOf(r.value.scenarios) == loaded.value)
    {
      var name := Basename(path);
      var fs := Opened(open, ProbeBackend(existing, path));
      if NoDoubleSlash(path) {
        JoinDirnameBasename(path);
      }
      var config := fs.simulationConfig;
      if options.Some? {
        config := MergeOptions(config, options.value);
      }
      var records := ScenarioRecords(config);
      if records.Err? {
        return Err(records.error);
      }
      var recs := records.value;
      var scenarios: seq<Scenario> := [];
      var i := 0;
      while i < |recs|
        invariant 0 <= i <= |recs| && |scenarios| == i
        invariant forall k :: 0 <= k < i ==> fresh(scenarios[k])
        invariant forall k :: 0 <= k < i ==> LoadedState(env, fs, recs[k]) == Ok(scenarios[k].State())
      {
        var rec := recs[i];
        if rec.name !in fs.stored {
          LoadedStatesFirstFailure(env, fs, recs, i);
          return Err(FileNotFound(rec.name));
        }
        var st := fs.stored[rec.name];
        var scenario := Scenario.Deserialize(env, rec.name, st.controllers, st.exports, st.plots, rec.postProcessInfos);
        if scenario.Err? {
          LoadedStatesFirstFailure(env, fs, recs, i);
          return Err(scenario.error);
        }
        scenarios := scenarios + [scenario.value];
        i := i + 1;
      }
      var project := new Project(Dirname(path), name, scenarios, config, Some(fs), root);
      return Ok(project);
    }

    /** `load_project(path)` followed by `run(...)`: a project found next to
        `project.tar` or `project.zip` is read through an archive interface,
        so `run` refuses it before touching anything. */
    static method LoadThenRun(env: Env, path: string, options: Option<Document>, existing: set<string>,
                              open: Backend -> FsInterface, root: ProjectRoot,
                              loggingConfigured: bool, tarProject: bool, zipProject: bool, dryRun: bool,
                              tempDir: string, solver: Solver)
      returns (r: Result<Outcome>)
      modifies root
      ensures PathJoin(path, PROJECT_TAR) in existing || PathJoin(path, PROJECT_ZIP) in existing ==>
                (r.Ok? ==> r.value == Fail(InvalidConfiguration("cannot run from an archived project")))
    {
      var project := LoadProject(env, path, options, existing, open, root);
      if project.Err? {
        return Err(project.error);
      }
      var outcome := project.value.Run(loggingConfigured, tarProject, zipProject, dryRun, tempDir, solver);
      return Ok(outcome);
    }

    /** `create_project(path, name, scenarios, simulation_config, options)`:
        the edited settings, then `serialize`, which writes the records of
        the scenarios into them. */
    static method CreateProject(env: Env, path: string, name: string, scenarios: seq<Scenario>,
                                settingsFile: Option<string>, defaultSettingsFile: string,
                                options: Option<Document>, root: ProjectRoot)
      returns (r: Result<Project>)
      ensures var config := CreatedConfig(env, settingsFile, defaultSettingsFile, options, path, name);
              var written := WrittenRecords(StatesOf(scenarios));
              (r.Ok? <==> config.Ok? && written.1.Pass?)
              && (config.Err? ==> r == Err(config.error))
              && (config.Ok? && written.1.Fail? ==> r == Err(written.1.error))
              && (r.Ok? ==> fresh(r.value)
                            && r.value.name == name && r.value.projectDir == PathJoin(path, name)
                            && r.value.scenarios == scenarios
                            && r.value.simulationConfig == SerializedConfig(config.value, StatesOf(scenarios)).0
                            && r.value.fsIntf == None && r.value.root == root
                            && r.value.hdfStore == None && r.value.estimatedSpace == map[])
    {
      var config := CreatedConfig(env, settingsFile, defaultSettingsFile, options, path, name);
      if config.Err? {
        return Err(config.error);
      }
      var project := new Project(path, name, scenarios, config.value, None, root);
      var serialized := project.SerializeScenarios();
      if serialized.Fail? {
        return Err(serialized.error);
      }
      return Ok(project);
    }

    /** The inner loop of `_serialize_scenarios`: each entry reduced to its
        two fields. */
    static method ReduceInfos(infos: seq<PostProcessInfo>) returns (r: Result<seq<PostProcessInfo>>)
      ensures r == ReducedInfos(infos)
    {
      var reduced: seq<PostProcessInfo> := [];
      var i := 0;
      while i < |infos|
        invariant 0 <= i <= |infos|
        invariant forall k :: 0 <= k < i ==> ReducedInfo(infos[k]).Ok?
        invariant |reduced| == i && forall k :: 0 <= k < i ==> reduced[k] == ReducedInfo(infos[k]).value
      {
        var one := ReducedInfo(infos[i]);
        if one.Err? {
          ReducedInfosFirstFailure(infos, i);
          return Err(one.error);
        }
        reduced := reduced + [one.value];
        i := i + 1;
      }
      assert ReducedInfos(infos).Ok? && reduced == ReducedInfos(infos).value;
      return Ok(reduced);
    }
  }

  /** The names of `scenarios`, in list order. */
  function NamesOf(scenarios: seq<Scenario>): (r: seq<string>)
    ensures |r| == |scenarios| && forall i :: 0 <= i < |r| ==> r[i] == scenarios[i].name
  {
    seq(|scenarios|, i requires 0 <= i < |scenarios| => scenarios[i].name)
  }

  /** The attributes of `scenarios`, in list order. */
  function StatesOf(scenarios: seq<Scenario>): (r: seq<ScenarioState>)
    reads scenarios
    ensures |r| == |scenarios| && forall i :: 0 <= i < |r| ==> r[i] == scenarios[i].State()
  {
    seq(|scenarios|, i requires 0 <= i < |scenarios| reads scenarios => scenarios[i].State())
  }

  /** The settings `create_project` starts from: the given settings file, or
      the default one, loaded and edited. */
  function CreatedConfig(env: Env, settingsFile: Option<string>, defaultSettingsFile: string,
                         options: Option<Document>, path: string, name: string): Result<Document>
  {
    var loaded :- LoadData(env, if settingsFile.Some? then settingsFile.value else defaultSettingsFile);
    CreateConfig(loaded, options, path, name)
  }

  /** Writing the records into settings built by `create_project` keeps the
      project path and name it wrote, and every other category. */
  lemma CreatedKeepsProject(config: Document, states: seq<ScenarioState>, path: string, name: string)
    requires "Project" in config
    requires "Project Path" in config["Project"] && config["Project"]["Project Path"] == Text(path)
    requires "Active Project" in config["Project"] && config["Project"]["Active Project"] == Text(name)
    ensures var c := SerializedConfig(config, states).0;
            c.Keys == config.Keys
            && c["Project"]["Project Path"] == Text(path) && c["Project"]["Active Project"] == Text(name)
            && c["Project"]["Scenarios"] == Records(WrittenRecords(states).0)
            && forall k :: k in config && k != "Project" ==> c[k] == config[k]
  {
  }

  /** A name found at `i` after `i` other names is the first occurrence. */
  lemma {:induction false} FirstIndexAt(names: seq<string>, name: string, i: nat)
    requires i < |names| && names[i] == name
    requires forall j :: 0 <= j < i ==> names[j] != name
    ensures FirstIndex(names, name) == Some(i)
  {
    if i > 0 {
      FirstIndexAt(names[1..], name, i - 1);
    }
  }

  /** The first record that does not load decides the error. */
  lemma {:induction false} LoadedStatesFirstFailure(env: Env, fs: FsInterface, records: seq<ScenarioRecord>, i: nat)
    requires i < |records|
    requires forall k :: 0 <= k < i ==> LoadedState(env, fs, records[k]).Ok?
    requires LoadedState(env, fs, records[i]).Err?
    ensures LoadedStates(env, fs, records) == Err(LoadedState(env, fs, records[i]).error)
  {
    if i > 0 {
      forall k | 0 <= k < i - 1 ensures LoadedState(env, fs, records[1..][k]).Ok? {
        assert records[1..][k] == records[k + 1];
      }
      assert records[1..][i - 1] == records[i];
      LoadedStatesFirstFailure(env, fs, records[1..], i - 1);
    }
  }

  /** The first entry without both fields decides the error. */
  lemma {:induction false} ReducedInfosFirstFailure(infos: seq<PostProcessInfo>, i: nat)
    requires i < |infos|
    requires forall k :: 0 <= k < i ==> ReducedInfo(infos[k]).Ok?
    requires ReducedInfo(infos[i]).Err?
    ensures ReducedInfos(infos) == Err(ReducedInfo(infos[i]).error)
  {
    if i > 0 {
      forall k | 0 <= k < i - 1 ensures ReducedInfo(infos[1..][k]).Ok? {
        assert infos[1..][k] == infos[k + 1];
      }
      assert infos[1..][i - 1] == infos[i];
      ReducedInfosFirstFailure(infos[1..], i - 1);
    }
  }
}
