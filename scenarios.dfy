/** `PyDssScenario` (PyDSS/pydss_project.py): the controller, export and
    plot configuration of one simulation pass, and its post-process
    scripts. */
module Scenarios {
  import opened Errors
  import opened PyStrings
  import opened Sequences
  import opened ProjectConfig

  // ---------------------------------------------------------------------------
  // What the constructor resolves against
  // ---------------------------------------------------------------------------

  /** The two enumerations a scenario is configured by. */
  datatype Kind = ControllerKind | ExportKind

  function EnumName(k: Kind): string
  {
    match k
    case ControllerKind => "ControllerType"
    case ExportKind => "ExportMode"
  }

  /** `str(exc)` of the InvalidParameter raised when both input styles of
      one kind are given. */
  function ConflictMessage(k: Kind): string
  {
    match k
    case ControllerKind => "controller_types and controllers cannot both be set"
    case ExportKind => "export_modes and exports cannot both be set"
  }

  /** The ValueError of calling an Enum with a value it does not have. */
  function InvalidMemberMessage(k: Kind, member: string): string
  {
    "'" + member + "' is not a valid " + EnumName(k)
  }

  /** One enumeration: the values of its members, the member used when
      nothing is requested (`DEFAULT_CONTROLLER_TYPES` holds the PV
      controller, `DEFAULT_EXPORT_MODE` is by-class), and the bundled default
      configuration file of each member, where one exists. */
  datatype Catalogue = Catalogue(members: set<string>, preferred: string, defaults: map<string, Document>)

  /** The filesystem as the constructor sees it: the paths that exist, the
      documents `load_data` reads from paths, both enumerations and the
      built-in plot configuration. */
  datatype Env = Env(
    existing: set<string>,
    documents: map<string, Document>,
    controllerTypes: Catalogue,
    exportModes: Catalogue,
    defaultPlots: Document)
  {
    function CatalogueOf(k: Kind): Catalogue
    {
      match k
      case ControllerKind => controllerTypes
      case ExportKind => exportModes
    }
  }

  /** `load_data(path)`: the document at `path`, if there is one. */
  function LoadData(env: Env, path: string): (r: Result<Document>)
    ensures r.Ok? <==> path in env.documents
    ensures r.Ok? ==> r.value == env.documents[path]
    ensures r.Err? ==> r.error == FileNotFound(path)
  {
    if path in env.documents then Ok(env.documents[path]) else Err(FileNotFound(path))
  }

  /** A configuration per member of an enumeration. */
  type Configs = map<string, Document>

  // ---------------------------------------------------------------------------
  // Controller and export resolution
  // ---------------------------------------------------------------------------

  /** `{x: load_..._config_from_type(x) for x in members}`: the bundled
      default of each member, in list order; the first member without one
      fails. */
  function LoadDefaults(cat: Catalogue, members: seq<string>): (r: Result<Configs>)
    ensures r.Ok? <==> forall i :: 0 <= i < |members| ==> members[i] in cat.defaults
    ensures r.Ok? ==> r.value.Keys == Elements(members)
                      && forall t :: t in r.value ==> r.value[t] == cat.defaults[t]
  {
    if members == [] then Ok(map[])
    else if members[0] !in cat.defaults then Err(FileNotFound(members[0]))
    else
      var rest :- LoadDefaults(cat, members[1..]);
      assert Elements(members) == {members[0]} + Elements(members[1..]) by {
        assert members == [members[0]] + members[1..];
      }
      Ok(rest[members[0] := cat.defaults[members[0]]])
  }

  /** The error of a failed default lookup names the first member, in list
      order, that has no bundled configuration. */
  lemma {:induction false} LoadDefaultsFirstMissing(cat: Catalogue, members: seq<string>)
    requires LoadDefaults(cat, members).Err?
    ensures exists i :: 0 <= i < |members| && members[i] !in cat.defaults
                        && (forall j :: 0 <= j < i ==> members[j] in cat.defaults)
                        && LoadDefaults(cat, members).error == FileNotFound(members[i])
  {
    if members[0] in cat.defaults {
      LoadDefaultsFirstMissing(cat, members[1..]);
      var i :| 0 <= i < |members[1..]| && members[1..][i] !in cat.defaults
               && (forall j :: 0 <= j < i ==> members[1..][j] in cat.defaults)
               && LoadDefaults(cat, members[1..]).error == FileNotFound(members[1..][i]);
      assert members[i + 1] == members[1..][i];
      forall j | 0 <= j < i + 1 ensures members[j] in cat.defaults {
        if j > 0 {
          assert members[j] == members[1..][j - 1];
        }
      }
    }
  }

  /** Where a configuration comes from when it is given directly: a file
      whose base name (without extension) is the enum value, or a ready-made
      mapping. */
  datatype Source = FromFile(path: string) | FromMapping(mapping: Configs)

  /** The enum value a configuration file stands for. */
  function MemberOfFile(path: string): string
  {
    SplitextRoot(Basename(path))
  }

  /** The controller (or export) part of `__init__`: both input styles is an
      error; neither gives the preferred member's default; a member list gives
      the defaults of those members; a file gives one entry keyed by its base
      name, which must be a member; a mapping is kept as it is. */
  function Resolve(env: Env, k: Kind, members: Option<seq<string>>, given: Option<Source>): (r: Result<Configs>)
    ensures members.Some? && given.Some? ==> r == Err(InvalidParameter(ConflictMessage(k)))
    ensures r.Ok? && given.None? ==>
              r.value.Keys == Elements(if members.Some? then members.value else [env.CatalogueOf(k).preferred])
              && forall t :: t in r.value ==> (t in env.CatalogueOf(k).defaults
                                               && r.value[t] == env.CatalogueOf(k).defaults[t])
    ensures r.Ok? && given.Some? && given.value.FromFile? ==>
              var member := MemberOfFile(given.value.path);
              member in env.CatalogueOf(k).members && given.value.path in env.documents
              && r.value == map[member := env.documents[given.value.path]]
    ensures members.None? && given.Some? && given.value.FromMapping? ==> r == Ok(given.value.mapping)
    ensures given.None? ==>
              r == LoadDefaults(env.CatalogueOf(k), if members.Some? then members.value else [env.CatalogueOf(k).preferred])
    ensures members.None? && given.Some? && given.value.FromFile? ==>
              var member := MemberOfFile(given.value.path);
              (member !in env.CatalogueOf(k).members ==> r == Err(ValueError(InvalidMemberMessage(k, member))))
              && (member in env.CatalogueOf(k).members && given.value.path !in env.documents
                  ==> r == Err(FileNotFound(given.value.path)))
  {
    var cat := env.CatalogueOf(k);
    if members.Some? && given.Some? then Err(InvalidParameter(ConflictMessage(k)))
    else if members.None? && given.None? then LoadDefaults(cat, [cat.preferred])
    else if members.Some? then LoadDefaults(cat, members.value)
    else match given.value
      case FromFile(path) =>
        var member := MemberOfFile(path);
        if member !in cat.members then Err(ValueError(InvalidMemberMessage(k, member)))
        else
          var doc :- LoadData(env, path);
          Ok(map[member := doc])
      case FromMapping(m) => Ok(m)
  }

  /** With neither input style, the mapping holds exactly the preferred
      member's bundled default, and resolution fails only when that default
      is missing. */
  lemma ResolveDefault(env: Env, k: Kind)
    ensures var cat := env.CatalogueOf(k);
            var r := Resolve(env, k, None, None);
            (r.Ok? <==> cat.preferred in cat.defaults)
            && (r.Ok? ==> r.value == map[cat.preferred := cat.defaults[cat.preferred]])
  {
    var cat := env.CatalogueOf(k);
    var r := Resolve(env, k, None, None);
    assert Elements([cat.preferred]) == {cat.preferred};
    if r.Ok? {
      assert r.value.Keys == {cat.preferred};
    }
  }

  /** `stem + "." + ext` has no '/' when neither part has one. */
  lemma FileNameHasNoSlash(stem: string, ext: string)
    requires forall j :: 0 <= j < |stem| ==> stem[j] != '/'
    requires forall j :: 0 <= j < |ext| ==> ext[j] != '/'
    ensures forall j :: 0 <= j < |stem + "." + ext| ==> (stem + "." + ext)[j] != '/'
  {
    var leaf := stem + "." + ext;
    forall j | 0 <= j < |leaf| ensures leaf[j] != '/' {
      if j < |stem| {
        assert leaf[j] == stem[j];
      } else if j > |stem| {
        assert leaf[j] == ext[j - |stem| - 1];
      }
    }
  }

  /** A file `dir/stem.ext` configures the member `stem`. */
  lemma ResolveNamedFile(env: Env, k: Kind, dir: string, stem: string, ext: string)
    requires forall j :: 0 <= j < |stem| ==> stem[j] != '/'
    requires forall j :: 0 <= j < |ext| ==> ext[j] != '/' && ext[j] != '.'
    requires exists j :: 0 <= j < |stem| && stem[j] != '.'
    ensures MemberOfFile(PathJoin(dir, stem + "." + ext)) == stem
    ensures var path := PathJoin(dir, stem + "." + ext);
            stem in env.CatalogueOf(k).members && path in env.documents
            ==> Resolve(env, k, None, Some(FromFile(path))) == Ok(map[stem := env.documents[path]])
  {
    var leaf := stem + "." + ext;
    FileNameHasNoSlash(stem, ext);
    BasenameOfJoin(dir, leaf);
    SplitextRootOfName(stem, ext);
    assert MemberOfFile(PathJoin(dir, leaf)) == stem;
  }

  /** The plot part of `__init__`: the built-in configuration, a file, or a
      mapping kept as it is. */
  datatype PlotSource = PlotsFromFile(path: string) | PlotsFromMapping(doc: Document)

  function ResolvePlots(env: Env, plots: Option<PlotSource>): (r: Result<Document>)
    ensures plots.None? ==> r == Ok(env.defaultPlots)
    ensures plots.Some? && plots.value.PlotsFromMapping? ==> r == Ok(plots.value.doc)
    ensures plots.Some? && plots.value.PlotsFromFile? ==> r == LoadData(env, plots.value.path)
  {
    match plots
    case None => Ok(env.defaultPlots)
    case Some(PlotsFromFile(path)) => LoadData(env, path)
    case Some(PlotsFromMapping(doc)) => Ok(doc)
  }

  // ---------------------------------------------------------------------------
  // Post-process entries
  // ---------------------------------------------------------------------------

  /** `REQUIRED_POST_PROCESS_FIELDS`, in the order they are checked. */
  const REQUIRED_FIELDS: seq<string> := ["script", "config_file"]

  /** The first of `fields` that `info` lacks. */
  function MissingField(info: PostProcessInfo, fields: seq<string>): (r: Option<string>)
    ensures r.None? <==> forall i :: 0 <= i < |fields| ==> fields[i] in info
    ensures r.Some? ==> exists i :: 0 <= i < |fields| && fields[i] == r.value && r.value !in info
                                    && forall j :: 0 <= j < i ==> fields[j] in info
  {
    if fields == [] then None
    else if fields[0] !in info then Some(fields[0])
    else
      var rest := MissingField(info, fields[1..]);
      if rest.Some? then
        ghost var i :| 0 <= i < |fields[1..]| && fields[1..][i] == rest.value && rest.value !in info
                      && forall j :: 0 <= j < i ==> fields[1..][j] in info;
        assert fields[i + 1] == fields[1..][i];
        assert forall j :: 0 <= j < i + 1 ==> fields[j] in info by {
          forall j | 0 <= j < i + 1 ensures fields[j] in info {
            if j > 0 {
              assert fields[j] == fields[1..][j - 1];
            }
          }
        }
        rest
      else
        assert forall i :: 0 <= i < |fields| ==> fields[i] in info by {
          forall i | 0 <= i < |fields| ensures fields[i] in info {
            if i > 0 {
              assert fields[i] == fields[1..][i - 1];
            }
          }
        }
        rest
  }

  function MissingFieldMessage(field: string): string
  {
    "missing post-process field=" + field
  }

  function MissingConfigMessage(configFile: string): string
  {
    configFile + " does not exist"
  }

  /** The checks of `add_post_process`: both required fields, then the
      existence of the configuration file. */
  function CheckPostProcess(env: Env, info: PostProcessInfo): (r: Outcome)
    ensures r.Pass? <==> "script" in info && "config_file" in info && info["config_file"] in env.existing
    ensures "script" !in info ==> r == Fail(InvalidParameter(MissingFieldMessage("script")))
    ensures "script" in info && "config_file" !in info
            ==> r == Fail(InvalidParameter(MissingFieldMessage("config_file")))
    ensures "script" in info && "config_file" in info && info["config_file"] !in env.existing
            ==> r == Fail(InvalidParameter(MissingConfigMessage(info["config_file"])))
  {
    match MissingField(info, REQUIRED_FIELDS)
    case Some(field) => Fail(InvalidParameter(MissingFieldMessage(field)))
    case None =>
      assert REQUIRED_FIELDS[0] in info && REQUIRED_FIELDS[1] in info;
      if info["config_file"] !in env.existing then Fail(InvalidParameter(MissingConfigMessage(info["config_file"])))
      else Pass
  }

  /** Adding `infos` one after another: the first entry that fails its
      checks stops the constructor; otherwise every entry is kept, in order
      and with repeats. */
  function PostProcessAll(env: Env, infos: seq<PostProcessInfo>): (r: Result<seq<PostProcessInfo>>)
    ensures r.Ok? <==> forall i :: 0 <= i < |infos| ==> CheckPostProcess(env, infos[i]).Pass?
    ensures r.Ok? ==> r.value == infos
  {
    if infos == [] then Ok([])
    else
      var check := CheckPostProcess(env, infos[0]);
      if check.Fail? then Err(check.error)
      else
        var rest :- PostProcessAll(env, infos[1..]);
        assert infos == [infos[0]] + infos[1..];
        Ok([infos[0]] + rest)
  }

  /** When the first `i` entries pass and entry `i` fails, adding them all
      fails with entry `i`'s error. */
  lemma {:induction false} PostProcessFirstFailure(env: Env, infos: seq<PostProcessInfo>, i: nat)
    requires i < |infos|
    requires forall k :: 0 <= k < i ==> CheckPostProcess(env, infos[k]).Pass?
    requires CheckPostProcess(env, infos[i]).Fail?
    ensures PostProcessAll(env, infos) == Err(CheckPostProcess(env, infos[i]).error)
  {
    if i > 0 {
      forall k | 0 <= k < i - 1 ensures CheckPostProcess(env, infos[1..][k]).Pass? {
        assert infos[1..][k] == infos[k + 1];
      }
      assert infos[1..][i - 1] == infos[i];
      PostProcessFirstFailure(env, infos[1..], i - 1);
    }
  }

  // ---------------------------------------------------------------------------
  // The scenario
  // ---------------------------------------------------------------------------

  /** The keyword arguments of `PyDssScenario.__init__` after `name`; `None`
      is an argument left at its default. */
  datatype ScenarioArgs = ScenarioArgs(
    controllerTypes: Option<seq<string>>,
    controllers: Option<Source>,
    exportModes: Option<seq<string>>,
    exports: Option<Source>,
    plots: Option<PlotSource>,
    postProcessInfos: Option<seq<PostProcessInfo>>)

  function DefaultArgs(): ScenarioArgs
  {
    ScenarioArgs(None, None, None, None, None, None)
  }

  /** The arguments `deserialize` passes: the mappings read back from the
      filesystem interface, and the recorded post-process entries. */
  function DeserializeArgs(controllers: Configs, exports: Configs, plots: Document, infos: seq<PostProcessInfo>)
    : ScenarioArgs
  {
    ScenarioArgs(None, Some(FromMapping(controllers)), None, Some(FromMapping(exports)),
                 Some(PlotsFromMapping(plots)), Some(infos))
  }

  /** The attributes of a scenario. */
  datatype ScenarioState = ScenarioState(
    name: string,
    controllers: Configs,
    exports: Configs,
    plots: Document,
    postProcessInfos: seq<PostProcessInfo>)

  function OrEmpty(infos: Option<seq<PostProcessInfo>>): seq<PostProcessInfo>
  {
    if infos.Some? then infos.value else []
  }

  /** What `__init__` builds, or the first exception it raises:
      controllers, then exports, then plots, then each post-process entry. */
  function Construct(env: Env, name: string, args: ScenarioArgs): Result<ScenarioState>
  {
    var controllers :- Resolve(env, ControllerKind, args.controllerTypes, args.controllers);
    var exports :- Resolve(env, ExportKind, args.exportModes, args.exports);
    var plots :- ResolvePlots(env, args.plots);
    var infos :- PostProcessAll(env, OrEmpty(args.postProcessInfos));
    Ok(ScenarioState(name, controllers, exports, plots, infos))
  }

  /** A scenario built with no arguments has the default controller and the
      default export mode, the built-in plots and no post-process entry; it
      can only fail when one of those defaults is missing. */
  lemma ConstructDefaults(env: Env, name: string)
    ensures var r := Construct(env, name, DefaultArgs());
            var pv := env.controllerTypes.preferred;
            var byClass := env.exportModes.preferred;
            (r.Ok? <==> pv in env.controllerTypes.defaults && byClass in env.exportModes.defaults)
            && (r.Ok? ==> r.value == ScenarioState(name, map[pv := env.controllerTypes.defaults[pv]],
                                                   map[byClass := env.exportModes.defaults[byClass]],
                                                   env.defaultPlots, []))
  {
    ResolveDefault(env, ControllerKind);
    ResolveDefault(env, ExportKind);
  }

  /** Both controller arguments is refused before anything is loaded; both
      export arguments is refused once the controllers resolve. */
  lemma ConstructConflicts(env: Env, name: string, args: ScenarioArgs)
    ensures args.controllerTypes.Some? && args.controllers.Some?
            ==> Construct(env, name, args) == Err(InvalidParameter(ConflictMessage(ControllerKind)))
    ensures Resolve(env, ControllerKind, args.controllerTypes, args.controllers).Ok?
            && args.exportModes.Some? && args.exports.Some?
            ==> Construct(env, name, args) == Err(InvalidParameter(ConflictMessage(ExportKind)))
  {
  }

  /** `deserialize` keeps the mappings it reads exactly as read, and fails
      only on a post-process entry that fails its checks. */
  lemma DeserializeKeepsMappings(env: Env, name: string, controllers: Configs, exports: Configs,
                                 plots: Document, infos: seq<PostProcessInfo>)
    ensures var r := Construct(env, name, DeserializeArgs(controllers, exports, plots, infos));
            (r.Ok? <==> forall i :: 0 <= i < |infos| ==> CheckPostProcess(env, infos[i]).Pass?)
            && (r.Ok? ==> r.value == ScenarioState(name, controllers, exports, plots, infos))
  {
  }

  /** Serializing a scenario and deserializing the same mappings gives the
      same scenario back, provided its configuration files still exist. */
  lemma {:induction false} SerializeDeserialize(env: Env, name: string, args: ScenarioArgs)
    requires Construct(env, name, args).Ok?
    ensures var s := Construct(env, name, args).value;
            Construct(env, s.name, DeserializeArgs(s.controllers, s.exports, s.plots, s.postProcessInfos)) == Ok(s)
  {
    var s := Construct(env, name, args).value;
    assert PostProcessAll(env, OrEmpty(args.postProcessInfos)).Ok?;
    assert s.postProcessInfos == OrEmpty(args.postProcessInfos);
    DeserializeKeepsMappings(env, s.name, s.controllers, s.exports, s.plots, s.postProcessInfos);
  }

  /** A `PyDssScenario`. */
  class Scenario {
    const name: string
    var controllers: Configs
    var exports: Configs
    var plots: Document
    var postProcessInfos: seq<PostProcessInfo>

    function State(): ScenarioState
      reads this
    {
      ScenarioState(name, controllers, exports, plots, postProcessInfos)
    }

    /** A scenario with resolved configuration and no post-process entry
        yet. */
    constructor Configured(name: string, controllers: Configs, exports: Configs, plots: Document)
      ensures State() == ScenarioState(name, controllers, exports, plots, [])
    {
      this.name := name;
      this.controllers := controllers;
      this.exports := exports;
      this.plots := plots;
      this.postProcessInfos := [];
    }

    /** `PyDssScenario(name, ...)`: the scenario `Construct` describes, or
        its error. */
    static method New(env: Env, name: string, args: ScenarioArgs) returns (r: Result<Scenario>)
      ensures r.Err? <==> Construct(env, name, args).Err?
      ensures r.Err? ==> r.error == Construct(env, name, args).error
      ensures r.Ok? ==> fresh(r.value) && r.value.State() == Construct(env, name, args).value
    {
      var controllers := Resolve(env, ControllerKind, args.controllerTypes, args.controllers);
      if controllers.Err? {
        return Err(controllers.error);
      }
      var exports := Resolve(env, ExportKind, args.exportModes, args.exports);
      if exports.Err? {
        return Err(exports.error);
      }
      var plots := ResolvePlots(env, args.plots);
      if plots.Err? {
        return Err(plots.error);
      }
      var s := new Scenario.Configured(name, controllers.value, exports.value, plots.value);
      var added := s.AddPostProcesses(env, OrEmpty(args.postProcessInfos));
      if added.Fail? {
        return Err(added.error);
      }
      return Ok(s);
    }

    /** The loop of `__init__` over `post_process_infos`: each entry through
        `add_post_process`, stopping at the first one that raises. */
    method AddPostProcesses(env: Env, infos: seq<PostProcessInfo>) returns (r: Outcome)
      modifies this
      ensures r.Fail? <==> PostProcessAll(env, infos).Err?
      ensures r.Fail? ==> r.error == PostProcessAll(env, infos).error
      ensures r.Pass? ==> postProcessInfos == old(postProcessInfos) + infos
      ensures controllers == old(controllers) && exports == old(exports) && plots == old(plots)
    {
      var i := 0;
      while i < |infos|
        invariant 0 <= i <= |infos|
        invariant postProcessInfos == old(postProcessInfos) + infos[..i]
        invariant controllers == old(controllers) && exports == old(exports) && plots == old(plots)
        invariant forall k :: 0 <= k < i ==> CheckPostProcess(env, infos[k]).Pass?
      {
        var added := AddPostProcess(env, infos[i]);
        if added.Fail? {
          PostProcessFirstFailure(env, infos, i);
          return added;
        }
        assert infos[..i + 1] == infos[..i] + [infos[i]];
        i := i + 1;
      }
      assert infos[..i] == infos;
      return Pass;
    }

    /** `PyDssScenario.deserialize`: the mappings read from the filesystem
        interface are used as they are. */
    static method Deserialize(env: Env, name: string, controllers: Configs, exports: Configs,
                              plots: Document, infos: seq<PostProcessInfo>)
      returns (r: Result<Scenario>)
      ensures r.Err? <==> exists i :: 0 <= i < |infos| && CheckPostProcess(env, infos[i]).Fail?
      ensures r.Err? ==> Construct(env, name, DeserializeArgs(controllers, exports, plots, infos)) == Err(r.error)
      ensures r.Ok? ==> fresh(r.value) && r.value.State() == ScenarioState(name, controllers, exports, plots, infos)
                        && Construct(env, name, DeserializeArgs(controllers, exports, plots, infos)) == Ok(r.value.State())
    {
      DeserializeKeepsMappings(env, name, controllers, exports, plots, infos);
      r := New(env, name, DeserializeArgs(controllers, exports, plots, infos));
    }

    /** `add_post_process(info)`: checks the required fields in order and
        the configuration file, then appends `info`; nothing else changes,
        and a failed check changes nothing. */
    method AddPostProcess(env: Env, info: PostProcessInfo) returns (r: Outcome)
      modifies this
      ensures r == CheckPostProcess(env, info)
      ensures postProcessInfos == old(postProcessInfos) + (if r.Pass? then [info] else [])
      ensures controllers == old(controllers) && exports == old(exports) && plots == old(plots)
    {
      var i := 0;
      while i < |REQUIRED_FIELDS|
        invariant 0 <= i <= |REQUIRED_FIELDS|
        invariant forall j :: 0 <= j < i ==> REQUIRED_FIELDS[j] in info
      {
        if REQUIRED_FIELDS[i] !in info {
          return Fail(InvalidParameter(MissingFieldMessage(REQUIRED_FIELDS[i])));
        }
        i := i + 1;
      }
      assert REQUIRED_FIELDS[1] in info;
      var configFile := info["config_file"];
      if configFile !in env.existing {
        return Fail(InvalidParameter(MissingConfigMessage(configFile)));
      }
      postProcessInfos := postProcessInfos + [info];
      return Pass;
    }
  }
}
