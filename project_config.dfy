/** The nested settings dictionaries of a PyDSS project
    (PyDSS/pydss_project.py): a simulation configuration is a dict from
    category to a dict of parameters. Loaded TOML documents (controller,
    export and plot lists) have the same two-level shape. */
module ProjectConfig {
  import opened Errors

  /** One `post_process_infos` entry: a dict of strings. */
  type PostProcessInfo = map<string, string>

  /** One entry of `Project.Scenarios`, as `_serialize_scenarios` writes it
      and `load_project` reads it. */
  datatype ScenarioRecord = ScenarioRecord(name: string, postProcessInfos: seq<PostProcessInfo>)

  /** A parameter value. Values the modelled code never inspects are kept
      abstract. */
  datatype Param =
    | Flag(b: bool)
    | Text(s: string)
    | Number(n: int)
    | Records(records: seq<ScenarioRecord>)
    | Table(keys: seq<string>)  // an inline table, as its keys in order
    | Opaque

  type Category = map<string, Param>

  /** A two-level settings dict: category name to parameters. */
  type Document = map<string, Category>

  /** `doc[category][key] = value`: KeyError when the category is missing;
      every other category and every other key is left as it was. */
  function SetParam(doc: Document, category: string, key: string, value: Param): (r: Result<Document>)
    ensures r.Err? <==> category !in doc
    ensures r.Err? ==> r.error == KeyError(StrKey(category))
    ensures r.Ok? ==> r.value.Keys == doc.Keys
                      && r.value[category] == doc[category][key := value]
                      && forall c :: c in doc && c != category ==> r.value[c] == doc[c]
  {
    if category !in doc then Err(KeyError(StrKey(category)))
    else Ok(doc[category := doc[category][key := value]])
  }

  // ---------------------------------------------------------------------------
  // Option merging in load_project
  // ---------------------------------------------------------------------------

  /** The settings after `load_project` merges `options`: a category missing
      from the settings is created empty, and then updated with the option's
      parameters. */
  function Merged(config: Document, options: Document): Document
  {
    map c | c in config.Keys + options.Keys ::
      if c in options then (if c in config then config[c] else map[]) + options[c] else config[c]
  }

  /** The merge loop of `load_project`: for each category of `options`
      (in any order, since each category is visited once), create it if
      missing and update it with the option's parameters. */
  method MergeOptions(config: Document, options: Document) returns (r: Document)
    ensures r == Merged(config, options)
  {
    r := config;
    var todo := options.Keys;
    ghost var done: set<string> := {};
    while todo != {}
      invariant todo <= options.Keys && done == options.Keys - todo
      invariant r.Keys == config.Keys + done
      invariant forall c :: c in r ==>
                  r[c] == if c in done then (if c in config then config[c] else map[]) + options[c] else config[c]
      decreases todo
    {
      var category :| category in todo;
      if category !in r {
        r := r[category := map[]];
      }
      r := r[category := r[category] + options[category]];
      todo := todo - {category};
      done := done + {category};
    }
    assert done == options.Keys;
  }

  /** Merging keeps every category and adds the categories of the options. */
  lemma MergedCategories(config: Document, options: Document)
    ensures Merged(config, options).Keys == config.Keys + options.Keys
  {
  }

  /** An option overrides the parameter it names, a parameter the options do
      not name keeps its value, and a category the options do not name is
      untouched. */
  lemma MergedParams(config: Document, options: Document, c: string, k: string)
    requires c in config.Keys + options.Keys
    ensures c in options && k in options[c] ==> Merged(config, options)[c][k] == options[c][k]
    ensures c in config && k in config[c] && (c !in options || k !in options[c])
            ==> Merged(config, options)[c][k] == config[c][k]
    ensures c !in options ==> Merged(config, options)[c] == config[c]
    ensures k in Merged(config, options)[c]
            <==> (c in config && k in config[c]) || (c in options && k in options[c])
  {
  }

  /** Merging the same options twice changes nothing more. */
  lemma MergedIdempotent(config: Document, options: Document)
    ensures Merged(Merged(config, options), options) == Merged(config, options)
  {
    var once := Merged(config, options);
    var twice := Merged(once, options);
    assert twice.Keys == once.Keys;
    forall c | c in once.Keys ensures twice[c] == once[c] {
      if c in options {
        assert twice[c] == once[c] + options[c];
      }
    }
  }

  // ---------------------------------------------------------------------------
  // The settings edits of create_project
  // ---------------------------------------------------------------------------

  /** What `create_project` does to the loaded settings before building the
      project: `update(options)` replaces whole categories, then the project
      path and name are written into the `Project` category (KeyError when
      there is none). */
  function CreateConfig(loaded: Document, options: Option<Document>, path: string, name: string)
    : (r: Result<Document>)
    ensures var updated := if options.Some? then loaded + options.value else loaded;
            (r.Err? <==> "Project" !in updated)
            && (r.Err? ==> r.error == KeyError(StrKey("Project")))
            && (r.Ok? ==> r.value.Keys == updated.Keys
                          && "Project" in r.value
                          && "Project Path" in r.value["Project"] && "Active Project" in r.value["Project"]
                          && r.value["Project"]["Project Path"] == Text(path)
                          && r.value["Project"]["Active Project"] == Text(name)
                          && (forall k :: k in updated["Project"] && k != "Project Path" && k != "Active Project"
                                          ==> k in r.value["Project"] && r.value["Project"][k] == updated["Project"][k])
                          && forall c :: c in updated && c != "Project" ==> r.value[c] == updated[c])
  {
    var updated := if options.Some? then loaded + options.value else loaded;
    var withPath :- SetParam(updated, "Project", "Project Path", Text(path));
    SetParam(withPath, "Project", "Active Project", Text(name))
  }

  /** `update` replaces whole categories: an option category wipes the
      loaded parameters of that category, unlike the merge of load_project. */
  lemma UpdateReplacesCategory(loaded: Document, options: Document, c: string)
    requires c in options
    ensures (loaded + options)[c] == options[c]
    ensures c in loaded ==> Merged(loaded, options)[c] == loaded[c] + options[c]
  {
  }
}
