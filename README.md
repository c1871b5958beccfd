# PyDSS value storage and project model, in Dafny

This project models two parts of PyDSS.

- **Value storage** (`PyDSS/value_storage.py`). Per-timestep solver readings are kept in records and turned into table columns keyed `name__prop` or `name__label`. The module covers:
  - the scalar records `ValueByNumber` and `ValueByString`;
  - the label record `ValueByLabel`, which reshapes a flat reading vector into per-node phase pairs;
  - the column lookup `get_columns`;
  - the class lookup `get_value_class`.
- **Projects and scenarios** (`PyDSS/pydss_project.py`). A `PyDssProject` is a named directory of `PyDssScenario`s plus a simulation settings document. The module covers:
  - scenario construction from defaults, files or mappings, and post-process entries;
  - the run loop over the scenarios;
  - the records `_serialize_scenarios` writes and `load_project` reads back;
  - how `load_project` chooses between the tar, zip and directory interfaces;
  - the tar and zip packaging of the project root.

The modelling conventions:

- A Python exception is an `Errors.Error` value inside a `Result`, or inside an `Outcome` when the operation returns nothing.
- A settings document (a TOML table) is a `map<string, map<string, Param>>`.
- The filesystem is a value:
  - `Scenarios.Env` holds the paths that exist and the documents `load_data` reads;
  - `Projects.FsInterface` holds what a project interface reads back;
  - `Packaging.ProjectRoot` holds the listing of the project root and the members written to the archive.
- Readings are a type parameter. A complex reading is an uninterpreted pair.
- Code that changes objects in place is modelled as classes:
  - `ScalarValue`, `ValueByLabel`, `Scenario`, `Project` and `ProjectRoot`;
  - their methods are proved against specification functions.
- Pure logic is modelled as functions and lemmas.

## Model

| member | source | states |
|---|---|---|
| ColumnKeys.GetColumns | PyDSS/value_storage.py:13-50 | The loop over `df.columns` returns exactly what `ColumnsFor` specifies: an AssertionFailed naming the first key that trips an assertion, else the matching keys in table order, else InvalidParameter "`name` does not exist in DataFrame". |
| ColumnKeys.FirstFailure | PyDSS/value_storage.py:32-42 | The index found is of a key with fewer than two fields, or of a key that matches (name, prop) without three fields when a label is asked for. No earlier key fails. None means no key fails. |
| ColumnKeys.MakeColumnFields | PyDSS/value_storage.py:86-88 | A key `name__prop` built from fields that do not contain the delimiter splits back into exactly `[name, prop]`. |
| ColumnKeys.FirstFailureAt | PyDSS/value_storage.py:32-42 | A failing key after a prefix without failures is the first failure. |
| ColumnKeys.ColumnsStep | PyDSS/value_storage.py:32-45 | One more key either becomes the first failure or is appended when it matches. |
| ColumnKeys.MatchingMembers | PyDSS/value_storage.py:37-45 | A key is returned iff it is a key of the table and matches (name, prop, label). |
| ColumnKeys.MatchingConcat | PyDSS/value_storage.py:32-45 | The matches of a table split in two are the matches of the first part followed by those of the second, so table order is kept. |
| ColumnKeys.ColumnsFound | PyDSS/value_storage.py:32-50 | get_columns succeeds iff no key trips an assertion and some key matches. It then returns exactly the matching keys. |
| ColumnKeys.ColumnsNotFound | PyDSS/value_storage.py:47-48 | InvalidParameter is raised iff no key trips an assertion and no key matches. |
| ColumnKeys.ThreeFieldKey | PyDSS/value_storage.py:33-45 | A key `name__prop__lbl` is found by (name, prop) and by (name, prop, lbl). It trips no assertion under another label and is not returned for it. |
| ColumnKeys.IntLabelNeverFound | PyDSS/value_storage.py:22-48 | An int label, which the docstring allows, never equals a str field, so no key matches it. get_columns raises the AssertionError of the first key that trips an assertion, else InvalidParameter. |
| ScalarValues.ScalarValue.constructor | PyDSS/value_storage.py:95-98 | A new record holds exactly the one reading it was given. |
| ScalarValues.ScalarValue.Length | PyDSS/value_storage.py:103-104 | `__len__` is the number of readings, which is the number of rows of `to_dataframe`. |
| ScalarValues.ScalarValue.ToDataFrame | PyDSS/value_storage.py:119-120 | One column holding the readings in order. For a safe name and prop, get_columns finds exactly that column by (name, prop), and its key splits back into `[name, prop]`. |
| ScalarValues.ScalarValue.Append | PyDSS/value_storage.py:106-108 | The other record's readings are added after this record's own readings, and the length is the sum. |
| ScalarValues.ScalarValue.NumColumns | PyDSS/value_storage.py:110-113 | The corrected `num_columns` equals the number of columns of `to_dataframe`. |
| ScalarValues.NumColumnsAsWrittenRaises | PyDSS/value_storage.py:110-113 | The property as written never yields the column count; it raises TypeError. |
| ScalarValues.ScalarTableLookup | PyDSS/value_storage.py:119-120 | get_columns on a scalar table finds its one column `name__prop`. Asked for any label, str or int, it trips the three-field assertion on that column. |
| ScalarValues.Accumulate | PyDSS/value_storage.py:95-120 | A record created from the first reading, with each later reading appended, converts to the single column `name__prop` holding every reading in order. |
| ValueClasses.GetValueClass | PyDSS/value_storage.py:213-222 | Succeeds iff the name is "ValueByNumber" or "ValueByLabel". It returns the class of that name, and otherwise raises InvalidParameter "invalid class name=…". |
| ValueClasses.LookupByName | PyDSS/value_storage.py:215-218 | Looking a class up by its own name gives it back. |
| ValueClasses.StringClassRefused | PyDSS/value_storage.py:213-222 | "ValueByString" is refused with InvalidParameter. |
| LabelReshape.PhaseLetterInjective | PyDSS/value_storage.py:140-145 | Distinct phase codes of `phs` have distinct letters. |
| LabelReshape.ChunkAt | PyDSS/value_storage.py:154-155 | Each full run of `k` elements is the chunk at its position. |
| LabelReshape.RunsFit | PyDSS/value_storage.py:153 | The runs handed to the nodes fit in the value: `2 * len(Nodes) * m <= len(value)`. |
| LabelReshape.ReshapePair | PyDSS/value_storage.py:152-155 | Node `i` gets a full run of `m` pairs. Its `j`-th pair is the raw readings at `2(im+j)` and `2(im+j)+1`. |
| LabelReshape.RunLengthZero | PyDSS/value_storage.py:153 | `m` is zero iff the value has fewer than `2 * len(Nodes)` readings. |
| LabelReshape.ZeroDivisionWhen | PyDSS/value_storage.py:153-155 | The constructor raises ZeroDivisionError iff there are no nodes or fewer than `2 * len(Nodes)` readings. |
| LabelReshape.EntryErrorFirst | PyDSS/value_storage.py:157-170 | The loops raise nothing iff every iteration succeeds. Otherwise they raise the failure of the first failing iteration: a KeyError for a code outside `phs`, else an IndexError. |
| LabelReshape.NodeFromShape | PyDSS/value_storage.py:159 | `zip(node, val)` stops at the shorter of the two, pairing the `k`-th code with the `k`-th pair. |
| LabelReshape.EntriesFromShape | PyDSS/value_storage.py:157-159 | Every iteration pairs a phase code of some node with the pair at the same position of that node's run, with the node's 1-based ordinal. |
| LabelReshape.EntryReadings | PyDSS/value_storage.py:152-159 | Every iteration reads a pair of exactly two raw readings from its node's run. |
| LabelReshape.PairLength | PyDSS/value_storage.py:154-155 | Every pair of a node's run has two readings. |
| LabelReshape.EntriesFromCount | PyDSS/value_storage.py:157-159 | Node `i` and the nodes after it contribute, each, as many iterations as the smaller of its phase count and `m`. |
| LabelReshape.EntriesCount | PyDSS/value_storage.py:157-159 | The number of iterations over the whole vector is that sum, starting from the first node. |
| LabelReshape.LabelsLength | PyDSS/value_storage.py:160-170 | Each iteration adds one label when complex and two otherwise. |
| LabelReshape.LabelsAt | PyDSS/value_storage.py:160-170 | The labels of iteration `k` sit at positions `w*k ..` of `_labels`, in order. |
| LabelReshape.DataKeys | PyDSS/value_storage.py:160-170 | The keys of `_data` are exactly the labels. |
| LabelReshape.EntryLabelIn | PyDSS/value_storage.py:160-170 | Every label an iteration builds is among the labels. |
| LabelReshape.DataOfEntry | PyDSS/value_storage.py:164-170 | With distinct labels, every label maps to the one value its iteration stored: the complex pair, the magnitude or the angle. |
| LabelReshape.UnitLabelInjective | PyDSS/value_storage.py:160-167 | `_<letter><ordinal> <unit>` determines its letter, ordinal and unit. |
| LabelReshape.SpaceSeparated | PyDSS/value_storage.py:162-167 | A digit string followed by a space and a suffix determines both parts. |
| LabelReshape.LabelsDistinct | PyDSS/value_storage.py:157-170 | The labels are distinct when no (phase, node) repeats and, for non-complex values, the two units differ. |
| LabelReshape.EntryLabelsDistinct | PyDSS/value_storage.py:166-168 | The magnitude and angle labels of one pair differ when the units do. |
| LabelReshape.LabelsApart | PyDSS/value_storage.py:157-170 | A later iteration with a new (phase, node) adds no label built before it. |
| LabelReshape.NodeFromDistinct | PyDSS/value_storage.py:159 | A node without repeated phases gives iterations with distinct codes, all carrying that node's ordinal. |
| LabelReshape.EntriesFromDistinct | PyDSS/value_storage.py:157-159 | Nodes without repeated phases give no repeated (phase, ordinal), and ordinals grow past the start. |
| LabelReshape.NoRepeatedPhases | PyDSS/value_storage.py:157-160 | No (phase, ordinal) repeats over all iterations when no node repeats a phase. |
| LabelValues.AppendKeys | PyDSS/value_storage.py:178-183 | `append` never adds a key to `_data`. |
| LabelValues.AppendFails | PyDSS/value_storage.py:180-181 | `append` raises AssertionError iff some key of the other record is missing from this one. |
| LabelValues.AppendMerges | PyDSS/value_storage.py:178-183 | When every key is present, each key's list gets the other record's values appended, and every other list is unchanged. |
| LabelValues.MakeColumns | PyDSS/value_storage.py:203-206 | `_make_columns` gives one column name per label. |
| LabelValues.TableColumns | PyDSS/value_storage.py:208-211 | `to_dataframe` succeeds iff the lists have equal lengths and the labels are distinct. Column `k` is then `name__label_k` with that label's values. Unequal lengths, which a partial `append` can leave, raise ValueError "All arrays must be of the same length"; otherwise a repeated label raises ValueError "Length mismatch". |
| LabelValues.TableOfDistinct | PyDSS/value_storage.py:208-211 | With distinct labels in dict order, the table has one column per label, in label order. |
| LabelValues.ValueByLabel.Empty | PyDSS/value_storage.py:147-150 | A record starts with no labels and no data. |
| LabelValues.ValueByLabel.New | PyDSS/value_storage.py:125-170 | The constructor raises exactly what `ConstructError` specifies: ZeroDivisionError, then the first iteration's KeyError or IndexError. Otherwise its labels and data are exactly those of the loop iterations. |
| LabelValues.ValueByLabel.Iter | PyDSS/value_storage.py:172-173 | Iteration yields each key of `_data` once. |
| LabelValues.ValueByLabel.Append | PyDSS/value_storage.py:178-183 | The new `_data` and the outcome are those of `AppendKeys` over the other record's keys, including the lists already extended when a later key is missing. Labels are unchanged. |
| LabelValues.ValueByLabel.Extend | PyDSS/value_storage.py:182-183 | One key's list is extended by the given values, and nothing else changes. |
| LabelValues.ValueByLabel.Get | PyDSS/value_storage.py:185-197 | `get` succeeds iff the key is a label, returns its list, and otherwise raises KeyError. |
| LabelValues.ValueByLabel.ToDataFrame | PyDSS/value_storage.py:208-211 | Succeeds iff the lists have equal lengths and the labels are distinct, giving column `k` = `name__label_k` with that label's readings. Otherwise ValueError "All arrays must be of the same length", or "Length mismatch" for a repeated label. |
| LabelValues.ValueByLabel.NumColumns | PyDSS/value_storage.py:199-201 | `num_columns` (and `__len__`) is the number of distinct labels. It equals the number of labels iff they are distinct. |
| LabelValues.Visit | PyDSS/value_storage.py:160-170 | One inner iteration fails exactly as `EntryFailure` says, and otherwise appends its labels and data. |
| LabelValues.VisitNodes | PyDSS/value_storage.py:157-170 | The outer loop raises the first failure of the iterations, and otherwise builds exactly `Labels` and `Data`. |
| LabelValues.VisitNode | PyDSS/value_storage.py:159-170 | The inner loop over one node extends the labels and data built so far, or reports the first failure. |
| LabelValues.DataSingletons | PyDSS/value_storage.py:164-170 | After construction every list in `_data` holds one value. |
| LabelValues.BuiltTable | PyDSS/value_storage.py:125-211 | A record built from nodes without repeated phases (and two different units when not complex) converts to a table. The table has `w` columns per iteration, each `name__label` holding one value. |
| LabelValues.ReportedFailure | PyDSS/value_storage.py:157-170 | A failing iteration after successful ones is the failure the loops raise. |
| LabelValues.ErrorPrefix | PyDSS/value_storage.py:157-170 | Once an iteration has failed, later iterations do not change what is raised. |
| Sequences.Dedup | PyDSS/value_storage.py:208-209 | The key order of a dict filled from the labels holds the same elements, each once. |
| Sequences.DedupLength | PyDSS/value_storage.py:208-211 | That key order is as long as the labels iff they are distinct, and is then the labels themselves. |
| PyStrings.Split | PyDSS/value_storage.py:33 | `str.split(d)` yields at least one field, and joining the fields with `d` gives the string back. |
| PyStrings.SplitJoin | PyDSS/value_storage.py:88 | Splitting a join of delimiter-safe fields gives the fields back. |
| PyStrings.ParseNatToString | PyDSS/value_storage.py:160 | `str(i+1)` is decimal digits that parse back to the number. |
| PyStrings.NatToStringInjective | PyDSS/value_storage.py:160 | Distinct ordinals give distinct strings. |
| PyStrings.JoinDirnameBasename | PyDSS/pydss_project.py:431 | `os.path.join(dirname(p), basename(p)) == p` for a path without doubled slashes. |
| PyStrings.BasenameOfJoin | PyDSS/pydss_project.py:519 | The basename of a path joined with a name without '/' is that name. |
| PyStrings.SplitextRootOfName | PyDSS/pydss_project.py:519 | `splitext("stem.ext")[0]` is `stem`. |
| ProjectConfig.SetParam | PyDSS/pydss_project.py:286 | Assigning `config[category][key]` raises KeyError iff the category is missing. Otherwise it replaces that one parameter and nothing else. |
| ProjectConfig.MergeOptions | PyDSS/pydss_project.py:441-446 | The options loop produces `Merged(config, options)`. |
| ProjectConfig.MergedCategories | PyDSS/pydss_project.py:441-446 | The merged document has the categories of both. |
| ProjectConfig.MergedParams | PyDSS/pydss_project.py:441-446 | An option parameter overrides the setting. An untouched parameter keeps its value, and a category without options is unchanged. |
| ProjectConfig.MergedIdempotent | PyDSS/pydss_project.py:441-446 | Applying the same options twice equals applying them once. |
| ProjectConfig.CreateConfig | PyDSS/pydss_project.py:240-246 | `create_project` replaces whole categories with the options (`dict.update`) and then sets "Project Path" and "Active Project". It raises KeyError without a Project category, and everything else is kept. |
| ProjectConfig.UpdateReplacesCategory | PyDSS/pydss_project.py:243-244 | `update` replaces a category, while the load-time merge combines its parameters. |
| Scenarios.LoadData | PyDSS/pydss_project.py:521 | `load_data` returns the document at an existing path, and otherwise raises FileNotFound. |
| Scenarios.LoadDefaults | PyDSS/pydss_project.py:513-517 | Loading default configs succeeds iff every requested member has a bundled file, and maps each member to it. |
| Scenarios.LoadDefaultsFirstMissing | PyDSS/pydss_project.py:513-517 | Otherwise it raises FileNotFound for the first member without one. |
| Scenarios.Resolve | PyDSS/pydss_project.py:504-542 | Both inputs given: InvalidParameter. Neither: `LoadDefaults` of the preferred member. Names: `LoadDefaults` of those names, failing on the first without a default. A file: `{member-of-basename: document}`; ValueError "'stem' is not a valid …" when the stem is not a member, else FileNotFound when the file is missing. A mapping: the mapping itself. |
| Scenarios.ResolveDefault | PyDSS/pydss_project.py:508-512 | With no arguments the result is the preferred member's default, and it fails iff that default is missing. |
| Scenarios.ResolveNamedFile | PyDSS/pydss_project.py:518-521 | A file `dir/stem.ext` whose stem is a member resolves to `{stem: its document}`. |
| Scenarios.ResolvePlots | PyDSS/pydss_project.py:544-549 | Plots are the built-in ones, a given mapping, or the document loaded from a path. |
| Scenarios.MissingField | PyDSS/pydss_project.py:671-675 | Names the first required field absent from the entry, and None iff all are present. |
| Scenarios.CheckPostProcess | PyDSS/pydss_project.py:671-678 | Passes iff "script" and "config_file" are present and the config file exists. Otherwise it gives the message for the first missing field, or "… does not exist". |
| Scenarios.PostProcessAll | PyDSS/pydss_project.py:551-553 | All entries are accepted, in order, iff each passes. |
| Scenarios.PostProcessFirstFailure | PyDSS/pydss_project.py:551-553 | The constructor raises the error of the first rejected entry. |
| Scenarios.ConstructDefaults | PyDSS/pydss_project.py:508-545 | A scenario with no arguments has the PV-controller default, the by-class export default, the built-in plots and no post-process entry. |
| Scenarios.ConstructConflicts | PyDSS/pydss_project.py:504-529 | Giving both controller inputs, or both export inputs, raises InvalidParameter, controllers checked first. |
| Scenarios.DeserializeKeepsMappings | PyDSS/pydss_project.py:555-583 | `deserialize` keeps the mappings read back as they are. It succeeds iff every recorded entry passes. |
| Scenarios.SerializeDeserialize | PyDSS/pydss_project.py:585-613 | Deserializing what a scenario holds rebuilds the same scenario. |
| Scenarios.Scenario.Configured | PyDSS/pydss_project.py:499-549 | A scenario built from mappings holds them and has no post-process entries. |
| Scenarios.Scenario.New | PyDSS/pydss_project.py:499-553 | `__init__` succeeds or raises exactly as `Construct` specifies. |
| Scenarios.Scenario.AddPostProcesses | PyDSS/pydss_project.py:551-553 | Adding several entries fails with the first entry's error iff some entry is rejected, and otherwise appends them all. |
| Scenarios.Scenario.Deserialize | PyDSS/pydss_project.py:555-583 | Fails iff some entry is rejected, and otherwise holds exactly the read-back mappings and the entries. |
| Scenarios.Scenario.AddPostProcess | PyDSS/pydss_project.py:662-682 | The outcome is `CheckPostProcess`. The entry is appended (without deduplication) iff it passes, and the other attributes are unchanged. |
| Packaging.WrittenSpec | PyDSS/pydss_project.py:344-350 | Writing members passes iff no path fails to write. On failure, exactly the paths before the first bad one were written. |
| Packaging.WrittenConcat | PyDSS/pydss_project.py:369-380 | Writing two lists in turn is writing their concatenation, stopping at the first failure. |
| Packaging.KeepMembers | PyDSS/pydss_project.py:352-356 | Deleting removes exactly the entries whose names are deleted, and keeps order. |
| Packaging.KeepNames | PyDSS/pydss_project.py:352-356 | The names left are the names before minus the deleted ones. |
| Packaging.KeepTwice | PyDSS/pydss_project.py:352-356 | Deleting in two rounds equals deleting the union. |
| Packaging.TarMembersNames | PyDSS/pydss_project.py:345-347 | The tar members are the root names except the archive and the store. |
| Packaging.ZipInSteps | PyDSS/pydss_project.py:369-386 | Zipping writes the root files, then the nested files, and deletes root directories and root files only after both passed. |
| Packaging.TargetsOfNames | PyDSS/pydss_project.py:352-356 | Names without '/' address themselves when deleted. |
| Packaging.TarDeletesArchived | PyDSS/pydss_project.py:338-361 | After a passing tar with delete, exactly the archived names are gone. Only the archive and the store can remain, and the archive does. |
| Packaging.TarPassDeletes | PyDSS/pydss_project.py:338-361 | A passing tar with delete removes its members and writes them in listing order. |
| Packaging.ListedHasArchive | PyDSS/pydss_project.py:344 | Opening the archive for writing puts it in the listing. |
| Packaging.DeletingMembers | PyDSS/pydss_project.py:352-356 | Deleting the members leaves exactly the reserved names of the listing. |
| Packaging.TarKeepsWithoutDelete | PyDSS/pydss_project.py:349-350 | Without delete, nothing but the new archive changes in the listing. |
| Packaging.ZipDeletesRootOnly | PyDSS/pydss_project.py:371-386 | After a passing zip with delete, only root files that are the archive or the store remain, and every deleted path was a root name. |
| Packaging.KeepsRootOnly | PyDSS/pydss_project.py:378-386 | Deleting the root directories and root files leaves only the reserved root files. |
| Packaging.ProjectRoot.Add | PyDSS/pydss_project.py:348 | Adding a path appends it to the archive, or raises for an unreadable path. |
| Packaging.ProjectRoot.AddAll | PyDSS/pydss_project.py:345-348 | Adding paths in order matches `Written`. |
| Packaging.ProjectRoot.DeleteAll | PyDSS/pydss_project.py:352-356 | The delete loop leaves `Deleted(entries, to_delete)`. |
| Packaging.ProjectRoot.AddRootEntries | PyDSS/pydss_project.py:345-350 | The tar loop writes the members and records them for deletion only when `delete` is set. |
| Packaging.ProjectRoot.AddRootFiles | PyDSS/pydss_project.py:373-380 | The root files of the walk are written, skipping the archive and the store, and recorded for deletion. |
| Packaging.ProjectRoot.AddNestedFiles | PyDSS/pydss_project.py:370-377 | The files below the root directories are written in walk order. |
| Packaging.ProjectRoot.AddDirectory | PyDSS/pydss_project.py:370-377 | One directory's files are written under their joined paths. |
| Packaging.ProjectRoot.TarProjectFiles | PyDSS/pydss_project.py:338-361 | The resulting listing, archive and outcome are `Tar(old listing)`, and the working directory is restored. |
| Packaging.ProjectRoot.ZipProjectFiles | PyDSS/pydss_project.py:363-391 | The resulting listing, archive and outcome are `Zip(old listing)`, and the working directory is restored. |
| Projects.ProbeBackend | PyDSS/pydss_project.py:433-438 | The tar interface iff `project.tar` exists, else the zip interface iff `project.zip` exists, else the directory. |
| Projects.ProbePrefersTar | PyDSS/pydss_project.py:433-436 | With both archives present, tar wins and the project counts as archived. |
| Projects.RunScenariosAt | PyDSS/pydss_project.py:299-302 | The loop from position `i` is its iteration at `i` followed by the rest. |
| Projects.RunScenariosNoProject | PyDSS/pydss_project.py:300 | Without a Project category the first iteration raises KeyError and changes nothing. |
| Projects.RunScenariosAllPass | PyDSS/pydss_project.py:299-302 | When the solver succeeds on every scenario, the loop passes and the last scenario is left active. |
| Projects.RunScenariosEstimates | PyDSS/pydss_project.py:299-302 | The estimates then hold one entry per scenario name, produced by the run of that name, and keep every other entry. |
| Projects.RunScenariosPassOnlyIf | PyDSS/pydss_project.py:299-302 | The loop passes only when every scenario's run succeeded. |
| Projects.RunScenariosFailAt | PyDSS/pydss_project.py:299-302 | The loop stops at the first failing run, with that scenario active and the estimates of the runs before it. |
| Projects.ReducedInfo | PyDSS/pydss_project.py:328-331 | A written entry keeps exactly "script" and "config_file". A missing field raises KeyError, "script" first. |
| Projects.ReducedInfos | PyDSS/pydss_project.py:326-332 | Every entry is reduced, in order, or the first KeyError is raised. |
| Projects.WrittenRecordsSpec | PyDSS/pydss_project.py:319-336 | The scenario records are written iff every scenario's entries reduce. Each record is then (name, reduced entries). |
| Projects.CheckedInfosSerialize | PyDSS/pydss_project.py:326-332 | Entries accepted by `add_post_process` always serialize. |
| Projects.ScenarioRecords | PyDSS/pydss_project.py:448-455 | Reading `config["Project"]["Scenarios"]` raises KeyError for a missing category or key. A list gives its records; an empty string or empty table gives no records, as iterating them yields nothing; any other value raises TypeError. |
| Projects.LoadedStates | PyDSS/pydss_project.py:448-455 | Every record is deserialized, in order, or the first error is raised. |
| Projects.ReducedInfoChecks | PyDSS/pydss_project.py:328-331 | A reduced entry still passes the post-process checks. |
| Projects.SerializeThenLoad | PyDSS/pydss_project.py:319-336 | Loading the records written by `_serialize_scenarios` rebuilds every scenario, with its reduced entries, in order. |
| Projects.FirstIndex | PyDSS/pydss_project.py:147-151 | The position of the first scenario with the name, or None iff there is none. |
| Projects.CreatedKeepsProject | PyDSS/pydss_project.py:319-320 | Serializing the scenarios keeps "Project Path", "Active Project" and every other category, and sets "Scenarios" to the records. |
| Projects.Project.constructor | PyDSS/pydss_project.py:35-44 | The project directory is `path/name`, the scenario directory is under it, and there is no store and no estimate yet. |
| Projects.Project.ListScenarioNames | PyDSS/pydss_project.py:275-276 | The scenario names, in order. |
| Projects.Project.HdfStore | PyDSS/pydss_project.py:71-82 | Raises InvalidConfiguration iff there is no store, and otherwise returns it. |
| Projects.Project.Interface | PyDSS/pydss_project.py:84-95 | Raises InvalidConfiguration iff there is no interface, and otherwise returns it. |
| Projects.StoreFilename | PyDSS/pydss_project.py:288-291 | The store file is always named `store.h5`: in the temporary directory for a dry run, otherwise in the project directory, where `get_hdf_store_filename` looks for it. |
| Projects.Project.GetHdfStoreFilename | PyDSS/pydss_project.py:97-115 | Returns `project_dir/store.h5` iff it exists, and otherwise raises InvalidConfiguration. |
| Projects.Project.GetScenario | PyDSS/pydss_project.py:135-151 | Returns the first scenario with the name iff there is one, and otherwise raises InvalidParameter. |
| Projects.Project.GetPostProcessDirectory | PyDSS/pydss_project.py:117-133 | Returns `project_dir/Scenarios/<name>/PostProcess` iff the scenario exists, and otherwise raises as `get_scenario`. |
| Projects.Project.ReadScenarioExportMetadata | PyDSS/pydss_project.py:255-273 | No interface raises InvalidConfiguration and an unknown scenario raises InvalidParameter, in that order. Otherwise it returns the interface's metadata. |
| Projects.Project.Run | PyDSS/pydss_project.py:278-317 | Checks, in order: an archived project raises, both packing flags raise, and setting the logging flag needs "Logging". A missing "Exports" raises KeyError. Then the store is chosen, the scenario loop runs, and on success the project is tarred (preferred) or zipped. |
| Projects.Project.RunLoop | PyDSS/pydss_project.py:299-302 | The loop's outcome, settings and estimates are those of `RunScenarios`. |
| Projects.Project.RunScenario | PyDSS/pydss_project.py:300-302 | One iteration makes the scenario active, runs it and records its estimate, as `RunOne` specifies. |
| Projects.Project.SerializeScenarios | PyDSS/pydss_project.py:319-336 | The settings and outcome are `SerializedConfig` of the scenarios, and nothing else changes. |
| Projects.Project.LoadProject | PyDSS/pydss_project.py:417-463 | Picks the interface by `ProbeBackend`, so the loaded project's interface is of the probed kind, and merges the options. It loads the scenarios or raises their first error, and builds the project from `dirname`/`basename` of the path; for a path without doubled slashes the project directory is the path itself. |
| Projects.Project.LoadThenRun | PyDSS/pydss_project.py:280-281 | A project loaded where `project.tar` or `project.zip` exists is read through an archive interface, so `run` refuses it with InvalidConfiguration "cannot run from an archived project". |
| Projects.Project.CreateProject | PyDSS/pydss_project.py:223-253 | Builds the settings as `create_project` does, writes the records, and returns the project or the first error. The new project has no store, no estimates and no interface. |
| Projects.Project.ReduceInfos | PyDSS/pydss_project.py:326-332 | The reduction loop matches `ReducedInfos`. |

## Left out

- HDF5: the store is only its file name. Opening it with `h5py`, the in-memory driver chosen from "Export Data In Memory" and the version attribute are not modelled.
- The "Export Data Tables" pass after the run needs `PyDssResults`, which is not part of this model.
- Projects.Project.Run: does not model removing the store file after a dry run, which is a filesystem side effect outside the settings and the project root.
- The simulation itself is the parameter `solver`: a function from the settings, the scenario name and the dry-run flag to an optional estimated size. A failure stands for any exception of `inst.run`.
- Projects.RunScenariosEstimates: the solver sees the scenario's name, not the scenario object that `inst.run` receives, so two scenarios with the same name are not told apart. Their runs give the same estimate in the model, whereas the source keeps the later run's estimate, which may differ.
- TOML reading and writing (`load_data`, `dump_data`), `load_simulation_config` and `load_config` are not modelled. Documents are values in `Env` and in `FsInterface`.
- `PyDssProject.serialize` and `PyDssScenario.serialize` are modelled only through what they record and what `deserialize` reads back. The directories they create are not modelled.
- `load_controller_config_from_type` and `load_export_config_from_mode` are the `defaults` map of each enumeration catalogue. The package path they build is not modelled.
- The byte formats of tar and zip archives are not modelled. An archive is the list of member paths written to it, and a failure to add a path is the set `unreadable`.
- `os.walk` and `os.listdir` are modelled as a listing of root entries. Each directory carries the relative paths of its files in walk order, and the order of the listing is taken as given.
- pandas is modelled only as the list of column keys and values of a table. Dtypes and the index are not modelled.
- `complex(x[0], x[1])` is an uninterpreted pair of the two readings.
- Logging calls are not modelled.
- PyDSS/pyControllers/pyController.py is not part of this model.
- ScalarValues.ScalarValue.Append: requires `other != this`, because Python extending a list with itself while iterating over it never ends. It validates neither key nor length, as the code does.
- Projects.ScenarioRecords: a record is always a (name, post-process entries) pair. A record without `name` or `post_process_infos`, on which `load_project` raises KeyError while building that scenario, cannot be expressed.
- ProjectConfig.CreateConfig: settings are values, so the aliasing of `simulation_config.update(options)` is not captured: the option dicts become the settings' own categories, and setting `Project Path` and `Active Project` also changes the caller's `options["Project"]`.
- Packaging.ProjectRoot.DeleteAll: every removal succeeds. A failure of `os.remove` or `shutil.rmtree` (a permission error, or `rmtree` on a symlink to a directory) is not modelled, so `TarProjectFiles`, `ZipProjectFiles` and `Run` pass where the source would raise from the delete loop.
- LabelValues.ValueByLabel.Append: requires `other != this` and a record whose key set matches its label list. Appending a record to itself would extend each list while iterating over it.
- LabelValues.ValueByLabel.New: the reshape truncates the vector by integer division, as the code does; readings past the last full run are dropped without an error.
- ColumnKeys.GetColumns: the not-found error names only `name`, as the code does.

## Findings

| source | as written | input that shows it | evidently intended | confidence | as-written member | corrected member |
|---|---|---|---|---|---|---|
| PyDSS/value_storage.py:110-113 | `num_columns` is a `@property` over a `@staticmethod` of no parameters (the same at lines 81-84) | reading `ValueByNumber("a", "b", 1).num_columns` passes the instance to a function of no parameters and raises TypeError | the property returns 1, the column count of `to_dataframe` | high, not executed | ScalarValues.NumColumnsAsWritten, ScalarValues.NumColumnsAsWrittenRaises | ScalarValues.ScalarValue.NumColumns |
