/** Archive packaging of a project (`_tar_project_files` and
    `_zip_project_files` in PyDSS/pydss_project.py), over an abstract
    listing of the project root. */
module Packaging {
  import opened Errors
  import opened Sequences
  import opened PyStrings

  /** File names at the project root. PyDSS defines these in modules that
      are not part of this model; only their being distinct matters here. */
  const PROJECT_TAR: string := "project.tar"
  const PROJECT_ZIP: string := "project.zip"
  const STORE_FILENAME: string := "store.h5"

  /** An entry of the project root: a file, or a directory together with
      the path, relative to it, of every file below it in `os.walk` order. */
  datatype Entry = File(name: string) | Dir(name: string, files: seq<string>)

  function Names(es: seq<Entry>): (r: seq<string>)
    ensures |r| == |es| && forall i :: 0 <= i < |es| ==> r[i] == es[i].name
  {
    if es == [] then [] else Names(es[..|es| - 1]) + [es[|es| - 1].name]
  }

  /** A listing as `os.listdir` gives it: distinct, non-empty names without
      '/'. */
  predicate WellFormed(es: seq<Entry>)
  {
    Distinct(Names(es))
    && forall i :: 0 <= i < |es| ==> es[i].name != "" && forall j :: 0 <= j < |es[i].name| ==> es[i].name[j] != '/'
  }

  /** The root names neither packer archives. */
  function Reserved(archiveName: string): set<string>
  {
    {archiveName, STORE_FILENAME}
  }

  /** The listing once the archive file has been opened for writing: opening
      creates it unless it is there already. */
  function Listed(es: seq<Entry>, archiveName: string): seq<Entry>
  {
    if archiveName in Names(es) then es else es + [File(archiveName)]
  }

  // ---------------------------------------------------------------------------
  // Writing members
  // ---------------------------------------------------------------------------

  /** Writing `paths` into an archive one after another, where writing a
      path of `bad` raises an OSError: the paths written before the first
      bad one, and the outcome. */
  function Written(paths: seq<string>, bad: set<string>): (seq<string>, Outcome)
  {
    if paths == [] then ([], Pass)
    else if paths[0] in bad then ([], Fail(WriteFailed(paths[0])))
    else
      var rest := Written(paths[1..], bad);
      ([paths[0]] + rest.0, rest.1)
  }

  /** Writing succeeds exactly when no path is bad, and then writes every
      path in order; otherwise it writes the paths before the first bad one
      and reports that one. */
  lemma {:induction false} WrittenSpec(paths: seq<string>, bad: set<string>)
    ensures Written(paths, bad).1.Pass? <==> forall i :: 0 <= i < |paths| ==> paths[i] !in bad
    ensures Written(paths, bad).1.Pass? ==> Written(paths, bad).0 == paths
    ensures Written(paths, bad).1.Fail? ==>
              var n := |Written(paths, bad).0|;
              n < |paths| && Written(paths, bad).0 == paths[..n] && paths[n] in bad
              && Written(paths, bad).1 == Fail(WriteFailed(paths[n]))
              && forall j :: 0 <= j < n ==> paths[j] !in bad
  {
    if paths != [] && paths[0] !in bad {
      WrittenSpec(paths[1..], bad);
      var rest := Written(paths[1..], bad);
      assert forall j :: 0 <= j < |paths[1..]| ==> paths[1..][j] == paths[j + 1];
      if rest.1.Pass? {
        assert paths == [paths[0]] + paths[1..];
      } else {
        var n := |rest.0|;
        assert paths[..n + 1] == [paths[0]] + paths[1..][..n];
      }
      assert (forall i :: 0 <= i < |paths| ==> paths[i] !in bad)
             <==> (forall i :: 0 <= i < |paths[1..]| ==> paths[1..][i] !in bad);
    }
  }

  /** Writing two lists is writing the first, and the second only if the
      first succeeded. */
  lemma {:induction false} WrittenConcat(a: seq<string>, b: seq<string>, bad: set<string>)
    ensures Written(a + b, bad)
            == if Written(a, bad).1.Fail? then Written(a, bad)
               else (Written(a, bad).0 + Written(b, bad).0, Written(b, bad).1)
  {
    if a == [] {
      assert a + b == b;
      assert [] + Written(b, bad).0 == Written(b, bad).0;
    } else {
      assert (a + b)[0] == a[0];
      assert (a + b)[1..] == a[1..] + b;
      if a[0] !in bad {
        WrittenConcat(a[1..], b, bad);
        var rest := Written(a[1..], bad);
        if rest.1.Pass? {
          assert [a[0]] + (rest.0 + Written(b, bad).0) == [a[0]] + rest.0 + Written(b, bad).0;
        }
      }
    }
  }

  /** A list of good paths followed by a bad one fails at that one. */
  lemma WrittenStops(done: seq<string>, path: string, rest: seq<string>, bad: set<string>)
    requires Written(done, bad) == (done, Pass)
    requires path in bad
    ensures Written(done + [path] + rest, bad) == (done, Fail(WriteFailed(path)))
  {
    assert Written([path], bad) == ([], Fail(WriteFailed(path)));
    assert done + [] == done;
    WrittenConcat(done, [path], bad);
    WrittenConcat(done + [path], rest, bad);
  }

  /** A list of good paths followed by a good one is written in full. */
  lemma WrittenGrows(done: seq<string>, path: string, bad: set<string>)
    requires Written(done, bad) == (done, Pass)
    requires path !in bad
    ensures Written(done + [path], bad) == (done + [path], Pass)
  {
    assert [path][1..] == [];
    assert [path] + [] == [path];
    assert Written([path], bad) == ([path], Pass);
    WrittenConcat(done, [path], bad);
  }

  // ---------------------------------------------------------------------------
  // Deleting root entries
  // ---------------------------------------------------------------------------

  /** The root name a path given to `os.remove`/`shutil.rmtree` refers to,
      with the current directory at the project root. */
  function Target(p: string): string
  {
    if |p| >= 2 && p[..2] == "./" then p[2..] else p
  }

  function Targets(ps: seq<string>): set<string>
  {
    set p | p in ps :: Target(p)
  }

  /** The entries whose names are not in `gone`, in listing order. */
  function Keep(es: seq<Entry>, gone: set<string>): seq<Entry>
  {
    if es == [] then []
    else Keep(es[..|es| - 1], gone) + (if es[|es| - 1].name in gone then [] else [es[|es| - 1]])
  }

  /** Keeping is a filter: an entry is kept exactly when it is listed and
      its name is not removed. */
  lemma {:induction false} KeepMembers(es: seq<Entry>, gone: set<string>)
    ensures forall e :: e in Keep(es, gone) <==> e in es && e.name !in gone
  {
    if es != [] {
      var prefix := es[..|es| - 1];
      var last := es[|es| - 1];
      KeepMembers(prefix, gone);
      assert es == prefix + [last];
    }
  }

  /** The names left after keeping are those not removed. */
  lemma {:induction false} KeepNames(es: seq<Entry>, gone: set<string>)
    ensures Elements(Names(Keep(es, gone))) == Elements(Names(es)) - gone
  {
    if es != [] {
      var prefix := es[..|es| - 1];
      var last := es[|es| - 1];
      KeepNames(prefix, gone);
      var kept := Keep(prefix, gone);
      assert Names(es) == Names(prefix) + [last.name];
      ElementsSnoc(Names(prefix), last.name);
      if last.name in gone {
        assert Keep(es, gone) == kept + [];
        assert kept + [] == kept;
      } else {
        assert Keep(es, gone) == kept + [last];
        NamesSnoc(kept, last);
        ElementsSnoc(Names(kept), last.name);
      }
    }
  }

  /** The names of a listing with one more entry. */
  lemma NamesSnoc(es: seq<Entry>, e: Entry)
    ensures Names(es + [e]) == Names(es) + [e.name]
  {
    assert (es + [e])[..|es|] == es;
  }

  lemma {:induction false} KeepNothing(es: seq<Entry>)
    ensures Keep(es, {}) == es
  {
    if es != [] {
      KeepNothing(es[..|es| - 1]);
      assert es == es[..|es| - 1] + [es[|es| - 1]];
    }
  }

  /** Removing one name after others is removing them all. */
  lemma {:induction false} KeepTwice(es: seq<Entry>, gone: set<string>, more: set<string>)
    ensures Keep(Keep(es, gone), more) == Keep(es, gone + more)
  {
    if es != [] {
      var prefix := es[..|es| - 1];
      var last := es[|es| - 1];
      KeepTwice(prefix, gone, more);
      var kept := Keep(prefix, gone);
      assert Keep(es, gone + more) == Keep(prefix, gone + more) + (if last.name in gone + more then [] else [last]);
      if last.name in gone {
        assert Keep(es, gone) == kept;
      } else {
        assert Keep(es, gone) == kept + [last];
        assert (kept + [last])[..|kept|] == kept;
        assert Keep(kept + [last], more) == Keep(kept, more) + (if last.name in more then [] else [last]);
      }
    }
  }

  /** The listing after the paths of `to_delete` are removed: each takes its
      entry out of the listing, and no removal fails. */
  function Deleted(es: seq<Entry>, toDelete: seq<string>): seq<Entry>
  {
    Keep(es, Targets(toDelete))
  }

  // ---------------------------------------------------------------------------
  // What each packer archives and deletes
  // ---------------------------------------------------------------------------

  /** The tar members: every root entry in listing order, file or
      directory, except the archive itself and the store. */
  function TarMembers(es: seq<Entry>): seq<string>
  {
    if es == [] then []
    else TarMembers(es[..|es| - 1]) + (if es[|es| - 1].name in Reserved(PROJECT_TAR) then [] else [es[|es| - 1].name])
  }

  lemma {:induction false} TarMembersConcat(a: seq<Entry>, b: seq<Entry>)
    ensures TarMembers(a + b) == TarMembers(a) + TarMembers(b)
  {
    if b == [] {
      assert a + b == a;
      assert TarMembers(a) + [] == TarMembers(a);
    } else {
      var prefix := b[..|b| - 1];
      var last := b[|b| - 1];
      var tail := if last.name in Reserved(PROJECT_TAR) then [] else [last.name];
      TarMembersConcat(a, prefix);
      assert (a + b)[..|a + b| - 1] == a + prefix;
      assert (a + b)[|a + b| - 1] == last;
      assert TarMembers(a + b) == TarMembers(a + prefix) + tail;
      assert TarMembers(b) == TarMembers(prefix) + tail;
      AppendAssoc(TarMembers(a), TarMembers(prefix), tail);
    }
  }

  /** The tar members are the root names that are not reserved. */
  lemma {:induction false} TarMembersNames(es: seq<Entry>)
    ensures Elements(TarMembers(es)) == Elements(Names(es)) - Reserved(PROJECT_TAR)
  {
    if es != [] {
      var prefix := es[..|es| - 1];
      var last := es[|es| - 1];
      TarMembersNames(prefix);
      assert Names(es) == Names(prefix) + [last.name];
      assert Elements(Names(es)) == Elements(Names(prefix)) + {last.name};
      var tail := if last.name in Reserved(PROJECT_TAR) then [] else [last.name];
      assert Elements(TarMembers(prefix) + tail) == Elements(TarMembers(prefix)) + Elements(tail);
    }
  }

  /** The root files the zip packer writes first, as `./name`. */
  function RootFiles(es: seq<Entry>): seq<string>
  {
    if es == [] then [] else RootFiles(es[..|es| - 1]) + RootFile(es[|es| - 1])
  }

  /** The path the zip packer writes for one root entry, if any. */
  function RootFile(e: Entry): seq<string>
  {
    if e.File? && e.name !in Reserved(PROJECT_ZIP) then ["./" + e.name] else []
  }

  /** The root directory names, which the zip packer deletes. */
  function DirNames(es: seq<Entry>): seq<string>
  {
    if es == [] then []
    else DirNames(es[..|es| - 1]) + (if es[|es| - 1].Dir? then [es[|es| - 1].name] else [])
  }

  /** The files below a root directory, as `os.walk` rooted at "." names
      them. */
  function Below(e: Entry): seq<string>
    requires e.Dir?
  {
    JoinEach("./" + e.name, e.files)
  }

  /** `os.path.join(root, f)` for each `f`. */
  function JoinEach(root: string, files: seq<string>): (r: seq<string>)
    ensures |r| == |files|
  {
    if files == [] then [] else [PathJoin(root, files[0])] + JoinEach(root, files[1..])
  }

  /** Every file below a root directory, directory after directory. */
  function NestedFiles(es: seq<Entry>): seq<string>
  {
    if es == [] then []
    else NestedFiles(es[..|es| - 1]) + (if es[|es| - 1].Dir? then Below(es[|es| - 1]) else [])
  }

  lemma {:induction false} NestedFilesConcat(a: seq<Entry>, b: seq<Entry>)
    ensures NestedFiles(a + b) == NestedFiles(a) + NestedFiles(b)
  {
    if b == [] {
      assert a + b == a;
      assert NestedFiles(a) + [] == NestedFiles(a);
    } else {
      var prefix := b[..|b| - 1];
      var last := b[|b| - 1];
      var tail := if last.Dir? then Below(last) else [];
      NestedFilesConcat(a, prefix);
      assert (a + b)[..|a + b| - 1] == a + prefix;
      assert (a + b)[|a + b| - 1] == last;
      assert NestedFiles(a + b) == NestedFiles(a + prefix) + tail;
      assert NestedFiles(b) == NestedFiles(prefix) + tail;
      AppendAssoc(NestedFiles(a), NestedFiles(prefix), tail);
    }
  }

  /** The zip members in `os.walk` order: the root files, then the files
      below each directory. */
  function ZipMembers(es: seq<Entry>): seq<string>
  {
    RootFiles(es) + NestedFiles(es)
  }

  /** The zip packer's `to_delete`: the root directories, then each root file
      it wrote. */
  function ZipToDelete(es: seq<Entry>): seq<string>
  {
    DirNames(es) + RootFiles(es)
  }

  /** The listing, the archive members and the outcome after packing. */
  datatype Packed = Packed(entries: seq<Entry>, archive: seq<string>, outcome: Outcome)

  /** `_tar_project_files(delete)`: archive every unreserved root entry;
      on success, delete what was archived if asked to. */
  function Tar(es: seq<Entry>, bad: set<string>, delete: bool): Packed
  {
    var listed := Listed(es, PROJECT_TAR);
    var w := Written(TarMembers(listed), bad);
    if w.1.Fail? then Packed(listed, w.0, w.1)
    else Packed(if delete then Deleted(listed, w.0) else listed, w.0, Pass)
  }

  /** `_zip_project_files(delete)`: archive the unreserved root files and
      everything below the root directories; on success, delete the root
      directories and the written root files if asked to. */
  function Zip(es: seq<Entry>, bad: set<string>, delete: bool): Packed
  {
    var listed := Listed(es, PROJECT_ZIP);
    var w := Written(ZipMembers(listed), bad);
    if w.1.Fail? then Packed(listed, w.0, w.1)
    else Packed(if delete then Deleted(listed, ZipToDelete(listed)) else listed, w.0, Pass)
  }

  /** The zip packer in the order its loops run: the root files, then the
      nested files, then the deletion. */
  lemma ZipInSteps(es: seq<Entry>, bad: set<string>, delete: bool)
    ensures var listed := Listed(es, PROJECT_ZIP);
            var root := Written(RootFiles(listed), bad);
            var nested := Written(NestedFiles(listed), bad);
            Zip(es, bad, delete)
            == if root.1.Fail? then Packed(listed, root.0, root.1)
               else if nested.1.Fail? then Packed(listed, root.0 + nested.0, nested.1)
               else Packed(if delete then Deleted(listed, DirNames(listed) + root.0) else listed,
                           root.0 + nested.0, Pass)
  {
    var listed := Listed(es, PROJECT_ZIP);
    WrittenConcat(RootFiles(listed), NestedFiles(listed), bad);
    WrittenSpec(RootFiles(listed), bad);
  }

  // ---------------------------------------------------------------------------
  // Properties of the packers
  // ---------------------------------------------------------------------------

  /** A path without "./" in front names itself. */
  lemma TargetsOfNames(names: seq<string>)
    requires forall i :: 0 <= i < |names| ==> forall j :: 0 <= j < |names[i]| ==> names[i][j] != '/'
    ensures Targets(names) == Elements(names)
  {
    forall p | p in names ensures Target(p) == p {
      var i :| 0 <= i < |names| && names[i] == p;
      assert |p| >= 2 ==> p[..2][1] == p[1];
    }
  }

  /** After a successful tar with deletion, the root names deleted are
      exactly the archived ones, and only the archive and the store are
      left. */
  lemma TarDeletesArchived(es: seq<Entry>, bad: set<string>)
    requires WellFormed(es)
    requires Tar(es, bad, true).outcome.Pass?
    ensures var p := Tar(es, bad, true);
            var before := Elements(Names(Listed(es, PROJECT_TAR)));
            before - Elements(Names(p.entries)) == Elements(p.archive)
            && Elements(Names(p.entries)) <= Reserved(PROJECT_TAR)
            && PROJECT_TAR in Names(p.entries)
  {
    TarPassDeletes(es, bad);
    ListedPlain(es, PROJECT_TAR);
    ListedHasArchive(es, PROJECT_TAR);
    DeletingMembers(Listed(es, PROJECT_TAR));
  }

  /** A successful tar with deletion keeps the listed entries whose names
      were not archived. */
  lemma TarPassDeletes(es: seq<Entry>, bad: set<string>)
    requires Tar(es, bad, true).outcome.Pass?
    ensures Tar(es, bad, true)
            == Packed(Keep(Listed(es, PROJECT_TAR), Targets(TarMembers(Listed(es, PROJECT_TAR)))),
                      TarMembers(Listed(es, PROJECT_TAR)), Pass)
  {
    var listed := Listed(es, PROJECT_TAR);
    var members := TarMembers(listed);
    var w := Written(members, bad);
    assert w.1.Pass?;
    WrittenSpec(members, bad);
    assert w.0 == members;
  }

  /** The listing after opening the archive names the archive. */
  lemma ListedHasArchive(es: seq<Entry>, archiveName: string)
    ensures archiveName in Names(Listed(es, archiveName))
  {
    if archiveName !in Names(es) {
      assert Names(Listed(es, archiveName))[|es|] == archiveName;
    }
  }

  /** Deleting the tar members of a listing leaves the reserved names. */
  lemma DeletingMembers(listed: seq<Entry>)
    requires PlainNames(listed)
    ensures var members := TarMembers(listed);
            var names := Elements(Names(listed));
            var left := Names(Keep(listed, Targets(members)));
            names - Elements(left) == Elements(members) && Elements(left) == names * Reserved(PROJECT_TAR)
            && (PROJECT_TAR in names ==> PROJECT_TAR in left)
  {
    var members := TarMembers(listed);
    var names := Elements(Names(listed));
    TarMembersNames(listed);
    MembersArePlain(listed, members);
    TargetsOfNames(members);
    KeepNames(listed, Elements(members));
    var left := Names(Keep(listed, Targets(members)));
    assert PROJECT_TAR in names ==> PROJECT_TAR in Elements(left);
  }

  /** Each tar member is the name of a root entry, so it has no '/'. */
  lemma MembersArePlain(listed: seq<Entry>, members: seq<string>)
    requires PlainNames(listed)
    requires Elements(members) <= Elements(Names(listed))
    ensures forall i :: 0 <= i < |members| ==> forall j :: 0 <= j < |members[i]| ==> members[i][j] != '/'
  {
    forall i | 0 <= i < |members| ensures forall j :: 0 <= j < |members[i]| ==> members[i][j] != '/' {
      assert members[i] in Elements(members);
      var k :| 0 <= k < |Names(listed)| && Names(listed)[k] == members[i];
    }
  }

  /** Without deletion, the tar packer leaves every root entry in place. */
  lemma TarKeepsWithoutDelete(es: seq<Entry>, bad: set<string>)
    ensures Tar(es, bad, false).entries == Listed(es, PROJECT_TAR)
  {
  }

  /** The zip packer deletes root entries only: every path it deletes names
      a root directory or a root file it wrote, and after success with
      deletion the root holds only the archive and the store. */
  lemma ZipDeletesRootOnly(es: seq<Entry>, bad: set<string>)
    requires WellFormed(es)
    requires Zip(es, bad, true).outcome.Pass?
    ensures var listed := Listed(es, PROJECT_ZIP);
            Targets(ZipToDelete(listed)) <= Elements(Names(listed))
            && forall e :: e in Zip(es, bad, true).entries ==> e.File? && e.name in Reserved(PROJECT_ZIP)
  {
    ListedPlain(es, PROJECT_ZIP);
    KeepsRootOnly(Listed(es, PROJECT_ZIP));
  }

  /** Deleting the root directories and the root files of a listing keeps
      only the reserved files. */
  lemma KeepsRootOnly(listed: seq<Entry>)
    requires PlainNames(listed)
    ensures var gone := Targets(ZipToDelete(listed));
            gone <= Elements(Names(listed))
            && forall e :: e in Keep(listed, gone) ==> e.File? && e.name in Reserved(PROJECT_ZIP)
  {
    var gone := Targets(ZipToDelete(listed));
    DeletesNamesOfListing(listed);
    forall e | e in Keep(listed, gone) ensures e.File? && e.name in Reserved(PROJECT_ZIP) {
      KeepMembers(listed, gone);
      var i :| 0 <= i < |listed| && listed[i] == e;
      DirNamesHas(listed, i);
      RootFilesHas(listed, i);
      NameTarget(listed, i);
      assert Target("./" + e.name) == e.name;
    }
  }

  /** Root names with no '/', as `os.listdir` gives them. */
  predicate PlainNames(es: seq<Entry>)
  {
    forall i :: 0 <= i < |es| ==> es[i].name != "" && forall j :: 0 <= j < |es[i].name| ==> es[i].name[j] != '/'
  }

  lemma ListedPlain(es: seq<Entry>, archiveName: string)
    requires WellFormed(es)
    requires archiveName != "" && forall j :: 0 <= j < |archiveName| ==> archiveName[j] != '/'
    ensures PlainNames(Listed(es, archiveName))
  {
  }

  /** A root name refers to itself. */
  lemma NameTarget(es: seq<Entry>, i: nat)
    requires PlainNames(es) && i < |es|
    ensures Target(es[i].name) == es[i].name
  {
    var n := es[i].name;
    assert |n| >= 2 ==> n[..2][1] == n[1];
  }

  lemma {:induction false} DirNamesHas(es: seq<Entry>, i: nat)
    requires i < |es|
    ensures es[i].Dir? ==> es[i].name in DirNames(es)
  {
    if i < |es| - 1 {
      DirNamesHas(es[..|es| - 1], i);
    }
  }

  lemma {:induction false} RootFilesHas(es: seq<Entry>, i: nat)
    requires i < |es|
    ensures es[i].File? && es[i].name !in Reserved(PROJECT_ZIP) ==> "./" + es[i].name in RootFiles(es)
  {
    if i < |es| - 1 {
      RootFilesHas(es[..|es| - 1], i);
    }
  }

  /** Every path the zip packer deletes refers to a root entry. */
  lemma DeletesNamesOfListing(es: seq<Entry>)
    requires PlainNames(es)
    ensures Targets(ZipToDelete(es)) <= Elements(Names(es))
  {
    forall p | p in ZipToDelete(es) ensures Target(p) in Elements(Names(es)) {
      if p in DirNames(es) {
        DirNameIsName(es, p);
      } else {
        RootFileIsName(es, p);
      }
    }
  }

  lemma {:induction false} DirNameIsName(es: seq<Entry>, p: string)
    requires PlainNames(es)
    requires p in DirNames(es)
    ensures Target(p) in Elements(Names(es))
  {
    var prefix := es[..|es| - 1];
    assert Names(es) == Names(prefix) + [es[|es| - 1].name];
    if p in DirNames(prefix) {
      DirNameIsName(prefix, p);
    } else {
      NameTarget(es, |es| - 1);
    }
  }

  lemma {:induction false} RootFileIsName(es: seq<Entry>, p: string)
    requires p in RootFiles(es)
    ensures Target(p) in Elements(Names(es))
  {
    var prefix := es[..|es| - 1];
    assert Names(es) == Names(prefix) + [es[|es| - 1].name];
    if p in RootFiles(prefix) {
      RootFileIsName(prefix, p);
    } else {
      assert p == "./" + es[|es| - 1].name;
      assert p[..2] == "./" && p[2..] == es[|es| - 1].name;
    }
  }

  // ---------------------------------------------------------------------------
  // The project root and the packers
  // ---------------------------------------------------------------------------

  /** The project root as the packers see it: the process's working
      directory, the root listing, the members of the archive being written,
      and the paths whose archiving raises an OSError. */
  class ProjectRoot {
    var cwd: string
    var entries: seq<Entry>
    var archive: seq<string>
    const unreadable: set<string>

    constructor (cwd: string, entries: seq<Entry>, unreadable: set<string>)
      ensures this.cwd == cwd && this.entries == entries && this.archive == [] && this.unreadable == unreadable
    {
      this.cwd := cwd;
      this.entries := entries;
      this.archive := [];
      this.unreadable := unreadable;
    }

    /** `tar.add(path)` / `zipf.write(path)`. */
    method Add(path: string) returns (r: Outcome)
      modifies this
      ensures r == if path in unreadable then Fail(WriteFailed(path)) else Pass
      ensures archive == old(archive) + (if r.Pass? then [path] else [])
      ensures entries == old(entries) && cwd == old(cwd)
    {
      if path in unreadable {
        return Fail(WriteFailed(path));
      }
      archive := archive + [path];
      return Pass;
    }

    /** Adding several paths, stopping at the first that fails. */
    method AddAll(paths: seq<string>) returns (r: Outcome)
      modifies this
      ensures archive == old(archive) + Written(paths, unreadable).0 && r == Written(paths, unreadable).1
      ensures entries == old(entries) && cwd == old(cwd)
    {
      var i := 0;
      r := Pass;
      while i < |paths|
        invariant 0 <= i <= |paths|
        invariant archive == old(archive) + paths[..i] && Written(paths[..i], unreadable) == (paths[..i], Pass)
        invariant r == Pass
        invariant entries == old(entries) && cwd == old(cwd)
      {
        r := Add(paths[i]);
        if r.Fail? {
          WrittenStops(paths[..i], paths[i], paths[i + 1..], unreadable);
          assert paths == paths[..i] + [paths[i]] + paths[i + 1..];
          return;
        }
        WrittenGrows(paths[..i], paths[i], unreadable);
        assert paths[..i + 1] == paths[..i] + [paths[i]];
        i := i + 1;
      }
      assert paths[..i] == paths;
    }

    /** The deletion loop of both packers: each path takes its entry out of
        the listing. */
    method DeleteAll(toDelete: seq<string>)
      modifies this
      ensures entries == Deleted(old(entries), toDelete)
      ensures archive == old(archive) && cwd == old(cwd)
    {
      KeepNothing(entries);
      assert Targets(toDelete[..0]) == {};
      var i := 0;
      while i < |toDelete|
        invariant 0 <= i <= |toDelete|
        invariant entries == Keep(old(entries), Targets(toDelete[..i]))
        invariant archive == old(archive) && cwd == old(cwd)
      {
        DeletedStep(old(entries), toDelete, i);
        entries := Keep(entries, {Target(toDelete[i])});
        i := i + 1;
      }
      assert toDelete[..i] == toDelete;
    }

    /** The tar loop: add each unreserved root name, in listing order, and
        collect it for deletion. */
    method AddRootEntries(listed: seq<Entry>, delete: bool) returns (r: Outcome, toDelete: seq<string>)
      modifies this
      ensures archive == old(archive) + Written(TarMembers(listed), unreadable).0
      ensures r == Written(TarMembers(listed), unreadable).1
      ensures r.Pass? ==> toDelete == if delete then Written(TarMembers(listed), unreadable).0 else []
      ensures entries == old(entries) && cwd == old(cwd)
    {
      toDelete := [];
      r := Pass;
      ghost var done: seq<string> := [];
      ghost var start := archive;
      assert listed[..0] == [];
      var i := 0;
      while i < |listed|
        invariant 0 <= i <= |listed| && r == Pass
        invariant done == TarMembers(listed[..i])
        invariant archive == start + done
        invariant Written(done, unreadable) == (done, Pass)
        invariant toDelete == if delete then done else []
        invariant entries == old(entries) && cwd == old(cwd)
      {
        var name := listed[i].name;
        if name != PROJECT_TAR && name != STORE_FILENAME {
          assert TarMembers(listed[..i + 1]) == done + [name] by {
            TarMembersStep(listed, i);
          }
          r := Add(name);
          if r.Fail? {
            assert Written(TarMembers(listed), unreadable) == (done, r) by {
              TarMembersAt(listed, i);
              WrittenStops(done, name, TarMembers(listed[i + 1..]), unreadable);
            }
            return;
          }
          assert Written(done + [name], unreadable) == (done + [name], Pass) by {
            WrittenGrows(done, name, unreadable);
          }
          assert archive == start + (done + [name]) by {
            AppendAssoc(start, done, [name]);
          }
          if delete {
            toDelete := toDelete + [name];
          }
          done := done + [name];
        } else {
          assert TarMembers(listed[..i + 1]) == done by {
            TarMembersStep(listed, i);
            assert done + [] == done;
          }
        }
        i := i + 1;
      }
      assert listed[..i] == listed;
    }

    /** `_tar_project_files(delete)`: the working directory is the project
        directory while packing and is restored on every exit. */
    method TarProjectFiles(projectDir: string, delete: bool) returns (r: Outcome)
      modifies this
      ensures cwd == old(cwd)
      ensures Packed(entries, archive, r) == Tar(old(entries), unreadable, delete)
    {
      var orig := cwd;
      cwd := projectDir;
      entries := Listed(entries, PROJECT_TAR);
      archive := [];
      var toDelete;
      r, toDelete := AddRootEntries(entries, delete);
      if r.Pass? && delete {
        DeleteAll(toDelete);
      }
      cwd := orig;
    }

    /** The first step of the zip walk: add each unreserved root file as
        `./name`, in listing order, and collect it for deletion. */
    method AddRootFiles(listed: seq<Entry>, delete: bool) returns (r: Outcome, toDelete: seq<string>)
      modifies this
      ensures archive == old(archive) + Written(RootFiles(listed), unreadable).0
      ensures r == Written(RootFiles(listed), unreadable).1
      ensures r.Pass? ==> toDelete == if delete then Written(RootFiles(listed), unreadable).0 else []
      ensures entries == old(entries) && cwd == old(cwd)
    {
      toDelete := [];
      r := Pass;
      ghost var done: seq<string> := [];
      ghost var start := archive;
      assert listed[..0] == [];
      var i := 0;
      while i < |listed|
        invariant 0 <= i <= |listed| && r == Pass
        invariant done == RootFiles(listed[..i])
        invariant archive == start + done
        invariant Written(done, unreadable) == (done, Pass)
        invariant toDelete == if delete then done else []
        invariant entries == old(entries) && cwd == old(cwd)
      {
        var e := listed[i];
        if e.File? && e.name != PROJECT_ZIP && e.name != STORE_FILENAME {
          var path := "./" + e.name;
          assert RootFiles(listed[..i + 1]) == done + [path] by {
            RootFilesStep(listed, i);
          }
          r := Add(path);
          if r.Fail? {
            assert Written(RootFiles(listed), unreadable) == (done, r) by {
              RootFilesAt(listed, i);
              WrittenStops(done, path, RootFiles(listed[i + 1..]), unreadable);
            }
            return;
          }
          assert Written(done + [path], unreadable) == (done + [path], Pass) by {
            WrittenGrows(done, path, unreadable);
          }
          assert archive == start + (done + [path]) by {
            AppendAssoc(start, done, [path]);
          }
          if delete {
            toDelete := toDelete + [path];
          }
          done := done + [path];
        } else {
          assert RootFiles(listed[..i + 1]) == done by {
            RootFilesStep(listed, i);
            assert done + [] == done;
          }
        }
        i := i + 1;
      }
      assert listed[..i] == listed;
    }

    /** The later steps of the zip walk: add the files below each root
        directory, directory after directory. */
    method AddNestedFiles(listed: seq<Entry>) returns (r: Outcome)
      modifies this
      ensures archive == old(archive) + Written(NestedFiles(listed), unreadable).0
      ensures r == Written(NestedFiles(listed), unreadable).1
      ensures entries == old(entries) && cwd == old(cwd)
    {
      r := Pass;
      var k := 0;
      while k < |listed|
        invariant 0 <= k <= |listed| && r == Pass
        invariant archive == old(archive) + NestedFiles(listed[..k])
        invariant Written(NestedFiles(listed[..k]), unreadable) == (NestedFiles(listed[..k]), Pass)
        invariant entries == old(entries) && cwd == old(cwd)
      {
        ghost var before := archive;
        r := AddDirectory(listed[k]);
        NestedAdvance(listed, k, unreadable);
        AppendAssoc(old(archive), NestedFiles(listed[..k]), DirectoryStep(listed[k], unreadable).0);
        if r.Fail? {
          return;
        }
        k := k + 1;
      }
      assert listed[..k] == listed;
    }

    /** One step of the walk below the root: the files below one root
        directory; a root file adds nothing here. */
    method AddDirectory(e: Entry) returns (r: Outcome)
      modifies this
      ensures archive == old(archive) + DirectoryStep(e, unreadable).0 && r == DirectoryStep(e, unreadable).1
      ensures entries == old(entries) && cwd == old(cwd)
    {
      if e.Dir? {
        r := AddAll(Below(e));
      } else {
        r := Pass;
      }
    }

    /** `_zip_project_files(delete)`: the working directory is the project
        directory while packing and is restored on every exit. */
    method ZipProjectFiles(projectDir: string, delete: bool) returns (r: Outcome)
      modifies this
      ensures cwd == old(cwd)
      ensures Packed(entries, archive, r) == Zip(old(entries), unreadable, delete)
    {
      var orig := cwd;
      cwd := projectDir;
      entries := Listed(entries, PROJECT_ZIP);
      archive := [];
      var listed := entries;
      var dirs := if delete then DirNames(listed) else [];
      var files;
      ZipInSteps(old(entries), unreadable, delete);
      ghost var root := Written(RootFiles(listed), unreadable);
      ghost var nested := Written(NestedFiles(listed), unreadable);
      r, files := AddRootFiles(listed, delete);
      assert archive == root.0 by {
        assert [] + root.0 == root.0;
      }
      if r.Pass? {
        r := AddNestedFiles(listed);
        if r.Pass? && delete {
          DeleteAll(dirs + files);
          assert entries == Deleted(listed, DirNames(listed) + root.0);
        }
      }
      cwd := orig;
    }
  }

  /** Splitting the tar members at an unreserved entry. */
  lemma TarMembersAt(es: seq<Entry>, i: nat)
    requires i < |es| && es[i].name !in Reserved(PROJECT_TAR)
    ensures TarMembers(es) == TarMembers(es[..i]) + [es[i].name] + TarMembers(es[i + 1..])
  {
    SplitAround(es, i);
    TarMembersSplit(es[..i], es[i], es[i + 1..]);
  }

  lemma TarMembersSplit(a: seq<Entry>, e: Entry, b: seq<Entry>)
    requires e.name !in Reserved(PROJECT_TAR)
    ensures TarMembers(a + [e] + b) == TarMembers(a) + [e.name] + TarMembers(b)
  {
    TarMembersConcat(a + [e], b);
    TarMembersConcat(a, [e]);
    assert [e][..0] == [];
  }

  /** Splitting the root files at an unreserved file. */
  lemma RootFilesAt(es: seq<Entry>, i: nat)
    requires i < |es| && es[i].File? && es[i].name !in Reserved(PROJECT_ZIP)
    ensures RootFiles(es) == RootFiles(es[..i]) + ["./" + es[i].name] + RootFiles(es[i + 1..])
  {
    SplitAround(es, i);
    RootFilesSplit(es[..i], es[i], es[i + 1..]);
  }

  /** One more root entry adds its path, if any. */
  lemma TarMembersStep(es: seq<Entry>, i: nat)
    requires i < |es|
    ensures TarMembers(es[..i + 1])
            == TarMembers(es[..i]) + (if es[i].name in Reserved(PROJECT_TAR) then [] else [es[i].name])
  {
    assert es[..i + 1][..i] == es[..i];
  }

  lemma RootFilesStep(es: seq<Entry>, i: nat)
    requires i < |es|
    ensures RootFiles(es[..i + 1]) == RootFiles(es[..i]) + RootFile(es[i])
  {
    assert es[..i + 1][..i] == es[..i];
  }

  lemma RootFilesSplit(a: seq<Entry>, e: Entry, b: seq<Entry>)
    requires e.File? && e.name !in Reserved(PROJECT_ZIP)
    ensures RootFiles(a + [e] + b) == RootFiles(a) + ["./" + e.name] + RootFiles(b)
  {
    RootFilesConcat(a + [e], b);
    RootFilesConcat(a, [e]);
    RootFilesSingle(e);
  }

  lemma RootFilesSingle(e: Entry)
    requires e.File? && e.name !in Reserved(PROJECT_ZIP)
    ensures RootFiles([e]) == ["./" + e.name]
  {
    assert [e][..0] == [];
  }

  /** One round of the nested walk. */
  lemma NestedStep(es: seq<Entry>, k: nat)
    requires k < |es|
    ensures es[k].Dir? ==> NestedFiles(es[..k + 1]) == NestedFiles(es[..k]) + Below(es[k])
    ensures !es[k].Dir? ==> NestedFiles(es[..k + 1]) == NestedFiles(es[..k])
  {
    assert es[..k + 1][..k] == es[..k];
    assert NestedFiles(es[..k]) + [] == NestedFiles(es[..k]);
  }

  /** What the walk below one root entry writes. */
  function DirectoryStep(e: Entry, bad: set<string>): (seq<string>, Outcome)
  {
    if e.Dir? then Written(Below(e), bad) else ([], Pass)
  }

  /** The nested walk after one more root entry: still writing, or stopped
      where the whole walk stops. */
  lemma NestedAdvance(es: seq<Entry>, k: nat, bad: set<string>)
    requires k < |es|
    requires Written(NestedFiles(es[..k]), bad) == (NestedFiles(es[..k]), Pass)
    ensures var step := DirectoryStep(es[k], bad);
            && (step.1.Pass? ==> NestedFiles(es[..k + 1]) == NestedFiles(es[..k]) + step.0
                                 && Written(NestedFiles(es[..k + 1]), bad) == (NestedFiles(es[..k + 1]), Pass))
            && (step.1.Fail? ==> Written(NestedFiles(es), bad) == (NestedFiles(es[..k]) + step.0, step.1))
  {
    NestedStep(es, k);
    if es[k].Dir? {
      if Written(Below(es[k]), bad).1.Fail? {
        NestedStops(es, k, bad);
      } else {
        NestedGrows(NestedFiles(es[..k]), Below(es[k]), bad);
      }
    } else {
      assert NestedFiles(es[..k]) + [] == NestedFiles(es[..k]);
    }
  }

  /** Written nested files followed by a directory whose files are all
      written. */
  lemma NestedGrows(done: seq<string>, below: seq<string>, bad: set<string>)
    requires Written(done, bad) == (done, Pass)
    requires Written(below, bad).1.Pass?
    ensures Written(below, bad).0 == below
    ensures Written(done + below, bad) == (done + below, Pass)
  {
    WrittenSpec(below, bad);
    WrittenConcat(done, below, bad);
  }

  /** A directory whose files fail to be written stops the nested walk. */
  lemma NestedStops(es: seq<Entry>, k: nat, bad: set<string>)
    requires k < |es| && es[k].Dir?
    requires Written(NestedFiles(es[..k]), bad) == (NestedFiles(es[..k]), Pass)
    requires Written(Below(es[k]), bad).1.Fail?
    ensures Written(NestedFiles(es), bad)
            == (NestedFiles(es[..k]) + Written(Below(es[k]), bad).0, Written(Below(es[k]), bad).1)
  {
    var done := NestedFiles(es[..k]);
    NestedFilesAt(es, k);
    WrittenConcat(done, Below(es[k]), bad);
    WrittenConcat(done + Below(es[k]), NestedFiles(es[k + 1..]), bad);
  }

  /** One round of the deletion loop. */
  lemma DeletedStep(es: seq<Entry>, ps: seq<string>, i: nat)
    requires i < |ps|
    ensures Keep(Keep(es, Targets(ps[..i])), {Target(ps[i])}) == Keep(es, Targets(ps[..i + 1]))
  {
    KeepTwice(es, Targets(ps[..i]), {Target(ps[i])});
    assert ps[..i + 1] == ps[..i] + [ps[i]];
    assert Targets(ps[..i + 1]) == Targets(ps[..i]) + {Target(ps[i])};
  }

  /** Splitting the nested files at a directory. */
  lemma NestedFilesAt(es: seq<Entry>, i: nat)
    requires i < |es| && es[i].Dir?
    ensures NestedFiles(es) == NestedFiles(es[..i]) + Below(es[i]) + NestedFiles(es[i + 1..])
  {
    SplitAround(es, i);
    NestedFilesSplit(es[..i], es[i], es[i + 1..]);
  }

  lemma NestedFilesSplit(a: seq<Entry>, e: Entry, b: seq<Entry>)
    requires e.Dir?
    ensures NestedFiles(a + [e] + b) == NestedFiles(a) + Below(e) + NestedFiles(b)
  {
    NestedFilesConcat(a + [e], b);
    NestedFilesConcat(a, [e]);
    assert [e][..0] == [];
    assert NestedFiles([e]) == [] + Below(e);
  }

  lemma {:induction false} RootFilesConcat(a: seq<Entry>, b: seq<Entry>)
    ensures RootFiles(a + b) == RootFiles(a) + RootFiles(b)
  {
    if b == [] {
      assert a + b == a;
      assert RootFiles(a) + [] == RootFiles(a);
    } else {
      var prefix := b[..|b| - 1];
      var last := b[|b| - 1];
      var tail := if last.File? && last.name !in Reserved(PROJECT_ZIP) then ["./" + last.name] else [];
      RootFilesConcat(a, prefix);
      assert (a + b)[..|a + b| - 1] == a + prefix;
      assert (a + b)[|a + b| - 1] == last;
      assert RootFiles(a + b) == RootFiles(a + prefix) + tail;
      assert RootFiles(b) == RootFiles(prefix) + tail;
      AppendAssoc(RootFiles(a), RootFiles(prefix), tail);
    }
  }
}
