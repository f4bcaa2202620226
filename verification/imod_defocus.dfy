/** tomo_write_imod_defocus: the CTF star file is split into one group of
    rows per micrograph folder, each IMOD folder (found through its .edf
    file) is matched with its group, and the version-3 defocus lines order
    the two defocus values so that the lower one comes first. Star-file rows
    are records with the fields these steps use; the .xf rotation angle of
    each tilt is given as a number. */
module ImodDefocus {
  import opened Wrappers
  import opened PyText

  /** A row of the CTF star file. */
  datatype Row = Row(micrographName: string, defocusU: real, defocusV: real, defocusAngle: real)

  /** The folder key of a micrograph: its dirname, or '.' when that is empty. */
  function FolderOf(micrographName: string): (folder: string)
    ensures folder != ""
  {
    var d := Dirname(micrographName);
    if d != "" then d else "."
  }

  // -------------------------------------------------------- split_by_folder

  function RowFolder(row: Row): string
  {
    FolderOf(row.micrographName)
  }

  /** A maximal run of consecutive rows sharing a folder. */
  datatype Group = Group(folder: string, rows: seq<Row>)

  /** The runs of consecutive rows with the same key, in file order; the
      key of a star-file row is RowFolder. */
  function Runs(rows: seq<Row>, key: Row -> string): (runs: seq<Group>)
    ensures |runs| == 0 <==> |rows| == 0
  {
    if rows == [] then []
    else
      var init, last := rows[..|rows| - 1], rows[|rows| - 1];
      var folder := key(last);
      var r := Runs(init, key);
      if r != [] && r[|r| - 1].folder == folder then
        r[..|r| - 1] + [Group(folder, r[|r| - 1].rows + [last])]
      else r + [Group(folder, [last])]
  }

  /** Storing the groups one after the other in a dict: a folder stored again
      replaces what was stored for it before. */
  function StoreGroups(groups: seq<Group>): map<string, seq<Row>>
  {
    if groups == [] then map[]
    else
      var last := groups[|groups| - 1];
      StoreGroups(groups[..|groups| - 1])[last.folder := last.rows]
  }

  /** split_by_folder: walks the rows, closing the current group (and storing
      it under its folder) each time the folder changes, and stores the last
      group at the end. It reads the first row, so the star file must not be
      empty. */
  method SplitByFolder(rows: seq<Row>) returns (groups: map<string, seq<Row>>)
    requires |rows| > 0
    ensures groups == StoreGroups(Runs(rows, RowFolder))
  {
    var currentDir := RowFolder(rows[0]);
    var temp: seq<Row> := [];
    groups := map[];
    for i := 0 to |rows|
      invariant (currentDir, temp, groups) == Walk(rows[..i], rows[0], RowFolder)
    {
      var folder := RowFolder(rows[i]);
      assert rows[..i + 1][..i] == rows[..i];
      if folder == currentDir {
        temp := temp + [rows[i]];
      } else {
        groups := groups[currentDir := temp];
        currentDir := folder;
        temp := [rows[i]];
      }
    }
    assert rows[..|rows|] == rows;
    WalkFollowsRuns(rows, rows[0], RowFolder);
    CloseWalk(Runs(rows, RowFolder), currentDir, temp, groups);
    groups := groups[currentDir := temp];
  }

  /** The state of split_by_folder's walk after the rows `done`: the current
      folder, the group being filled, and the groups stored so far. */
  ghost function Walk(done: seq<Row>, first: Row, key: Row -> string): (string, seq<Row>, map<string, seq<Row>>)
  {
    if done == [] then (key(first), [], map[])
    else
      var (currentDir, temp, groups) := Walk(done[..|done| - 1], first, key);
      var row := done[|done| - 1];
      if key(row) == currentDir then (currentDir, temp + [row], groups)
      else (key(row), [row], groups[currentDir := temp])
  }

  /** The state of the walk in terms of the runs: the last run is the group
      being filled, and all earlier runs have been stored. */
  predicate OpenRun(runs: seq<Group>, currentDir: string, temp: seq<Row>, groups: map<string, seq<Row>>)
  {
    runs != [] && runs[|runs| - 1] == Group(currentDir, temp) && groups == StoreGroups(runs[..|runs| - 1])
  }

  lemma {:induction false} WalkFollowsRuns(done: seq<Row>, first: Row, key: Row -> string)
    requires done != [] && done[0] == first
    ensures var (currentDir, temp, groups) := Walk(done, first, key);
      OpenRun(Runs(done, key), currentDir, temp, groups)
  {
    var init, row := done[..|done| - 1], done[|done| - 1];
    if init != [] {
      WalkFollowsRuns(init, first, key);
      var r := Runs(init, key);
      var g := Group(key(row), [row]);
      assert (r + [g])[..|r|] == r;
      assert r[..|r| - 1] + [r[|r| - 1]] == r;
    }
  }

  /** Storing the open group at the end gives every run stored in order. */
  lemma CloseWalk(runs: seq<Group>, currentDir: string, temp: seq<Row>, groups: map<string, seq<Row>>)
    requires OpenRun(runs, currentDir, temp, groups)
    ensures groups[currentDir := temp] == StoreGroups(runs)
  {
  }

  /** The rows of the groups, one group after the other. */
  function Flatten(groups: seq<Group>): seq<Row>
  {
    if groups == [] then [] else Flatten(groups[..|groups| - 1]) + groups[|groups| - 1].rows
  }

  /** A group is non-empty and holds only rows of its own folder. */
  predicate Homogeneous(g: Group, key: Row -> string)
  {
    |g.rows| > 0 && forall j :: 0 <= j < |g.rows| ==> key(g.rows[j]) == g.folder
  }

  /** The runs, read one after the other, give back the rows in their order. */
  lemma {:induction false} RunsCoverRows(rows: seq<Row>, key: Row -> string)
    ensures Flatten(Runs(rows, key)) == rows
  {
    if rows != [] {
      var init, last := rows[..|rows| - 1], rows[|rows| - 1];
      RunsCoverRows(init, key);
      var r := Runs(init, key);
      if r != [] && r[|r| - 1].folder == key(last) {
        var front := r[..|r| - 1];
        assert r == front + [r[|r| - 1]];
        assert Flatten(r) == Flatten(front) + r[|r| - 1].rows;
        var g := Group(key(last), r[|r| - 1].rows + [last]);
        assert (front + [g])[..|front|] == front;
      } else {
        assert (r + [Group(key(last), [last])])[..|r|] == r;
      }
      assert init + [last] == rows;
    }
  }

  /** Every run is non-empty and holds rows of one folder. */
  lemma {:induction false} RunsAreHomogeneous(rows: seq<Row>, key: Row -> string)
    ensures forall k :: 0 <= k < |Runs(rows, key)| ==> Homogeneous(Runs(rows, key)[k], key)
  {
    if rows != [] {
      var init, last := rows[..|rows| - 1], rows[|rows| - 1];
      RunsAreHomogeneous(init, key);
      var r := Runs(init, key);
      if r != [] && r[|r| - 1].folder == key(last) {
        var g := r[|r| - 1];
        assert Homogeneous(g, key);
        assert Homogeneous(Group(g.folder, g.rows + [last]), key);
      }
    }
  }

  /** Runs are maximal: neighbouring runs have different folders. */
  lemma {:induction false} RunsAreMaximal(rows: seq<Row>, key: Row -> string)
    ensures forall k :: 0 <= k < |Runs(rows, key)| - 1 ==> Runs(rows, key)[k].folder != Runs(rows, key)[k + 1].folder
  {
    if rows != [] {
      RunsAreMaximal(rows[..|rows| - 1], key);
    }
  }

  /** Each folder maps to the last group stored for it. */
  lemma {:induction false} LastGroupWins(groups: seq<Group>, k: nat)
    requires k < |groups|
    requires forall j :: k < j < |groups| ==> groups[j].folder != groups[k].folder
    ensures groups[k].folder in StoreGroups(groups)
    ensures StoreGroups(groups)[groups[k].folder] == groups[k].rows
  {
    if k < |groups| - 1 {
      LastGroupWins(groups[..|groups| - 1], k);
    }
  }

  /** The folders stored are exactly those of the groups. */
  lemma {:induction false} StoredFolders(groups: seq<Group>, folder: string)
    ensures folder in StoreGroups(groups) <==> exists k :: 0 <= k < |groups| && groups[k].folder == folder
  {
    if groups != [] {
      var init := groups[..|groups| - 1];
      StoredFolders(init, folder);
      if folder in StoreGroups(init) {
        var k :| 0 <= k < |init| && init[k].folder == folder;
        assert groups[k].folder == folder;
      }
      if exists k :: 0 <= k < |groups| && groups[k].folder == folder {
        var k :| 0 <= k < |groups| && groups[k].folder == folder;
        if k < |init| {
          assert init[k].folder == folder;
        }
      }
    }
  }

  /** Whatever is stored for a folder is one of the groups of that folder. */
  lemma {:induction false} StoredGroupIsAGroup(groups: seq<Group>, folder: string)
    requires folder in StoreGroups(groups)
    ensures exists k :: 0 <= k < |groups| && groups[k] == Group(folder, StoreGroups(groups)[folder])
  {
    var init, last := groups[..|groups| - 1], groups[|groups| - 1];
    if last.folder != folder {
      StoredGroupIsAGroup(init, folder);
      var k :| 0 <= k < |init| && init[k] == Group(folder, StoreGroups(init)[folder]);
      assert groups[k] == init[k];
    } else {
      assert groups[|groups| - 1] == Group(folder, StoreGroups(groups)[folder]);
    }
  }

  /** What split_by_folder returns: the keys are the folders of the rows, and
      every group holds only rows of its key, and at least one. */
  lemma SplitByFolderGroups(rows: seq<Row>, folder: string)
    ensures var groups := StoreGroups(Runs(rows, RowFolder));
      && (folder in groups <==> exists k :: 0 <= k < |Runs(rows, RowFolder)| && Runs(rows, RowFolder)[k].folder == folder)
      && (folder in groups ==> Homogeneous(Group(folder, groups[folder]), RowFolder))
  {
    var r := Runs(rows, RowFolder);
    StoredFolders(r, folder);
    RunsAreHomogeneous(rows, RowFolder);
    if folder in StoreGroups(r) {
      StoredGroupIsAGroup(r, folder);
    }
  }

  // ---------------------------------------------------- get_imod_file_root

  /** get_imod_file_root: the tomogram name (basename of the folder when none
      is given), under the folder unless the folder is empty. */
  function GetImodFileRoot(tomoName: Option<string>, imodFolder: string): string
  {
    var name := if tomoName.None? then Basename(imodFolder) else tomoName.value;
    if imodFolder == "" then name else imodFolder + "/" + name
  }

  /** dirname and basename take the root apart again: the name is the
      basename, and the folder, unless empty or ending in '/', the dirname. */
  lemma ImodFileRootParts(tomoName: Option<string>, imodFolder: string)
    requires tomoName.Some? ==> '/' !in tomoName.value
    ensures var name := if tomoName.None? then Basename(imodFolder) else tomoName.value;
      var root := GetImodFileRoot(tomoName, imodFolder);
      && Basename(root) == name
      && (imodFolder == "" ==> root == name)
      && (imodFolder != "" && imodFolder[|imodFolder| - 1] != '/' ==> Dirname(root) == imodFolder)
  {
    var name := if tomoName.None? then Basename(imodFolder) else tomoName.value;
    if imodFolder == "" {
      assert RFind(name, '/') == -1;
      assert name[0..] == name;
    } else {
      JoinedBasename(imodFolder, name);
      if imodFolder[|imodFolder| - 1] != '/' {
        JoinedDirname(imodFolder, name);
      }
    }
  }

  lemma JoinedBasename(folder: string, name: string)
    requires folder != "" && '/' !in name
    ensures RFind(folder + "/" + name, '/') == |folder|
    ensures Basename(folder + "/" + name) == name
  {
    var root := folder + "/" + name;
    var n := |folder|;
    assert root[n] == '/';
    assert forall j :: n < j < |root| ==> root[j] == name[j - n - 1];
    assert root[n + 1..] == name;
  }

  lemma JoinedDirname(folder: string, name: string)
    requires folder != "" && folder[|folder| - 1] != '/' && '/' !in name
    ensures Dirname(folder + "/" + name) == folder
  {
    var root := folder + "/" + name;
    var n := |folder|;
    JoinedBasename(folder, name);
    var head := root[..n + 1];
    assert head == folder + "/";
    assert head[n - 1] != '/';
    assert head[..n] == folder;
    assert RStripChar(head, '/') == RStripChar(folder, '/');
  }

  // --------------------------------------------------- version-3 defocus

  /** One line of an IMOD version-3 defocus file. */
  datatype DefocusLine = DefocusLine(firstView: nat, lastView: nat, firstTilt: real, lastTilt: real,
                                     defocusU: real, defocusV: real, angle: real)

  /** A version-3 line for view `view` as write_imod_defocus_file writes it
      from a star-file row, its tilt and the .xf rotation: the defocus values
      in nm with the lower one first, the angle turned by the rotation and,
      when the two values had to be swapped, by -90 degrees. */
  predicate OrderedDefocusLine(line: DefocusLine, view: nat, row: Row, tilt: real, rotation: real)
  {
    var u, v := row.defocusU / 10.0, row.defocusV / 10.0;
    && line.firstView == line.lastView == view
    && line.firstTilt == line.lastTilt == tilt
    && line.defocusU <= line.defocusV
    && multiset{line.defocusU, line.defocusV} == multiset{u, v}
    && line.angle == row.defocusAngle + rotation - (if row.defocusU > row.defocusV then 90.0 else 0.0)
  }

  /** The version-3 lines of write_imod_defocus_file over zip(md, tilt_list,
      transform_list). */
  method Version3Lines(rows: seq<Row>, tilts: seq<real>, rotations: seq<real>) returns (lines: seq<DefocusLine>)
    ensures |lines| == Min3(|rows|, |tilts|, |rotations|)
    ensures forall i :: 0 <= i < |lines| ==> OrderedDefocusLine(lines[i], i + 1, rows[i], tilts[i], rotations[i])
  {
    var n := Min3(|rows|, |tilts|, |rotations|);
    lines := [];
    for i := 0 to n
      invariant |lines| == i
      invariant forall k :: 0 <= k < i ==> OrderedDefocusLine(lines[k], k + 1, rows[k], tilts[k], rotations[k])
    {
      var defocusU := rows[i].defocusU / 10.0;
      var defocusV := rows[i].defocusV / 10.0;
      var defocusAng := rows[i].defocusAngle + rotations[i];
      if defocusU > defocusV {
        var tempV := defocusU;
        defocusU := defocusV;
        defocusV := tempV;
        defocusAng := defocusAng - 90.0;
      }
      var line := DefocusLine(i + 1, i + 1, tilts[i], tilts[i], defocusU, defocusV, defocusAng);
      assert OrderedDefocusLine(line, i + 1, rows[i], tilts[i], rotations[i]);
      lines := lines + [line];
    }
  }

  /** The line is unique: the ordering of the two values and the angle are
      fixed by the row, so two lines for the same inputs are equal. */
  lemma OrderedDefocusLineUnique(a: DefocusLine, b: DefocusLine, view: nat, row: Row, tilt: real, rotation: real)
    requires OrderedDefocusLine(a, view, row, tilt, rotation) && OrderedDefocusLine(b, view, row, tilt, rotation)
    ensures a == b
  {
    var u, v := row.defocusU / 10.0, row.defocusV / 10.0;
    MinMaxOfPair(a.defocusU, a.defocusV, u, v);
    MinMaxOfPair(b.defocusU, b.defocusV, u, v);
  }

  lemma MinMaxOfPair(x: real, y: real, u: real, v: real)
    requires x <= y && multiset{x, y} == multiset{u, v}
    ensures x == (if u <= v then u else v) && y == (if u <= v then v else u)
  {
    assert x in multiset{u, v} && y in multiset{u, v};
    if x == u {
      assert multiset{y} == multiset{x, y} - multiset{x} == multiset{v};
    } else {
      assert x == v;
      assert multiset{y} == multiset{x, y} - multiset{x} == multiset{u};
    }
  }

  function Min3(a: nat, b: nat, c: nat): nat
  {
    if a <= b && a <= c then a else if b <= c then b else c
  }

  // ------------------------------------------------------------------ main

  /** edf_folders as main builds them: the dirname of each .edf file, with
      [''] alone replaced by ['.']. */
  function EdfFolders(edfPaths: seq<string>): (folders: seq<string>)
    ensures |folders| == |edfPaths|
  {
    var folders := seq(|edfPaths|, i requires 0 <= i < |edfPaths| => Dirname(edfPaths[i]));
    if folders == [""] then ["."] else folders
  }

  /** The same list with every empty dirname keyed '.', the convention of
      split_by_folder. */
  function EdfFoldersKeyed(edfPaths: seq<string>): (folders: seq<string>)
    ensures |folders| == |edfPaths|
  {
    seq(|edfPaths|, i requires 0 <= i < |edfPaths| => FolderOf(edfPaths[i]))
  }

  /** edf_names: the file names without their extension. */
  function EdfNames(edfPaths: seq<string>): (names: seq<string>)
    ensures |names| == |edfPaths|
  {
    seq(|edfPaths|, i requires 0 <= i < |edfPaths| => SplitExt(Basename(edfPaths[i])).0)
  }

  /** A group of star-file rows matched with an IMOD folder and name. */
  datatype Job = Job(folder: string, name: string, rows: seq<Row>)

  /** The folders of main's loop that have a group, with their names and
      groups, in order; the others are reported and skipped. */
  function FoundJobs(folders: seq<string>, names: seq<string>, groups: map<string, seq<Row>>): seq<Job>
    requires |folders| == |names|
  {
    if folders == [] then []
    else
      var n := |folders| - 1;
      var earlier := FoundJobs(folders[..n], names[..n], groups);
      if folders[n] in groups then earlier + [Job(folders[n], names[n], groups[folders[n]])] else earlier
  }

  /** main's loop over zip(edf_folders, edf_names): looks each folder up in
      the groups of split_by_folder and skips the ones not found. */
  method DefocusJobs(edfPaths: seq<string>, groups: map<string, seq<Row>>) returns (jobs: seq<Job>)
    ensures jobs == FoundJobs(EdfFolders(edfPaths), EdfNames(edfPaths), groups)
  {
    jobs := LookUpFolders(EdfFolders(edfPaths), EdfNames(edfPaths), groups);
  }

  /** The same loop with every folder keyed as split_by_folder keys its
      groups, the repair of the [''] special case (EdfFoldersKeyed). */
  method DefocusJobsKeyed(edfPaths: seq<string>, groups: map<string, seq<Row>>) returns (jobs: seq<Job>)
    ensures jobs == FoundJobs(EdfFoldersKeyed(edfPaths), EdfNames(edfPaths), groups)
  {
    jobs := LookUpFolders(EdfFoldersKeyed(edfPaths), EdfNames(edfPaths), groups);
  }

  /** The loop itself, over the folder and name lists. */
  method LookUpFolders(folders: seq<string>, names: seq<string>, groups: map<string, seq<Row>>) returns (jobs: seq<Job>)
    requires |folders| == |names|
    ensures jobs == FoundJobs(folders, names, groups)
  {
    jobs := [];
    for i := 0 to |folders|
      invariant jobs == FoundJobs(folders[..i], names[..i], groups)
    {
      assert folders[..i + 1][..i] == folders[..i] && names[..i + 1][..i] == names[..i];
      if folders[i] !in groups {
        continue;
      }
      jobs := jobs + [Job(folders[i], names[i], groups[folders[i]])];
    }
    assert folders[..|folders|] == folders && names[..|names|] == names;
  }

  /** Every job carries the group stored for its folder and comes from a
      (folder, name) pair of the loop; every folder with a stored group
      gives its job. */
  lemma {:induction false} FoundJobsMatchGroups(folders: seq<string>, names: seq<string>,
                                                groups: map<string, seq<Row>>)
    requires |folders| == |names|
    ensures forall job :: job in FoundJobs(folders, names, groups) ==>
      && job.folder in groups && job.rows == groups[job.folder]
      && exists i :: 0 <= i < |folders| && folders[i] == job.folder && names[i] == job.name
    ensures forall i :: 0 <= i < |folders| && folders[i] in groups ==>
      Job(folders[i], names[i], groups[folders[i]]) in FoundJobs(folders, names, groups)
  {
    if folders != [] {
      var n := |folders| - 1;
      var jobs := FoundJobs(folders, names, groups);
      var earlier := FoundJobs(folders[..n], names[..n], groups);
      FoundJobsMatchGroups(folders[..n], names[..n], groups);
      forall job | job in jobs
        ensures exists i :: 0 <= i < |folders| && folders[i] == job.folder && names[i] == job.name
      {
        if job in earlier {
          var i :| 0 <= i < n && folders[..n][i] == job.folder && names[..n][i] == job.name;
          assert folders[i] == job.folder && names[i] == job.name;
        } else {
          assert folders[n] == job.folder && names[n] == job.name;
        }
      }
      forall i | 0 <= i < n && folders[i] in groups
        ensures Job(folders[i], names[i], groups[folders[i]]) in jobs
      {
        assert folders[..n][i] == folders[i] && names[..n][i] == names[i];
      }
    }
  }

  /** The keys of split_by_folder are never empty. */
  lemma NoEmptyKey(rows: seq<Row>)
    ensures "" !in StoreGroups(Runs(rows, RowFolder))
  {
    SplitByFolderGroups(rows, "");
  }

  lemma DirnameWithoutSeparator(p: string)
    requires '/' !in p
    ensures Dirname(p) == ""
  {
    assert RFind(p, '/') == -1;
  }

  /** As written, an .edf file in the working directory next to others
      elsewhere keeps the folder '' and is never found, whatever the star
      file holds. */
  lemma TopLevelEdfSkipped(rows: seq<Row>)
    ensures EdfFolders(["x.edf", "sub/y.edf"])[0] == ""
    ensures FoundJobs(EdfFolders(["x.edf", "sub/y.edf"])[..1], EdfNames(["x.edf", "sub/y.edf"])[..1],
                      StoreGroups(Runs(rows, RowFolder))) == []
  {
    DirnameWithoutSeparator("x.edf");
    NoEmptyKey(rows);
    var folders := EdfFolders(["x.edf", "sub/y.edf"]);
    assert folders[..1] == [""];
    var names := EdfNames(["x.edf", "sub/y.edf"])[..1];
    assert folders[..1][..0] == [] && names[..0] == [];
  }

  /** Keyed the way split_by_folder keys its groups, each .edf folder is
      found whenever the star file has a row of a micrograph in the same
      directory; the two lists differ only where a dirname is empty. */
  lemma KeyedFoldersFound(edfPaths: seq<string>, rows: seq<Row>, i: nat, j: nat)
    requires i < |edfPaths| && j < |rows|
    requires Dirname(rows[j].micrographName) == Dirname(edfPaths[i])
    ensures EdfFoldersKeyed(edfPaths)[i] in StoreGroups(Runs(rows, RowFolder))
    ensures Dirname(edfPaths[i]) != "" ==> EdfFoldersKeyed(edfPaths)[i] == EdfFolders(edfPaths)[i]
  {
    var key := RowFolder(rows[j]);
    assert EdfFoldersKeyed(edfPaths)[i] == FolderOf(edfPaths[i]) == key;
    RowInSomeRun(rows, RowFolder, j);
    SplitByFolderGroups(rows, key);
    if Dirname(edfPaths[i]) != "" {
      EdfFoldersAt(edfPaths, i);
    }
  }

  /** As written, an .edf file whose directory holds a micrograph of the
      star file gets its job exactly when its dirname is not empty or it is
      the only .edf file; otherwise no job names its folder. */
  lemma WrittenJobFound(edfPaths: seq<string>, rows: seq<Row>, i: nat, j: nat)
    requires i < |edfPaths| && j < |rows|
    requires Dirname(rows[j].micrographName) == Dirname(edfPaths[i])
    ensures var groups, folders, names := StoreGroups(Runs(rows, RowFolder)), EdfFolders(edfPaths), EdfNames(edfPaths);
      && (folders[i] in groups <==> Dirname(edfPaths[i]) != "" || |edfPaths| == 1)
      && (folders[i] in groups ==> Job(folders[i], names[i], groups[folders[i]]) in FoundJobs(folders, names, groups))
      && (folders[i] !in groups ==> forall job :: job in FoundJobs(folders, names, groups) ==> job.folder != folders[i])
  {
    var groups, folders, names := StoreGroups(Runs(rows, RowFolder)), EdfFolders(edfPaths), EdfNames(edfPaths);
    KeyedFoldersFound(edfPaths, rows, i, j);
    if Dirname(edfPaths[i]) == "" {
      if |edfPaths| == 1 {
        EdfFoldersAgree(edfPaths);
      } else {
        var raw := seq(|edfPaths|, k requires 0 <= k < |edfPaths| => Dirname(edfPaths[k]));
        assert |raw| != 1;
        assert folders[i] == raw[i] == "";
        NoEmptyKey(rows);
      }
    }
    FoundJobsMatchGroups(folders, names, groups);
  }

  /** Repaired, every .edf file whose directory holds a micrograph of the
      star file gets its job, with the rows stored for that directory. */
  lemma KeyedJobFound(edfPaths: seq<string>, rows: seq<Row>, i: nat, j: nat)
    requires i < |edfPaths| && j < |rows|
    requires Dirname(rows[j].micrographName) == Dirname(edfPaths[i])
    ensures var groups, folders, names := StoreGroups(Runs(rows, RowFolder)), EdfFoldersKeyed(edfPaths), EdfNames(edfPaths);
      folders[i] in groups && Job(folders[i], names[i], groups[folders[i]]) in FoundJobs(folders, names, groups)
  {
    KeyedFoldersFound(edfPaths, rows, i, j);
    FoundJobsMatchGroups(EdfFoldersKeyed(edfPaths), EdfNames(edfPaths), StoreGroups(Runs(rows, RowFolder)));
  }

  lemma EdfFoldersAt(edfPaths: seq<string>, i: nat)
    requires i < |edfPaths| && Dirname(edfPaths[i]) != ""
    ensures EdfFolders(edfPaths)[i] == Dirname(edfPaths[i])
  {
    var folders := seq(|edfPaths|, k requires 0 <= k < |edfPaths| => Dirname(edfPaths[k]));
    assert folders[i] != "";
  }

  /** The keyed folders are the folders of the code as written whenever that
      code's special case covers every empty dirname: a single .edf file, or
      no .edf file in the working directory. */
  lemma EdfFoldersAgree(edfPaths: seq<string>)
    requires |edfPaths| == 1 || forall i :: 0 <= i < |edfPaths| ==> Dirname(edfPaths[i]) != ""
    ensures EdfFoldersKeyed(edfPaths) == EdfFolders(edfPaths)
  {
    var folders := seq(|edfPaths|, i requires 0 <= i < |edfPaths| => Dirname(edfPaths[i]));
    if |edfPaths| == 1 {
      if folders[0] == "" {
        assert folders == [""];
      } else {
        assert folders != [""];
      }
    } else {
      assert folders != [""];
    }
  }

  /** A folder whose run is interrupted by another folder keeps only its
      last run: the first row is lost from the groups. */
  lemma ReappearingFolderOverwrites(a: Row, b: Row, c: Row, key: Row -> string)
    requires key(a) == key(c) != key(b)
    ensures StoreGroups(Runs([a, b, c], key)) == map[key(a) := [c], key(b) := [b]]
  {
    var r := [Group(key(a), [a]), Group(key(b), [b]), Group(key(c), [c])];
    RunsOfThree(a, b, c, key);
    assert r[..2] == [Group(key(a), [a]), Group(key(b), [b])];
    assert r[..2][..1] == [Group(key(a), [a])];
    assert r[..2][..1][..0] == [];
    assert StoreGroups(r[..2][..1]) == map[key(a) := [a]];
    assert StoreGroups(r[..2]) == map[key(a) := [a], key(b) := [b]];
  }

  lemma RunsOfThree(a: Row, b: Row, c: Row, key: Row -> string)
    requires key(a) == key(c) != key(b)
    ensures Runs([a, b, c], key) == [Group(key(a), [a]), Group(key(b), [b]), Group(key(c), [c])]
  {
    assert [a, b, c][..2] == [a, b];
    assert [a, b][..1] == [a];
    assert [a][..0] == [];
    assert Runs([a], key) == [Group(key(a), [a])];
    assert Runs([a, b], key) == [Group(key(a), [a]), Group(key(b), [b])];
  }

  /** Every row lies in a run of its own key. */
  lemma {:induction false} RowInSomeRun(rows: seq<Row>, key: Row -> string, j: nat)
    requires j < |rows|
    ensures exists k :: 0 <= k < |Runs(rows, key)| && Runs(rows, key)[k].folder == key(rows[j])
  {
    var init, last := rows[..|rows| - 1], rows[|rows| - 1];
    var r := Runs(init, key);
    if j < |init| {
      RowInSomeRun(init, key, j);
      var k :| 0 <= k < |r| && r[k].folder == key(init[j]);
      assert init[j] == rows[j];
      if r[|r| - 1].folder == key(last) {
        if k < |r| - 1 {
          assert Runs(rows, key)[k] == r[k];
        } else {
          assert Runs(rows, key)[k].folder == key(last);
        }
      } else {
        assert Runs(rows, key)[k] == r[k];
      }
    } else {
      assert Runs(rows, key)[|Runs(rows, key)| - 1].folder == key(last);
    }
  }
}
