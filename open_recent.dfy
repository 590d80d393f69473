/**
 * The recent-files list of the text editor: a most-recently-used list of file
 * paths kept twice, as the rows of a UI collection (`recent_list`, with the
 * selected row `recent_list_index`) and as the lines of `open_recent.txt`.
 *
 * The file is a sequence of written lines (each written as the path followed by
 * a newline; the newline is not part of the element) or `None` when the file
 * does not exist. Reading it back (`readlines` and `strip`) gives `ReadPaths`.
 * Whether a path names an existing file is an oracle passed in by the caller.
 */
module OpenRecent {
  import opened Common
  import opened PyStr
  import opened Lists

  /** An escaping Python exception. */
  datatype Raised = IndexError | NameError

  /** What an operator returns: `{'FINISHED'}`, `{'CANCELLED'}`, or an exception. */
  datatype Status = Finished | Cancelled | Failed(error: Raised)

  /** Paths read back from the file: every line stripped; nothing when the file is absent. */
  function ReadPaths(file: Option<seq<string>>): (r: seq<string>)
    ensures file.None? ==> r == []
    ensures file.Some? ==> |r| == |file.value| && forall i :: 0 <= i < |r| ==> r[i] == Strip(file.value[i])
  {
    match file
    case None => []
    case Some(lines) => seq(|lines|, i requires 0 <= i < |lines| => Strip(lines[i]))
  }

  /** The rows `update_list`/`load_list` build from the file's lines: the distinct
      lines in order of first occurrence, each stripped. */
  function Loaded(lines: seq<string>): seq<string> {
    ReadPaths(Some(Dedup(lines)))
  }

  /** Loading a file whose lines are already stripped gives rows without duplicates,
      holding exactly the paths of the file. */
  lemma LoadedSpec(lines: seq<string>)
    requires forall i :: 0 <= i < |lines| ==> Strip(lines[i]) == lines[i]
    ensures Loaded(lines) == Dedup(lines)
    ensures NoDups(Loaded(lines))
    ensures forall p :: p in Loaded(lines) <==> p in lines
  {
    DedupSpec(lines);
    var d := Dedup(lines);
    forall i | 0 <= i < |d| ensures Strip(d[i]) == d[i] {
      assert d[i] in lines;
    }
  }

  /** Duplicates are removed before stripping, so lines differing only in surrounding
      whitespace load as two equal rows. */
  lemma LoadedStrippedTwins()
    ensures Loaded(["a", "a "]) == ["a", "a"]
  {
    var lines := ["a", "a "];
    assert lines[0] != lines[1];
    DedupSpec(lines);
    assert Dedup(lines) == lines;
    assert RStrip("a ") == "a";
    assert Strip("a ") == "a";
  }

  /** The list after opening `p`: every copy of `p` filtered out, then `p` put first. */
  function MoveToFront(paths: seq<string>, p: string): seq<string> {
    [p] + Without(paths, p)
  }

  /** Opening puts the path first, exactly once, and keeps every other path with its
      multiplicity and relative order. */
  lemma MoveToFrontSpec(paths: seq<string>, p: string)
    ensures MoveToFront(paths, p)[0] == p
    ensures multiset(MoveToFront(paths, p))[p] == 1
    ensures forall q :: q != p ==> multiset(MoveToFront(paths, p))[q] == multiset(paths)[q]
    ensures Without(MoveToFront(paths, p), p) == Without(paths, p)
  {
    WithoutSpec(paths, p);
    WithoutAbsent(Without(paths, p), p);
  }

  /** The list after opening several files in order: each one moved to the front in turn. */
  function FrontAll(paths: seq<string>, chosen: seq<string>): seq<string>
    decreases |chosen|
  {
    if |chosen| == 0 then paths
    else MoveToFront(FrontAll(paths, chosen[..|chosen| - 1]), chosen[|chosen| - 1])
  }

  /** After opening several files, the last one chosen is first. */
  lemma FrontAllHead(paths: seq<string>, chosen: seq<string>)
    requires |chosen| > 0
    ensures |FrontAll(paths, chosen)| > 0 && FrontAll(paths, chosen)[0] == chosen[|chosen| - 1]
  {
  }

  /** How often one path occurs after opening `p`. */
  lemma MoveToFrontCount(paths: seq<string>, p: string, q: string)
    ensures multiset(MoveToFront(paths, p))[q] == if q == p then 1 else multiset(paths)[q]
  {
    MoveToFrontSpec(paths, p);
  }

  /** After opening several files, every chosen path appears exactly once. */
  lemma {:induction false} FrontAllOnce(paths: seq<string>, chosen: seq<string>, q: string)
    requires q in chosen
    ensures multiset(FrontAll(paths, chosen))[q] == 1
    decreases |chosen|
  {
    var n := |chosen| - 1;
    var prev := FrontAll(paths, chosen[..n]);
    assert FrontAll(paths, chosen) == MoveToFront(prev, chosen[n]);
    MoveToFrontCount(prev, chosen[n], q);
    if q != chosen[n] {
      assert q in chosen[..n];
      FrontAllOnce(paths, chosen[..n], q);
    }
  }

  /** Opening several files loses no path and brings in only the chosen ones. */
  lemma {:induction false} FrontAllMembers(paths: seq<string>, chosen: seq<string>, q: string)
    ensures q in FrontAll(paths, chosen) <==> q in paths || q in chosen
    decreases |chosen|
  {
    if |chosen| > 0 {
      var n := |chosen| - 1;
      var prev := FrontAll(paths, chosen[..n]);
      FrontAllMembers(paths, chosen[..n], q);
      MoveToFrontMembers(prev, chosen[n], q);
      assert chosen == chosen[..n] + [chosen[n]];
    }
  }

  /** Opening `p` lists `p` and every path listed before, and nothing else. */
  lemma MoveToFrontMembers(paths: seq<string>, p: string, q: string)
    ensures q in MoveToFront(paths, p) <==> q == p || q in paths
  {
    MoveToFrontCount(paths, p, q);
    assert q in MoveToFront(paths, p) <==> q in multiset(MoveToFront(paths, p));
    assert q in paths <==> q in multiset(paths);
  }

  /** Every path read back is already stripped. */
  lemma ReadPathsStripped(file: Option<seq<string>>, q: string)
    requires q in ReadPaths(file)
    ensures Strip(q) == q
  {
    var k :| 0 <= k < |ReadPaths(file)| && ReadPaths(file)[k] == q;
    StripIdempotent(file.value[k]);
  }

  /** Reading back written lines whose paths come from `prior` and `chosen` (or their
      `strip`) keeps every path of `prior` and adds only stripped chosen paths. */
  lemma ReadBackPaths(prior: seq<string>, chosen: seq<string>, written: seq<string>)
    requires forall q :: q in prior ==> Strip(q) == q
    requires forall q :: q in prior ==> q in written
    requires forall q :: q in written ==> q in prior || q in chosen || q in ReadPaths(Some(chosen))
    ensures forall q :: q in prior ==> q in ReadPaths(Some(written))
    ensures forall q :: q in ReadPaths(Some(written)) ==> q in prior || q in ReadPaths(Some(chosen))
  {
    var r := ReadPaths(Some(written));
    forall q | q in prior ensures q in r {
      var k :| 0 <= k < |written| && written[k] == q;
      assert r[k] == q;
    }
    forall q | q in r ensures q in prior || q in ReadPaths(Some(chosen)) {
      var k :| 0 <= k < |r| && r[k] == q;
      var x := written[k];
      if x in chosen {
        var j :| 0 <= j < |chosen| && chosen[j] == x;
        assert ReadPaths(Some(chosen))[j] == q;
      } else if x in ReadPaths(Some(chosen)) {
        ReadPathsStripped(Some(chosen), x);
      }
    }
  }

  /** The list after saving `p`: its first copy removed (`list.remove`), then `p` put first. */
  function SaveToFront(paths: seq<string>, p: string): seq<string> {
    [p] + RemoveFirst(paths, p)
  }

  /** Saving puts the path first; when the path was already listed the result is a
      permutation of the old list (later copies survive), otherwise it gains that one path. */
  lemma SaveToFrontSpec(paths: seq<string>, p: string)
    ensures SaveToFront(paths, p)[0] == p
    ensures p in paths ==> multiset(SaveToFront(paths, p)) == multiset(paths)
    ensures p !in paths ==> multiset(SaveToFront(paths, p)) == multiset(paths) + multiset{p}
  {
    RemoveFirstSpec(paths, p);
  }

  /** Saving is gentler than opening: a path listed twice keeps its second copy. */
  lemma SaveKeepsLaterCopies(paths: seq<string>, p: string)
    requires multiset(paths)[p] >= 2
    ensures multiset(SaveToFront(paths, p))[p] == multiset(paths)[p]
    ensures multiset(MoveToFront(paths, p))[p] == 1
  {
    SaveToFrontSpec(paths, p);
    MoveToFrontSpec(paths, p);
  }

  /** The clean-up menu offers "Clear Duplicates" when `len(list) != len(set(list))`,
      which is exactly when some path is listed twice. */
  function OffersClearDuplicates(list: seq<string>): (r: bool)
    ensures r <==> !NoDups(list)
    ensures r <==> Dedup(list) != list
  {
    DistinctCountIffNoDups(list);
    DedupChangesIffDuplicate(list);
    |set x | x in list| != |list|
  }

  /** The loop of `remove_duplicates`: keep each path the first time it is seen. */
  method UniquePaths(paths: seq<string>) returns (valid: seq<string>)
    ensures valid == Dedup(paths)
  {
    valid := [];
    var seen: set<string> := {};
    var i := 0;
    while i < |paths|
      invariant 0 <= i <= |paths|
      invariant valid == Dedup(paths[..i])
      invariant forall x :: x in seen <==> x in valid
    {
      var path := paths[i];
      assert paths[..i + 1][..i] == paths[..i];
      if path !in seen {
        valid := valid + [path];
        seen := seen + {path};
      }
      i := i + 1;
    }
    assert paths[..i] == paths;
  }

  /** A path separator (both separators of the platform the add-on targets). */
  predicate IsSep(c: char) {
    c == '/' || c == '\\'
  }

  /** `os.path.basename`: the text after the last separator, that is the longest suffix
      without one. */
  function Basename(p: string): (r: string)
    ensures forall i :: 0 <= i < |r| ==> !IsSep(r[i])
    ensures |r| <= |p| && p[|p| - |r|..] == r
    ensures |r| == |p| || IsSep(p[|p| - |r| - 1])
    decreases |p|
  {
    if |p| == 0 || IsSep(p[|p| - 1]) then [] else Basename(p[..|p| - 1]) + [p[|p| - 1]]
  }

  /** `s.rstrip` of separators. */
  function RStripSeps(s: string): string
    decreases |s|
  {
    if |s| > 0 && IsSep(s[|s| - 1]) then RStripSeps(s[..|s| - 1]) else s
  }

  /** `os.path.dirname`: everything before the base name, with trailing separators
      dropped unless it consists of separators only. */
  function Dirname(p: string): string {
    var head := p[..|p| - |Basename(p)|];
    if forall i :: 0 <= i < |head| ==> IsSep(head[i]) then head else RStripSeps(head)
  }

  /** `name.lower().replace(" ", "_")`. */
  function Normalize(name: string): string {
    ReplaceChar(Lower(name), ' ', '_')
  }

  /** The label of a recent-files row. With `display_folder` on, an `__init__.py` entry
      (case-insensitively) shows its folder's name; any other entry is lowercased with
      spaces turned into underscores and given a ".py" ending if it lacks one. */
  function DisplayName(path: string, displayFolder: bool): string {
    var name := Basename(path);
    if displayFolder && EndsWith(Lower(name), "__init__.py") then
      Normalize(Basename(Dirname(path))) + ".py"
    else if displayFolder then
      var n := Normalize(name);
      if EndsWith(n, ".py") then n else n + ".py"
    else
      name
  }

  /** Lowercase, without spaces and without separators. */
  predicate IsTidy(s: string) {
    forall i :: 0 <= i < |s| ==> s[i] != ' ' && !IsSep(s[i]) && LowerChar(s[i]) == s[i]
  }

  lemma NormalizeTidy(name: string)
    requires forall i :: 0 <= i < |name| ==> !IsSep(name[i])
    ensures IsTidy(Normalize(name))
  {
  }

  /** Appending ".py" to a tidy name keeps it tidy. */
  lemma TidyWithPy(n: string)
    requires IsTidy(n)
    ensures IsTidy(n + ".py") && EndsWith(n + ".py", ".py")
  {
    var r := n + ".py";
    forall i | 0 <= i < |r| ensures r[i] != ' ' && !IsSep(r[i]) && LowerChar(r[i]) == r[i] {
      if i >= |n| { assert r[i] == ".py"[i - |n|]; }
    }
    assert r[|r| - 3..] == ".py";
  }

  /** With `display_folder` on, every label is tidy and ends in ".py"; with it off, the label
      is the base name. No label ever contains a separator. */
  lemma DisplayNameSpec(path: string, displayFolder: bool)
    ensures displayFolder ==> EndsWith(DisplayName(path, displayFolder), ".py")
    ensures displayFolder ==> IsTidy(DisplayName(path, displayFolder))
    ensures !displayFolder ==> DisplayName(path, displayFolder) == Basename(path)
    ensures forall i :: 0 <= i < |DisplayName(path, displayFolder)| ==> !IsSep(DisplayName(path, displayFolder)[i])
  {
    var name := Basename(path);
    var r := DisplayName(path, displayFolder);
    if displayFolder {
      if EndsWith(Lower(name), "__init__.py") {
        var folder := Basename(Dirname(path));
        NormalizeTidy(folder);
        assert r == Normalize(folder) + ".py";
        TidyWithPy(Normalize(folder));
      } else {
        NormalizeTidy(name);
        var n := Normalize(name);
        if EndsWith(n, ".py") {
          assert r == n;
        } else {
          assert r == n + ".py";
          TidyWithPy(n);
        }
      }
      assert IsTidy(r);
    }
  }

  /** No separator occurs in `s`. */
  predicate SepFree(s: string) {
    forall i :: 0 <= i < |s| ==> !IsSep(s[i])
  }

  /** The base name of a path ending in "/" and a separator-free name is that name. */
  lemma BasenameAfterSep(d: string, b: string)
    requires SepFree(b)
    ensures Basename(d + "/" + b) == b
  {
    var p := d + "/" + b;
    assert p[|p| - |b| - 1] == '/' && p[|p| - |b|..] == b;
  }

  /** The folder of `d/f/n` is `f` when `f` is a non-empty, separator-free name. */
  lemma FolderOfBuiltPath(d: string, f: string, n: string)
    requires |f| > 0 && SepFree(f) && SepFree(n)
    ensures Basename(Dirname(d + "/" + f + "/" + n)) == f
  {
    var p := d + "/" + f + "/" + n;
    BasenameAfterSep(d + "/" + f, n);
    var head := p[..|p| - |n|];
    assert head == d + "/" + f + "/";
    assert !IsSep(head[|head| - 2]);
    assert head[..|head| - 1] == d + "/" + f;
    assert RStripSeps(d + "/" + f) == d + "/" + f;
    assert Dirname(p) == d + "/" + f;
    BasenameAfterSep(d, f);
  }

  /** With `display_folder` on, an `__init__.py` entry (in any case) inside folder `f` is
      shown as `f` lowercased with spaces turned into underscores, plus ".py". */
  lemma DisplayNameOfPackage(d: string, f: string, n: string)
    requires |f| > 0 && SepFree(f) && SepFree(n) && EndsWith(Lower(n), "__init__.py")
    ensures DisplayName(d + "/" + f + "/" + n, true) == Normalize(f) + ".py"
  {
    var p := d + "/" + f + "/" + n;
    assert p == (d + "/" + f) + "/" + n;
    BasenameAfterSep(d + "/" + f, n);
    FolderOfBuiltPath(d, f, n);
  }

  /** With `display_folder` on, any other entry `b` is shown normalized, with ".py"
      appended exactly when the normalized name does not already end in it. */
  lemma DisplayNameOfModule(d: string, b: string)
    requires SepFree(b) && !EndsWith(Lower(b), "__init__.py")
    ensures EndsWith(Normalize(b), ".py") ==> DisplayName(d + "/" + b, true) == Normalize(b)
    ensures !EndsWith(Normalize(b), ".py") ==> DisplayName(d + "/" + b, true) == Normalize(b) + ".py"
  {
    BasenameAfterSep(d, b);
  }

  /** The row MOVE_UP (`up`) or MOVE_DOWN exchanges the selected row `i` with. */
  function Neighbour(i: int, up: bool): int {
    if up then i - 1 else i + 1
  }

  /** `move_path`'s test: MOVE_UP from a positive index, MOVE_DOWN from an index before the
      last row. */
  predicate MoveAllowed(up: bool, i: int, n: int) {
    if up then i > 0 else i < n - 1
  }

  /** What `move_item_in_file(from, to)` leaves behind: an absent file stays absent, a file
      with a line at `from` makes the move, a shorter one is left as it was and `pop` raises. */
  predicate FileMoved(before: Option<seq<string>>, after: Option<seq<string>>, status: Status, from: nat, to: nat) {
    if before.None? then after == before && status == Finished
    else if from < |before.value| then after == Some(MoveItem(ReadPaths(before), from, to)) && status == Finished
    else after == before && status == Failed(IndexError)
  }

  /** A move between neighbouring rows swaps them, and the file sees a permutation of its
      paths; so rows that mirrored the file still do. */
  lemma NeighbourMoveSwaps(rows: seq<string>, i: nat, up: bool)
    requires i < |rows| && 0 <= Neighbour(i, up) < |rows|
    ensures var j := Neighbour(i, up);
            MoveItem(rows, i, j) == rows[i := rows[j]][j := rows[i]] &&
            multiset(MoveItem(rows, i, j)) == multiset(rows)
  {
    var j := Neighbour(i, up);
    MoveItemPermutes(rows, i, j);
    if up { MoveUpSwaps(rows, i); } else { MoveDownSwaps(rows, i); }
  }

  /** The state the recent-files operators read and write. */
  class RecentFiles {
    /** `recent_list`: the names of the UI collection's rows. */
    var list: seq<string>
    /** `recent_list_index`: the selected row. */
    var index: int
    /** `open_recent.txt`: its written lines, or `None` when it does not exist. */
    var file: Option<seq<string>>

    constructor (file: Option<seq<string>>)
      ensures list == [] && index == 0 && this.file == file
    {
      list := [];
      index := 0;
      this.file := file;
    }

    /** `update_list`: rebuild the rows from the file when it exists. */
    method UpdateList()
      modifies this
      ensures file == old(file) && index == old(index)
      ensures file.Some? ==> list == Loaded(file.value)
      ensures file.None? ==> list == old(list)
    {
      if file.Some? {
        list := Loaded(file.value);
      }
    }

    /** `load_list`: the start-up handler, active only when the feature is enabled. */
    method LoadList(enabled: bool)
      modifies this
      ensures file == old(file) && index == old(index)
      ensures enabled && file.Some? ==> list == Loaded(file.value)
      ensures !enabled || file.None? ==> list == old(list)
    {
      if enabled {
        UpdateList();
      }
    }

    /** `TEXT_OT_open_mainfile.execute` over the selected files (already joined with their
        directory). For each file that can be read, the whole selection is moved to the
        front of the file's paths, the last one first; then the rows are reloaded. */
    method OpenMainfile(selected: seq<string>, readable: string -> bool) returns (status: Status)
      modifies this
      ensures status == Finished && index == old(index)
      ensures (forall p :: p in selected ==> !readable(p)) ==> file == old(file)
      ensures (exists p :: p in selected && readable(p)) ==>
                (|selected| > 0 && file.Some? && |file.value| > 0 && file.value[0] == selected[|selected| - 1] &&
                 forall q :: q in selected ==> multiset(file.value)[q] == 1)
      ensures (exists p :: p in selected && readable(p)) ==>
                file.Some? &&
                (forall q :: q in ReadPaths(old(file)) ==> q in file.value) &&
                (forall q :: q in file.value ==> q in ReadPaths(old(file)) || q in selected || q in ReadPaths(Some(selected)))
      ensures file.Some? ==> list == Loaded(file.value)
      ensures file.None? ==> list == old(list)
    {
      var k := 0;
      ghost var anyRead := false;
      while k < |selected|
        invariant 0 <= k <= |selected|
        invariant index == old(index) && list == old(list)
        invariant anyRead <==> exists p :: p in selected[..k] && readable(p)
        invariant !anyRead ==> file == old(file)
        invariant anyRead ==>
                    (|selected| > 0 && file.Some? && |file.value| > 0 && file.value[0] == selected[|selected| - 1] &&
                     forall q :: q in selected ==> multiset(file.value)[q] == 1)
        invariant anyRead ==>
                    file.Some? &&
                    (forall q :: q in ReadPaths(old(file)) ==> q in file.value) &&
                    (forall q :: q in file.value ==> q in ReadPaths(old(file)) || q in selected || q in ReadPaths(Some(selected)))
      {
        assert selected[..k + 1] == selected[..k] + [selected[k]];
        if readable(selected[k]) {
          var lines := ReadPaths(file);
          ghost var before := ReadPaths(old(file));
          if anyRead {
            forall q | q in before ensures Strip(q) == q {
              ReadPathsStripped(old(file), q);
            }
            ReadBackPaths(before, selected, file.value);
          }
          forall q ensures q in FrontAll(lines, selected) <==> q in lines || q in selected {
            FrontAllMembers(lines, selected, q);
          }
          FrontAllHead(lines, selected);
          forall q | q in selected ensures multiset(FrontAll(lines, selected))[q] == 1 {
            FrontAllOnce(lines, selected, q);
          }
          file := Some(FrontAll(lines, selected));
          anyRead := true;
        }
        k := k + 1;
      }
      assert selected[..k] == selected;
      UpdateList();
      status := Finished;
    }

    /** `TEXT_OT_open_file.execute`: a missing file is filtered out of the file's paths and
        the operator cancels; an existing one is moved to the front and the rows reloaded. */
    method OpenFile(filepath: string, isFile: string -> bool) returns (status: Status)
      modifies this
      ensures index == old(index)
      ensures !isFile(filepath) ==>
                (status == Cancelled && list == old(list) &&
                 file == (if old(file).Some? then Some(Without(ReadPaths(old(file)), filepath)) else None))
      ensures isFile(filepath) ==>
                (status == Finished && file == Some(MoveToFront(ReadPaths(old(file)), filepath)) &&
                 list == Loaded(file.value))
    {
      if !isFile(filepath) {
        RemoveInvalidFileFromTxtFile(filepath);
        return Cancelled;
      }
      file := Some(MoveToFront(ReadPaths(file), filepath));
      UpdateList();
      status := Finished;
    }

    /** `remove_invalid_file_from_txt_file`: drop every line naming the path. */
    method RemoveInvalidFileFromTxtFile(filepath: string)
      modifies this
      ensures list == old(list) && index == old(index)
      ensures file == (if old(file).Some? then Some(Without(ReadPaths(old(file)), filepath)) else None)
    {
      if file.Some? {
        file := Some(Without(ReadPaths(file), filepath));
      }
    }

    /** `TEXT_OT_save_mainfile.execute`, `savedPath` being the text's path after the host
        saved it: its first copy moves to the front and the rows are reloaded. */
    method SaveMainfile(savedPath: string) returns (status: Status)
      modifies this
      ensures status == Finished && index == old(index)
      ensures file == Some(SaveToFront(ReadPaths(old(file)), savedPath))
      ensures list == Loaded(file.value)
    {
      file := Some(SaveToFront(ReadPaths(file), savedPath));
      UpdateList();
      status := Finished;
    }

    /** `TEXT_OT_save_as_mainfile.execute`: as saving, but cancelled when the text has no path. */
    method SaveAsMainfile(savedPath: string) returns (status: Status)
      modifies this
      ensures index == old(index)
      ensures savedPath == "" ==> status == Cancelled && list == old(list) && file == old(file)
      ensures savedPath != "" ==>
                (status == Finished && file == Some(SaveToFront(ReadPaths(old(file)), savedPath)) &&
                 list == Loaded(file.value))
    {
      if savedPath == "" {
        return Cancelled;
      }
      status := SaveMainfile(savedPath);
    }

    /** `TEXT_OT_clear_recent.execute`: empty the file, then reload (which empties the rows). */
    method ClearRecent() returns (status: Status)
      modifies this
      ensures status == Finished && index == old(index)
      ensures file == Some([]) && list == []
    {
      file := Some([]);
      UpdateList();
      status := Finished;
    }

    /** `add_path`: prepend the active text's path to the rows and to the file, without
        de-duplicating, and select the first row. The operator is only offered while the
        list has rows. */
    method AddPath(active: Option<string>) returns (status: Status)
      requires |list| > 0
      modifies this
      ensures active.None? ==> status == Cancelled && list == old(list) && index == old(index) && file == old(file)
      ensures active.Some? ==>
                (status == Finished && list == [active.value] + old(list) && index == 0 &&
                 file == Some([active.value] + ReadPaths(old(file))))
    {
      if active.None? {
        return Cancelled;
      }
      var path := active.value;
      list := [path] + list;
      index := 0;
      file := Some([path] + ReadPaths(file));
      status := Finished;
    }

    /** `remove_path`: remove the selected row, select the row above it (if any), and drop
        from the file every line whose stripped text is the removed path. */
    method RemovePath() returns (status: Status)
      requires |list| > 0
      modifies this
      ensures !(0 <= old(index) < |old(list)|) ==>
                (status == Failed(IndexError) && list == old(list) && index == old(index) && file == old(file))
      ensures 0 <= old(index) < |old(list)| ==>
                (var removed := old(list)[old(index)];
                 status == Finished &&
                 list == RemoveAt(old(list), old(index)) &&
                 index == (if old(index) > 0 then old(index) - 1 else 0) &&
                 file == (if old(file).Some? then Some(Keep(old(file).value, l => Strip(l) != removed)) else None))
    {
      if !(0 <= index < |list|) {
        return Failed(IndexError);
      }
      var pathToRemove := list[index];
      list := RemoveAt(list, index);
      if index > 0 {
        index := index - 1;
      }
      if file.Some? {
        file := Some(Keep(file.value, l => Strip(l) != pathToRemove));
      }
      status := Finished;
    }

    /** `move_item_in_file`: `insert(to, pop(from))` on the file's paths; `pop` past the end
        raises. */
    method MoveItemInFile(from: nat, to: nat) returns (status: Status)
      modifies this
      ensures list == old(list) && index == old(index)
      ensures FileMoved(old(file), file, status, from, to)
    {
      status := Finished;
      if file.Some? {
        var lines := ReadPaths(file);
        if from >= |lines| {
          return Failed(IndexError);
        }
        file := Some(MoveItem(lines, from, to));
      }
    }

    /** `move_path`: MOVE_UP swaps the selected row with the one above when the index is
        positive, MOVE_DOWN with the one below when the index is before the last row; the
        selection follows the row and the file's paths make the same move. Otherwise the
        operator finishes without a change. */
    method MovePath(up: bool) returns (status: Status)
      requires |list| > 0
      modifies this
      ensures !MoveAllowed(up, old(index), |old(list)|) ==> status == Finished && list == old(list) && index == old(index) && file == old(file)
      ensures MoveAllowed(up, old(index), |old(list)|) && !(0 <= old(index) < |old(list)|) ==>
                (status == Failed(IndexError) && list == old(list) && index == old(index) && file == old(file))
      ensures MoveAllowed(up, old(index), |old(list)|) && 0 <= old(index) < |old(list)| ==>
                (0 <= Neighbour(old(index), up) < |old(list)| &&
                 list == MoveItem(old(list), old(index), Neighbour(old(index), up)) &&
                 index == Neighbour(old(index), up) &&
                 FileMoved(old(file), file, status, old(index), Neighbour(old(index), up)))
    {
      var i := index;
      if !MoveAllowed(up, i, |list|) {
        return Finished;
      }
      if !(0 <= i < |list|) {
        return Failed(IndexError);
      }
      var j := Neighbour(i, up);
      list := MoveItem(list, i, j);
      index := j;
      status := MoveItemInFile(i, j);
    }

    /** `open_selected`: when the selected path exists, its row moves to the top, the
        selection follows it and the file's paths make the same move; otherwise a warning
        only. */
    method OpenSelected(pathExists: string -> bool) returns (status: Status)
      requires |list| > 0
      modifies this
      ensures !(0 <= old(index) < |old(list)|) ==>
                (status == Failed(IndexError) && list == old(list) && index == old(index) && file == old(file))
      ensures 0 <= old(index) < |old(list)| && !pathExists(old(list)[old(index)]) ==>
                (status == Finished && list == old(list) && index == old(index) && file == old(file))
      ensures 0 <= old(index) < |old(list)| && pathExists(old(list)[old(index)]) ==>
                (list == MoveItem(old(list), old(index), 0) && index == 0 &&
                 FileMoved(old(file), file, status, old(index), 0))
    {
      if !(0 <= index < |list|) {
        return Failed(IndexError);
      }
      var i := index;
      var filepath := list[i];
      status := Finished;
      if pathExists(filepath) {
        list := MoveItem(list, i, 0);
        index := 0;
        status := MoveItemInFile(i, 0);
      }
    }

    /** `recent_cleanup`: when some listed path is not a file, the rows and the file are
        both rewritten to the listed paths that are files, in order, and a selection past
        the end moves to the last row. */
    method RecentCleanup(isFile: string -> bool) returns (status: Status)
      requires |list| > 0
      modifies this
      ensures status == Finished
      ensures (forall p :: p in old(list) ==> isFile(p)) ==>
                (list == old(list) && index == old(index) && file == old(file))
      ensures (exists p :: p in old(list) && !isFile(p)) ==>
                (list == Keep(old(list), isFile) && file == Some(list) &&
                 index == (if old(index) >= |list| then |list| - 1 else old(index)))
    {
      var validPaths := Keep(list, isFile);
      var missingPaths := set p | p in list && !isFile(p);
      if missingPaths != {} {
        list := validPaths;
        if index >= |list| {
          index := |list| - 1;
        }
        file := Some(validPaths);
      } else {
        assert forall p :: p in list ==> p !in missingPaths;
      }
      status := Finished;
    }

    /** `remove_duplicates`: rows rewritten to their first occurrences. When the selection
        falls past the end, the clamping statement names an undefined variable and raises,
        so the file is not rewritten; otherwise the file gets the same paths. */
    method RemoveDuplicates() returns (status: Status)
      requires |list| > 0
      modifies this
      ensures list == Dedup(old(list)) && index == old(index)
      ensures index >= |list| ==> status == Failed(NameError) && file == old(file)
      ensures index < |list| ==> status == Finished && file == Some(list)
    {
      var validPaths := UniquePaths(list);
      list := validPaths;
      if index >= |list| {
        return Failed(NameError);
      }
      file := Some(validPaths);
      status := Finished;
    }
  }
}
