/** The project explorer of `src/tools/project.py`: a top-down `os.walk`
    of a directory inside the workspace, with ignored directories pruned,
    written out as an indented outline; and the fixed scrum-report reply. */
module Project {
  import opened Text
  import opened Results
  import opened Sandbox

  /** A directory entry as the file system lists it. */
  datatype Node = File(name: string) | Dir(name: string, entries: seq<Node>)

  /** A directory the walk still has to visit, with its depth below the top. */
  datatype Item = Item(name: string, entries: seq<Node>, level: nat)

  const DefaultIgnore: seq<string> := [".git", "__pycache__", "node_modules", "venv", ".venv", "dist", "build"]

  /** The ignore list in force: the given one, or the seven defaults. */
  function IgnoreList(ignoreDirs: Option<seq<string>>): (r: seq<string>)
    ensures ignoreDirs.None? ==> r == DefaultIgnore
    ensures ignoreDirs.Some? ==> r == ignoreDirs.value
  {
    if ignoreDirs.Some? then ignoreDirs.value else DefaultIgnore
  }

  /** `"  " * level` */
  function Indent(level: nat): (r: string)
    ensures |r| == 2 * level
    ensures forall k :: 0 <= k < |r| ==> r[k] == ' '
  {
    if level == 0 then "" else "  " + Indent(level - 1)
  }

  /** The file lines of a directory: its non-directory entries, in listing
      order, each at `level`. */
  function FileLines(entries: seq<Node>, level: nat): (r: seq<string>)
    ensures |r| <= |entries|
    ensures forall k :: 0 <= k < |r| ==> StartsWith(r[k], Indent(level))
    decreases |entries|
  {
    if entries == [] then []
    else
      var rest := FileLines(entries[1..], level);
      if entries[0].File? then
        var line := Indent(level) + entries[0].name;
        assert line[..|Indent(level)|] == Indent(level);
        [line] + rest
      else rest
  }

  /** The outline of one visited directory: its own line, its files one
      level deeper, then each kept subdirectory's outline in listing order. */
  function Outline(it: Item, ignore: seq<string>): (r: seq<string>)
    ensures |r| >= 1 && r[0] == Indent(it.level) + it.name + "/"
    decreases it.entries, 1
  {
    [Indent(it.level) + it.name + "/"] + FileLines(it.entries, it.level + 1)
      + SubOutlines(it.entries, it.level + 1, ignore)
  }

  /** The outlines of the subdirectories among `entries` whose names are
      not ignored, each at `level`. */
  function SubOutlines(entries: seq<Node>, level: nat, ignore: seq<string>): seq<string>
    decreases entries, 0
  {
    if entries == [] then []
    else
      (if entries[0].Dir? && entries[0].name !in ignore
       then Outline(Item(entries[0].name, entries[0].entries, level), ignore) else [])
      + SubOutlines(entries[1..], level, ignore)
  }

  /** Every line below a directory's own line is indented one level deeper
      than it: a directory at depth d is indented by 2d spaces, its files
      and subdirectories by at least 2(d + 1). */
  lemma {:induction false} OutlineIndented(it: Item, ignore: seq<string>)
    ensures forall k :: 1 <= k < |Outline(it, ignore)| ==> StartsWith(Outline(it, ignore)[k], Indent(it.level + 1))
    ensures forall k :: 0 <= k < |Outline(it, ignore)| ==> StartsWith(Outline(it, ignore)[k], Indent(it.level))
    decreases it.entries, 1
  {
    var r := Outline(it, ignore);
    var files := FileLines(it.entries, it.level + 1);
    var subs := SubOutlines(it.entries, it.level + 1, ignore);
    SubOutlinesIndented(it.entries, it.level + 1, ignore);
    assert r == [r[0]] + files + subs;
    forall k | 1 <= k < |r| ensures StartsWith(r[k], Indent(it.level + 1)) {
      if k <= |files| {
        assert r[k] == files[k - 1];
      } else {
        assert r[k] == subs[k - 1 - |files|];
      }
    }
    forall k | 0 <= k < |r| ensures StartsWith(r[k], Indent(it.level)) {
      if k == 0 {
        assert r[0][..|Indent(it.level)|] == Indent(it.level);
      } else {
        IndentPrefix(it.level, r[k]);
      }
    }
  }

  lemma {:induction false} SubOutlinesIndented(entries: seq<Node>, level: nat, ignore: seq<string>)
    ensures forall k :: 0 <= k < |SubOutlines(entries, level, ignore)| ==>
      StartsWith(SubOutlines(entries, level, ignore)[k], Indent(level))
    decreases entries, 0
  {
    if entries != [] {
      var rest := SubOutlines(entries[1..], level, ignore);
      SubOutlinesIndented(entries[1..], level, ignore);
      if entries[0].Dir? && entries[0].name !in ignore {
        var it := Item(entries[0].name, entries[0].entries, level);
        var first := Outline(it, ignore);
        OutlineIndented(it, ignore);
        var r := first + rest;
        assert r == SubOutlines(entries, level, ignore);
        forall k | 0 <= k < |r| ensures StartsWith(r[k], Indent(level)) {
          if k < |first| {
            assert r[k] == first[k];
          } else {
            assert r[k] == rest[k - |first|];
          }
        }
      } else {
        assert SubOutlines(entries, level, ignore) == rest;
      }
    }
  }

  /** A line indented one level deeper is indented at `level` too. */
  lemma IndentPrefix(level: nat, line: string)
    requires StartsWith(line, Indent(level + 1))
    ensures StartsWith(line, Indent(level))
  {
    assert Indent(level + 1) == "  " + Indent(level);
    assert forall k :: 0 <= k < |Indent(level)| ==> line[k] == ' ' == Indent(level)[k];
  }

  /** The subdirectories the walk descends into: those not ignored. */
  function KeptDirs(entries: seq<Node>, level: nat, ignore: seq<string>): (r: seq<Item>)
    ensures forall k :: 0 <= k < |r| ==> r[k].level == level && r[k].name !in ignore
    decreases |entries|
  {
    if entries == [] then []
    else
      var rest := KeptDirs(entries[1..], level, ignore);
      if entries[0].Dir? && entries[0].name !in ignore
      then [Item(entries[0].name, entries[0].entries, level)] + rest
      else rest
  }

  /** The outlines of several directories, first to last. */
  function Outlines(items: seq<Item>, ignore: seq<string>): seq<string>
    decreases |items|
  {
    if items == [] then [] else Outline(items[0], ignore) + Outlines(items[1..], ignore)
  }

  /** What is left to print for a stack of directories: the top of the
      stack (its last element) is visited first. */
  function Pending(stack: seq<Item>, ignore: seq<string>): seq<string>
    decreases |stack|
  {
    if stack == [] then []
    else Outline(stack[|stack| - 1], ignore) + Pending(stack[..|stack| - 1], ignore)
  }

  function Reverse<T>(s: seq<T>): (r: seq<T>)
    ensures |r| == |s| && forall k :: 0 <= k < |s| ==> r[k] == s[|s| - 1 - k]
    decreases |s|
  {
    if s == [] then [] else Reverse(s[1..]) + [s[0]]
  }

  lemma {:induction false} SubOutlinesAreOutlines(entries: seq<Node>, level: nat, ignore: seq<string>)
    ensures SubOutlines(entries, level, ignore) == Outlines(KeptDirs(entries, level, ignore), ignore)
    decreases |entries|
  {
    if entries != [] {
      SubOutlinesAreOutlines(entries[1..], level, ignore);
      var kept := KeptDirs(entries, level, ignore);
      if entries[0].Dir? && entries[0].name !in ignore {
        assert kept[1..] == KeptDirs(entries[1..], level, ignore);
      }
    }
  }

  /** Pushing directories in reverse order visits them in listing order
      before what was already on the stack. */
  lemma {:induction false} PendingPush(stack: seq<Item>, items: seq<Item>, ignore: seq<string>)
    ensures Pending(stack + Reverse(items), ignore) == Outlines(items, ignore) + Pending(stack, ignore)
    decreases |items|
  {
    if items == [] {
      assert stack + Reverse(items) == stack;
    } else {
      var st := stack + Reverse(items);
      assert Reverse(items) == Reverse(items[1..]) + [items[0]];
      assert st == (stack + Reverse(items[1..])) + [items[0]];
      assert st[|st| - 1] == items[0];
      assert st[..|st| - 1] == stack + Reverse(items[1..]);
      PendingPush(stack, items[1..], ignore);
      calc {
        Pending(st, ignore);
        Outline(items[0], ignore) + Pending(stack + Reverse(items[1..]), ignore);
        Outline(items[0], ignore) + (Outlines(items[1..], ignore) + Pending(stack, ignore));
        (Outline(items[0], ignore) + Outlines(items[1..], ignore)) + Pending(stack, ignore);
      }
    }
  }

  /** Visiting the top of the stack prints its line and its files and
      replaces it with its kept subdirectories, in reverse order. */
  lemma WalkStep(rest: seq<Item>, current: Item, ignore: seq<string>)
    ensures Pending(rest + [current], ignore)
      == [Indent(current.level) + current.name + "/"] + FileLines(current.entries, current.level + 1)
         + Pending(rest + Reverse(KeptDirs(current.entries, current.level + 1, ignore)), ignore)
  {
    var st := rest + [current];
    assert st[|st| - 1] == current && st[..|st| - 1] == rest;
    var dirs := KeptDirs(current.entries, current.level + 1, ignore);
    PendingPush(rest, dirs, ignore);
    SubOutlinesAreOutlines(current.entries, current.level + 1, ignore);
  }

  /** The `os.walk` loop: pop a directory, print it and its files, push the
      kept subdirectories so that they are visited in listing order. */
  method Walk(top: Item, ignore: seq<string>) returns (tree: seq<string>)
    ensures tree == Outline(top, ignore)
  {
    tree := [];
    var stack := [top];
    assert Pending(stack, ignore) == Outline(top, ignore) + Pending([], ignore);
    while stack != []
      invariant tree + Pending(stack, ignore) == Outline(top, ignore)
      decreases |Pending(stack, ignore)|
    {
      var current := stack[|stack| - 1];
      var dirs := KeptDirs(current.entries, current.level + 1, ignore);
      var head := Indent(current.level) + current.name + "/";
      var files := FileLines(current.entries, current.level + 1);
      ghost var rest := stack[..|stack| - 1];
      assert stack == rest + [current];
      WalkStep(rest, current, ignore);
      ghost var left := Pending(rest + Reverse(dirs), ignore);
      assert tree + [head] + files + left == tree + ([head] + files + left);
      tree := tree + [head];
      tree := AppendLines(tree, files);
      stack := stack[..|stack| - 1] + Reverse(dirs);
    }
  }

  /** `tree.append(...)` for each line, in order. */
  method AppendLines(tree: seq<string>, lines: seq<string>) returns (r: seq<string>)
    ensures r == tree + lines
  {
    r := tree;
    for j := 0 to |lines|
      invariant r == tree + lines[..j]
    {
      assert lines[..j + 1] == lines[..j] + [lines[j]];
      r := r + [lines[j]];
    }
    assert lines[..|lines|] == lines;
  }

  /** `explore_project(directory, ignore_dirs)`. `listing(p)` is what the
      file system holds at `p`: the entries of a directory, in the order it
      lists them, or None when there is no directory there (`os.walk` then
      yields nothing). */
  method ExploreProject(root: Path, listing: Path -> Option<seq<Node>>, directory: string,
                        ignoreDirs: Option<seq<string>>) returns (message: string)
    requires Canonical(root)
    ensures SafePath(root, directory).Err? ==>
      message == "Error exploring project: " + SafePath(root, directory).error
    ensures SafePath(root, directory).Ok? && listing(SafePath(root, directory).value).None? ==>
      message == "Project Structure:\n"
    ensures SafePath(root, directory).Ok? && listing(SafePath(root, directory).value).Some? ==>
      var p := SafePath(root, directory).value;
      message == "Project Structure:\n"
        + Join(Outline(Item(Basename(p), listing(p).value, 0), IgnoreList(ignoreDirs)), "\n")
  {
    var ignore := IgnoreList(ignoreDirs);
    var resolved := SafePath(root, directory);
    if resolved.Err? {
      return "Error exploring project: " + resolved.error;
    }
    var p := resolved.value;
    var tree: seq<string> := [];
    var found := listing(p);
    if found.Some? {
      tree := Walk(Item(Basename(p), found.value, 0), ignore);
    }
    message := "Project Structure:\n" + Join(tree, "\n");
  }

  /** The tree with every ignored subdirectory removed, at any depth. */
  function Prune(entries: seq<Node>, ignore: seq<string>): (r: seq<Node>)
    decreases entries
  {
    if entries == [] then []
    else
      var rest := Prune(entries[1..], ignore);
      match entries[0]
      case File(name) => [File(name)] + rest
      case Dir(name, sub) =>
        if name in ignore then rest else [Dir(name, Prune(sub, ignore))] + rest
  }

  /** Ignoring directories is the same as walking the pruned tree with
      nothing ignored: an ignored directory is neither listed nor entered,
      and no file is ever dropped, whatever its name. */
  lemma {:induction false} PruneEquivalence(it: Item, ignore: seq<string>)
    ensures Outline(it, ignore) == Outline(Item(it.name, Prune(it.entries, ignore), it.level), [])
    decreases it.entries, 1
  {
    FilesSurvivePruning(it.entries, it.level + 1, ignore);
    SubPruneEquivalence(it.entries, it.level + 1, ignore);
  }

  lemma {:induction false} SubPruneEquivalence(entries: seq<Node>, level: nat, ignore: seq<string>)
    ensures SubOutlines(entries, level, ignore) == SubOutlines(Prune(entries, ignore), level, [])
    decreases entries, 0
  {
    if entries != [] {
      SubPruneEquivalence(entries[1..], level, ignore);
      var pruned := Prune(entries, ignore);
      match entries[0]
      case File(name) =>
        assert pruned == [File(name)] + Prune(entries[1..], ignore);
        assert pruned[1..] == Prune(entries[1..], ignore);
      case Dir(name, sub) =>
        if name !in ignore {
          PruneEquivalence(Item(name, sub, level), ignore);
          assert pruned[1..] == Prune(entries[1..], ignore);
        }
    }
  }

  lemma {:induction false} FilesSurvivePruning(entries: seq<Node>, level: nat, ignore: seq<string>)
    ensures FileLines(entries, level) == FileLines(Prune(entries, ignore), level)
    decreases |entries|
  {
    if entries != [] {
      FilesSurvivePruning(entries[1..], level, ignore);
      var pruned := Prune(entries, ignore);
      if entries[0].File? || entries[0].name !in ignore {
        assert pruned[1..] == Prune(entries[1..], ignore);
      }
    }
  }

  const ScrumReportRequest: string :=
    "Please provide the accomplishments, focus, blockers, and next steps to fill the report."

  /** `generate_scrum_report(context)`: the report template is built and
      never used; the reply asks for the report's contents. */
  function GenerateScrumReport(context: string): (r: string)
    ensures r == ScrumReportRequest
  {
    ScrumReportRequest
  }
}
