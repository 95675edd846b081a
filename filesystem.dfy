/** The file tools of src/tools/filesystem.py (`write_file`, `read_file`,
    `list_files`) over an abstract file system: a map from resolved paths to
    files and directories. Every failure, the sandbox's included, comes back
    as text; no tool raises. */
module FileTools {
  import opened Text
  import opened Results
  import opened Sandbox

  datatype Entry = File(content: string) | Directory

  type Store = map<Path, Entry>

  function Parent(p: Path): Path {
    if |p| == 0 then p else p[..|p| - 1]
  }

  /** A file system as the operating system keeps it: "/" is a directory and
      every other entry sits in a directory that exists. */
  ghost predicate WellFormed(store: Store) {
    && [] in store && store[[]] == Directory
    && forall p :: p in store ==> Canonical(p) && (p != [] ==> Parent(p) in store && store[Parent(p)] == Directory)
  }

  /** The errors the operating system reports, as Python prints them: the
      path is shown by `repr`. */
  datatype OsError = FileExists(path: Path) | NotADirectory(path: Path) | IsADirectory(path: Path)

  function Describe(e: OsError): string {
    match e
    case FileExists(p) => "[Errno 17] File exists: " + Repr(Render(p))
    case NotADirectory(p) => "[Errno 20] Not a directory: " + Repr(Render(p))
    case IsADirectory(p) => "[Errno 21] Is a directory: " + Repr(Render(p))
  }

  /** Some proper ancestor of `dir` is a file. */
  predicate FileAbove(store: Store, dir: Path) {
    exists i :: 0 <= i < |dir| && dir[..i] in store && store[dir[..i]].File?
  }

  function Prefixes(dir: Path): set<Path> {
    set i | 0 <= i <= |dir| :: dir[..i]
  }

  /** `dir` and every missing ancestor added as directories. */
  function AddDirs(store: Store, dir: Path): Store {
    store + map q | q in Prefixes(dir) && q !in store :: Directory
  }

  datatype MkdirOutcome = Made(store: Store) | MkdirFailed(error: OsError)

  /** `Path(dir).mkdir(parents=True, exist_ok=True)`: an existing directory is
      fine, an existing file is FileExistsError, a file on the way is
      NotADirectoryError, otherwise all missing levels are created. */
  function MakeDirs(store: Store, dir: Path): (r: MkdirOutcome)
    ensures r.MkdirFailed? <==> (dir in store && store[dir].File?) || (dir !in store && FileAbove(store, dir))
    ensures r.MkdirFailed? ==> r.error == (if dir in store then FileExists(dir) else NotADirectory(dir))
    ensures r.Made? ==> dir in r.store && r.store[dir] == Directory
    ensures r.Made? ==> forall q :: q in store ==> q in r.store && r.store[q] == store[q]
  {
    assert dir[..|dir|] == dir && dir in Prefixes(dir);
    if dir in store then
      (if store[dir].Directory? then Made(store) else MkdirFailed(FileExists(dir)))
    else if FileAbove(store, dir) then MkdirFailed(NotADirectory(dir))
    else Made(AddDirs(store, dir))
  }

  /** Creating directories keeps every existing entry, adds only directories
      on the way to `dir`, and leaves `dir` and all its ancestors directories. */
  lemma MakeDirsEffect(store: Store, dir: Path)
    requires WellFormed(store) && Canonical(dir)
    requires MakeDirs(store, dir).Made?
    ensures var s := MakeDirs(store, dir).store;
      && WellFormed(s)
      && (forall q :: q in store ==> q in s && s[q] == store[q])
      && (forall q :: q in s && q !in store ==> q <= dir && s[q] == Directory)
      && (forall i :: 0 <= i <= |dir| ==> dir[..i] in s && s[dir[..i]] == Directory)
  {
    var s := MakeDirs(store, dir).store;
    if dir in store {
      forall i | 0 <= i <= |dir| ensures dir[..i] in s && s[dir[..i]] == Directory {
        AncestorsAreDirectories(store, dir, i);
        if i == |dir| {
          assert dir[..i] == dir;
        }
      }
    } else {
      assert s == AddDirs(store, dir);
      assert dir[..|dir|] == dir;
      forall i | 0 <= i <= |dir| ensures dir[..i] in s && s[dir[..i]] == Directory {
        assert dir[..i] in Prefixes(dir);
        if dir[..i] in store {
          assert dir[..i] != dir;
          assert !(0 <= i < |dir| && dir[..i] in store && store[dir[..i]].File?);
        }
      }
      forall p | p in s
        ensures Canonical(p) && (p != [] ==> Parent(p) in s && s[Parent(p)] == Directory)
      {
        if p !in store {
          var i :| 0 <= i <= |dir| && p == dir[..i];
          if i > 0 {
            assert Parent(p) == dir[..i - 1];
          }
        }
      }
    }
  }

  /** In a well-formed store, every ancestor of an existing entry is a directory. */
  lemma {:induction false} AncestorsAreDirectories(store: Store, p: Path, i: nat)
    requires WellFormed(store) && p in store && i <= |p|
    ensures p[..i] in store
    ensures i < |p| ==> store[p[..i]] == Directory
    decreases |p| - i
  {
    if i < |p| {
      var q := Parent(p);
      assert q in store;
      AncestorsAreDirectories(store, q, i);
      assert q[..i] == p[..i];
      if i == |q| {
        assert p[..i] == q;
      }
    } else {
      assert p[..i] == p;
    }
  }

  /** The head every tool failure text starts with. */
  function FailurePrefix(verb: string, name: string): string {
    "Failed to " + verb + " " + name + ": "
  }

  function FailedText(verb: string, name: string, error: string): string {
    FailurePrefix(verb, name) + error
  }

  datatype Written = Wrote(store: Store) | WriteFailed(error: OsError)

  /** Writing `content` at the resolved path `p`: create the parent
      directories, then write the file unless `p` is a directory. A failure
      leaves the store as it was. */
  function WriteAt(store: Store, p: Path, content: string): Written {
    match MakeDirs(store, Parent(p))
    case MkdirFailed(e) => WriteFailed(e)
    case Made(s) =>
      if p in s && s[p].Directory? then WriteFailed(IsADirectory(p))
      else Wrote(s[p := File(content)])
  }

  datatype WriteOutcome = WriteOutcome(store: Store, message: string)

  /** `write_file(name, content)`: resolve in the sandbox, then write. */
  function Write(store: Store, root: Path, name: string, content: string): (w: WriteOutcome)
    requires Canonical(root)
    ensures SafePath(root, name).Err? ==> w == WriteOutcome(store, FailedText("write to", name, SafePath(root, name).error))
    ensures w.message == "Successfully wrote to " + name || w.store == store
    ensures forall q :: q in store ==> q in w.store
    ensures w.message == "Successfully wrote to " + name ==>
      && SafePath(root, name).Ok?
      && SafePath(root, name).value in w.store
      && w.store[SafePath(root, name).value] == File(content)
  {
    match SafePath(root, name)
    case Err(e) =>
      assert FailedText("write to", name, e)[0] == 'F';
      WriteOutcome(store, FailedText("write to", name, e))
    case Ok(p) =>
      match WriteAt(store, p, content)
      case WriteFailed(e) =>
        assert FailedText("write to", name, Describe(e))[0] == 'F';
        WriteOutcome(store, FailedText("write to", name, Describe(e)))
      case Wrote(s) => WriteOutcome(s, "Successfully wrote to " + name)
  }

  /** What reading in text mode gives for stored text: every "\r\n" and
      every other "\r" comes back as "\n" (universal newlines). */
  function UniversalNewlines(s: string): (r: string)
    ensures '\r' !in r
    ensures |r| <= |s|
    decreases |s|
  {
    if |s| == 0 then ""
    else if s[0] == '\r' then
      (if |s| > 1 && s[1] == '\n' then "\n" + UniversalNewlines(s[2..]) else "\n" + UniversalNewlines(s[1..]))
    else [s[0]] + UniversalNewlines(s[1..])
  }

  /** Text without a carriage return reads back unchanged. */
  lemma {:induction false} UniversalNewlinesPlain(s: string)
    requires '\r' !in s
    ensures UniversalNewlines(s) == s
    decreases |s|
  {
    if |s| > 0 {
      assert '\r' !in s[1..] by {
        forall c | c in s[1..] ensures c != '\r' {
          assert c in s;
        }
      }
      UniversalNewlinesPlain(s[1..]);
      assert s == [s[0]] + s[1..];
    }
  }

  /** Reading twice translates nothing more: the translation is idempotent. */
  lemma UniversalNewlinesIdempotent(s: string)
    ensures UniversalNewlines(UniversalNewlines(s)) == UniversalNewlines(s)
  {
    UniversalNewlinesPlain(UniversalNewlines(s));
  }

  /** `read_file(name)` */
  function Read(store: Store, root: Path, name: string): (r: string)
    requires Canonical(root)
    ensures SafePath(root, name).Err? ==> r == FailedText("read", name, SafePath(root, name).error)
    ensures SafePath(root, name).Ok? && SafePath(root, name).value !in store ==>
      r == "File " + name + " does not exist."
    ensures SafePath(root, name).Ok? && SafePath(root, name).value in store ==>
      match store[SafePath(root, name).value]
      case File(content) => r == UniversalNewlines(content)
      case Directory => r == FailedText("read", name, Describe(IsADirectory(SafePath(root, name).value)))
  {
    match SafePath(root, name)
    case Err(e) => FailedText("read", name, e)
    case Ok(p) =>
      if p !in store then "File " + name + " does not exist."
      else match store[p]
        case File(content) => UniversalNewlines(content)
        case Directory => FailedText("read", name, Describe(IsADirectory(p)))
  }

  predicate IsDirectory(store: Store, p: Path) {
    p in store && store[p].Directory?
  }

  /** The names directly inside `dir`. */
  function Children(store: Store, dir: Path): set<string> {
    set q | q in store && |q| == |dir| + 1 && q[..|dir|] == dir :: q[|dir|]
  }

  /** `[p.name for p in path.iterdir()]`: every child once, in the order the
      directory yields them (which the file system chooses). */
  method ChildNames(store: Store, dir: Path) returns (names: seq<string>)
    ensures forall i, j :: 0 <= i < j < |names| ==> names[i] != names[j]
    ensures forall n :: n in names <==> n in Children(store, dir)
  {
    var pending := Children(store, dir);
    names := [];
    while pending != {}
      invariant forall i, j :: 0 <= i < j < |names| ==> names[i] != names[j]
      invariant forall n :: n in names ==> n !in pending
      invariant forall n :: n in Children(store, dir) <==> n in names || n in pending
      decreases |pending|
    {
      var n :| n in pending;
      names := names + [n];
      pending := pending - {n};
    }
  }

  /** `names` lists every element of `s` exactly once. */
  ghost predicate Enumerates(names: seq<string>, s: set<string>) {
    && (forall i, j :: 0 <= i < j < |names| ==> names[i] != names[j])
    && (forall n :: n in names <==> n in s)
  }

  /** What `list_files(directory)` may answer: the sandbox failure, the
      "not a valid directory" text, or the children in some order the file
      system chooses, joined by ", ". */
  ghost predicate Listing(store: Store, root: Path, directory: string, message: string)
    requires Canonical(root)
  {
    match SafePath(root, directory)
    case Err(e) => message == FailedText("list files in", directory, e)
    case Ok(p) =>
      if !IsDirectory(store, p) then message == directory + " is not a valid directory."
      else exists names: seq<string> ::
        Enumerates(names, Children(store, p)) && message == "Contents of " + directory + ": " + Join(names, ", ")
  }

  /** `list_files(directory)` */
  method ListFiles(store: Store, root: Path, directory: string) returns (message: string)
    requires Canonical(root)
    ensures Listing(store, root, directory, message)
    ensures SafePath(root, directory).Err? ==>
      message == FailedText("list files in", directory, if '\0' in directory then NulInName else SecurityViolation)
  {
    var resolved := SafePath(root, directory);
    if resolved.Err? {
      return FailedText("list files in", directory, resolved.error);
    }
    var p := resolved.value;
    if !IsDirectory(store, p) {
      return directory + " is not a valid directory.";
    }
    var names := ChildNames(store, p);
    message := "Contents of " + directory + ": " + Join(names, ", ");
    assert Enumerates(names, Children(store, p));
  }

  /** When the target is an existing directory, creating its parent changes nothing. */
  lemma DirectoryTargetUnchanged(store: Store, p: Path)
    requires WellFormed(store) && Canonical(p)
    requires MakeDirs(store, Parent(p)).Made?
    requires var s := MakeDirs(store, Parent(p)).store; p in s && s[p].Directory?
    ensures MakeDirs(store, Parent(p)).store == store
  {
    var s := MakeDirs(store, Parent(p)).store;
    MakeDirsEffect(store, Parent(p));
    if p != [] {
      AncestorsAreDirectories(store, p, |p| - 1);
    }
  }

  /** A successful write at a resolved path keeps the file system well
      formed, stores `content` there, leaves every ancestor a directory,
      keeps every other entry, and adds only directories on the way. */
  lemma WriteAtEffect(store: Store, p: Path, content: string)
    requires WellFormed(store) && Canonical(p)
    requires WriteAt(store, p, content).Wrote?
    ensures var s := WriteAt(store, p, content).store;
      && WellFormed(s)
      && p in s && s[p] == File(content)
      && (forall i :: 0 <= i < |p| ==> p[..i] in s && s[p[..i]] == Directory)
      && (forall q :: q in store && q != p ==> q in s && s[q] == store[q])
      && (forall q :: q in s && q !in store ==> q <= p)
  {
    var s := MakeDirs(store, Parent(p)).store;
    MakeDirsEffect(store, Parent(p));
    var s' := s[p := File(content)];
    forall q | q in s' ensures Canonical(q) && (q != [] ==> Parent(q) in s' && s'[Parent(q)] == Directory) {
      if q == p && p != [] {
        assert Parent(p) == Parent(p)[..|Parent(p)|];
      }
    }
    forall i | 0 <= i < |p| ensures p[..i] in s' && s'[p[..i]] == Directory {
      assert p[..i] == Parent(p)[..i];
    }
    forall q | q in s' && q !in store ensures q <= p {
      if q != p {
        assert q <= Parent(p);
      }
    }
  }

  /** Every failure text starts with the verb and the name it was given. */
  lemma FailedTextPrefix(verb: string, name: string, error: string)
    ensures StartsWith(FailedText(verb, name, error), FailurePrefix(verb, name))
  {
    var prefix := FailurePrefix(verb, name);
    assert (prefix + error)[..|prefix|] == prefix;
  }

  /** `write_file` never raises: it reports "Successfully wrote to", or a
      "Failed to write to" text and leaves the file system as it was. */
  lemma WriteNeverRaises(store: Store, root: Path, name: string, content: string)
    requires Canonical(root)
    ensures var w := Write(store, root, name, content);
      || w.message == "Successfully wrote to " + name
      || (StartsWith(w.message, FailurePrefix("write to", name)) && w.store == store)
  {
    match SafePath(root, name)
    case Err(e) =>
      FailedTextPrefix("write to", name, e);
    case Ok(p) =>
      match WriteAt(store, p, content)
      case WriteFailed(e) =>
        FailedTextPrefix("write to", name, Describe(e));
      case Wrote(_) =>
  }

  /** What was written is read back, with its line ends translated. */
  lemma WriteThenRead(store: Store, root: Path, name: string, content: string)
    requires WellFormed(store) && Canonical(root)
    requires Write(store, root, name, content).message == "Successfully wrote to " + name
    ensures Read(Write(store, root, name, content).store, root, name) == UniversalNewlines(content)
  {
    var p := SafePath(root, name).value;
    WriteAtEffect(store, p, content);
  }

  /** Content without a carriage return is read back exactly as written. */
  lemma WriteThenReadPlain(store: Store, root: Path, name: string, content: string)
    requires WellFormed(store) && Canonical(root) && '\r' !in content
    requires Write(store, root, name, content).message == "Successfully wrote to " + name
    ensures Read(Write(store, root, name, content).store, root, name) == content
  {
    WriteThenRead(store, root, name, content);
    UniversalNewlinesPlain(content);
  }

  /** After a successful write every ancestor of the file is a directory:
      the parents were created on the way. */
  lemma WriteCreatesParents(store: Store, root: Path, name: string, content: string)
    requires WellFormed(store) && Canonical(root)
    requires Write(store, root, name, content).message == "Successfully wrote to " + name
    ensures var p := SafePath(root, name).value;
      var s := Write(store, root, name, content).store;
      forall i :: 0 <= i < |p| ==> p[..i] in s && s[p[..i]] == Directory
  {
    WriteAtEffect(store, SafePath(root, name).value, content);
  }

  /** Writing overwrites: a second write of the same name succeeds too, and
      leaves the file system and the answer of writing only the second
      content. */
  lemma WriteTwice(store: Store, root: Path, name: string, first: string, second: string)
    requires WellFormed(store) && Canonical(root)
    requires Write(store, root, name, first).message == "Successfully wrote to " + name
    ensures Write(store, root, name, second).message == "Successfully wrote to " + name
    ensures Write(Write(store, root, name, first).store, root, name, second) == Write(store, root, name, second)
  {
    var p := SafePath(root, name).value;
    var dir := Parent(p);
    var s0 := MakeDirs(store, dir).store;
    MakeDirsEffect(store, dir);
    assert dir[..|dir|] == dir;
    assert p != [] && dir != p;
    var s1 := s0[p := File(first)];
    assert WriteAt(store, p, first) == Wrote(s1);
    assert MakeDirs(s1, dir) == Made(s1);
    assert WriteAt(s1, p, second) == Wrote(s0[p := File(second)]);
  }

  /** A "\r\n" line end reads back as "\n". */
  lemma {:induction false} CrLfReadsAsLf(a: string, b: string)
    requires '\r' !in a && '\r' !in b
    ensures UniversalNewlines(a + "\r\n" + b) == a + "\n" + b
    decreases |a|
  {
    var s := a + "\r\n" + b;
    if |a| == 0 {
      assert s == "\r\n" + b && s[0] == '\r' && s[1] == '\n' && s[2..] == b;
      UniversalNewlinesPlain(b);
      assert UniversalNewlines(s) == "\n" + UniversalNewlines(s[2..]);
    } else {
      assert s[0] == a[0] && a[0] != '\r';
      assert s[1..] == a[1..] + "\r\n" + b;
      assert '\r' !in a[1..] by {
        forall c | c in a[1..] ensures c != '\r' {
          assert c in a;
        }
      }
      CrLfReadsAsLf(a[1..], b);
      assert UniversalNewlines(s) == [a[0]] + UniversalNewlines(s[1..]);
      assert a == [a[0]] + a[1..];
    }
  }

  /** A missing file reads as "File X does not exist." */
  lemma ReadMissing(store: Store, root: Path, name: string)
    requires Canonical(root) && SafePath(root, name).Ok? && SafePath(root, name).value !in store
    ensures Read(store, root, name) == "File " + name + " does not exist."
  {
  }

  /** The workspace file system the agent's tools act on. */
  class Workspace {
    const root: Path
    var entries: Store

    ghost predicate Valid()
      reads this
    {
      Canonical(root) && WellFormed(entries)
    }

    constructor (root: Path, entries: Store)
      requires Canonical(root) && WellFormed(entries)
      ensures Valid() && this.root == root && this.entries == entries
    {
      this.root := root;
      this.entries := entries;
    }

    /** `write_file(name, content)`: the parent directories are created
        first, then the file is written; on failure nothing has changed. */
    method WriteFile(name: string, content: string) returns (message: string)
      requires Valid()
      modifies this
      ensures Valid()
      ensures WriteOutcome(entries, message) == Write(old(entries), root, name, content)
    {
      var resolved := SafePath(root, name);
      if resolved.Err? {
        return FailedText("write to", name, resolved.error);
      }
      var p := resolved.value;
      var made := MakeDirs(entries, Parent(p));
      if made.MkdirFailed? {
        return FailedText("write to", name, Describe(made.error));
      }
      if p in made.store && made.store[p].Directory? {
        DirectoryTargetUnchanged(entries, p);
      } else {
        WriteAtEffect(entries, p, content);
      }
      entries := made.store;
      if p in entries && entries[p].Directory? {
        return FailedText("write to", name, Describe(IsADirectory(p)));
      }
      entries := entries[p := File(content)];
      message := "Successfully wrote to " + name;
    }
  }
}
