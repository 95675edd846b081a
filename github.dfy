/** The repository tools of `src/tools/github.py`: bringing an outside
    source into the workspace, the commit history, and the pending diff.
    Git and zip archives are parameters: `clone` and `extract` stand for
    `Repo.clone_from` and `ZipFile.extractall` (the entries they create in
    the target folder, or the error they raised), `zipExists` for
    `Path(source).exists()`, and `openRepo` for `Repo(path)`. */
module GitHub {
  import opened Text
  import opened Results
  import opened Sandbox
  import opened FileTools

  /** How `ingest_external_source` treats a source, checked in this order. */
  datatype SourceKind = Clone | Extract | Unsupported

  /** An http(s) address of a `.git` repository is cloned; otherwise a
      `.zip` path is extracted; anything else is refused. */
  function Classify(source: string): (k: SourceKind)
    ensures k == Clone <==> EndsWith(source, ".git") && StartsWith(source, "http")
    ensures k == Extract <==> EndsWith(source, ".zip") && !(EndsWith(source, ".git") && StartsWith(source, "http"))
    ensures k == Unsupported <==> !(EndsWith(source, ".git") && StartsWith(source, "http")) && !EndsWith(source, ".zip")
  {
    if EndsWith(source, ".git") && StartsWith(source, "http") then Clone
    else if EndsWith(source, ".zip") then Extract
    else Unsupported
  }

  /** A source cannot end both in ".git" and in ".zip": every `.zip` path,
      an http one included, is extracted as a local archive. */
  lemma ZipIsExtracted(source: string)
    requires EndsWith(source, ".zip")
    ensures Classify(source) == Extract
  {
    assert source[|source| - 1] == 'p';
  }

  function IngestFailure(e: string): string {
    "Error ingesting source: " + e
  }

  function AlreadyExists(target: string): string {
    "Error: Target folder '" + target + "' already exists. Please choose a new one."
  }

  function ZipNotFound(source: string): string {
    "Error: Zip file not found at " + source
  }

  const UnsupportedText: string := "Error: Unsupported source type. Use a .git URL or a path to a .zip file."

  datatype Outcome = Outcome(store: Store, message: string)

  /** `q` lies strictly inside the folder `p` and everything between them is
      a directory of `tree`: an entry a clone or an extraction can create. */
  predicate Placed(p: Path, tree: Store, q: Path) {
    && |p| < |q| && q[..|p|] == p && Canonical(q)
    && forall i :: |p| < i < |q| ==> q[..i] in tree && tree[q[..i]] == Directory
  }

  /** The folder `p` of `made` filled with what a clone or an extraction
      created inside it; nothing outside `p` is touched. */
  function Graft(made: Store, p: Path, tree: Store): Store {
    made + map q | q in tree && Placed(p, tree, q) :: tree[q]
  }

  /** Filling an empty folder keeps the file system well formed, keeps
      every entry it had, and adds entries inside the folder only. */
  lemma GraftEffect(made: Store, p: Path, tree: Store)
    requires WellFormed(made) && p in made && made[p] == Directory
    requires forall q :: q in made ==> !(|p| < |q| && q[..|p|] == p)
    ensures var g := Graft(made, p, tree);
      && WellFormed(g)
      && (forall q :: q in made ==> q in g && g[q] == made[q])
      && (forall q :: q in g && q !in made ==> |p| < |q| && q[..|p|] == p)
  {
    var g := Graft(made, p, tree);
    forall q | q in g && q != []
      ensures Canonical(q) && Parent(q) in g && g[Parent(q)] == Directory
    {
      if q !in made {
        assert Placed(p, tree, q);
        var up := Parent(q);
        if |up| == |p| {
          assert up == q[..|p|] == p;
        } else {
          assert up == q[..|q| - 1];
          assert up in tree && tree[up] == Directory;
          assert up[..|p|] == q[..|p|];
          forall i | |p| < i < |up| ensures up[..i] in tree && tree[up[..i]] == Directory {
            assert up[..i] == q[..i];
          }
          assert Placed(p, tree, up);
          assert up !in made;
        }
      }
    }
  }

  /** After the target folder was made: clone, extract, or refuse. A
      failing clone or extraction keeps the folder made before it. */
  function Populate(made: Store, p: Path, source: string, target: string,
                    clone: (string, Path) -> Result<Store>, zipExists: string -> bool,
                    extract: (string, Path) -> Result<Store>): Outcome
  {
    match Classify(source)
    case Clone =>
      (match clone(source, p)
       case Ok(tree) => Outcome(Graft(made, p, tree), "Successfully cloned repository into " + target)
       case Err(e) => Outcome(made, IngestFailure(e)))
    case Extract =>
      if !zipExists(source) then Outcome(made, ZipNotFound(source))
      else
        (match extract(source, p)
         case Ok(tree) => Outcome(Graft(made, p, tree), "Successfully extracted zip into " + target)
         case Err(e) => Outcome(made, IngestFailure(e)))
    case Unsupported => Outcome(made, UnsupportedText)
  }

  /** `ingest_external_source(source, target)`: resolve the target in the
      sandbox, refuse an existing one, create it, then act on the kind of
      source. */
  function Ingest(store: Store, root: Path, source: string, target: string,
                  clone: (string, Path) -> Result<Store>, zipExists: string -> bool,
                  extract: (string, Path) -> Result<Store>): (out: Outcome)
    requires Canonical(root)
    ensures SafePath(root, target).Err? ==> out == Outcome(store, IngestFailure(SafePath(root, target).error))
    ensures SafePath(root, target).Ok? && SafePath(root, target).value in store ==>
      out == Outcome(store, AlreadyExists(target))
    ensures (SafePath(root, target).Ok? && SafePath(root, target).value !in store
      && MakeDirs(store, SafePath(root, target).value).MkdirFailed?) ==>
      out == Outcome(store, IngestFailure(Describe(MakeDirs(store, SafePath(root, target).value).error)))
  {
    match SafePath(root, target)
    case Err(e) => Outcome(store, IngestFailure(e))
    case Ok(p) =>
      if p in store then Outcome(store, AlreadyExists(target))
      else
        match MakeDirs(store, p)
        case MkdirFailed(e) => Outcome(store, IngestFailure(Describe(e)))
        case Made(s) => Populate(s, p, source, target, clone, zipExists, extract)
  }

  /** Ingestion never changes or removes an existing entry and keeps the
      file system well formed; what it adds is the target folder, its
      missing parents, and entries inside the folder. */
  lemma IngestConfined(store: Store, root: Path, source: string, target: string,
                       clone: (string, Path) -> Result<Store>, zipExists: string -> bool,
                       extract: (string, Path) -> Result<Store>)
    requires WellFormed(store) && Canonical(root)
    ensures var out := Ingest(store, root, source, target, clone, zipExists, extract);
      && WellFormed(out.store)
      && (forall q :: q in store ==> q in out.store && out.store[q] == store[q])
      && (forall q :: q in out.store && q !in store ==>
            SafePath(root, target).Ok? && (q <= SafePath(root, target).value || SafePath(root, target).value <= q))
  {
    var resolved := SafePath(root, target);
    if resolved.Ok? && resolved.value !in store && MakeDirs(store, resolved.value).Made? {
      var p := resolved.value;
      var made := MakeDirs(store, p).store;
      MakeDirsEffect(store, p);
      assert p[..|p|] == p;
      forall q | q in made ensures !(|p| < |q| && q[..|p|] == p) {
        if q in store && |p| < |q| && q[..|p|] == p {
          AncestorsAreDirectories(store, q, |p|);
        }
      }
      var out := Ingest(store, root, source, target, clone, zipExists, extract);
      assert out == Populate(made, p, source, target, clone, zipExists, extract);
      PopulateConfined(made, p, source, target, clone, zipExists, extract);
    }
  }

  /** Filling the new folder keeps what was made and adds inside it only. */
  lemma PopulateConfined(made: Store, p: Path, source: string, target: string,
                         clone: (string, Path) -> Result<Store>, zipExists: string -> bool,
                         extract: (string, Path) -> Result<Store>)
    requires WellFormed(made) && p in made && made[p] == Directory
    requires forall q :: q in made ==> !(|p| < |q| && q[..|p|] == p)
    ensures var out := Populate(made, p, source, target, clone, zipExists, extract);
      && WellFormed(out.store)
      && (forall q :: q in made ==> q in out.store && out.store[q] == made[q])
      && (forall q :: q in out.store && q !in made ==> |p| < |q| && q[..|p|] == p)
  {
    var out := Populate(made, p, source, target, clone, zipExists, extract);
    if out.store != made {
      var tree := if Classify(source) == Clone then clone(source, p).value else extract(source, p).value;
      assert out.store == Graft(made, p, tree);
      GraftEffect(made, p, tree);
    }
  }

  /** A target outside the workspace is refused before anything else: the
      file system is untouched and no source is looked at. */
  lemma IngestOutsideRefused(store: Store, root: Path, source: string, target: string,
                             clone: (string, Path) -> Result<Store>, zipExists: string -> bool,
                             extract: (string, Path) -> Result<Store>)
    requires Canonical(root) && '\0' !in target && !StartsWith(Render(Target(root, target)), Render(root))
    ensures Ingest(store, root, source, target, clone, zipExists, extract)
         == Outcome(store, IngestFailure(SecurityViolation))
  {
  }

  /** An existing target is refused and nothing is created. */
  lemma IngestExistingRefused(store: Store, root: Path, source: string, target: string,
                              clone: (string, Path) -> Result<Store>, zipExists: string -> bool,
                              extract: (string, Path) -> Result<Store>)
    requires Canonical(root) && SafePath(root, target).Ok? && SafePath(root, target).value in store
    ensures Ingest(store, root, source, target, clone, zipExists, extract)
         == Outcome(store, AlreadyExists(target))
  {
  }

  /** The folder is created before the source is classified: an
      unsupported source, or a zip that is not there, still leaves the new
      target folder (and its missing parents) behind, and nothing else. */
  lemma IngestLeavesFolder(store: Store, root: Path, source: string, target: string,
                           clone: (string, Path) -> Result<Store>, zipExists: string -> bool,
                           extract: (string, Path) -> Result<Store>)
    requires WellFormed(store) && Canonical(root)
    requires SafePath(root, target).Ok? && SafePath(root, target).value !in store
    requires MakeDirs(store, SafePath(root, target).value).Made?
    requires Classify(source) == Unsupported || (Classify(source) == Extract && !zipExists(source))
    ensures var p := SafePath(root, target).value;
      var out := Ingest(store, root, source, target, clone, zipExists, extract);
      && out.store == MakeDirs(store, p).store
      && p in out.store && out.store[p] == Directory
      && WellFormed(out.store)
      && (forall q :: q in store ==> q in out.store && out.store[q] == store[q])
      && out.message == (if Classify(source) == Unsupported then UnsupportedText else ZipNotFound(source))
  {
    var p := SafePath(root, target).value;
    MakeDirsEffect(store, p);
    assert p[..|p|] == p;
  }

  /** Cloning is attempted exactly for an http address ending in ".git",
      and its result is the tool's result. */
  lemma IngestClones(store: Store, root: Path, source: string, target: string,
                     clone: (string, Path) -> Result<Store>, zipExists: string -> bool,
                     extract: (string, Path) -> Result<Store>)
    requires Canonical(root)
    requires SafePath(root, target).Ok? && SafePath(root, target).value !in store
    requires MakeDirs(store, SafePath(root, target).value).Made?
    requires StartsWith(source, "http") && EndsWith(source, ".git")
    ensures var p := SafePath(root, target).value;
      var made := MakeDirs(store, p).store;
      var out := Ingest(store, root, source, target, clone, zipExists, extract);
      && (clone(source, p).Ok? ==>
           out == Outcome(Graft(made, p, clone(source, p).value), "Successfully cloned repository into " + target))
      && (clone(source, p).Err? ==> out == Outcome(made, IngestFailure(clone(source, p).error)))
  {
  }

  /** A source ending in ".zip" that exists is extracted into the new
      folder, and the extraction's result is the tool's result. */
  lemma IngestExtracts(store: Store, root: Path, source: string, target: string,
                       clone: (string, Path) -> Result<Store>, zipExists: string -> bool,
                       extract: (string, Path) -> Result<Store>)
    requires Canonical(root)
    requires SafePath(root, target).Ok? && SafePath(root, target).value !in store
    requires MakeDirs(store, SafePath(root, target).value).Made?
    requires EndsWith(source, ".zip") && zipExists(source)
    ensures var p := SafePath(root, target).value;
      var made := MakeDirs(store, p).store;
      var out := Ingest(store, root, source, target, clone, zipExists, extract);
      && (extract(source, p).Ok? ==>
           out == Outcome(Graft(made, p, extract(source, p).value), "Successfully extracted zip into " + target))
      && (extract(source, p).Err? ==> out == Outcome(made, IngestFailure(extract(source, p).error)))
  {
    ZipIsExtracted(source);
  }

  /** `ingest_external_source` on the workspace. */
  method IngestExternalSource(ws: Workspace, source: string, target: string,
                              clone: (string, Path) -> Result<Store>, zipExists: string -> bool,
                              extract: (string, Path) -> Result<Store>) returns (message: string)
    requires ws.Valid()
    modifies ws
    ensures Outcome(ws.entries, message) == Ingest(old(ws.entries), ws.root, source, target, clone, zipExists, extract)
    ensures ws.Valid()
    ensures forall q :: q in old(ws.entries) ==> q in ws.entries && ws.entries[q] == old(ws.entries)[q]
    ensures forall q :: q in ws.entries && q !in old(ws.entries) ==>
      SafePath(ws.root, target).Ok? && (q <= SafePath(ws.root, target).value || SafePath(ws.root, target).value <= q)
  {
    IngestConfined(ws.entries, ws.root, source, target, clone, zipExists, extract);
    var resolved := SafePath(ws.root, target);
    if resolved.Err? {
      return IngestFailure(resolved.error);
    }
    var p := resolved.value;
    if p in ws.entries {
      return AlreadyExists(target);
    }
    var made := MakeDirs(ws.entries, p);
    if made.MkdirFailed? {
      return IngestFailure(Describe(made.error));
    }
    ws.entries := made.store;
    var kind := Classify(source);
    if kind == Clone {
      var cloned := clone(source, p);
      if cloned.Err? {
        return IngestFailure(cloned.error);
      }
      ws.entries := Graft(ws.entries, p, cloned.value);
      return "Successfully cloned repository into " + target;
    } else if kind == Extract {
      if !zipExists(source) {
        return ZipNotFound(source);
      }
      var extracted := extract(source, p);
      if extracted.Err? {
        return IngestFailure(extracted.error);
      }
      ws.entries := Graft(ws.entries, p, extracted.value);
      return "Successfully extracted zip into " + target;
    } else {
      return UnsupportedText;
    }
  }

  /** One commit: its authored time already formatted as "%Y-%m-%d %H:%M". */
  datatype Commit = Commit(date: string, author: string, summary: string)

  /** What `Repo(path)` finds: whether it is bare, its commits newest
      first (or the error `iter_commits` raised, as on a repository with no
      commit yet), and the output of `git diff` (or the error it raised). */
  datatype Repo = Repo(bare: bool, commits: Result<seq<Commit>>, diff: Result<string>)

  function HistoryLine(c: Commit): string {
    "[" + c.date + "] " + c.author + ": " + c.summary
  }

  /** `iter_commits(max_count=count)`: the first `count` commits; a
      negative count sets no limit. */
  function Latest(commits: seq<Commit>, count: int): (r: seq<Commit>)
    ensures 0 <= count ==> |r| <= count
    ensures |r| == if 0 <= count < |commits| then count else |commits|
    ensures r == commits[..|r|]
  {
    if 0 <= count < |commits| then commits[..count] else commits
  }

  /** One line per commit, in the order the repository lists them. */
  function HistoryLines(commits: seq<Commit>): (r: seq<string>)
    ensures |r| == |commits|
    ensures forall k :: 0 <= k < |commits| ==> r[k] == HistoryLine(commits[k])
  {
    seq(|commits|, k requires 0 <= k < |commits| => HistoryLine(commits[k]))
  }

  function HistoryFailure(e: string): string {
    "Error reading git history: " + e
  }

  const BareText: string := "Error: Could not find a valid git repository at this location."

  /** `get_repo_history(directory, count)` as a value. */
  function History(root: Path, directory: string, count: int, openRepo: Path -> Result<Repo>): (r: string)
    requires Canonical(root)
    ensures SafePath(root, directory).Err? ==> r == HistoryFailure(SafePath(root, directory).error)
    ensures SafePath(root, directory).Ok? && openRepo(SafePath(root, directory).value).Err? ==>
      r == HistoryFailure(openRepo(SafePath(root, directory).value).error)
    ensures SafePath(root, directory).Ok? && openRepo(SafePath(root, directory).value).Ok? ==>
      var repo := openRepo(SafePath(root, directory).value).value;
      && (repo.bare ==> r == BareText)
      && (!repo.bare && repo.commits.Err? ==> r == HistoryFailure(repo.commits.error))
      && (!repo.bare && repo.commits.Ok? ==>
            r == "Recent Activity in " + directory + ":\n" + Join(HistoryLines(Latest(repo.commits.value, count)), "\n"))
  {
    match SafePath(root, directory)
    case Err(e) => HistoryFailure(e)
    case Ok(p) =>
      match openRepo(p)
      case Err(e) => HistoryFailure(e)
      case Ok(repo) =>
        if repo.bare then BareText
        else
          match repo.commits
          case Err(e) => HistoryFailure(e)
          case Ok(commits) =>
            "Recent Activity in " + directory + ":\n" + Join(HistoryLines(Latest(commits, count)), "\n")
  }

  /** The history shows the newest `count` commits at most, one line each,
      in the repository's order. */
  lemma HistoryBounded(commits: seq<Commit>, count: int)
    requires 0 <= count
    ensures |HistoryLines(Latest(commits, count))| <= count
    ensures forall k :: 0 <= k < |HistoryLines(Latest(commits, count))| ==>
      HistoryLines(Latest(commits, count))[k] == HistoryLine(commits[k])
  {
  }

  /** A commit's fields can be read back from its history line when the
      date holds no "]" and the author no ": ". */
  lemma HistoryLineFields(c: Commit)
    ensures StartsWith(HistoryLine(c), "[" + c.date + "] ")
    ensures EndsWith(HistoryLine(c), ": " + c.summary)
  {
    var line := HistoryLine(c);
    var head := "[" + c.date + "] ";
    assert line == head + (c.author + ": " + c.summary);
    assert line[..|head|] == head;
    var tail := ": " + c.summary;
    assert line == ("[" + c.date + "] " + c.author) + tail;
    assert line[|line| - |tail|..] == tail;
  }

  /** `get_repo_history`: the loop appending one line per commit. */
  method GetRepoHistory(root: Path, directory: string, count: int, openRepo: Path -> Result<Repo>)
    returns (message: string)
    requires Canonical(root)
    ensures message == History(root, directory, count, openRepo)
  {
    var resolved := SafePath(root, directory);
    if resolved.Err? {
      return HistoryFailure(resolved.error);
    }
    var repo := openRepo(resolved.value);
    if repo.Err? {
      return HistoryFailure(repo.error);
    }
    if repo.value.bare {
      return BareText;
    }
    if repo.value.commits.Err? {
      return HistoryFailure(repo.value.commits.error);
    }
    var history := CommitLines(Latest(repo.value.commits.value, count));
    message := "Recent Activity in " + directory + ":\n" + Join(history, "\n");
  }

  /** The loop of `get_repo_history`: one line appended per commit. */
  method CommitLines(commits: seq<Commit>) returns (history: seq<string>)
    ensures history == HistoryLines(commits)
  {
    history := [];
    var i := 0;
    while i < |commits|
      invariant 0 <= i <= |commits|
      invariant history == HistoryLines(commits[..i])
    {
      assert commits[..i + 1] == commits[..i] + [commits[i]];
      history := history + [HistoryLine(commits[i])];
      i := i + 1;
    }
    assert commits[..i] == commits;
  }

  const DiffLimit: nat := 2000

  /** The answer for a diff: none, or its first 2000 characters followed by
      "..." (also when it is shorter). */
  function DiffText(directory: string, diff: string): (r: string)
    ensures diff == "" ==> r == "No uncommitted changes."
    ensures diff != "" ==>
      var head := "Uncommitted changes in " + directory + ":\n";
      && StartsWith(r, head)
      && EndsWith(r, "...")
      && |r| == |head| + (if |diff| <= DiffLimit then |diff| else DiffLimit) + 3
      && r[|head|..|r| - 3] == diff[..|r| - 3 - |head|]
  {
    if diff == "" then "No uncommitted changes."
    else
      var head := "Uncommitted changes in " + directory + ":\n";
      var shown := if |diff| <= DiffLimit then diff else diff[..DiffLimit];
      var r := head + shown + "...";
      assert r[..|head|] == head;
      assert r[|r| - 3..] == "...";
      assert r[|head|..|r| - 3] == shown;
      r
  }

  /** `get_file_diffs(directory)`. */
  function GetFileDiffs(root: Path, directory: string, openRepo: Path -> Result<Repo>): (r: string)
    requires Canonical(root)
    ensures SafePath(root, directory).Err? ==> r == "Error reading diffs: " + SafePath(root, directory).error
    ensures (SafePath(root, directory).Ok? && openRepo(SafePath(root, directory).value).Ok?
      && openRepo(SafePath(root, directory).value).value.diff.Ok?) ==>
      r == DiffText(directory, openRepo(SafePath(root, directory).value).value.diff.value)
    ensures SafePath(root, directory).Ok? && openRepo(SafePath(root, directory).value).Err? ==>
      r == "Error reading diffs: " + openRepo(SafePath(root, directory).value).error
    ensures (SafePath(root, directory).Ok? && openRepo(SafePath(root, directory).value).Ok?
      && openRepo(SafePath(root, directory).value).value.diff.Err?) ==>
      r == "Error reading diffs: " + openRepo(SafePath(root, directory).value).value.diff.error
  {
    match SafePath(root, directory)
    case Err(e) => "Error reading diffs: " + e
    case Ok(p) =>
      match openRepo(p)
      case Err(e) => "Error reading diffs: " + e
      case Ok(repo) =>
        match repo.diff
        case Err(e) => "Error reading diffs: " + e
        case Ok(d) => DiffText(directory, d)
  }
}
