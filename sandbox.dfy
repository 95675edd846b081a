/** The workspace sandbox of src/tools/filesystem.py: `_get_safe_path` joins a
    requested name to the resolved workspace root, resolves the result, and
    accepts it only when its text begins with the root's text. Paths are
    absolute and are modelled as their segments; resolution is lexical. */
module Sandbox {
  import opened Text
  import opened Results

  /** An absolute path as its segments: "/home/ws" is ["home", "ws"], "/" is []. */
  type Path = seq<string>

  /** A segment of a resolved path: not empty, not "." or "..", no separator
      and no NUL character (which no file name can hold). */
  predicate IsSegment(s: string) {
    s != "" && s != "." && s != ".." && '/' !in s && '\0' !in s
  }

  /** What `Path.resolve()` produces: every segment is a real name. */
  predicate Canonical(p: Path) {
    forall k :: 0 <= k < |p| ==> IsSegment(p[k])
  }

  /** "/a/b" for ["a", "b"], "" for []. */
  function Segments(p: Path): string
    decreases |p|
  {
    if |p| == 0 then "" else "/" + (p[0] + Segments(p[1..]))
  }

  /** `str(path)` */
  function Render(p: Path): string {
    if |p| == 0 then "/" else Segments(p)
  }

  /** `os.path.basename(str(path))` */
  function Basename(p: Path): string {
    if |p| == 0 then "" else p[|p| - 1]
  }

  /** One component of a requested name applied to a resolved path: empty and
      "." components vanish, ".." drops the last segment (and stays at "/"). */
  function Step(p: Path, part: string): Path {
    if part == "" || part == "." then p
    else if part == ".." then (if |p| == 0 then p else p[..|p| - 1])
    else p + [part]
  }

  /** Lexical resolution of the components `parts`, left to right, from `base`. */
  function Normalize(base: Path, parts: seq<string>): Path
    decreases |parts|
  {
    if |parts| == 0 then base else Normalize(Step(base, parts[0]), parts[1..])
  }

  predicate IsAbsolute(name: string) {
    |name| > 0 && name[0] == '/'
  }

  /** `(safe_root / name).resolve()`: an absolute name replaces the root. */
  function Target(root: Path, name: string): Path {
    Normalize(if IsAbsolute(name) then [] else root, Split(name, '/'))
  }

  const SecurityViolation: string := "Security Violation: Attempted access outside of workspace root."

  /** What `Path.resolve()` raises for a name holding the NUL character. */
  const NulInName: string := "lstat: embedded null character in path"

  /** `_get_safe_path(name)` with the workspace root already resolved to `root`:
      a name holding NUL cannot be resolved; otherwise either a resolved
      path whose text begins with the root's text, or the security-violation
      error. */
  function SafePath(root: Path, name: string): (r: Result<Path>)
    requires Canonical(root)
    ensures r.Ok? ==> Canonical(r.value) && r.value == Target(root, name)
    ensures r.Ok? <==> '\0' !in name && StartsWith(Render(Target(root, name)), Render(root))
    ensures r.Err? ==> r.error == (if '\0' in name then NulInName else SecurityViolation)
  {
    if '\0' in name then Err(NulInName)
    else
      var target := Target(root, name);
      SplitExcludes(name, '/', '\0');
      NormalizeCanonical(if IsAbsolute(name) then [] else root, Split(name, '/'));
      if StartsWith(Render(target), Render(root)) then Ok(target) else Err(SecurityViolation)
  }

  lemma {:induction false} NormalizeCanonical(base: Path, parts: seq<string>)
    requires Canonical(base)
    requires forall k :: 0 <= k < |parts| ==> '/' !in parts[k] && '\0' !in parts[k]
    ensures Canonical(Normalize(base, parts))
    decreases |parts|
  {
    if |parts| > 0 {
      NormalizeCanonical(Step(base, parts[0]), parts[1..]);
    }
  }

  /** The text of a resolved path holds no NUL character. */
  lemma {:induction false} SegmentsExclude(p: Path)
    requires Canonical(p)
    ensures '\0' !in Segments(p)
    decreases |p|
  {
    if |p| > 0 {
      SegmentsExclude(p[1..]);
      assert IsSegment(p[0]);
      var t := Segments(p);
      assert t == "/" + (p[0] + Segments(p[1..]));
      forall k | 0 <= k < |t| ensures t[k] != '\0' {
        if k == 0 {
        } else if k <= |p[0]| {
          assert t[k] == p[0][k - 1];
        } else {
          assert t[k] == Segments(p[1..])[k - 1 - |p[0]|];
        }
      }
    }
  }

  /** Canonical components are simply appended. */
  lemma {:induction false} NormalizeSegments(base: Path, p: Path)
    requires Canonical(p)
    ensures Normalize(base, p) == base + p
    decreases |p|
  {
    if |p| > 0 {
      NormalizeSegments(base + [p[0]], p[1..]);
      assert base + [p[0]] + p[1..] == base + p;
    }
  }

  lemma {:induction false} SegmentsAppend(p: Path, q: Path)
    ensures Segments(p + q) == Segments(p) + Segments(q)
    decreases |p|
  {
    if |p| > 0 {
      SegmentsAppend(p[1..], q);
      assert (p + q)[1..] == p[1..] + q;
    } else {
      assert p + q == q;
    }
  }

  /** The text of a non-empty canonical path splits back into "" and its segments. */
  lemma SplitSegments(p: Path)
    requires Canonical(p) && |p| > 0
    ensures Split(Segments(p), '/') == [""] + p
  {
    SplitLeading(p[0] + Segments(p[1..]));
    SplitJoined(p);
  }

  lemma SplitLeading(s: string)
    ensures Split("/" + s, '/') == [""] + Split(s, '/')
  {
    assert ("/" + s)[1..] == s;
  }

  /** The segments of a non-empty canonical path, joined by the separator,
      split back into the same segments. */
  lemma {:induction false} SplitJoined(p: Path)
    requires Canonical(p) && |p| > 0
    ensures Split(p[0] + Segments(p[1..]), '/') == p
    decreases |p|
  {
    if |p| == 1 {
      assert p[0] + Segments(p[1..]) == p[0];
      SplitNoSeparator(p[0], '/');
    } else {
      var q := p[1..];
      SplitJoined(q);
      assert Segments(q) == "/" + (q[0] + Segments(q[1..]));
      assert q[0] == p[1] && q[1..] == p[2..];
      var rest := p[1] + Segments(p[2..]);
      assert p[0] + Segments(q) == p[0] + ['/'] + rest;
      SplitAtFirst(p[0], '/', rest);
      assert [p[0]] + q == p;
    }
  }

  /** "." and "" name the root itself. */
  lemma CurrentDirectoryIsRoot(root: Path)
    requires Canonical(root)
    ensures SafePath(root, ".") == Ok(root)
    ensures SafePath(root, "") == Ok(root)
  {
    assert Split(".", '/') == ["."] by { SplitNoSeparator(".", '/'); }
    assert Split("", '/') == [""];
    assert Target(root, ".") == Normalize(Step(root, "."), []) == root;
    assert Target(root, "") == Normalize(Step(root, ""), []) == root;
    assert Render(root)[..|Render(root)|] == Render(root);
  }

  /** An absolute name replaces the root when joined: the root does not matter. */
  lemma AbsoluteNameIgnoresRoot(root: Path, other: Path, name: string)
    requires IsAbsolute(name)
    ensures Target(root, name) == Target(other, name) == Normalize([], Split(name, '/'))
  {
  }

  /** Feeding an accepted path back into the resolver returns it unchanged. */
  lemma SafePathIdempotent(root: Path, name: string)
    requires Canonical(root) && SafePath(root, name).Ok?
    ensures SafePath(root, Render(SafePath(root, name).value)) == SafePath(root, name)
  {
    var p := SafePath(root, name).value;
    var text := Render(p);
    SegmentsExclude(p);
    assert '\0' !in text;
    if |p| == 0 {
      assert text == "/" == "" + ['/'] + "";
      SplitAtFirst("", '/', "");
      assert Split(text, '/') == ["", ""];
      assert Target(root, text) == Normalize([], ["", ""]) == [];
    } else {
      SplitSegments(p);
      assert IsAbsolute(text);
      NormalizeSegments([], p);
      assert Target(root, text) == Normalize(Step([], ""), p) == p;
    }
  }

  /** Every path under the root (or the root itself) is accepted. */
  lemma DescendantAccepted(root: Path, name: string)
    requires Canonical(root) && '\0' !in name
    requires root <= Target(root, name)
    ensures SafePath(root, name) == Ok(Target(root, name))
  {
    var t := Target(root, name);
    if |root| > 0 {
      var rest := t[|root|..];
      assert t == root + rest;
      SegmentsAppend(root, rest);
    } else if |t| > 0 {
      assert Render(t)[..1] == "/";
    }
  }

  /** A root `/a/b` that is a character prefix of a sibling `/a/bc` lets the sibling in. */
  predicate IsPrefixSibling(root: Path, t: Path) {
    && |root| > 0 && |t| >= |root|
    && t[..|root| - 1] == root[..|root| - 1]
    && StartsWith(t[|root| - 1], root[|root| - 1])
    && t[|root| - 1] != root[|root| - 1]
  }

  /** What the character-prefix test admits: the root, its descendants, and
      the descendants of any sibling whose name extends the root's last name. */
  lemma AcceptedIsDescendantOrSibling(root: Path, name: string)
    requires Canonical(root) && SafePath(root, name).Ok?
    ensures root <= SafePath(root, name).value || IsPrefixSibling(root, SafePath(root, name).value)
  {
    var t := SafePath(root, name).value;
    if |root| > 0 && |t| > 0 {
      PrefixSegments(root, t);
    }
  }

  /** Where two rendered paths agree, their first names line up: the root's
      first name is a prefix of the target's, and equal to it when more
      segments follow. */
  lemma AlignFirstSegment(r0: string, rr: string, t0: string, tt: string)
    requires '/' !in r0 && '/' !in t0
    requires rr == [] || rr[0] == '/'
    requires tt == [] || tt[0] == '/'
    requires StartsWith(t0 + tt, r0 + rr)
    ensures |r0| <= |t0| && t0[..|r0|] == r0
    ensures rr != [] ==> t0 == r0 && StartsWith(tt, rr)
  {
    var R, T := r0 + rr, t0 + tt;
    assert |t0| < |R| ==> T[|t0|] == R[|t0|] by {
      if |t0| < |R| { assert T[..|R|][|t0|] == T[|t0|]; }
    }
    assert |t0| < |T| ==> T[|t0|] == '/';
    assert |r0| <= |t0|;
    assert t0[..|r0|] == T[..|r0|] == R[..|r0|] == r0;
    if rr != [] {
      assert R[|r0|] == '/';
      assert |t0| == |r0|;
      assert T[|t0|..] == tt && R[|r0|..] == rr;
      assert T[|t0|..][..|rr|] == T[..|R|][|r0|..];
    }
  }

  lemma {:induction false} PrefixSegments(r: Path, t: Path)
    requires Canonical(r) && Canonical(t) && |r| > 0 && |t| > 0
    requires StartsWith(Segments(t), Segments(r))
    ensures r <= t || IsPrefixSibling(r, t)
    decreases |r|
  {
    var rr, tt := Segments(r[1..]), Segments(t[1..]);
    var r0, t0 := r[0], t[0];
    assert Segments(r) == "/" + (r0 + rr);
    assert Segments(t) == "/" + (t0 + tt);
    assert StartsWith(t0 + tt, r0 + rr) by {
      assert Segments(t)[1..][..|r0 + rr|] == Segments(t)[..|Segments(r)|][1..];
    }
    assert tt == [] || tt[0] == '/';
    assert rr == [] || rr[0] == '/';
    AlignFirstSegment(r0, rr, t0, tt);
    if |r| == 1 {
      if t0 == r0 {
        assert r == [r0] <= t;
      } else {
        assert IsPrefixSibling(r, t);
      }
    } else {
      assert |t| > 1;
      PrefixSegments(r[1..], t[1..]);
      if r[1..] <= t[1..] {
        assert r == [r0] + r[1..] && t == [t0] + t[1..];
      } else {
        assert r[..|r| - 1] == [r0] + r[1..][..|r| - 2];
        assert t[..|r| - 1] == [t0] + t[1..][..|r| - 2];
        assert IsPrefixSibling(r, t);
      }
    }
  }

  /** The sibling directory `<root>_other` style: `../<last><suffix>` is
      accepted although it is not under the root. */
  lemma SiblingAccepted(root: Path, suffix: string)
    requires Canonical(root) && |root| > 0
    requires suffix != [] && '/' !in suffix && '\0' !in suffix
    ensures SafePath(root, "../" + root[|root| - 1] + suffix).Ok?
    ensures var t := SafePath(root, "../" + root[|root| - 1] + suffix).value;
      !(root <= t) && t == root[..|root| - 1] + [root[|root| - 1] + suffix]
  {
    var last := root[|root| - 1];
    var up := root[..|root| - 1];
    var t := up + [last + suffix];
    SiblingTarget(root, suffix);
    assert IsSegment(last);
    var name := "../" + last + suffix;
    forall k | 0 <= k < |name| ensures name[k] != '\0' {
      if 3 <= k < 3 + |last| {
        assert name[k] == last[k - 3];
      } else if 3 + |last| <= k {
        assert name[k] == suffix[k - 3 - |last|];
      }
    }
    assert root == up + [last];
    SiblingText(up, last, suffix);
    assert t[|root| - 1] != last;
  }

  /** `../<last><suffix>` resolves to the sibling `<last><suffix>` of the root. */
  lemma SiblingTarget(root: Path, suffix: string)
    requires Canonical(root) && |root| > 0
    requires suffix != [] && '/' !in suffix
    ensures Target(root, "../" + root[|root| - 1] + suffix) == root[..|root| - 1] + [root[|root| - 1] + suffix]
  {
    var last := root[|root| - 1];
    assert IsSegment(last);
    var x := last + suffix;
    assert forall k :: 0 <= k < |x| ==> x[k] != '/' by {
      forall k | 0 <= k < |x| ensures x[k] != '/' {
        if k < |last| { assert x[k] == last[k]; } else { assert x[k] == suffix[k - |last|]; }
      }
    }
    assert x[..|last|] == last;
    assert x != "." && x != ".." && x != "";
    var name := "../" + last + suffix;
    assert name == ".." + ['/'] + x;
    SplitAtFirst("..", '/', x);
    SplitNoSeparator(x, '/');
    assert Split(name, '/') == ["..", x];
    assert !IsAbsolute(name) by { assert name[0] == '.'; }
    var up := root[..|root| - 1];
    assert Step(root, "..") == up;
    assert ["..", x][1..] == [x];
    assert Normalize(root, ["..", x]) == Normalize(up, [x]);
    assert Step(up, x) == up + [x];
    assert Normalize(up, [x]) == Normalize(up + [x], []);
  }

  /** The text of `/.../<last><suffix>` starts with the text of `/.../<last>`. */
  lemma SiblingText(up: Path, last: string, suffix: string)
    ensures StartsWith(Render(up + [last + suffix]), Render(up + [last]))
  {
    SegmentsAppend(up, [last]);
    SegmentsAppend(up, [last + suffix]);
    assert Segments([last]) == "/" + (last + Segments([]));
    assert Segments([last + suffix]) == "/" + ((last + suffix) + Segments([]));
    var head := Segments(up) + ("/" + last);
    assert Segments(up + [last]) == head;
    assert Segments(up + [last + suffix]) == head + suffix;
    assert (head + suffix)[..|head|] == head;
  }

  /** Four names without "/" joined by "/" split back into the four. */
  lemma SplitFour(a: string, b: string, c: string, d: string)
    requires '/' !in a && '/' !in b && '/' !in c && '/' !in d
    ensures Split(a + ['/'] + (b + ['/'] + (c + ['/'] + d)), '/') == [a, b, c, d]
  {
    SplitNoSeparator(d, '/');
    SplitAtFirst(c, '/', d);
    SplitAtFirst(b, '/', c + ['/'] + d);
    SplitAtFirst(a, '/', b + ['/'] + (c + ['/'] + d));
  }

  /** Two parent steps from a two-level root reach "/", so the remaining
      segments name a path at the top of the file system. */
  lemma ClimbOutTarget(r1: string, r2: string, a: string, b: string)
    requires IsSegment(r1) && IsSegment(r2) && IsSegment(a) && IsSegment(b)
    ensures Target([r1, r2], ".." + ['/'] + (".." + ['/'] + (a + ['/'] + b))) == [a, b]
  {
    var name := ".." + ['/'] + (".." + ['/'] + (a + ['/'] + b));
    SplitFour("..", "..", a, b);
    var parts := ["..", "..", a, b];
    assert name[0] == '.';
    assert Normalize([r1, r2], parts) == Normalize([r1], parts[1..]);
    assert Normalize([r1], parts[1..]) == Normalize([], parts[2..]);
    assert parts[2] == a && Step([], a) == [a];
    assert Normalize([], parts[2..]) == Normalize([a], parts[3..]);
    assert parts[3..] == [b] && Step([a], b) == [a, b];
    assert Normalize([a], parts[3..]) == Normalize([a, b], []);
  }

  /** A name that climbs out of a two-level root (such as `../../etc/passwd`
      from `/home/ws`) is rejected when its first segment differs from the
      root's at the first character. */
  lemma EscapeRejected(r1: string, r2: string, a: string, b: string)
    requires IsSegment(r1) && IsSegment(r2) && IsSegment(a) && IsSegment(b)
    requires a[0] != r1[0]
    ensures SafePath([r1, r2], ".." + ['/'] + (".." + ['/'] + (a + ['/'] + b))) == Err(SecurityViolation)
  {
    var name := ".." + ['/'] + (".." + ['/'] + (a + ['/'] + b));
    assert '\0' !in name;
    ClimbOutTarget(r1, r2, a, b);
    assert Render([a, b])[1] == a[0] by { assert Render([a, b]) == "/" + (a + Segments([b])); }
    assert Render([r1, r2])[1] == r1[0] by {
      assert Render([r1, r2]) == "/" + (r1 + Segments([r2]));
    }
  }
}
