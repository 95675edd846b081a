/** Python string operations the tools rely on (str.join, str.split on one
    character, startswith/endswith, strip, lower, replace, int formatting),
    written out over `string` (a sequence of Unicode scalar values, which is
    what a Python `str` holds). */
module Text {

  predicate StartsWith(s: string, prefix: string) {
    |prefix| <= |s| && s[..|prefix|] == prefix
  }

  predicate EndsWith(s: string, suffix: string) {
    |suffix| <= |s| && s[|s| - |suffix|..] == suffix
  }

  /** `sep.join(parts)` */
  function Join(parts: seq<string>, sep: string): string
    decreases |parts|
  {
    if |parts| == 0 then ""
    else if |parts| == 1 then parts[0]
    else parts[0] + sep + Join(parts[1..], sep)
  }

  /** A joined text begins with its first part. */
  lemma JoinStartsWith(parts: seq<string>, sep: string)
    requires parts != []
    ensures StartsWith(Join(parts, sep), parts[0])
  {
    if |parts| > 1 {
      assert (parts[0] + sep + Join(parts[1..], sep))[..|parts[0]|] == parts[0];
    }
  }

  /** Putting `c` in front of the first part puts it in front of the joined text. */
  lemma JoinExtendFirst(c: char, parts: seq<string>, sep: string)
    requires parts != []
    ensures Join([[c] + parts[0]] + parts[1..], sep) == [c] + Join(parts, sep)
  {
    var r := [[c] + parts[0]] + parts[1..];
    if |parts| > 1 {
      assert r[1..] == parts[1..];
    }
  }

  /** Joining one more part adds the separator and the part at the end. */
  lemma {:induction false} JoinAppend(parts: seq<string>, x: string, sep: string)
    requires parts != []
    ensures Join(parts + [x], sep) == Join(parts, sep) + sep + x
    decreases |parts|
  {
    if |parts| == 1 {
      assert parts + [x] == [parts[0], x];
      assert [parts[0], x][1..] == [x];
    } else {
      JoinAppend(parts[1..], x, sep);
      assert (parts + [x])[1..] == parts[1..] + [x];
    }
  }

  /** `s.split(c)` for a one-character separator: always at least one piece,
      and no piece holds the separator. */
  function Split(s: string, c: char): (r: seq<string>)
    ensures |r| >= 1
    ensures forall k :: 0 <= k < |r| ==> c !in r[k]
    decreases |s|
  {
    if |s| == 0 then [""]
    else
      var rest := Split(s[1..], c);
      if s[0] == c then [""] + rest
      else [[s[0]] + rest[0]] + rest[1..]
  }

  /** A character absent from `s` is absent from every piece of it. */
  lemma {:induction false} SplitExcludes(s: string, c: char, x: char)
    requires x !in s
    ensures forall k :: 0 <= k < |Split(s, c)| ==> x !in Split(s, c)[k]
    decreases |s|
  {
    if |s| > 0 {
      var rest := Split(s[1..], c);
      assert x !in s[1..] by {
        forall k | 0 <= k < |s[1..]| ensures s[1..][k] != x {
          assert s[1..][k] == s[k + 1];
        }
      }
      SplitExcludes(s[1..], c, x);
      if s[0] != c {
        var r := Split(s, c);
        assert r == [[s[0]] + rest[0]] + rest[1..];
        assert forall k :: 1 <= k < |r| ==> r[k] == rest[k];
        assert forall j :: 0 <= j < |r[0]| ==> r[0][j] != x by {
          forall j | 0 <= j < |r[0]| ensures r[0][j] != x {
            if j > 0 { assert r[0][j] == rest[0][j - 1]; }
          }
        }
      }
    }
  }

  /** Splitting on `c` and joining with `c` gives the string back. */
  lemma {:induction false} SplitJoin(s: string, c: char)
    ensures Join(Split(s, c), [c]) == s
    decreases |s|
  {
    if |s| > 0 {
      var rest := Split(s[1..], c);
      SplitJoin(s[1..], c);
      if s[0] == c {
        assert Split(s, c) == [""] + rest;
        assert Join([""] + rest, [c]) == "" + [c] + Join(rest, [c]);
        assert s == [s[0]] + s[1..];
      } else {
        var r := Split(s, c);
        assert r == [[s[0]] + rest[0]] + rest[1..];
        if |rest| == 1 {
          assert Join(rest, [c]) == rest[0];
        } else {
          assert Join(rest, [c]) == rest[0] + [c] + Join(rest[1..], [c]);
          assert r[1..] == rest[1..];
        }
        assert s == [s[0]] + s[1..];
      }
    }
  }

  /** A string without the separator splits into itself. */
  lemma {:induction false} SplitNoSeparator(s: string, c: char)
    requires c !in s
    ensures Split(s, c) == [s]
    decreases |s|
  {
    if |s| > 0 {
      SplitNoSeparator(s[1..], c);
      assert [s[0]] + s[1..] == s;
    }
  }

  /** Splitting `a + [c] + b` where `a` holds no separator. */
  lemma {:induction false} SplitAtFirst(a: string, c: char, b: string)
    requires c !in a
    ensures Split(a + [c] + b, c) == [a] + Split(b, c)
    decreases |a|
  {
    if |a| == 0 {
      assert a + [c] + b == [c] + b;
      assert ([c] + b)[1..] == b;
    } else {
      SplitAtFirst(a[1..], c, b);
      assert (a + [c] + b)[1..] == a[1..] + [c] + b;
      assert [a[0]] + a[1..] == a;
    }
  }

  /** Joining parts that hold no separator and splitting again gives the
      parts back. */
  lemma {:induction false} JoinSplit(parts: seq<string>, c: char)
    requires parts != [] && forall k :: 0 <= k < |parts| ==> c !in parts[k]
    ensures Split(Join(parts, [c]), c) == parts
    decreases |parts|
  {
    if |parts| == 1 {
      SplitNoSeparator(parts[0], c);
    } else {
      JoinSplit(parts[1..], c);
      SplitAtFirst(parts[0], c, Join(parts[1..], [c]));
      assert parts == [parts[0]] + parts[1..];
    }
  }

  /** Python's `str.isspace()` characters. */
  predicate IsSpace(c: char) {
    c == ' ' || c == '\t' || c == '\n' || c == '\r' || c == '\U{000B}' || c == '\U{000C}'
    || ('\U{001C}' <= c <= '\U{001F}') || c == '\U{0085}' || c == '\U{00A0}' || c == '\U{1680}'
    || ('\U{2000}' <= c <= '\U{200A}') || c == '\U{2028}' || c == '\U{2029}'
    || c == '\U{202F}' || c == '\U{205F}' || c == '\U{3000}'
  }

  /** `s.lstrip()` */
  function StripStart(s: string): (r: string)
    ensures |r| <= |s| && r == s[|s| - |r|..]
    ensures r == [] || !IsSpace(r[0])
    ensures forall k :: 0 <= k < |s| - |r| ==> IsSpace(s[k])
    decreases |s|
  {
    if |s| > 0 && IsSpace(s[0]) then StripStart(s[1..]) else s
  }

  /** `s.rstrip()` */
  function StripEnd(s: string): (r: string)
    ensures |r| <= |s| && r == s[..|r|]
    ensures r == [] || !IsSpace(r[|r| - 1])
    ensures forall k :: |r| <= k < |s| ==> IsSpace(s[k])
    decreases |s|
  {
    if |s| > 0 && IsSpace(s[|s| - 1]) then StripEnd(s[..|s| - 1]) else s
  }

  /** `s.strip()`: a contiguous piece of `s` with no whitespace at either end. */
  function Strip(s: string): (r: string)
    ensures r == [] || (!IsSpace(r[0]) && !IsSpace(r[|r| - 1]))
    ensures |r| <= |StripStart(s)|
    ensures r == s[|s| - |StripStart(s)|..|s| - |StripStart(s)| + |r|]
  {
    StripEnd(StripStart(s))
  }

  /** Every character of `s.strip()` comes from `s`. */
  lemma StripChars(s: string)
    ensures forall k :: 0 <= k < |Strip(s)| ==> Strip(s)[k] in s
  {
    var r := Strip(s);
    var i := |s| - |StripStart(s)|;
    assert r == s[i..i + |r|];
    forall k | 0 <= k < |r| ensures r[k] in s {
      assert i + k < |s| && s[i..i + |r|][k] == s[i + k];
    }
  }

  /** `c.lower()` for ASCII letters; other characters are kept. */
  function LowerChar(c: char): char {
    if 'A' <= c <= 'Z' then (c as int + 32) as char else c
  }

  function Lower(s: string): (r: string)
    ensures |r| == |s|
    ensures forall k :: 0 <= k < |s| ==> r[k] == LowerChar(s[k])
  {
    seq(|s|, k requires 0 <= k < |s| => LowerChar(s[k]))
  }

  /** `s.replace(a, b)` for single characters. */
  function ReplaceChar(s: string, a: char, b: char): (r: string)
    ensures |r| == |s|
    ensures forall k :: 0 <= k < |s| ==> r[k] == (if s[k] == a then b else s[k])
  {
    seq(|s|, k requires 0 <= k < |s| => if s[k] == a then b else s[k])
  }

  /** Characters `repr` shows as they are: the printable ones. Only the
      Latin-1 range is classified; every character above it counts as
      printable. */
  predicate Printable(c: char) {
    !(c as int < 0x20) && !(0x7f <= c as int <= 0xa0) && c as int != 0xad
  }

  /** The quote `repr` puts around `s`: double quotes when `s` holds a
      single quote and no double quote, single quotes otherwise. */
  function QuoteFor(s: string): (q: char)
    ensures q == '"' <==> '\'' in s && '"' !in s
    ensures q == '"' || q == '\''
  {
    if '\'' in s && '"' !in s then '"' else '\''
  }

  /** How `repr` writes one character inside the quote `q`. */
  function EscapeChar(c: char, q: char): (r: string)
    ensures |r| >= 1
    ensures Printable(c) && c != '\\' && c != q ==> r == [c]
    ensures !Printable(c) || c == '\\' || c == q ==> r[0] == '\\'
  {
    if c == '\\' || c == q then ['\\', c]
    else if c == '\n' then "\\n"
    else if c == '\r' then "\\r"
    else if c == '\t' then "\\t"
    else if !Printable(c) then
      var n := c as int;
      "\\x" + ["0123456789abcdef"[n / 16], "0123456789abcdef"[n % 16]]
    else [c]
  }

  function Escaped(s: string, q: char): (r: string)
    ensures |r| >= |s|
    decreases |s|
  {
    if |s| == 0 then "" else EscapeChar(s[0], q) + Escaped(s[1..], q)
  }

  /** `repr(s)` for a string. */
  function Repr(s: string): (r: string)
    ensures |r| >= |s| + 2
    ensures r[0] == QuoteFor(s) && r[|r| - 1] == QuoteFor(s)
  {
    [QuoteFor(s)] + Escaped(s, QuoteFor(s)) + [QuoteFor(s)]
  }

  /** Characters that need no escape are copied. */
  lemma {:induction false} EscapedPlain(s: string, q: char)
    requires forall k :: 0 <= k < |s| ==> Printable(s[k]) && s[k] != '\\' && s[k] != q
    ensures Escaped(s, q) == s
    decreases |s|
  {
    if |s| > 0 {
      EscapedPlain(s[1..], q);
      assert [s[0]] + s[1..] == s;
    }
  }

  /** A string of printable characters without a backslash is shown
      between its quotes unchanged, unless it holds both kinds of quote. */
  lemma ReprPlain(s: string)
    requires forall k :: 0 <= k < |s| ==> Printable(s[k]) && s[k] != '\\'
    requires !('\'' in s && '"' in s)
    ensures Repr(s) == [QuoteFor(s)] + s + [QuoteFor(s)]
  {
    EscapedPlain(s, QuoteFor(s));
  }

  /** `str(n)` for a natural number. */
  function NatToString(n: nat): (r: string)
    ensures |r| >= 1
    ensures forall k :: 0 <= k < |r| ==> '0' <= r[k] <= '9'
    decreases n
  {
    if n < 10 then ["0123456789"[n]]
    else NatToString(n / 10) + ["0123456789"[n % 10]]
  }
}

/** The value-or-message outcome that stands for a Python call that either
    returns or raises an exception whose `str(e)` is `error`. */
module Results {
  datatype Result<T> = Ok(value: T) | Err(error: string)

  datatype Option<T> = None | Some(value: T)
}
