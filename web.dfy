/** The web tools of `src/tools/web.py`: the numbered search-result text of
    `search_web`, and the text clean-up and truncation of `scrape_website`
    applied to the text the HTML parser extracted. */
module Web {
  import opened Text
  import opened Results

  /** One search hit as the search library returns it. */
  datatype Hit = Hit(title: string, href: string, body: string)

  function SearchHeader(query: string): string {
    "Search results for '" + query + "':"
  }

  /** The block for the `n`-th hit (counting from 1). */
  function HitBlock(n: nat, hit: Hit): (r: string)
    ensures StartsWith(r, NatToString(n) + ". ")
  {
    var head := NatToString(n) + ". ";
    var r := head + hit.title + "\n   URL: " + hit.href + "\n   Snippet: " + hit.body;
    assert r[..|head|] == head;
    r
  }

  /** The hits numbered consecutively from 1, in the order returned. */
  function NumberedBlocks(hits: seq<Hit>): (r: seq<string>)
    ensures |r| == |hits|
    ensures forall k :: 0 <= k < |hits| ==> r[k] == HitBlock(k + 1, hits[k])
  {
    seq(|hits|, k requires 0 <= k < |hits| => HitBlock(k + 1, hits[k]))
  }

  /** `search_web(query, max_results)`. `search(query, maxResults)` stands
      for the search library: the hits, or the error it raised. */
  method SearchWeb(query: string, maxResults: int, search: (string, int) -> Result<seq<Hit>>)
    returns (message: string)
    ensures search(query, maxResults).Err? ==>
      message == "Error searching the web: " + search(query, maxResults).error
    ensures search(query, maxResults).Ok? && search(query, maxResults).value == [] ==>
      message == "No results found for '" + query + "'."
    ensures search(query, maxResults).Ok? && search(query, maxResults).value != [] ==>
      message == Join([SearchHeader(query)] + NumberedBlocks(search(query, maxResults).value), "\n\n")
  {
    var found := search(query, maxResults);
    if found.Err? {
      return "Error searching the web: " + found.error;
    }
    var results := found.value;
    if results == [] {
      return "No results found for '" + query + "'.";
    }
    var output := [SearchHeader(query)];
    var i := 0;
    while i < |results|
      invariant 0 <= i <= |results|
      invariant output == [SearchHeader(query)] + NumberedBlocks(results[..i])
    {
      assert NumberedBlocks(results[..i + 1]) == NumberedBlocks(results[..i]) + [HitBlock(i + 1, results[i])];
      output := output + [HitBlock(i + 1, results[i])];
      i := i + 1;
    }
    assert results[..i] == results;
    message := Join(output, "\n\n");
  }

  /** The characters at which `str.splitlines()` breaks a line. */
  predicate IsLineBreak(c: char) {
    c == '\n' || c == '\r' || c == '\U{000B}' || c == '\U{000C}' || c == '\U{001C}' || c == '\U{001D}'
    || c == '\U{001E}' || c == '\U{0085}' || c == '\U{2028}' || c == '\U{2029}'
  }

  /** No character of `s` breaks a line. */
  predicate NoBreak(s: string) {
    forall j :: 0 <= j < |s| ==> !IsLineBreak(s[j])
  }

  /** `s.splitlines()`: "\r\n" is one break, and a final break does not
      start another line. */
  function SplitLines(s: string): (r: seq<string>)
    ensures s == [] <==> r == []
    ensures forall k :: 0 <= k < |r| ==> NoBreak(r[k])
    decreases |s|
  {
    if s == [] then []
    else if IsLineBreak(s[0]) then
      var skip := if s[0] == '\r' && |s| > 1 && s[1] == '\n' then 2 else 1;
      [""] + SplitLines(s[skip..])
    else
      var rest := SplitLines(s[1..]);
      if rest == [] then [[s[0]]]
      else
        var r := [[s[0]] + rest[0]] + rest[1..];
        assert forall k :: 1 <= k < |r| ==> r[k] == rest[k];
        r
  }

  /** Joining the lines with "\n" gives the text back when its only breaks
      are single "\n"s and it does not end with one. */
  lemma {:induction false} SplitLinesJoin(s: string)
    requires forall j :: 0 <= j < |s| ==> IsLineBreak(s[j]) ==> s[j] == '\n'
    requires s != [] && s[|s| - 1] != '\n'
    ensures Join(SplitLines(s), "\n") == s
    decreases |s|
  {
    var tail := s[1..];
    assert forall j :: 0 <= j < |tail| ==> tail[j] == s[j + 1];
    if IsLineBreak(s[0]) {
      assert s[0] == '\n' && tail != [];
      SplitLinesJoin(tail);
      assert SplitLines(s) == [""] + SplitLines(tail);
      assert Join([""] + SplitLines(tail), "\n") == "" + "\n" + Join(SplitLines(tail), "\n");
      assert s == "\n" + tail;
    } else if tail == [] {
      assert s == [s[0]];
    } else {
      var rest := SplitLines(tail);
      SplitLinesJoin(tail);
      assert SplitLines(s) == [[s[0]] + rest[0]] + rest[1..];
      JoinExtendFirst(s[0], rest, "\n");
      assert s == [s[0]] + tail;
    }
  }

  /** `s.split("  ")`: pieces between non-overlapping double spaces, found
      from the left. */
  function SplitDoubleSpace(s: string): (r: seq<string>)
    ensures |r| >= 1
    decreases |s|
  {
    if |s| < 2 then [s]
    else if s[0] == ' ' && s[1] == ' ' then [""] + SplitDoubleSpace(s[2..])
    else
      var rest := SplitDoubleSpace(s[1..]);
      [[s[0]] + rest[0]] + rest[1..]
  }

  /** Joining the pieces with "  " gives the string back. */
  lemma {:induction false} SplitDoubleSpaceJoin(s: string)
    ensures Join(SplitDoubleSpace(s), "  ") == s
    decreases |s|
  {
    if |s| >= 2 {
      if s[0] == ' ' && s[1] == ' ' {
        var rest := SplitDoubleSpace(s[2..]);
        SplitDoubleSpaceJoin(s[2..]);
        assert Join([""] + rest, "  ") == "" + "  " + Join(rest, "  ");
        assert s == "  " + s[2..];
      } else {
        var rest := SplitDoubleSpace(s[1..]);
        SplitDoubleSpaceJoin(s[1..]);
        JoinExtendFirst(s[0], rest, "  ");
        assert s == [s[0]] + s[1..];
      }
    }
  }

  /** No piece holds a line break the string did not hold. */
  lemma {:induction false} SplitDoubleSpaceNoBreak(s: string)
    requires NoBreak(s)
    ensures forall k :: 0 <= k < |SplitDoubleSpace(s)| ==> NoBreak(SplitDoubleSpace(s)[k])
    decreases |s|
  {
    if |s| >= 2 {
      if s[0] == ' ' && s[1] == ' ' {
        SplitDoubleSpaceNoBreak(s[2..]);
        var r := SplitDoubleSpace(s);
        assert forall k :: 1 <= k < |r| ==> r[k] == SplitDoubleSpace(s[2..])[k - 1];
      } else {
        var rest := SplitDoubleSpace(s[1..]);
        SplitDoubleSpaceNoBreak(s[1..]);
        var r := SplitDoubleSpace(s);
        assert r[0] == [s[0]] + rest[0];
        assert forall k :: 1 <= k < |r| ==> r[k] == rest[k];
      }
    }
  }

  /** Stripping never adds a line break. */
  lemma StripNoBreak(s: string)
    requires NoBreak(s)
    ensures NoBreak(Strip(s))
  {
    StripChars(s);
    forall j | 0 <= j < |Strip(s)| ensures !IsLineBreak(Strip(s)[j]) {
      var c := Strip(s)[j];
      assert c in s;
      var i :| 0 <= i < |s| && s[i] == c;
    }
  }

  /** A chunk as the clean-up keeps it: not empty, no whitespace at either
      end, and no line break. */
  predicate IsChunk(s: string) {
    s != [] && !IsSpace(s[0]) && !IsSpace(s[|s| - 1]) && NoBreak(s)
  }

  predicate AllChunks(parts: seq<string>) {
    forall k :: 0 <= k < |parts| ==> IsChunk(parts[k])
  }

  lemma AllChunksAppend(a: seq<string>, b: seq<string>)
    requires AllChunks(a) && AllChunks(b)
    ensures AllChunks(a + b)
  {
    forall k | 0 <= k < |a + b| ensures IsChunk((a + b)[k]) {
      if k < |a| { assert (a + b)[k] == a[k]; } else { assert (a + b)[k] == b[k - |a|]; }
    }
  }

  /** Strip every phrase and keep the non-empty ones, in order. */
  function KeepChunks(phrases: seq<string>): (r: seq<string>)
    ensures |r| <= |phrases|
    decreases |phrases|
  {
    if phrases == [] then []
    else if Strip(phrases[0]) == [] then KeepChunks(phrases[1..])
    else [Strip(phrases[0])] + KeepChunks(phrases[1..])
  }

  /** Every kept phrase is a chunk. */
  lemma {:induction false} KeepChunksAreChunks(phrases: seq<string>)
    requires forall k :: 0 <= k < |phrases| ==> NoBreak(phrases[k])
    ensures AllChunks(KeepChunks(phrases))
    decreases |phrases|
  {
    if phrases != [] {
      assert forall k :: 0 <= k < |phrases| - 1 ==> phrases[1..][k] == phrases[k + 1];
      KeepChunksAreChunks(phrases[1..]);
      if Strip(phrases[0]) != [] {
        StripChunk(phrases[0]);
        AllChunksAppend([Strip(phrases[0])], KeepChunks(phrases[1..]));
      }
    }
  }

  /** A text is kept exactly when it is the stripped form of some phrase
      and is not blank: nothing is invented and nothing non-blank dropped. */
  lemma {:induction false} KeepChunksMembers(phrases: seq<string>, x: string)
    ensures x in KeepChunks(phrases) <==>
      exists k :: 0 <= k < |phrases| && x == Strip(phrases[k]) && x != []
    decreases |phrases|
  {
    if phrases != [] {
      var tail := phrases[1..];
      KeepChunksMembers(tail, x);
      if x in KeepChunks(phrases) {
        if Strip(phrases[0]) != [] && x == Strip(phrases[0]) {
          assert 0 < |phrases| && x == Strip(phrases[0]) && x != [];
        } else {
          assert x in KeepChunks(tail);
          var j :| 0 <= j < |tail| && x == Strip(tail[j]) && x != [];
          assert tail[j] == phrases[j + 1];
        }
      }
      if exists k :: 0 <= k < |phrases| && x == Strip(phrases[k]) && x != [] {
        var k :| 0 <= k < |phrases| && x == Strip(phrases[k]) && x != [];
        if k > 0 {
          assert tail[k - 1] == phrases[k];
          assert x in KeepChunks(tail);
        }
      }
    }
  }

  /** A phrase without line breaks that is not blank strips to a chunk. */
  lemma StripChunk(phrase: string)
    requires NoBreak(phrase) && Strip(phrase) != []
    ensures AllChunks([Strip(phrase)])
  {
    StripNoBreak(phrase);
  }

  /** The chunks of one line: strip it, split it at double spaces, keep
      the phrases that are not blank, stripped. */
  function LineChunks(line: string): seq<string> {
    KeepChunks(SplitDoubleSpace(Strip(line)))
  }

  /** All chunks of all lines, in order. */
  function Chunks(lines: seq<string>): seq<string>
    decreases |lines|
  {
    if lines == [] then [] else LineChunks(lines[0]) + Chunks(lines[1..])
  }

  /** Every chunk of lines without breaks is a chunk: not empty, trimmed,
      without a line break. */
  lemma {:induction false} ChunksAreChunks(lines: seq<string>)
    requires forall k :: 0 <= k < |lines| ==> NoBreak(lines[k])
    ensures AllChunks(Chunks(lines))
    decreases |lines|
  {
    if lines != [] {
      StripNoBreak(lines[0]);
      SplitDoubleSpaceNoBreak(Strip(lines[0]));
      KeepChunksAreChunks(SplitDoubleSpace(Strip(lines[0])));
      assert forall k :: 0 <= k < |lines| - 1 ==> lines[1..][k] == lines[k + 1];
      ChunksAreChunks(lines[1..]);
      AllChunksAppend(LineChunks(lines[0]), Chunks(lines[1..]));
    }
  }

  /** The clean-up of `scrape_website`: strip each line, split it at double
      spaces, strip each phrase, drop empty chunks, join with newlines. */
  function Clean(text: string): (r: string)
    ensures r == "" <==> Chunks(SplitLines(text)) == []
  {
    var chunks := Chunks(SplitLines(text));
    ChunksAreChunks(SplitLines(text));
    assert chunks != [] ==> IsChunk(chunks[0]) && |Join(chunks, "\n")| >= |chunks[0]|;
    Join(chunks, "\n")
  }

  /** Before truncation, the cleaned text's lines are exactly the chunks:
      none is empty, and none starts or ends with whitespace. */
  lemma CleanLines(text: string)
    requires Chunks(SplitLines(text)) != []
    ensures Split(Clean(text), '\n') == Chunks(SplitLines(text))
    ensures AllChunks(Split(Clean(text), '\n'))
  {
    var chunks := Chunks(SplitLines(text));
    ChunksAreChunks(SplitLines(text));
    forall k | 0 <= k < |chunks| ensures '\n' !in chunks[k] {
      assert IsChunk(chunks[k]);
      forall j | 0 <= j < |chunks[k]| ensures chunks[k][j] != '\n' {
        assert !IsLineBreak(chunks[k][j]);
      }
    }
    JoinSplit(chunks, '\n');
  }

  const TextLimit: nat := 10000

  /** `text[:10000]` */
  function Truncate(text: string): (r: string)
    ensures |r| <= TextLimit && |r| <= |text|
    ensures r == text[..|r|]
    ensures |text| <= TextLimit ==> r == text
  {
    if |text| <= TextLimit then text else text[..TextLimit]
  }

  /** `scrape_website(url)`. `fetch(url)` stands for the HTTP request and
      HTML parsing: the text the parser extracts (with scripts and styles
      removed, pieces separated by newlines), or the error raised by the
      request, an HTTP error status, or the parser. */
  function ScrapeWebsite(url: string, fetch: string -> Result<string>): (r: string)
    ensures fetch(url).Err? ==> r == "Error scraping the website: " + fetch(url).error
    ensures fetch(url).Ok? ==> |r| <= TextLimit && |r| <= |Clean(fetch(url).value)| && r == Clean(fetch(url).value)[..|r|]
  {
    match fetch(url)
    case Err(e) => "Error scraping the website: " + e
    case Ok(text) => Truncate(Clean(text))
  }
}
