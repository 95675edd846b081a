/** The YouTube transcript tool of `src/tools/media.py`: find the video id
    in a URL the way `re.search(r"(?:v=|/)([0-9A-Za-z_-]{11}).*", url)`
    does, fetch the transcript, and join its segments with spaces. */
module Media {
  import opened Text
  import opened Results

  const IdLength: nat := 11

  /** `[0-9A-Za-z_-]` */
  predicate IsIdChar(c: char) {
    ('0' <= c <= '9') || ('A' <= c <= 'Z') || ('a' <= c <= 'z') || c == '_' || c == '-'
  }

  /** Eleven id characters start at `i`. */
  predicate IdRunAt(s: string, i: nat) {
    i + IdLength <= |s| && forall k :: i <= k < i + IdLength ==> IsIdChar(s[k])
  }

  /** Where the pattern can match starting at `i`, the position of the
      captured group: after "v=", or after "/". The trailing `.*` accepts
      any rest of the string. */
  function GroupAt(s: string, i: nat): (r: Option<nat>)
    ensures r.Some? ==> IdRunAt(s, r.value) && (r.value == i + 1 || r.value == i + 2)
  {
    if i + 1 < |s| && s[i] == 'v' && s[i + 1] == '=' && IdRunAt(s, i + 2) then Some(i + 2)
    else if i < |s| && s[i] == '/' && IdRunAt(s, i + 1) then Some(i + 1)
    else None
  }

  /** `re.search`: the first position, from `i` on, where the pattern matches. */
  function Search(s: string, i: nat): (r: Option<nat>)
    ensures r.Some? ==> i <= r.value < |s| && GroupAt(s, r.value).Some?
    ensures r.Some? ==> forall j :: i <= j < r.value ==> GroupAt(s, j).None?
    ensures r.None? ==> forall j :: i <= j ==> GroupAt(s, j).None?
    decreases |s| - i
  {
    if i >= |s| then None
    else if GroupAt(s, i).Some? then Some(i)
    else Search(s, i + 1)
  }

  /** `video_id_match.group(1)`, or None when the pattern does not match. */
  function ExtractVideoId(url: string): (r: Option<string>)
    ensures r.Some? ==> |r.value| == IdLength && forall k :: 0 <= k < |r.value| ==> IsIdChar(r.value[k])
  {
    match Search(url, 0)
    case None => None
    case Some(i) =>
      var g := GroupAt(url, i).value;
      Some(url[g..g + IdLength])
  }

  /** The id comes from the leftmost "v=" or "/" followed by eleven id
      characters, and is those eleven characters (a longer run gives only
      its first eleven); no id means no position qualifies. */
  lemma ExtractVideoIdLeftmost(url: string)
    ensures ExtractVideoId(url).None? <==> forall j :: GroupAt(url, j).None?
    ensures ExtractVideoId(url).Some? ==> exists i: nat ::
      && GroupAt(url, i).Some?
      && (forall j :: 0 <= j < i ==> GroupAt(url, j).None?)
      && ExtractVideoId(url).value == url[GroupAt(url, i).value..GroupAt(url, i).value + IdLength]
  {
    var r := Search(url, 0);
    if r.Some? {
      var i := r.value;
      assert GroupAt(url, i).Some? && forall j :: 0 <= j < i ==> GroupAt(url, j).None?;
    }
  }

  const NoIdText: string := "Error: Could not extract video ID from URL."

  /** `get_youtube_transcript(video_url)`. `fetch(id)` stands for the
      transcript library: the texts of the segments in order, or the error
      it raised. */
  function GetYoutubeTranscript(url: string, fetch: string -> Result<seq<string>>): (r: string)
    ensures ExtractVideoId(url).None? ==> r == NoIdText
    ensures ExtractVideoId(url).Some? && fetch(ExtractVideoId(url).value).Err? ==>
      r == "Error fetching YouTube transcript: " + fetch(ExtractVideoId(url).value).error
    ensures ExtractVideoId(url).Some? && fetch(ExtractVideoId(url).value).Ok? ==>
      r == Join(fetch(ExtractVideoId(url).value).value, " ")
  {
    match ExtractVideoId(url)
    case None => NoIdText
    case Some(id) =>
      match fetch(id)
      case Err(e) => "Error fetching YouTube transcript: " + e
      case Ok(texts) => Join(texts, " ")
  }

  /** Without an id nothing is fetched: the answer is the same whatever the
      transcript library would have said. */
  lemma NoIdNoFetch(url: string, fetch1: string -> Result<seq<string>>, fetch2: string -> Result<seq<string>>)
    requires ExtractVideoId(url).None?
    ensures GetYoutubeTranscript(url, fetch1) == GetYoutubeTranscript(url, fetch2) == NoIdText
  {
  }

  /** Segments without spaces can be read back from the transcript. */
  lemma TranscriptSegments(texts: seq<string>)
    requires texts != [] && forall k :: 0 <= k < |texts| ==> ' ' !in texts[k]
    ensures Split(Join(texts, " "), ' ') == texts
  {
    JoinSplit(texts, ' ');
  }
}
