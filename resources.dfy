/** The resource knowledge base (`src/tools/resources.py`): a list of saved
    links kept in a JSON file, appended to one record at a time and listed,
    optionally by category. */
module Resources {
  import opened Text
  import opened Results

  datatype Resource = Resource(url: string, category: string, summary: string, dateAdded: string)

  /** What the resources file holds: nothing yet, something `json.load`
      cannot read, or a saved list. */
  datatype ResourcesFile = Missing | Unreadable | Saved(records: seq<Resource>)

  /** `_load_resources()`: a missing or unreadable file loads as `[]`. */
  function Load(file: ResourcesFile): (r: seq<Resource>)
    ensures file.Saved? ==> r == file.records
    ensures !file.Saved? ==> r == []
  {
    if file.Saved? then file.records else []
  }

  const DefaultCategory: string := "Uncategorized"
  const SummaryLimit: nat := 500

  /** The summary made from scraped text: longer than 500 characters, its
      first 500 with newlines turned into spaces and "..." added; otherwise
      the text itself. */
  function Summarize(content: string): (r: string)
    ensures |content| <= SummaryLimit ==> r == content
    ensures |content| > SummaryLimit ==>
      && |r| == SummaryLimit + 3
      && r[SummaryLimit..] == "..."
      && forall k :: 0 <= k < SummaryLimit ==>
        r[k] == (if content[k] == '\n' then ' ' else content[k])
    ensures |r| <= SummaryLimit + 3
  {
    if |content| > SummaryLimit then ReplaceChar(content[..SummaryLimit], '\n', ' ') + "..."
    else content
  }

  /** The summary stored for a new record: a non-empty manual summary as
      given, otherwise one made from the scraped page. */
  function ChooseSummary(manualSummary: Option<string>, url: string, scrape: string -> string): (r: string)
    ensures manualSummary.Some? && manualSummary.value != "" ==> r == manualSummary.value
    ensures manualSummary.None? || manualSummary.value == "" ==> r == Summarize(scrape(url))
  {
    if manualSummary.Some? && manualSummary.value != "" then manualSummary.value
    else Summarize(scrape(url))
  }

  /** Case-insensitive category match (`a.lower() == b.lower()`). */
  predicate SameCategory(a: string, b: string) {
    Lower(a) == Lower(b)
  }

  /** `[r for r in resources if r["category"].lower() == category.lower()]` */
  function InCategory(records: seq<Resource>, category: string): (r: seq<Resource>)
    ensures |r| <= |records|
    ensures forall k :: 0 <= k < |r| ==> SameCategory(r[k].category, category)
    decreases |records|
  {
    if records == [] then []
    else
      var rest := InCategory(records[1..], category);
      if SameCategory(records[0].category, category) then [records[0]] + rest else rest
  }

  /** The filter keeps exactly the stored records whose category matches. */
  lemma {:induction false} InCategoryMembers(records: seq<Resource>, category: string, x: Resource)
    ensures x in InCategory(records, category) <==> x in records && SameCategory(x.category, category)
    decreases |records|
  {
    if records != [] {
      InCategoryMembers(records[1..], category, x);
      assert records == [records[0]] + records[1..];
    }
  }

  /** Filtering keeps the stored order: it distributes over concatenation. */
  lemma {:induction false} InCategoryAppend(a: seq<Resource>, b: seq<Resource>, category: string)
    ensures InCategory(a + b, category) == InCategory(a, category) + InCategory(b, category)
    decreases |a|
  {
    if a == [] {
      assert a + b == b;
    } else {
      InCategoryAppend(a[1..], b, category);
      assert (a + b)[1..] == a[1..] + b;
    }
  }

  /** The three lines listed for one record. */
  function Block(r: Resource): string {
    "[" + r.category + "] " + r.url + "\n   Summary: " + r.summary + "\n   Added: " + r.dateAdded
  }

  /** One block per record, in order. */
  function Blocks(records: seq<Resource>): (r: seq<string>)
    ensures |r| == |records|
    ensures forall k :: 0 <= k < |records| ==> r[k] == Block(records[k])
  {
    seq(|records|, k requires 0 <= k < |records| => Block(records[k]))
  }

  /** The records listed for an optional category filter: an absent or
      empty category lists everything. */
  function Selected(records: seq<Resource>, category: Option<string>): seq<Resource> {
    if category.Some? && category.value != "" then InCategory(records, category.value) else records
  }

  /** `list_resources(category)` on the loaded records. */
  function Listing(records: seq<Resource>, category: Option<string>): (r: string)
    ensures r == "No resources found." <==> records == []
    ensures records != [] && Selected(records, category) != [] ==>
      StartsWith(r, "[" + Selected(records, category)[0].category + "] ")
  {
    if records == [] then "No resources found."
    else if Selected(records, category) == [] then
      var r := "No resources found in category '" + category.value + "'.";
      assert r[18] == ' ';
      r
    else
      var blocks := Blocks(Selected(records, category));
      var head := "[" + Selected(records, category)[0].category + "] ";
      assert blocks[0][..|head|] == head;
      JoinStartsWith(blocks, "\n\n");
      var r := Join(blocks, "\n\n");
      assert r[0] == '[';
      r
  }

  /** The resources file and the tools that act on it. */
  class ResourceStore {
    var file: ResourcesFile

    constructor (file: ResourcesFile)
      ensures this.file == file
    {
      this.file := file;
    }

    function Records(): seq<Resource>
      reads this
    {
      Load(file)
    }

    /** `add_resource(url, category, manual_summary)`: load, append one
        record, save. `scrape` stands for `scrape_website` and `now` for the
        current time in ISO format. */
    method AddResource(url: string, category: Option<string>, manualSummary: Option<string>,
                       scrape: string -> string, now: string) returns (message: string)
      modifies this
      ensures var cat := if category.Some? then category.value else DefaultCategory;
        && file == Saved(old(Records()) + [Resource(url, cat, ChooseSummary(manualSummary, url, scrape), now)])
        && message == "Successfully added resource to '" + cat + "': " + url
    {
      var resources := Load(file);
      var cat := if category.Some? then category.value else DefaultCategory;
      var summary := ChooseSummary(manualSummary, url, scrape);
      var entry := Resource(url, cat, summary, now);
      resources := resources + [entry];
      file := Saved(resources);
      message := "Successfully added resource to '" + cat + "': " + url;
    }

    /** `list_resources(category)`: filters, then builds one block per
        record. Changes nothing. */
    method ListResources(category: Option<string>) returns (message: string)
      ensures message == Listing(Records(), category)
    {
      var resources := Load(file);
      if resources == [] {
        return "No resources found.";
      }
      if category.Some? && category.value != "" {
        resources := InCategory(resources, category.value);
        if resources == [] {
          return "No resources found in category '" + category.value + "'.";
        }
      }
      var output: seq<string> := [];
      var i := 0;
      while i < |resources|
        invariant 0 <= i <= |resources|
        invariant output == Blocks(resources[..i])
      {
        assert resources[..i + 1] == resources[..i] + [resources[i]];
        output := output + [Block(resources[i])];
        i := i + 1;
      }
      assert resources[..i] == resources;
      message := Join(output, "\n\n");
    }
  }

  /** Listing everything after an addition shows the old listing, a blank
      line, and the new record's block. */
  lemma ListAfterAdd(records: seq<Resource>, entry: Resource)
    requires records != []
    ensures Listing(records + [entry], None) == Listing(records, None) + "\n\n" + Block(entry)
  {
    assert Blocks(records + [entry]) == Blocks(records) + [Block(entry)];
    JoinAppend(Blocks(records), Block(entry), "\n\n");
  }

  /** A category filter lists the matching records in stored order, and a
      record whose category matches in any letter case is among them. */
  lemma CategoryFilterKeepsOrder(records: seq<Resource>, entry: Resource, category: string)
    requires category != "" && SameCategory(entry.category, category)
    ensures Selected(records + [entry], Some(category)) == Selected(records, Some(category)) + [entry]
  {
    InCategoryAppend(records, [entry], category);
    assert [entry][1..] == [];
  }
}
