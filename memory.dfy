/** The agent's long-term key/value memory (`src/tools/memory.py`): a
    dictionary kept in a JSON file in the workspace, loaded afresh by every
    tool, updated one key at a time and written back. A Python dictionary
    remembers insertion order, so the model keeps the facts as a sequence
    with distinct keys. */
module Memory {
  import opened Text
  import opened Results

  datatype Fact = Fact(key: string, value: string)

  type Facts = seq<Fact>

  function Keys(facts: Facts): (r: seq<string>)
    ensures |r| == |facts| && forall i :: 0 <= i < |facts| ==> r[i] == facts[i].key
    decreases |facts|
  {
    if facts == [] then [] else [facts[0].key] + Keys(facts[1..])
  }

  predicate DistinctKeys(facts: Facts) {
    forall i, j :: 0 <= i < j < |facts| ==> facts[i].key != facts[j].key
  }

  /** `memory[key]`, or None when the key is absent. */
  function Lookup(facts: Facts, key: string): (r: Option<string>)
    ensures r.Some? <==> key in Keys(facts)
    ensures r.Some? ==> exists i :: 0 <= i < |facts| && facts[i] == Fact(key, r.value)
    decreases |facts|
  {
    if facts == [] then None
    else if facts[0].key == key then Some(facts[0].value)
    else
      assert Keys(facts) == [facts[0].key] + Keys(facts[1..]);
      var r := Lookup(facts[1..], key);
      assert r.Some? ==> exists i :: 0 <= i < |facts[1..]| && facts[1..][i] == Fact(key, r.value);
      r
  }

  /** `memory[key] = value`: an existing key keeps its place and takes the
      new value; a new key goes at the end. */
  function Assign(facts: Facts, key: string, value: string): (r: Facts)
    ensures Keys(r) == if key in Keys(facts) then Keys(facts) else Keys(facts) + [key]
    decreases |facts|
  {
    if facts == [] then [Fact(key, value)]
    else if facts[0].key == key then [Fact(key, value)] + facts[1..]
    else
      var rest := Assign(facts[1..], key, value);
      assert ([facts[0]] + rest)[1..] == rest;
      [facts[0]] + rest
  }

  /** After the assignment `key` maps to `value` and every other key to
      what it mapped to before. */
  lemma {:induction false} AssignLookup(facts: Facts, key: string, value: string, other: string)
    ensures Lookup(Assign(facts, key, value), key) == Some(value)
    ensures other != key ==> Lookup(Assign(facts, key, value), other) == Lookup(facts, other)
    decreases |facts|
  {
    if facts != [] && facts[0].key != key {
      AssignLookup(facts[1..], key, value, other);
      assert ([facts[0]] + Assign(facts[1..], key, value))[1..] == Assign(facts[1..], key, value);
    } else if facts != [] {
      assert ([Fact(key, value)] + facts[1..])[1..] == facts[1..];
    }
  }

  /** The assignment never duplicates a key. */
  lemma AssignDistinct(facts: Facts, key: string, value: string)
    requires DistinctKeys(facts)
    ensures DistinctKeys(Assign(facts, key, value))
  {
    var r := Assign(facts, key, value);
    assert Keys(r) == if key in Keys(facts) then Keys(facts) else Keys(facts) + [key];
    forall i, j | 0 <= i < j < |r| ensures r[i].key != r[j].key {
      assert Keys(r)[i] == r[i].key && Keys(r)[j] == r[j].key;
    }
  }

  /** What the memory file holds: nothing yet, something `json.load`
      cannot read, or a saved dictionary. */
  datatype MemoryFile = Missing | Unreadable | Saved(facts: Facts)

  /** `_load_memory()`: a missing or unreadable file loads as `{}`. */
  function Load(file: MemoryFile): (r: Facts)
    ensures file.Saved? ==> r == file.facts
    ensures !file.Saved? ==> r == []
  {
    if file.Saved? then file.facts else []
  }

  function StoredText(key: string, value: string): string {
    "Stored fact: " + key + " = " + value
  }

  /** `retrieve_fact(key)` on the loaded facts. */
  function Retrieve(facts: Facts, key: string): string {
    match Lookup(facts, key)
    case Some(v) => "Fact for '" + key + "': " + v
    case None => "No fact found for '" + key + "'."
  }

  /** One "key: value" line per fact, in order. */
  function FactLines(facts: Facts): (r: seq<string>)
    ensures |r| == |facts|
    ensures forall i :: 0 <= i < |facts| ==> r[i] == facts[i].key + ": " + facts[i].value
  {
    seq(|facts|, i requires 0 <= i < |facts| => facts[i].key + ": " + facts[i].value)
  }

  /** `list_all_facts()` on the loaded facts. */
  function ListAll(facts: Facts): (r: string)
    ensures r == "Memory is empty." <==> facts == []
    ensures facts != [] ==> StartsWith(r, "Stored facts:\n")
  {
    if facts == [] then "Memory is empty."
    else
      var r := "Stored facts:\n" + Join(FactLines(facts), "\n");
      assert r[0] == 'S' && r[..14] == "Stored facts:\n";
      r
  }

  /** The memory file and the tools that act on it. */
  class MemoryStore {
    var file: MemoryFile

    /** A saved dictionary never has a key twice. */
    ghost predicate Valid()
      reads this
    {
      file.Saved? ==> DistinctKeys(file.facts)
    }

    constructor (file: MemoryFile)
      requires file.Saved? ==> DistinctKeys(file.facts)
      ensures Valid() && this.file == file
    {
      this.file := file;
    }

    /** The facts every tool starts from. */
    function Facts(): Facts
      reads this
    {
      Load(file)
    }

    /** `store_fact(key, value)`: load, assign one key, save. */
    method StoreFact(key: string, value: string) returns (message: string)
      requires Valid()
      modifies this
      ensures Valid()
      ensures file == Saved(Assign(Load(old(file)), key, value))
      ensures message == StoredText(key, value)
    {
      var memory := Load(file);
      AssignDistinct(memory, key, value);
      memory := Assign(memory, key, value);
      file := Saved(memory);
      message := StoredText(key, value);
    }

    /** `retrieve_fact(key)`: reads, changes nothing. */
    function RetrieveFact(key: string): (message: string)
      reads this
      ensures Lookup(Facts(), key).None? ==> message == "No fact found for '" + key + "'."
      ensures Lookup(Facts(), key).Some? ==>
        message == "Fact for '" + key + "': " + Lookup(Facts(), key).value
    {
      Retrieve(Load(file), key)
    }

    /** `list_all_facts()`: reads, changes nothing. */
    function ListAllFacts(): (message: string)
      reads this
      ensures Facts() == [] <==> message == "Memory is empty."
    {
      var r := ListAll(Load(file));
      assert Facts() != [] ==> |r| > 0 && r[0] == 'S';
      r
    }
  }

  /** After storing `value` under `key`, retrieving `key` gives it back. */
  lemma RetrieveAfterStore(file: MemoryFile, key: string, value: string)
    ensures Retrieve(Assign(Load(file), key, value), key) == "Fact for '" + key + "': " + value
  {
    AssignLookup(Load(file), key, value, key);
  }

  /** Storing one key leaves what every other key retrieves unchanged. */
  lemma StoreKeepsOthers(file: MemoryFile, key: string, value: string, other: string)
    requires other != key
    ensures Retrieve(Assign(Load(file), key, value), other) == Retrieve(Load(file), other)
  {
    AssignLookup(Load(file), key, value, other);
  }

  /** Storing twice under one key is storing the second value. */
  lemma {:induction false} StoreOverwrites(facts: Facts, key: string, first: string, second: string)
    ensures Assign(Assign(facts, key, first), key, second) == Assign(facts, key, second)
    decreases |facts|
  {
    if facts != [] && facts[0].key != key {
      StoreOverwrites(facts[1..], key, first, second);
      assert Assign(facts, key, first)[1..] == Assign(facts[1..], key, first);
    }
  }

  /** A missing or unreadable memory file lists as empty. */
  lemma NothingSavedIsEmpty(file: MemoryFile)
    requires !file.Saved?
    ensures ListAll(Load(file)) == "Memory is empty."
  {
  }

  /** Storing a new key adds its line at the end of the listing. */
  lemma ListAfterNewFact(facts: Facts, key: string, value: string)
    requires facts != [] && key !in Keys(facts)
    ensures ListAll(Assign(facts, key, value)) == ListAll(facts) + "\n" + key + ": " + value
  {
    AssignNewKey(facts, key, value);
    ListAllAppend(facts, Fact(key, value));
  }

  /** Listing one more fact adds its line at the end. */
  lemma ListAllAppend(facts: Facts, f: Fact)
    requires facts != []
    ensures ListAll(facts + [f]) == ListAll(facts) + "\n" + f.key + ": " + f.value
  {
    var line := f.key + ": " + f.value;
    FactLinesAppend(facts, f);
    JoinAppend(FactLines(facts), line, "\n");
  }

  /** One more fact gives one more line, at the end. */
  lemma FactLinesAppend(facts: Facts, f: Fact)
    ensures FactLines(facts + [f]) == FactLines(facts) + [f.key + ": " + f.value]
  {
    var a := FactLines(facts + [f]);
    var b := FactLines(facts) + [f.key + ": " + f.value];
    assert |a| == |b|;
    forall i | 0 <= i < |a| ensures a[i] == b[i] {
      if i < |facts| { assert (facts + [f])[i] == facts[i]; } else { assert (facts + [f])[i] == f; }
    }
  }

  /** A new key is appended after all existing facts. */
  lemma {:induction false} AssignNewKey(facts: Facts, key: string, value: string)
    requires key !in Keys(facts)
    ensures Assign(facts, key, value) == facts + [Fact(key, value)]
    decreases |facts|
  {
    if facts != [] {
      assert Keys(facts) == [facts[0].key] + Keys(facts[1..]);
      AssignNewKey(facts[1..], key, value);
      assert [facts[0]] + (facts[1..] + [Fact(key, value)]) == facts + [Fact(key, value)];
    }
  }
}
