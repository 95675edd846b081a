/** The routine planner of `src/tools/planner.py`: tasks sorted by deadline
    (a stable sort), then two lines per task between a header and a closing
    note. Date parsing is a parameter `parse` that maps a text to an ordered
    instant (a number) or to the error message of the failure; date
    formatting and the float conversion of the hours are parameters too. */
module Planner {
  import opened Text
  import opened Results

  /** One task as the caller gives it: a dictionary of strings. */
  type Task = map<string, string>

  /** A task with its parsed deadline and its position in the input. */
  datatype Keyed = Keyed(deadline: int, index: nat, task: Task)

  /** `str(KeyError(key))` */
  function MissingKey(key: string): string {
    "'" + key + "'"
  }

  /** `parser.parse(x["deadline"])` for one task. */
  function DeadlineOf(task: Task, parse: string -> Result<int>): (r: Result<int>)
    ensures "deadline" !in task ==> r == Err(MissingKey("deadline"))
    ensures "deadline" in task ==> r == parse(task["deadline"])
  {
    if "deadline" in task then parse(task["deadline"]) else Err(MissingKey("deadline"))
  }

  /** The sort keys, computed for every task in input order before any
      comparison, as `sorted` does; the first failure is the error. */
  function KeyAll(tasks: seq<Task>, parse: string -> Result<int>, from: nat): (r: Result<seq<Keyed>>)
    requires from <= |tasks|
    ensures r.Ok? ==> |r.value| == |tasks| - from
    ensures r.Ok? ==> forall k :: 0 <= k < |r.value| ==>
      && DeadlineOf(tasks[from + k], parse).Ok?
      && r.value[k] == Keyed(DeadlineOf(tasks[from + k], parse).value, from + k, tasks[from + k])
    ensures r.Err? <==> exists k :: from <= k < |tasks| && DeadlineOf(tasks[k], parse).Err?
    decreases |tasks| - from
  {
    if from == |tasks| then Ok([])
    else match DeadlineOf(tasks[from], parse)
      case Err(e) => Err(e)
      case Ok(d) =>
        match KeyAll(tasks, parse, from + 1)
        case Err(e) => Err(e)
        case Ok(rest) =>
          var r := [Keyed(d, from, tasks[from])] + rest;
          assert forall k :: 1 <= k < |r| ==> r[k] == rest[k - 1];
          Ok(r)
  }

  /** A failed key is reported only if every task before it has a key: the
      error is the first task's error in input order. */
  lemma {:induction false} KeyAllFirstError(tasks: seq<Task>, parse: string -> Result<int>, from: nat, i: nat)
    requires from <= i < |tasks|
    requires DeadlineOf(tasks[i], parse).Err?
    requires forall k :: from <= k < i ==> DeadlineOf(tasks[k], parse).Ok?
    ensures KeyAll(tasks, parse, from) == Err(DeadlineOf(tasks[i], parse).error)
    decreases i - from
  {
    if from < i {
      KeyAllFirstError(tasks, parse, from + 1, i);
    }
  }

  /** `a` is placed before `b`: an earlier deadline, or the same deadline
      and earlier in the input. */
  predicate Before(a: Keyed, b: Keyed) {
    a.deadline < b.deadline || (a.deadline == b.deadline && a.index < b.index)
  }

  /** Sorted by deadline, equal deadlines in input order. */
  predicate Ordered(s: seq<Keyed>) {
    forall i, j :: 0 <= i < j < |s| ==> Before(s[i], s[j])
  }

  /** Put `x` after every element whose deadline is not later than its own. */
  function Insert(x: Keyed, s: seq<Keyed>): (r: seq<Keyed>)
    ensures |r| == |s| + 1
    ensures multiset(r) == multiset(s) + multiset{x}
    decreases |s|
  {
    if s == [] then [x]
    else if s[|s| - 1].deadline <= x.deadline then s + [x]
    else
      var last := s[|s| - 1];
      assert s == s[..|s| - 1] + [last];
      Insert(x, s[..|s| - 1]) + [last]
  }

  /** Inserting an element that came later in the input keeps the order. */
  lemma {:induction false} InsertOrdered(x: Keyed, s: seq<Keyed>)
    requires Ordered(s)
    requires forall k :: 0 <= k < |s| ==> s[k].index < x.index
    ensures Ordered(Insert(x, s))
    decreases |s|
  {
    if s != [] && s[|s| - 1].deadline > x.deadline {
      var init := s[..|s| - 1];
      var last := s[|s| - 1];
      InsertOrdered(x, init);
      var r := Insert(x, s);
      var head := Insert(x, init);
      assert r == head + [last];
      forall n | 0 <= n < |head| ensures Before(head[n], last) {
        var y := head[n];
        assert y in multiset(head);
        assert y in multiset(init) + multiset{x};
        if y != x {
          assert y in init;
          var k :| 0 <= k < |init| && init[k] == y;
          assert Before(s[k], s[|s| - 1]);
        }
      }
      OrderedSnoc(head, last);
    }
  }

  /** An element placed after everything it follows keeps the order. */
  lemma OrderedSnoc(head: seq<Keyed>, last: Keyed)
    requires Ordered(head)
    requires forall n :: 0 <= n < |head| ==> Before(head[n], last)
    ensures Ordered(head + [last])
  {
    var r := head + [last];
    forall i, j | 0 <= i < j < |r| ensures Before(r[i], r[j]) {
      assert r[i] == head[i];
      if j < |head| {
        assert r[j] == head[j];
      }
    }
  }

  /** `sorted(tasks, key=deadline)`: a stable sort, built by insertion. */
  function Sort(s: seq<Keyed>): (r: seq<Keyed>)
    ensures |r| == |s|
    ensures multiset(r) == multiset(s)
    decreases |s|
  {
    if s == [] then []
    else
      assert s == s[..|s| - 1] + [s[|s| - 1]];
      Insert(s[|s| - 1], Sort(s[..|s| - 1]))
  }

  /** Indices that increase along the input. */
  predicate InInputOrder(s: seq<Keyed>) {
    forall i, j :: 0 <= i < j < |s| ==> s[i].index < s[j].index
  }

  /** The sort orders by deadline and keeps the input order among equal
      deadlines. */
  lemma {:induction false} SortOrdered(s: seq<Keyed>)
    requires InInputOrder(s)
    ensures Ordered(Sort(s))
    decreases |s|
  {
    if s != [] {
      var init := s[..|s| - 1];
      var x := s[|s| - 1];
      SortOrdered(init);
      var sorted := Sort(init);
      forall k | 0 <= k < |sorted| ensures sorted[k].index < x.index {
        assert sorted[k] in multiset(init);
        var m :| 0 <= m < |init| && init[m] == sorted[k];
      }
      InsertOrdered(x, sorted);
    }
  }

  /** The keyed tasks are in input order. */
  lemma KeyAllInInputOrder(tasks: seq<Task>, parse: string -> Result<int>)
    requires KeyAll(tasks, parse, 0).Ok?
    ensures InInputOrder(KeyAll(tasks, parse, 0).value)
  {
  }

  /** A routine lists each given task once, sorted by deadline, with equal
      deadlines in input order. */
  lemma RoutineOrder(tasks: seq<Task>, parse: string -> Result<int>)
    requires KeyAll(tasks, parse, 0).Ok?
    ensures Ordered(Sort(KeyAll(tasks, parse, 0).value))
    ensures multiset(Sort(KeyAll(tasks, parse, 0).value)) == multiset(KeyAll(tasks, parse, 0).value)
    ensures |Sort(KeyAll(tasks, parse, 0).value)| == |tasks|
  {
    SortOrdered(KeyAll(tasks, parse, 0).value);
  }

  const DefaultPriority: string := "medium"
  /** `str(float(1))` */
  const DefaultHours: string := "1.0"

  function Header(today: string): string {
    "### Generated Routine (Starting " + today + ")"
  }

  const Note: string := "\n*Note: This is a high-level allocation. Please breaks tasks into chunks if they exceed 4 hours.*"

  function TaskLine(name: string, deadline: string): string {
    "- **" + name + "** (Deadline: " + deadline + ")"
  }

  function AllocationLine(hours: string, priority: string): string {
    "  Allocated: " + hours + " hours | Priority: " + priority
  }

  /** The two lines of one task. `hoursText` stands for `str(float(x))`;
      the hours are converted before the name is looked up. */
  function TaskLines(k: Keyed, formatDate: int -> string, hoursText: string -> Result<string>): (r: Result<seq<string>>)
    ensures r.Ok? ==> |r.value| == 2 && "task" in k.task
    ensures "estimated_hours" in k.task && hoursText(k.task["estimated_hours"]).Err? ==>
      r == Err(hoursText(k.task["estimated_hours"]).error)
  {
    var hours := if "estimated_hours" in k.task then hoursText(k.task["estimated_hours"]) else Ok(DefaultHours);
    if hours.Err? then Err(hours.error)
    else if "task" !in k.task then Err(MissingKey("task"))
    else
      var priority := if "priority" in k.task then k.task["priority"] else DefaultPriority;
      Ok([TaskLine(k.task["task"], formatDate(k.deadline)), AllocationLine(hours.value, priority)])
  }

  /** A task without a priority or an estimate is allocated one hour at
      medium priority. */
  lemma TaskDefaults(k: Keyed, formatDate: int -> string, hoursText: string -> Result<string>)
    requires "task" in k.task && "priority" !in k.task && "estimated_hours" !in k.task
    ensures TaskLines(k, formatDate, hoursText) ==
      Ok([TaskLine(k.task["task"], formatDate(k.deadline)), AllocationLine(DefaultHours, DefaultPriority)])
  {
  }

  /** The lines of all tasks, in order; the first failure stops the loop. */
  function LinesFor(s: seq<Keyed>, formatDate: int -> string, hoursText: string -> Result<string>): (r: Result<seq<string>>)
    decreases |s|
  {
    if s == [] then Ok([])
    else match LinesFor(s[..|s| - 1], formatDate, hoursText)
      case Err(e) => Err(e)
      case Ok(lines) =>
        match TaskLines(s[|s| - 1], formatDate, hoursText)
        case Err(e) => Err(e)
        case Ok(two) => Ok(lines + two)
  }

  /** Each task contributes exactly its two lines, at positions 2k and
      2k + 1. */
  lemma {:induction false} LinesForShape(s: seq<Keyed>, formatDate: int -> string, hoursText: string -> Result<string>)
    requires LinesFor(s, formatDate, hoursText).Ok?
    ensures |LinesFor(s, formatDate, hoursText).value| == 2 * |s|
    ensures forall k :: 0 <= k < |s| ==>
      && TaskLines(s[k], formatDate, hoursText).Ok?
      && LinesFor(s, formatDate, hoursText).value[2 * k..2 * k + 2] == TaskLines(s[k], formatDate, hoursText).value
    decreases |s|
  {
    if s != [] {
      var init := s[..|s| - 1];
      LinesForShape(init, formatDate, hoursText);
      var lines := LinesFor(init, formatDate, hoursText).value;
      var r := LinesFor(s, formatDate, hoursText).value;
      assert r == lines + TaskLines(s[|s| - 1], formatDate, hoursText).value;
      forall k | 0 <= k < |s| - 1
        ensures TaskLines(s[k], formatDate, hoursText).Ok?
        ensures r[2 * k..2 * k + 2] == TaskLines(s[k], formatDate, hoursText).value
      {
        assert s[k] == init[k];
        assert r[2 * k..2 * k + 2] == lines[2 * k..2 * k + 2];
      }
    }
  }

  /** `create_routine(tasks, start, end)` as a value: the lines of the
      routine, or the message of the first failure. The working hours are
      parsed first; the current date comes in as `today`. */
  function Routine(tasks: seq<Task>, workStart: string, workEnd: string, today: string,
                   parse: string -> Result<int>, formatDate: int -> string,
                   hoursText: string -> Result<string>): (r: Result<seq<string>>)
    ensures parse(workStart).Err? ==> r == Err(parse(workStart).error)
    ensures parse(workStart).Ok? && parse(workEnd).Err? ==> r == Err(parse(workEnd).error)
    ensures parse(workStart).Ok? && parse(workEnd).Ok? && KeyAll(tasks, parse, 0).Err? ==>
      r == Err(KeyAll(tasks, parse, 0).error)
    ensures r.Ok? ==>
      && |r.value| >= 2 && r.value[0] == Header(today) && r.value[|r.value| - 1] == Note
      && KeyAll(tasks, parse, 0).Ok?
  {
    if parse(workStart).Err? then Err(parse(workStart).error)
    else if parse(workEnd).Err? then Err(parse(workEnd).error)
    else match KeyAll(tasks, parse, 0)
      case Err(e) => Err(e)
      case Ok(keyed) =>
        match LinesFor(Sort(keyed), formatDate, hoursText)
        case Err(e) => Err(e)
        case Ok(lines) => Ok([Header(today)] + lines + [Note])
  }

  /** The text the tool returns for a routine. */
  function Render(routine: Result<seq<string>>): string {
    match routine
    case Ok(lines) => Join(lines, "\n")
    case Err(e) => Failure(e)
  }

  function Failure(e: string): string {
    "Error creating routine: " + e
  }

  /** A routine that succeeds is the header, the lines of the sorted
      tasks, and the note. */
  lemma RoutineParts(tasks: seq<Task>, workStart: string, workEnd: string, today: string,
                     parse: string -> Result<int>, formatDate: int -> string,
                     hoursText: string -> Result<string>)
    requires Routine(tasks, workStart, workEnd, today, parse, formatDate, hoursText).Ok?
    ensures KeyAll(tasks, parse, 0).Ok?
    ensures LinesFor(Sort(KeyAll(tasks, parse, 0).value), formatDate, hoursText).Ok?
    ensures Routine(tasks, workStart, workEnd, today, parse, formatDate, hoursText).value
      == [Header(today)] + LinesFor(Sort(KeyAll(tasks, parse, 0).value), formatDate, hoursText).value + [Note]
  {
  }

  /** A routine opens with the header, closes with the note, and holds
      exactly two lines for each sorted task in between. */
  lemma RoutineShape(tasks: seq<Task>, workStart: string, workEnd: string, today: string,
                     parse: string -> Result<int>, formatDate: int -> string,
                     hoursText: string -> Result<string>, sorted: seq<Keyed>)
    requires Routine(tasks, workStart, workEnd, today, parse, formatDate, hoursText).Ok?
    requires KeyAll(tasks, parse, 0).Ok? && sorted == Sort(KeyAll(tasks, parse, 0).value)
    ensures |sorted| == |tasks|
    ensures var lines := Routine(tasks, workStart, workEnd, today, parse, formatDate, hoursText).value;
      && |lines| == 2 * |tasks| + 2
      && lines[0] == Header(today)
      && lines[|lines| - 1] == Note
    ensures forall k :: 0 <= k < |tasks| ==>
      && TaskLines(sorted[k], formatDate, hoursText).Ok?
      && Routine(tasks, workStart, workEnd, today, parse, formatDate, hoursText).value[2 * k + 1..2 * k + 3]
        == TaskLines(sorted[k], formatDate, hoursText).value
  {
    RoutineParts(tasks, workStart, workEnd, today, parse, formatDate, hoursText);
    LinesForShape(sorted, formatDate, hoursText);
    var lines := LinesFor(sorted, formatDate, hoursText).value;
    assert Routine(tasks, workStart, workEnd, today, parse, formatDate, hoursText).value
      == [Header(today)] + lines + [Note];
    FramedTasks(Header(today), lines, Note, sorted, formatDate, hoursText);
  }

  /** Framing all task lines by a header and a note moves task k's two lines
      to positions 2k + 1 and 2k + 2. */
  lemma FramedTasks(a: string, lines: seq<string>, b: string, sorted: seq<Keyed>,
                    formatDate: int -> string, hoursText: string -> Result<string>)
    requires |lines| == 2 * |sorted|
    requires forall k :: 0 <= k < |sorted| ==>
      && TaskLines(sorted[k], formatDate, hoursText).Ok?
      && lines[2 * k..2 * k + 2] == TaskLines(sorted[k], formatDate, hoursText).value
    ensures forall k :: 0 <= k < |sorted| ==>
      ([a] + lines + [b])[2 * k + 1..2 * k + 3] == TaskLines(sorted[k], formatDate, hoursText).value
  {
    forall k | 0 <= k < |sorted|
      ensures ([a] + lines + [b])[2 * k + 1..2 * k + 3] == lines[2 * k..2 * k + 2]
    {
      Framed(a, lines, b, 2 * k, 2 * k + 2);
    }
  }

  /** A slice of the middle part of `[a] + lines + [b]`. */
  lemma Framed(a: string, lines: seq<string>, b: string, i: nat, j: nat)
    requires i <= j <= |lines|
    ensures ([a] + lines + [b])[i + 1..j + 1] == lines[i..j]
  {
    var r := [a] + lines + [b];
    assert |r[i + 1..j + 1]| == j - i;
    forall m | 0 <= m < j - i ensures r[i + 1..j + 1][m] == lines[i..j][m] {
      assert r[i + 1 + m] == lines[i + m];
    }
  }

  /** The working hours only matter by failing to parse: any two that
      parse give the same routine. */
  lemma WorkingHoursIgnored(tasks: seq<Task>, start1: string, end1: string, start2: string, end2: string,
                            today: string, parse: string -> Result<int>, formatDate: int -> string,
                            hoursText: string -> Result<string>)
    requires parse(start1).Ok? && parse(end1).Ok? && parse(start2).Ok? && parse(end2).Ok?
    ensures Routine(tasks, start1, end1, today, parse, formatDate, hoursText)
         == Routine(tasks, start2, end2, today, parse, formatDate, hoursText)
  {
  }

  /** A task without a deadline, with every task before it dated, fails
      the routine with the key error (once the working hours parse). */
  lemma MissingDeadlineFails(tasks: seq<Task>, workStart: string, workEnd: string, today: string,
                             parse: string -> Result<int>, formatDate: int -> string,
                             hoursText: string -> Result<string>, i: nat)
    requires parse(workStart).Ok? && parse(workEnd).Ok?
    requires i < |tasks| && "deadline" !in tasks[i]
    requires forall k :: 0 <= k < i ==> DeadlineOf(tasks[k], parse).Ok?
    ensures Render(Routine(tasks, workStart, workEnd, today, parse, formatDate, hoursText))
         == "Error creating routine: 'deadline'"
  {
    KeyAllFirstError(tasks, parse, 0, i);
  }

  /** `create_routine`: parse the working hours, sort, list each task,
      add the note. */
  method CreateRoutine(tasks: seq<Task>, workStart: string, workEnd: string, today: string,
                       parse: string -> Result<int>, formatDate: int -> string,
                       hoursText: string -> Result<string>) returns (message: string)
    ensures message == Render(Routine(tasks, workStart, workEnd, today, parse, formatDate, hoursText))
  {
    var startTime := parse(workStart);
    if startTime.Err? {
      return Failure(startTime.error);
    }
    var endTime := parse(workEnd);
    if endTime.Err? {
      return Failure(endTime.error);
    }
    var keyed := KeyAll(tasks, parse, 0);
    if keyed.Err? {
      return Failure(keyed.error);
    }
    var sorted := Sort(keyed.value);
    var lines := TaskListing(sorted, formatDate, hoursText);
    if lines.Err? {
      return Failure(lines.error);
    }
    message := Join([Header(today)] + lines.value + [Note], "\n");
  }

  /** The loop of `create_routine`: two lines appended per task, in the
      sorted order; the first failure ends it. */
  method TaskListing(sorted: seq<Keyed>, formatDate: int -> string, hoursText: string -> Result<string>)
    returns (r: Result<seq<string>>)
    ensures r == LinesFor(sorted, formatDate, hoursText)
  {
    var routine: seq<string> := [];
    var i := 0;
    assert sorted[..0] == [];
    while i < |sorted|
      invariant 0 <= i <= |sorted|
      invariant LinesFor(sorted[..i], formatDate, hoursText) == Ok(routine)
    {
      var lines := TaskLines(sorted[i], formatDate, hoursText);
      LinesForStep(sorted, i, formatDate, hoursText);
      if lines.Err? {
        PrefixFails(sorted, i + 1, formatDate, hoursText);
        return Err(lines.error);
      }
      routine := routine + lines.value;
      i := i + 1;
    }
    assert sorted[..i] == sorted;
    return Ok(routine);
  }

  /** One more task: its lines are appended, or its failure is the
      prefix's failure. */
  lemma LinesForStep(s: seq<Keyed>, i: nat, formatDate: int -> string, hoursText: string -> Result<string>)
    requires i < |s| && LinesFor(s[..i], formatDate, hoursText).Ok?
    ensures TaskLines(s[i], formatDate, hoursText).Err? ==>
      LinesFor(s[..i + 1], formatDate, hoursText) == Err(TaskLines(s[i], formatDate, hoursText).error)
    ensures TaskLines(s[i], formatDate, hoursText).Ok? ==>
      LinesFor(s[..i + 1], formatDate, hoursText)
        == Ok(LinesFor(s[..i], formatDate, hoursText).value + TaskLines(s[i], formatDate, hoursText).value)
  {
    assert s[..i + 1][..i] == s[..i];
    assert s[..i + 1][i] == s[i];
  }

  /** A failure in a prefix of a task list is the failure of all of them. */
  lemma {:induction false} PrefixFails(s: seq<Keyed>, n: nat, formatDate: int -> string, hoursText: string -> Result<string>)
    requires n <= |s| && LinesFor(s[..n], formatDate, hoursText).Err?
    ensures LinesFor(s, formatDate, hoursText) == LinesFor(s[..n], formatDate, hoursText)
    decreases |s| - n
  {
    if n < |s| {
      assert s[..n + 1][..n] == s[..n];
      PrefixFails(s, n + 1, formatDate, hoursText);
    } else {
      assert s[..n] == s;
    }
  }
}
