/** The team page: the open tasks grouped under each assignee's username, the lookup of a
    team member's group by lower-cased first name, and the task count shown on each
    member's card. */
module TeamPerformance {
  import opened Common
  import opened JsString
  import opened ClickUpTypes

  /** The `tasksByCollab` object: username keys in insertion order, each with its tasks. */
  type Groups = seq<(string, seq<Task>)>

  function Keys(g: Groups): seq<string>
  {
    seq(|g|, i requires 0 <= i < |g| => g[i].0)
  }

  /** Keys are distinct and every group holds at least one task. */
  predicate ValidGroups(g: Groups)
  {
    && (forall i, j :: 0 <= i < j < |g| ==> g[i].0 != g[j].0)
    && (forall i :: 0 <= i < |g| ==> g[i].1 != [])
  }

  /** `tasksByCollab[u]`, with an absent key read as no tasks. */
  function GroupOf(g: Groups, u: string): seq<Task>
  {
    if |g| == 0 then []
    else if g[0].0 == u then g[0].1
    else GroupOf(g[1..], u)
  }

  /** `if (!d[key]) d[key] = []; d[key].push(task)`: the task is appended to the key's
      group, which is created at the end of the key order when absent. */
  function Push(g: Groups, key: string, t: Task): Groups
  {
    if |g| == 0 then [(key, [t])]
    else if g[0].0 == key then [(key, g[0].1 + [t])] + g[1..]
    else [g[0]] + Push(g[1..], key, t)
  }

  /** The task pushed once under each of `keys`, in order. */
  function PushEach(g: Groups, t: Task, keys: seq<string>): Groups
  {
    if |keys| == 0 then g
    else Push(PushEach(g, t, keys[..|keys| - 1]), keys[|keys| - 1], t)
  }

  /** The grouping of a task collection, task by task: its keys are distinct, no group is
      empty, and the groups together hold one task per assignee entry. */
  function Grouped(tasks: seq<Task>): (r: Groups)
    ensures ValidGroups(r)
    ensures TotalSize(r) == AssigneeEntries(tasks)
  {
    if |tasks| == 0 then []
    else
      var t := tasks[|tasks| - 1];
      var g := Grouped(tasks[..|tasks| - 1]);
      PushEachValid(g, t, t.assignees);
      PushEach(g, t, t.assignees)
  }

  // ---------------------------------------------------------------- reference definition

  /** How many entries of `keys` are `u`. */
  function Count(keys: seq<string>, u: string): nat
  {
    if |keys| == 0 then 0
    else Count(keys[..|keys| - 1], u) + (if keys[|keys| - 1] == u then 1 else 0)
  }

  function Copies(t: Task, n: nat): seq<Task>
  {
    seq(n, _ => t)
  }

  /** The tasks filed under `u`: each task, in collection order, once per assignee entry
      with that username. */
  function TasksOf(tasks: seq<Task>, u: string): seq<Task>
  {
    if |tasks| == 0 then []
    else
      var t := tasks[|tasks| - 1];
      TasksOf(tasks[..|tasks| - 1], u) + Copies(t, Count(t.assignees, u))
  }

  /** The number of assignee entries, over all tasks. */
  function AssigneeEntries(tasks: seq<Task>): nat
  {
    if |tasks| == 0 then 0
    else AssigneeEntries(tasks[..|tasks| - 1]) + |tasks[|tasks| - 1].assignees|
  }

  /** The number of tasks in all groups together. */
  function TotalSize(g: Groups): nat
  {
    if |g| == 0 then 0 else |g[0].1| + TotalSize(g[1..])
  }

  // ---------------------------------------------------------------- one push

  lemma {:induction false} PushGroupOf(g: Groups, key: string, t: Task, u: string)
    ensures GroupOf(Push(g, key, t), u) == if u == key then GroupOf(g, u) + [t] else GroupOf(g, u)
  {
    if |g| > 0 && g[0].0 != key {
      PushGroupOf(g[1..], key, t, u);
      assert Push(g, key, t)[1..] == Push(g[1..], key, t);
    }
  }

  lemma {:induction false} PushKeys(g: Groups, key: string, t: Task)
    ensures Keys(Push(g, key, t)) == if key in Keys(g) then Keys(g) else Keys(g) + [key]
  {
    if |g| > 0 {
      assert Keys(g) == [g[0].0] + Keys(g[1..]);
      if g[0].0 != key {
        PushKeys(g[1..], key, t);
        assert Keys(Push(g, key, t)) == [g[0].0] + Keys(Push(g[1..], key, t));
      } else {
        assert Keys(Push(g, key, t)) == [key] + Keys(g[1..]);
      }
    }
  }

  lemma {:induction false} PushValid(g: Groups, key: string, t: Task)
    requires ValidGroups(g)
    ensures ValidGroups(Push(g, key, t))
  {
    var r := Push(g, key, t);
    PushKeys(g, key, t);
    if |g| > 0 && g[0].0 != key {
      PushValid(g[1..], key, t);
    }
    forall i, j | 0 <= i < j < |r| ensures r[i].0 != r[j].0 {
      assert Keys(r)[i] == r[i].0 && Keys(r)[j] == r[j].0;
      if j < |g| {
        assert Keys(g)[i] == g[i].0 && Keys(g)[j] == g[j].0;
      } else {
        assert Keys(g)[i] == g[i].0;
      }
    }
    forall i | 0 <= i < |r| ensures r[i].1 != [] {
      if |g| > 0 && g[0].0 != key && i > 0 {
        assert r[i] == Push(g[1..], key, t)[i - 1];
      }
    }
  }

  lemma {:induction false} PushSize(g: Groups, key: string, t: Task)
    ensures TotalSize(Push(g, key, t)) == TotalSize(g) + 1
  {
    if |g| > 0 {
      if g[0].0 != key {
        PushSize(g[1..], key, t);
        assert Push(g, key, t)[1..] == Push(g[1..], key, t);
      } else {
        assert Push(g, key, t)[1..] == g[1..];
      }
    }
  }

  /** `Push` in the form the page writes it: find the key's entry, or create an empty one
      at the end, then append to that entry. */
  lemma {:induction false} PushAt(g: Groups, key: string, t: Task)
    ensures FindIndex(g, (e: (string, seq<Task>)) => e.0 == key).None? ==>
      Push(g, key, t) == (g + [(key, [])])[|g| := (key, [t])]
    ensures FindIndex(g, (e: (string, seq<Task>)) => e.0 == key).Some? ==>
      var i := FindIndex(g, (e: (string, seq<Task>)) => e.0 == key).value;
      Push(g, key, t) == g[i := (key, g[i].1 + [t])]
  {
    if |g| > 0 && g[0].0 != key {
      PushAt(g[1..], key, t);
      var p := (e: (string, seq<Task>)) => e.0 == key;
      match FindIndex(g, p)
      case None =>
        assert FindIndex(g[1..], p).None?;
      case Some(i) =>
        assert i > 0;
        FindIndexIsFirst(g[1..], p, i - 1);
    }
  }

  // ---------------------------------------------------------------- grouping

  lemma {:induction false} PushEachGroupOf(g: Groups, t: Task, keys: seq<string>, u: string)
    ensures GroupOf(PushEach(g, t, keys), u) == GroupOf(g, u) + Copies(t, Count(keys, u))
  {
    if |keys| > 0 {
      var init := keys[..|keys| - 1];
      PushEachGroupOf(g, t, init, u);
      PushGroupOf(PushEach(g, t, init), keys[|keys| - 1], t, u);
      if keys[|keys| - 1] == u {
        assert Copies(t, Count(init, u)) + [t] == Copies(t, Count(keys, u));
      }
    }
  }

  lemma {:induction false} PushEachKeys(g: Groups, t: Task, keys: seq<string>, u: string)
    ensures u in Keys(PushEach(g, t, keys)) <==> u in Keys(g) || u in keys
  {
    if |keys| > 0 {
      var init := keys[..|keys| - 1];
      PushEachKeys(g, t, init, u);
      PushKeys(PushEach(g, t, init), keys[|keys| - 1], t);
      assert keys == init + [keys[|keys| - 1]];
    }
  }

  lemma {:induction false} PushEachValid(g: Groups, t: Task, keys: seq<string>)
    requires ValidGroups(g)
    ensures ValidGroups(PushEach(g, t, keys))
    ensures TotalSize(PushEach(g, t, keys)) == TotalSize(g) + |keys|
  {
    if |keys| > 0 {
      var init := keys[..|keys| - 1];
      PushEachValid(g, t, init);
      PushValid(PushEach(g, t, init), keys[|keys| - 1], t);
      PushSize(PushEach(g, t, init), keys[|keys| - 1], t);
    }
  }

  /** Each username's group holds, in collection order, every task once per assignee entry
      with that username: a task listed twice for one user is filed twice, and a task
      without assignees is filed nowhere. */
  lemma {:induction false} GroupedIsTasksOf(tasks: seq<Task>, u: string)
    ensures GroupOf(Grouped(tasks), u) == TasksOf(tasks, u)
  {
    if |tasks| > 0 {
      var t := tasks[|tasks| - 1];
      GroupedIsTasksOf(tasks[..|tasks| - 1], u);
      PushEachGroupOf(Grouped(tasks[..|tasks| - 1]), t, t.assignees, u);
    }
  }

  /** A username is a key exactly when some task lists it as an assignee. */
  lemma {:induction false} GroupedKeys(tasks: seq<Task>, u: string)
    ensures u in Keys(Grouped(tasks)) <==> exists i :: 0 <= i < |tasks| && u in tasks[i].assignees
  {
    if |tasks| > 0 {
      var init := tasks[..|tasks| - 1];
      var t := tasks[|tasks| - 1];
      GroupedKeys(init, u);
      PushEachKeys(Grouped(init), t, t.assignees, u);
      if u in Keys(Grouped(init)) {
        var i :| 0 <= i < |init| && u in init[i].assignees;
        assert tasks[i] == init[i];
      }
      if exists i :: 0 <= i < |tasks| && u in tasks[i].assignees {
        var i :| 0 <= i < |tasks| && u in tasks[i].assignees;
        if i < |init| {
          assert init[i] == tasks[i];
        }
      }
    }
  }

  /** The entry index of `key`, if the object has it. */
  function KeyIndex(g: Groups, key: string): (r: Option<nat>)
    ensures r.Some? ==> r.value < |g| && g[r.value].0 == key
    ensures r.None? ==> key !in Keys(g)
  {
    var r := FindIndex(g, (e: (string, seq<Task>)) => e.0 == key);
    assert r.None? ==> forall j :: 0 <= j < |g| ==> Keys(g)[j] != key;
    r
  }

  /** The grouping effect: every task pushed under each of its assignees' usernames. */
  method GroupByAssignee(tasks: seq<Task>) returns (tasksByCollab: Groups)
    ensures tasksByCollab == Grouped(tasks)
  {
    tasksByCollab := [];
    for i := 0 to |tasks|
      invariant tasksByCollab == Grouped(tasks[..i])
    {
      var task := tasks[i];
      assert tasks[..i + 1][..i] == tasks[..i];
      for j := 0 to |task.assignees|
        invariant tasksByCollab == PushEach(Grouped(tasks[..i]), task, task.assignees[..j])
      {
        var key := task.assignees[j];
        ghost var before := tasksByCollab;
        PushAt(tasksByCollab, key, task);
        var k := KeyIndex(tasksByCollab, key);
        if k.None? {
          tasksByCollab := tasksByCollab + [(key, [])];
          k := Some(|tasksByCollab| - 1);
          assert tasksByCollab[k.value].1 + [task] == [task];
        }
        tasksByCollab := tasksByCollab[k.value := (key, tasksByCollab[k.value].1 + [task])];
        assert tasksByCollab == Push(before, key, task);
        assert task.assignees[..j + 1][..j] == task.assignees[..j];
      }
      assert task.assignees[..|task.assignees|] == task.assignees;
    }
    assert tasks[..|tasks|] == tasks;
  }

  // ---------------------------------------------------------------- member lookup

  /** `memberName.split(' ')[0].toLowerCase()`. */
  function FirstName(memberName: string): (r: string)
    ensures ' ' !in r
    ensures r == ToLower(memberName[..IndexOf(memberName, ' ')])
  {
    SplitFirst(memberName, ' ');
    ToLower(Split(memberName, ' ')[0])
  }

  /** `i` is the first key whose lower-cased text contains `first`. */
  predicate FirstKeyContaining(g: Groups, first: string, i: int)
  {
    0 <= i < |g| && Contains(ToLower(g[i].0), first)
    && forall k :: 0 <= k < i ==> !Contains(ToLower(g[k].0), first)
  }

  /** `getTasksForMember(memberName)`: the group of the first key, in key order, whose
      lower-cased text contains the member's lower-cased first name; no tasks when no key
      does, or when that key is the empty string (a falsy key). */
  function GetTasksForMember(g: Groups, memberName: string): (r: seq<Task>)
    ensures r == [] || exists i :: FirstKeyContaining(g, FirstName(memberName), i) && g[i].0 != "" && r == g[i].1
  {
    var first := FirstName(memberName);
    match FindIndex(g, (e: (string, seq<Task>)) => Contains(ToLower(e.0), first))
    case None => []
    case Some(i) =>
      assert FirstKeyContaining(g, first, i);
      if g[i].0 != "" then g[i].1 else []
  }

  /** The lookup returns the group of the first key containing the first name, and no tasks
      when no key contains it. */
  lemma MemberLookup(g: Groups, memberName: string)
    ensures (forall k :: 0 <= k < |g| ==> !Contains(ToLower(g[k].0), FirstName(memberName)))
              ==> GetTasksForMember(g, memberName) == []
    ensures forall i :: FirstKeyContaining(g, FirstName(memberName), i) ==>
              GetTasksForMember(g, memberName) == if g[i].0 != "" then g[i].1 else []
  {
    var first := FirstName(memberName);
    forall i | FirstKeyContaining(g, first, i)
      ensures GetTasksForMember(g, memberName) == if g[i].0 != "" then g[i].1 else []
    {
      FindIndexIsFirst(g, (e: (string, seq<Task>)) => Contains(ToLower(e.0), first), i);
    }
  }

  /** On the page's grouping, the member's card shows every task filed under the first
      matching username, whatever its status: one per assignee entry with that username. */
  lemma {:induction false} CardCount(tasks: seq<Task>, memberName: string, i: nat)
    requires FirstKeyContaining(Grouped(tasks), FirstName(memberName), i)
    requires Grouped(tasks)[i].0 != ""
    ensures GetTasksForMember(Grouped(tasks), memberName) == TasksOf(tasks, Grouped(tasks)[i].0)
    ensures |GetTasksForMember(Grouped(tasks), memberName)| == EntriesOf(tasks, Grouped(tasks)[i].0)
  {
    var g := Grouped(tasks);
    MemberLookup(g, memberName);
    GroupOfValid(g, i);
    GroupedIsTasksOf(tasks, g[i].0);
    TasksOfSize(tasks, g[i].0);
  }

  /** In valid groups, the entry at `i` is the group of its key. */
  lemma {:induction false} GroupOfValid(g: Groups, i: nat)
    requires ValidGroups(g) && i < |g|
    ensures GroupOf(g, g[i].0) == g[i].1
  {
    if i > 0 {
      assert ValidGroups(g[1..]);
      GroupOfValid(g[1..], i - 1);
    }
  }

  /** The number of assignee entries naming `u`, over all tasks. */
  function EntriesOf(tasks: seq<Task>, u: string): nat
  {
    if |tasks| == 0 then 0
    else EntriesOf(tasks[..|tasks| - 1], u) + Count(tasks[|tasks| - 1].assignees, u)
  }

  lemma {:induction false} TasksOfSize(tasks: seq<Task>, u: string)
    ensures |TasksOf(tasks, u)| == EntriesOf(tasks, u)
  {
    if |tasks| > 0 {
      TasksOfSize(tasks[..|tasks| - 1], u);
    }
  }

  /** The members the page shows a card for, in card order. */
  const TeamMembers: seq<string> := ["Matheus Neri", "Ana Silva", "Carlos GT", "Beatriz Copy",
    "Raquel", "Alexandre", "Camila", "Nicollas", "Isadora"]

  /** The counts on the cards, in card order. */
  function CardCounts(g: Groups): (r: seq<nat>)
    ensures |r| == |TeamMembers|
    ensures forall i :: 0 <= i < |r| ==> r[i] == |GetTasksForMember(g, TeamMembers[i])|
  {
    seq(|TeamMembers|, i requires 0 <= i < |TeamMembers| => |GetTasksForMember(g, TeamMembers[i])|)
  }

  /** Only the first word of a member's name is looked up: "Carlos GT" is found under any
      username containing "carlos". */
  lemma FirstNameOfMember()
    ensures FirstName("Carlos GT") == "carlos"
  {
    assert IndexOf("Carlos GT", ' ') == 6 by {
      assert "Carlos GT"[6] == ' ';
      assert forall j :: 0 <= j < 6 ==> "Carlos GT"[j] != ' ';
    }
    assert "Carlos GT"[..6] == "Carlos";
  }
}
