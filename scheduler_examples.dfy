/** The two sample hierarchies of the demo driver, with the schedules they
    produce. */
module SchedulerExamples {
  import opened Tasks
  import opened PrioritySort
  import opened TaskScheduler

  function Leaf(id: int, name: string, priority: int): Node {
    Task(Some(id), Some(name), Some(priority), [])
  }

  lemma LeafSchedule(id: int, name: string, priority: int, level: int)
    ensures Schedule(Leaf(id, name, priority), level)
         == Ok([ScheduledTask(id, name, priority, level)])
  {
    var rec := ScheduledTask(id, name, priority, level);
    assert SortByPriority([]) == [];
    assert ScheduleSeq([], level + 1) == Ok([]);
    assert [rec] + [] == [rec];
  }

  /** Proof step (a fact about sequences, not about the scheduler): a lone
      sibling sorts to itself. */
  lemma SortSingle(b: Node)
    ensures SortByPriority([b]) == [b]
  {
    assert [b][1..] == [];
  }

  /** Proof step (a fact about sequences, not about the scheduler):
      inserting into a one-node sequence. */
  lemma InsertSingle(a: Node, b: Node)
    ensures Insert(a, [b]) == if Priority(b) <= Priority(a) then [a, b] else [b, a]
  {
    if Priority(b) > Priority(a) {
      assert [b][1..] == [];
      assert Insert(a, []) == [a];
    }
  }

  /** Two siblings are swapped exactly when the second is more urgent. */
  lemma SortPair(a: Node, b: Node)
    ensures SortByPriority([a, b]) == if Priority(a) >= Priority(b) then [a, b] else [b, a]
  {
    assert [a, b][1..] == [b];
    SortSingle(b);
    InsertSingle(a, b);
  }

  /** Two siblings that schedule to `rx` and `ry` schedule, in that order,
      to `rx` followed by `ry`. */
  lemma ScheduleSeqPair(x: Node, y: Node, level: int, rx: seq<ScheduledTask>, ry: seq<ScheduledTask>)
    requires Schedule(x, level) == Ok(rx)
    requires Schedule(y, level) == Ok(ry)
    ensures ScheduleSeq([x, y], level) == Ok(rx + ry)
  {
    assert [x, y][1..] == [y] && [y][1..] == [];
    assert ScheduleSeq([y], level) == Ok(ry) by {
      assert ry + [] == ry;
    }
  }

  /** A node with two subtasks that schedule to `ra` and `rb` schedules to
      its own record, then the two subtrees, the more urgent first. */
  lemma TwoSubtasksSchedule(n: Node, level: int, a: Node, b: Node, ra: seq<ScheduledTask>, rb: seq<ScheduledTask>)
    requires n.Task? && n.id.Some? && n.name.Some? && n.subtasks == [a, b]
    requires Schedule(a, level + 1) == Ok(ra)
    requires Schedule(b, level + 1) == Ok(rb)
    ensures Schedule(n, level) == Ok([RecordOf(n, level)] +
      if Priority(a) >= Priority(b) then ra + rb else rb + ra)
  {
    ScheduleUnfold(n, level);
    SortPair(a, b);
    if Priority(a) >= Priority(b) {
      ScheduleSeqPair(a, b, level + 1, ra, rb);
    } else {
      ScheduleSeqPair(b, a, level + 1, rb, ra);
    }
  }

  /** A node whose two subtasks are leaves schedules to its own record,
      then the two leaves one level deeper, the more urgent first. */
  lemma TwoLeavesSchedule(n: Node, level: int, ia: int, na: string, pa: int, ib: int, nb: string, pb: int)
    requires n.Task? && n.id.Some? && n.name.Some?
    requires n.subtasks == [Leaf(ia, na, pa), Leaf(ib, nb, pb)]
    ensures Schedule(n, level) == Ok(
      var ra, rb := ScheduledTask(ia, na, pa, level + 1), ScheduledTask(ib, nb, pb, level + 1);
      if pa >= pb then [RecordOf(n, level), ra, rb] else [RecordOf(n, level), rb, ra])
  {
    var ra, rb := ScheduledTask(ia, na, pa, level + 1), ScheduledTask(ib, nb, pb, level + 1);
    LeafSchedule(ia, na, pa, level + 1);
    LeafSchedule(ib, nb, pb, level + 1);
    TwoSubtasksSchedule(n, level, Leaf(ia, na, pa), Leaf(ib, nb, pb), [ra], [rb]);
    if pa >= pb {
      Triple(RecordOf(n, level), ra, rb);
    } else {
      Triple(RecordOf(n, level), rb, ra);
    }
  }

  /** Proof step (a fact about sequences, not about the scheduler): a
      record followed by two more, written out as one display. */
  lemma Triple(root: ScheduledTask, x: ScheduledTask, y: ScheduledTask)
    ensures [root] + ([x] + [y]) == [root, x, y]
  {
  }

  /** Proof step (a fact about sequences, not about the scheduler): a
      record followed by two three-record blocks, written out as one
      display. */
  lemma Spread(root: ScheduledTask, front: seq<ScheduledTask>, back: seq<ScheduledTask>)
    requires |front| == 3 && |back| == 3
    ensures [root] + (front + back) == [root, front[0], front[1], front[2], back[0], back[1], back[2]]
  {
  }

  /** "Project Setup" with two leaf subtasks of priorities 2 and 1. */
  const ProjectSetup: Node :=
    Task(Some(1), Some("Project Setup"), Some(3), [
      Leaf(2, "Install Dependencies", 2),
      Leaf(3, "Configure Environment", 1)
    ])

  /** "Frontend Development": subtasks already in decreasing priority. */
  const Frontend: Node :=
    Task(Some(2), Some("Frontend Development"), Some(4), [
      Leaf(4, "UI Design", 3),
      Leaf(5, "Implementation", 2)
    ])

  /** "Backend Development": subtasks listed in increasing priority. */
  const Backend: Node :=
    Task(Some(3), Some("Backend Development"), Some(4), [
      Leaf(6, "API Development", 3),
      Leaf(7, "Database Setup", 4)
    ])

  /** "Website Development": the two priority-4 branches above. */
  const WebsiteDevelopment: Node :=
    Task(Some(1), Some("Website Development"), Some(5), [Frontend, Backend])

  /** The simple hierarchy is scheduled root first, then its subtasks by
      decreasing priority, one level deeper; the demo starts at level 0. */
  lemma ProjectSetupSchedule(level: int)
    ensures Schedule(ProjectSetup, level) == Ok([
      ScheduledTask(1, "Project Setup", 3, level),
      ScheduledTask(2, "Install Dependencies", 2, level + 1),
      ScheduledTask(3, "Configure Environment", 1, level + 1)
    ])
  {
    TwoLeavesSchedule(ProjectSetup, level, 2, "Install Dependencies", 2, 3, "Configure Environment", 1);
  }

  lemma FrontendSchedule(level: int)
    ensures Schedule(Frontend, level) == Ok([
      ScheduledTask(2, "Frontend Development", 4, level),
      ScheduledTask(4, "UI Design", 3, level + 1),
      ScheduledTask(5, "Implementation", 2, level + 1)
    ])
  {
    TwoLeavesSchedule(Frontend, level, 4, "UI Design", 3, 5, "Implementation", 2);
  }

  /** Database Setup (priority 4) is scheduled before API Development
      (priority 3), although it is listed after it. */
  lemma BackendSchedule(level: int)
    ensures Schedule(Backend, level) == Ok([
      ScheduledTask(3, "Backend Development", 4, level),
      ScheduledTask(7, "Database Setup", 4, level + 1),
      ScheduledTask(6, "API Development", 3, level + 1)
    ])
  {
    TwoLeavesSchedule(Backend, level, 6, "API Development", 3, 7, "Database Setup", 4);
  }

  /** The nested hierarchy yields ids 1, 2, 4, 5, 3, 7, 6 at depths
      0, 1, 2, 2, 1, 2, 2 below the starting level (the demo starts at 0):
      the two priority-4 branches keep their input order. */
  lemma WebsiteDevelopmentSchedule(level: int)
    ensures Schedule(WebsiteDevelopment, level) == Ok([
      ScheduledTask(1, "Website Development", 5, level),
      ScheduledTask(2, "Frontend Development", 4, level + 1),
      ScheduledTask(4, "UI Design", 3, level + 2),
      ScheduledTask(5, "Implementation", 2, level + 2),
      ScheduledTask(3, "Backend Development", 4, level + 1),
      ScheduledTask(7, "Database Setup", 4, level + 2),
      ScheduledTask(6, "API Development", 3, level + 2)
    ])
  {
    var front := [
      ScheduledTask(2, "Frontend Development", 4, level + 1),
      ScheduledTask(4, "UI Design", 3, level + 1 + 1),
      ScheduledTask(5, "Implementation", 2, level + 1 + 1)
    ];
    var back := [
      ScheduledTask(3, "Backend Development", 4, level + 1),
      ScheduledTask(7, "Database Setup", 4, level + 1 + 1),
      ScheduledTask(6, "API Development", 3, level + 1 + 1)
    ];
    FrontendSchedule(level + 1);
    BackendSchedule(level + 1);
    TwoSubtasksSchedule(WebsiteDevelopment, level, Frontend, Backend, front, back);
    Spread(RecordOf(WebsiteDevelopment, level), front, back);
  }

  /** A subtask without a `name` fails the whole call: no partial list is
      returned, although its sibling schedules without error. */
  lemma MissingNameFails()
    ensures Schedule(
      Task(Some(1), Some("Root"), None, [
        Leaf(2, "Child", 1),
        Task(Some(3), None, Some(7), [])
      ]), 0) == Err(KeyError("name"))
  {
    var child, broken := Leaf(2, "Child", 1), Task(Some(3), None, Some(7), []);
    SortPair(child, broken);
    assert [broken, child][1..] == [child];
  }
}
