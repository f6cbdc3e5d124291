/** `schedule_tasks`: flattens a task hierarchy into the list of records it
    is executed in, by a pre-order depth-first walk that visits each node's
    subtasks in descending priority order (stable on ties). */
module TaskScheduler {
  import opened Tasks
  import opened PrioritySort

  /** Number of non-empty nodes in the tree rooted at `n`. */
  function Count(n: Node): nat {
    match n
    case Empty => 0
    case Task(_, _, _, subtasks) => 1 + CountAll(subtasks)
  }

  /** Number of non-empty nodes in the trees rooted at `cs`. */
  function CountAll(cs: seq<Node>): nat {
    if cs == [] then 0 else Count(cs[0]) + CountAll(cs[1..])
  }

  /** Every non-empty node of the tree carries both an `id` and a `name`. */
  predicate WellFormed(n: Node) {
    match n
    case Empty => true
    case Task(id, name, _, subtasks) =>
      id.Some? && name.Some? && forall c :: c in subtasks ==> WellFormed(c)
  }

  /** The record emitted for node `n` scheduled at nesting level `level`. */
  function RecordOf(n: Node, level: int): ScheduledTask
    requires n.Task? && n.id.Some? && n.name.Some?
  {
    ScheduledTask(n.id.value, n.name.value, Priority(n), level)
  }

  /** What the schedule must contain, independently of any order: one record
      per non-empty node, at `level` plus the node's distance from `n`. */
  ghost function Records(n: Node, level: int): multiset<ScheduledTask>
    requires WellFormed(n)
  {
    match n
    case Empty => multiset{}
    case Task(_, _, _, subtasks) => multiset{RecordOf(n, level)} + RecordsAll(subtasks, level + 1)
  }

  /** Every tree rooted at `cs` is well-formed. */
  predicate AllWellFormed(cs: seq<Node>) {
    forall c :: c in cs ==> WellFormed(c)
  }

  /** The records of the trees rooted at `cs`, all at `level`. */
  ghost function RecordsAll(cs: seq<Node>, level: int): multiset<ScheduledTask>
    requires AllWellFormed(cs)
  {
    if cs == [] then multiset{} else Records(cs[0], level) + RecordsAll(cs[1..], level)
  }

  lemma {:induction false} CountAllInsert(x: Node, s: seq<Node>)
    ensures CountAll(Insert(x, s)) == Count(x) + CountAll(s)
  {
    if s == [] || Priority(s[0]) <= Priority(x) {
      assert ([x] + s)[1..] == s;
    } else {
      assert ([s[0]] + Insert(x, s[1..]))[1..] == Insert(x, s[1..]);
      CountAllInsert(x, s[1..]);
    }
  }

  /** Reordering the siblings does not change how many nodes they hold. */
  lemma {:induction false} CountAllSorted(s: seq<Node>)
    ensures CountAll(SortByPriority(s)) == CountAll(s)
  {
    if s != [] {
      CountAllSorted(s[1..]);
      CountAllInsert(s[0], SortByPriority(s[1..]));
    }
  }

  /** The specification of `schedule_tasks(n, level)`. */
  function Schedule(n: Node, level: int): Outcome
    decreases Count(n), 1, 0
  {
    match n
    case Empty => Ok([])
    case Task(id, name, _, subtasks) =>
      if id.None? then Err(KeyError("id"))
      else if name.None? then Err(KeyError("name"))
      else
        CountAllSorted(subtasks);
        Prepend([RecordOf(n, level)], ScheduleSeq(SortByPriority(subtasks), level + 1))
  }

  /** The schedules of the siblings `cs`, each at `level`, one after the other;
      the first failing sibling's error aborts the rest. */
  function ScheduleSeq(cs: seq<Node>, level: int): Outcome
    decreases CountAll(cs), 2, |cs|
  {
    if cs == [] then Ok([])
    else Concat(Schedule(cs[0], level), ScheduleSeq(cs[1..], level))
  }

  /** `schedule_tasks` as written: one record for the node, then the
      schedule of each subtask, in sorted order, appended to it. */
  method ScheduleTasks(n: Node, level: int) returns (r: Outcome)
    ensures r == Schedule(n, level)
    decreases n
  {
    if n.Empty? {
      return Ok([]);
    }
    if n.id.None? {
      return Err(KeyError("id"));
    }
    if n.name.None? {
      return Err(KeyError("name"));
    }
    var scheduled := [RecordOf(n, level)];
    ScheduleUnfold(n, level);
    if |n.subtasks| > 0 {
      var sorted := SortByPriority(n.subtasks);
      for i := 0 to |sorted|
        invariant Schedule(n, level) == Prepend(scheduled, ScheduleSeq(sorted[i..], level + 1))
      {
        SortedMember(n.subtasks, i);
        var sub := ScheduleTasks(sorted[i], level + 1);
        ScheduleStep(Schedule(n, level), scheduled, sorted, i, level + 1, sub);
        if sub.Err? {
          return Err(sub.error);
        }
        scheduled := scheduled + sub.value;
      }
    }
    assert scheduled + [] == scheduled;
    return Ok(scheduled);
  }

  /** The records of siblings headed by `y`. */
  lemma RecordsAllCons(y: Node, s: seq<Node>, level: int)
    requires WellFormed(y) && AllWellFormed(s)
    ensures AllWellFormed([y] + s)
    ensures RecordsAll([y] + s, level) == Records(y, level) + RecordsAll(s, level)
  {
    assert ([y] + s)[1..] == s;
  }

  /** Putting `s[0]` in front of `t`, which holds the records of `s[1..]`
      and of `x`, yields the records of `s` and of `x`. */
  lemma RecordsAllAhead(x: Node, s: seq<Node>, t: seq<Node>, level: int)
    requires s != [] && WellFormed(x) && AllWellFormed(s) && AllWellFormed(t)
    requires RecordsAll(t, level) == Records(x, level) + RecordsAll(s[1..], level)
    ensures AllWellFormed([s[0]] + t)
    ensures RecordsAll([s[0]] + t, level) == Records(x, level) + RecordsAll(s, level)
  {
    RecordsAllCons(s[0], t, level);
  }

  lemma {:induction false} RecordsAllInsert(x: Node, s: seq<Node>, level: int)
    requires WellFormed(x) && AllWellFormed(s)
    ensures AllWellFormed(Insert(x, s))
    ensures RecordsAll(Insert(x, s), level) == Records(x, level) + RecordsAll(s, level)
  {
    if s == [] || Priority(s[0]) <= Priority(x) {
      RecordsAllCons(x, s, level);
    } else {
      RecordsAllInsert(x, s[1..], level);
      RecordsAllAhead(x, s, Insert(x, s[1..]), level);
    }
  }

  /** Reordering the siblings does not change which records they yield. */
  lemma {:induction false} RecordsAllSorted(s: seq<Node>, level: int)
    requires AllWellFormed(s)
    ensures AllWellFormed(SortByPriority(s))
    ensures RecordsAll(SortByPriority(s), level) == RecordsAll(s, level)
  {
    assert forall c :: c in SortByPriority(s) ==> c in multiset(SortByPriority(s));
    if s != [] {
      RecordsAllSorted(s[1..], level);
      RecordsAllInsert(s[0], SortByPriority(s[1..]), level);
    }
  }

  /** Scheduling succeeds exactly when no node of the tree lacks an `id` or a
      `name`, and then yields every node's record, each exactly once, at the
      level of its depth below `n` added to `level`. */
  lemma {:induction false} ScheduleSound(n: Node, level: int)
    ensures Schedule(n, level).Ok? <==> WellFormed(n)
    ensures Schedule(n, level).Ok? ==> WellFormed(n) && multiset(Schedule(n, level).value) == Records(n, level)
    decreases Count(n), 1, 0
  {
    match n
    case Empty =>
    case Task(id, name, _, subtasks) =>
      if id.Some? && name.Some? {
        var sorted := SortByPriority(subtasks);
        CountAllSorted(subtasks);
        ScheduleSeqSound(sorted, level + 1);
        assert forall c :: c in sorted <==> c in multiset(subtasks);
        if WellFormed(n) {
          RecordsAllSorted(subtasks, level + 1);
        }
      }
  }

  /** The same for a run of siblings. */
  lemma {:induction false} ScheduleSeqSound(cs: seq<Node>, level: int)
    ensures ScheduleSeq(cs, level).Ok? <==> AllWellFormed(cs)
    ensures ScheduleSeq(cs, level).Ok? ==>
      AllWellFormed(cs) && multiset(ScheduleSeq(cs, level).value) == RecordsAll(cs, level)
    decreases CountAll(cs), 2, |cs|
  {
    if cs != [] {
      ScheduleSound(cs[0], level);
      ScheduleSeqSound(cs[1..], level);
      assert forall c :: c in cs <==> c == cs[0] || c in cs[1..];
    }
  }

  lemma {:induction false} RecordsSize(n: Node, level: int)
    requires WellFormed(n)
    ensures |Records(n, level)| == Count(n)
    decreases n, 1
  {
    if n.Task? {
      RecordsAllSize(n.subtasks, level + 1);
    }
  }

  lemma {:induction false} RecordsAllSize(cs: seq<Node>, level: int)
    requires AllWellFormed(cs)
    ensures |RecordsAll(cs, level)| == CountAll(cs)
    decreases cs, 0
  {
    if cs != [] {
      RecordsSize(cs[0], level);
      RecordsAllSize(cs[1..], level);
    }
  }

  /** A successful schedule holds exactly one record per non-empty node of
      the tree: the root and all its descendants. */
  lemma ScheduleLength(n: Node, level: int)
    ensures Schedule(n, level).Ok? ==> |Schedule(n, level).value| == Count(n)
  {
    ScheduleSound(n, level);
    if Schedule(n, level).Ok? {
      RecordsSize(n, level);
    }
  }

  lemma {:induction false} RecordsLevels(n: Node, level: int)
    requires WellFormed(n)
    ensures forall x :: x in Records(n, level) ==> x.level >= level
    decreases n, 1
  {
    if n.Task? {
      RecordsAllLevels(n.subtasks, level + 1);
    }
  }

  lemma {:induction false} RecordsAllLevels(cs: seq<Node>, level: int)
    requires AllWellFormed(cs)
    ensures forall x :: x in RecordsAll(cs, level) ==> x.level >= level
    decreases cs, 0
  {
    if cs != [] {
      RecordsLevels(cs[0], level);
      RecordsAllLevels(cs[1..], level);
    }
  }

  /** The three ways a call ends at the node itself: an empty node schedules
      nothing, and a non-empty one missing `id`, or else missing `name`,
      raises `KeyError` for that key. */
  lemma ScheduleRootCases(n: Node, level: int)
    ensures n.Empty? ==> Schedule(n, level) == Ok([])
    ensures n.Task? && n.id.None? ==> Schedule(n, level) == Err(KeyError("id"))
    ensures n.Task? && n.id.Some? && n.name.None? ==> Schedule(n, level) == Err(KeyError("name"))
  {
  }

  /** A failure anywhere in the tree is a `KeyError` for `id` or `name`. */
  lemma {:induction false} ScheduleFailureKey(n: Node, level: int)
    ensures Schedule(n, level).Err? ==> Schedule(n, level).error in {KeyError("id"), KeyError("name")}
    decreases Count(n), 1, 0
  {
    if n.Task? && n.id.Some? && n.name.Some? {
      CountAllSorted(n.subtasks);
      ScheduleSeqFailureKey(SortByPriority(n.subtasks), level + 1);
    }
  }

  lemma {:induction false} ScheduleSeqFailureKey(cs: seq<Node>, level: int)
    ensures ScheduleSeq(cs, level).Err? ==> ScheduleSeq(cs, level).error in {KeyError("id"), KeyError("name")}
    decreases CountAll(cs), 2, |cs|
  {
    if cs != [] {
      ScheduleFailureKey(cs[0], level);
      ScheduleSeqFailureKey(cs[1..], level);
    }
  }

  /** A well-formed node's schedule opens with the node's own record (its
      `id` and `name`, its priority or 0, at `level`); everything after it
      is a record of a descendant, one level deeper or more. */
  lemma ScheduleStartsWithRoot(n: Node, level: int)
    requires n.Task? && WellFormed(n)
    ensures Schedule(n, level).Ok?
    ensures var r := Schedule(n, level).value;
      && |r| >= 1
      && r[0] == ScheduledTask(n.id.value, n.name.value, n.priority.GetOr(0), level)
      && multiset(r[1..]) == RecordsAll(n.subtasks, level + 1)
      && forall i :: 1 <= i < |r| ==> r[i].level > level
  {
    ScheduleSound(n, level);
    var sorted := SortByPriority(n.subtasks);
    CountAllSorted(n.subtasks);
    ScheduleSeqSound(sorted, level + 1);
    RecordsAllSorted(n.subtasks, level + 1);
    var r := Schedule(n, level).value;
    var tail := ScheduleSeq(sorted, level + 1).value;
    assert r == [RecordOf(n, level)] + tail;
    assert r[1..] == tail;
    RecordsAllLevels(n.subtasks, level + 1);
    forall i | 1 <= i < |r|
      ensures r[i].level > level
    {
      assert r[i] == tail[i - 1];
      assert tail[i - 1] in multiset(tail);
    }
  }

  /** Scheduling a run of siblings split in two schedules the first part in
      full, then the second. */
  lemma {:induction false} ScheduleSeqAppend(a: seq<Node>, b: seq<Node>, level: int)
    ensures ScheduleSeq(a + b, level) == Concat(ScheduleSeq(a, level), ScheduleSeq(b, level))
  {
    if a == [] {
      assert a + b == b;
      match ScheduleSeq(b, level) {
        case Ok(t) => assert [] + t == t;
        case Err(_) =>
      }
    } else {
      assert (a + b)[0] == a[0] && (a + b)[1..] == a[1..] + b;
      ScheduleSeqAppend(a[1..], b, level);
      match Schedule(a[0], level) {
        case Err(_) =>
        case Ok(h) =>
          match ScheduleSeq(a[1..], level) {
            case Err(_) =>
            case Ok(m) => PrependTwice(h, m, ScheduleSeq(b, level));
          }
      }
    }
  }

  /** Each subtask's subtree is scheduled as one contiguous block after the
      node's record, in sorted sibling order: for every split of the sorted
      siblings, the whole schedule of the first part precedes the whole
      schedule of the rest, and every sibling of the first part is at least
      as urgent as every sibling of the rest. */
  lemma SubtreesInPriorityOrder(n: Node, level: int, k: nat)
    requires n.Task? && WellFormed(n) && k <= |n.subtasks|
    ensures Schedule(n, level).Ok?
    ensures ScheduleSeq(SortByPriority(n.subtasks)[..k], level + 1).Ok?
    ensures ScheduleSeq(SortByPriority(n.subtasks)[k..], level + 1).Ok?
    ensures Schedule(n, level).value
         == [RecordOf(n, level)]
            + ScheduleSeq(SortByPriority(n.subtasks)[..k], level + 1).value
            + ScheduleSeq(SortByPriority(n.subtasks)[k..], level + 1).value
    ensures forall i, j :: 0 <= i < k <= j < |n.subtasks| ==>
      Priority(SortByPriority(n.subtasks)[i]) >= Priority(SortByPriority(n.subtasks)[j])
  {
    var sorted := SortByPriority(n.subtasks);
    var front, back := sorted[..k], sorted[k..];
    ScheduleUnfold(n, level);
    assert sorted == front + back;
    ScheduleSeqAppend(front, back, level + 1);
    SubtasksSucceed(n, level, k);
    var x, y := ScheduleSeq(front, level + 1).value, ScheduleSeq(back, level + 1).value;
    AppendAssoc([RecordOf(n, level)], x, y);
    SortedSplit(n.subtasks, k);
  }

  /** Of two subtasks of a well-formed node, the more urgent one is
      scheduled, with its whole subtree, before the less urgent one: the
      output is the node's record, then the schedule of a leading part of
      the sorted subtasks that holds `a`, then that of the rest, which holds
      `b`. */
  lemma MoreUrgentSubtreeFirst(n: Node, level: int, a: Node, b: Node) returns (k: nat)
    requires n.Task? && WellFormed(n)
    requires a in n.subtasks && b in n.subtasks && Priority(a) > Priority(b)
    ensures k <= |n.subtasks|
    ensures a in SortByPriority(n.subtasks)[..k] && b in SortByPriority(n.subtasks)[k..]
    ensures Schedule(n, level).Ok?
    ensures ScheduleSeq(SortByPriority(n.subtasks)[..k], level + 1).Ok?
    ensures ScheduleSeq(SortByPriority(n.subtasks)[k..], level + 1).Ok?
    ensures Schedule(n, level).value
         == [RecordOf(n, level)]
            + ScheduleSeq(SortByPriority(n.subtasks)[..k], level + 1).value
            + ScheduleSeq(SortByPriority(n.subtasks)[k..], level + 1).value
  {
    k := SplitBetween(n.subtasks, a, b);
    SubtreesInPriorityOrder(n, level, k);
  }

  /** Every input sibling is among the sorted ones. */
  lemma SortedHas(s: seq<Node>, x: Node)
    requires x in s
    ensures x in SortByPriority(s)
  {
    assert x in multiset(SortByPriority(s));
  }

  /** Some split of the sorted siblings puts `a`, the more urgent, in the
      leading part and `b` in the rest. */
  lemma SplitBetween(s: seq<Node>, a: Node, b: Node) returns (k: nat)
    requires a in s && b in s && Priority(a) > Priority(b)
    ensures k <= |s|
    ensures a in SortByPriority(s)[..k] && b in SortByPriority(s)[k..]
  {
    SortedHas(s, a);
    SortedHas(s, b);
    SortNonIncreasing(s);
    k := SplitNonIncreasing(SortByPriority(s), a, b);
  }

  /** Every sorted sibling before position `k` is at least as urgent as
      every one from `k` on. */
  lemma SortedSplit(s: seq<Node>, k: nat)
    requires k <= |s|
    ensures forall i, j :: 0 <= i < k <= j < |s| ==>
      Priority(SortByPriority(s)[i]) >= Priority(SortByPriority(s)[j])
  {
    SortNonIncreasing(s);
  }

  /** A node with `id` and `name` schedules to its own record followed by
      the schedules of its subtasks in sorted order. */
  lemma ScheduleUnfold(n: Node, level: int)
    requires n.Task? && n.id.Some? && n.name.Some?
    ensures Schedule(n, level)
         == Prepend([RecordOf(n, level)], ScheduleSeq(SortByPriority(n.subtasks), level + 1))
  {
    CountAllSorted(n.subtasks);
  }

  /** Each sorted sibling is one of the input siblings. */
  lemma SortedMember(s: seq<Node>, i: nat)
    requires i < |s|
    ensures SortByPriority(s)[i] in s
  {
    assert SortByPriority(s)[i] in multiset(s);
  }

  /** One turn of the loop in `ScheduleTasks`: when `whole` is the list so
      far followed by the schedule of the siblings from `i` on, a failing
      sibling at `i` makes `whole` that failure, and a succeeding one moves
      its records into the list so far. */
  lemma ScheduleStep(whole: Outcome, scheduled: seq<ScheduledTask>, cs: seq<Node>, i: nat, level: int, sub: Outcome)
    requires i < |cs|
    requires whole == Prepend(scheduled, ScheduleSeq(cs[i..], level))
    requires sub == Schedule(cs[i], level)
    ensures sub.Err? ==> whole == Err(sub.error)
    ensures sub.Ok? ==> whole == Prepend(scheduled + sub.value, ScheduleSeq(cs[i + 1..], level))
  {
    assert cs[i..][1..] == cs[i + 1..];
    assert ScheduleSeq(cs[i..], level) == Concat(sub, ScheduleSeq(cs[i + 1..], level));
    if sub.Ok? {
      PrependTwice(scheduled, sub.value, ScheduleSeq(cs[i + 1..], level));
    }
  }

  /** Both parts of a split of a well-formed node's sorted subtasks schedule
      without error. */
  lemma SubtasksSucceed(n: Node, level: int, k: nat)
    requires n.Task? && WellFormed(n) && k <= |n.subtasks|
    ensures ScheduleSeq(SortByPriority(n.subtasks)[..k], level + 1).Ok?
    ensures ScheduleSeq(SortByPriority(n.subtasks)[k..], level + 1).Ok?
  {
    var sorted := SortByPriority(n.subtasks);
    assert forall c :: c in sorted ==> c in multiset(n.subtasks);
    assert forall c :: c in sorted[..k] ==> c in sorted;
    assert forall c :: c in sorted[k..] ==> c in sorted;
    ScheduleSeqSound(sorted[..k], level + 1);
    ScheduleSeqSound(sorted[k..], level + 1);
  }
}
