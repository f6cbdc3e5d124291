# Task hierarchy scheduler, modelled in Dafny

`schedule_tasks(task_hierarchy, level=0)` in `task_scheduler.py` turns a tree
of task nodes into the flat list of records in which the tasks are executed.
It walks the tree depth-first in pre-order:

- A falsy node (`None` or `{}`) yields an empty list.
- Otherwise the node's own record comes first. It holds `id`, `name`,
  `priority` (0 when absent) and the current `level`.
- The node's `subtasks` are then visited in descending priority order. A
  missing priority counts as 0. The order comes from Python's stable
  `sorted`, so equal priorities keep their input order.
- Each subtask is scheduled at `level + 1`, and its whole list is appended.

A non-empty node without `id` or `name` raises `KeyError`. The exception
propagates out of the top-level call, so no partial list is returned.

The project has four modules:

- `Tasks` (`tasks.dfy`) holds the data. `Node` is either `Empty` (a falsy
  node) or `Task` (a dictionary with optional `id`, `name` and `priority`
  entries and a list of `subtasks`; an absent list is `[]`). It also holds
  the `ScheduledTask` record, the `KeyError` failure and the `Outcome`
  result type.
- `PrioritySort` (`priority_sort.dfy`) models the stable descending sort as
  an insertion sort. It proves that the sort is a permutation, that it is
  non-increasing in priority, and that it is stable. It also proves that
  those properties determine the sorted order uniquely.
- `TaskScheduler` (`task_scheduler.dfy`) has three parts:
  - `Schedule` and `ScheduleSeq`, the pure recursive specification;
  - `ScheduleTasks`, the imperative version with the source's append and
    extend loop, proved equal to `Schedule`;
  - lemmas on success and failure, completeness, levels, pre-order and
    sibling block order.
- `SchedulerExamples` (`scheduler_examples.dfy`) checks the two sample
  hierarchies of the demo driver and one failing tree.

`Records(n, level)` is the reference for what a schedule contains. It is a
multiset with one record per non-empty node, at `level` plus the node's
distance from `n`. It is defined on the subtasks in input order, so it does
not depend on the scheduling order.

## Model

| member | source | states |
|---|---|---|
| `PrioritySort.SortByPriority` | task_scheduler.py:35-39 | the sorted siblings are a permutation of `subtasks` (same length, same multiset) |
| `PrioritySort.SortNonIncreasing` | task_scheduler.py:35-39 | the sorted siblings are non-increasing in priority, with a missing priority read as 0 (`reverse=True` on key `priority`-or-0) |
| `PrioritySort.SortStable` | task_scheduler.py:35-39 | for every priority value, the siblings with that priority appear in the same relative order as in `subtasks` (`sorted` is stable) |
| `PrioritySort.NonIncreasingUnique` | task_scheduler.py:35-39 | two non-increasing sequences that agree on the nodes of every priority are equal, so stability plus ordering fixes the result |
| `PrioritySort.SortCharacterised` | task_scheduler.py:35-39 | a sequence is the sorted order of `subtasks` if and only if it is non-increasing and keeps each priority's nodes in input order |
| `TaskScheduler.ScheduleTasks` | task_scheduler.py:4-45 | the loop that appends the node's record and extends the list with each sorted subtask's schedule returns exactly `Schedule(n, level)`, including the `KeyError` cases |
| `TaskScheduler.ScheduleRootCases` | task_scheduler.py:16-27 | an empty node yields `[]` with no error; a non-empty node without `id` fails with `KeyError("id")`; one with `id` but no `name` fails with `KeyError("name")` |
| `TaskScheduler.ScheduleSound` | task_scheduler.py:16-45 | the call succeeds if and only if every non-empty node of the tree has both `id` and `name`; on success the output holds exactly one record per non-empty node, at `level` plus that node's depth |
| `TaskScheduler.ScheduleLength` | task_scheduler.py:19-45 | on success the output length equals the number of non-empty nodes in the tree: the root plus all descendants |
| `TaskScheduler.ScheduleFailureKey` | task_scheduler.py:22-43 | any failure, from the root or from a subtask at any depth, is a `KeyError` for `id` or for `name` |
| `TaskScheduler.ScheduleStartsWithRoot` | task_scheduler.py:22-30 | for a well-formed non-empty node the first record carries its `id`, `name`, priority-or-0 and `level`; the rest are exactly its descendants' records, each at a level greater than `level` |
| `TaskScheduler.CountAllSorted` | task_scheduler.py:35-43 | visiting the siblings in sorted order visits as many nodes as the input order |
| `TaskScheduler.RecordsAllSorted` | task_scheduler.py:35-43 | visiting the siblings in sorted order yields the same multiset of records as the input order |
| `TaskScheduler.ScheduleSeqAppend` | task_scheduler.py:42-43 | scheduling a run of siblings split in two yields the whole schedule of the first part, then that of the second; the first error aborts the rest |
| `TaskScheduler.SubtreesInPriorityOrder` | task_scheduler.py:33-43 | after the node's record, for every split of the sorted subtasks, the whole output of the first part precedes the whole output of the rest, and every subtask of the first part has priority at least that of every subtask of the rest |
| `TaskScheduler.MoreUrgentSubtreeFirst` | task_scheduler.py:33-43 | for two subtasks `a` and `b` of a well-formed node with `a` strictly more urgent, the whole schedule of `a`'s subtree comes before that of `b`'s: the output is the node's record, then the schedule of a leading part of the sorted subtasks holding `a`, then that of the rest, holding `b` |
| `SchedulerExamples.ProjectSetupSchedule` | task_scheduler.py:63-81 | started at any level `l` (the demo uses 0), the simple demo hierarchy yields ids 1, 2, 3 at levels `l`, `l+1`, `l+1`, with names and priorities |
| `SchedulerExamples.BackendSchedule` | task_scheduler.py:108-126 | Backend Development's subtasks are reordered: task 7 (priority 4) is scheduled before task 6 (priority 3), one level below their parent |
| `SchedulerExamples.WebsiteDevelopmentSchedule` | task_scheduler.py:84-128 | started at any level `l` (the demo uses 0), the nested demo hierarchy yields ids 1, 2, 4, 5, 3, 7, 6 at levels `l` plus 0, 1, 2, 2, 1, 2, 2; the two priority-4 branches keep their input order |
| `SchedulerExamples.MissingNameFails` | task_scheduler.py:23-24 | a subtask without `name` fails the whole call with `KeyError("name")` and no list |

## Left out

- `print_scheduled_tasks` (task_scheduler.py:47-59): console output only.
- `main` (task_scheduler.py:61-150): a demo driver that prints. Its sample hierarchies appear as the `SchedulerExamples` lemmas.
- The unused `datetime` import (task_scheduler.py:2).
- Dynamic typing: `id` is modelled as an integer, `name` as a string and `priority` as an integer. The source accepts any values. A `priority` entry holding `None` (or any value that does not compare with the other keys) makes `sorted` raise `TypeError` only when the node has two or more sibling subtasks, since only then are keys compared (task_scheduler.py:35-39). Otherwise, for the root or a lone subtask, the `None` is copied into the record at task_scheduler.py:25. Neither case is modelled: a priority here is always an integer.
- A `subtasks` element that is `None` makes the key function raise `AttributeError`. The model reads every falsy child as `Empty`, with sort key 0, which matches `{}` only.
- Cyclic or shared subtrees cannot be built as Dafny datatypes. The source does not detect them either.
- Python's recursion limit: a very deep tree raises `RecursionError` in the source. The model has no depth bound.
- Identity and aliasing of the output dictionaries: records are values here.
- Error naming: the code raises `KeyError` with the missing key's name, so the model fails with `KeyError("id")` or `KeyError("name")`. When both keys are missing, `id` is reported, because the dictionary literal reads `id` first (task_scheduler.py:22-24).
- Purity and idempotence are not stated as lemmas: Dafny functions are deterministic and the `Node` values cannot be modified.
