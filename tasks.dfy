/** Task nodes, the records the scheduler produces, and the failure a
    malformed node causes. */
module Tasks {

  /** An optional dictionary entry: `None` when the key is absent. */
  datatype Option<+T> = None | Some(value: T) {
    /** The value when present, `default` otherwise (Python's `dict.get`). */
    function GetOr(default: T): T {
      if Some? then value else default
    }
  }

  /** Either a complete value or the error that aborted the computation;
      a failed call never hands back a partial list. */
  datatype Result<+R, +E> = Ok(value: R) | Err(error: E)

  /** Subscripting a node with a key it lacks raises `KeyError(key)`. */
  datatype Error = KeyError(key: string)

  /** A node of the task hierarchy.
      `Empty` is a falsy node: `None` or the empty dictionary.
      `Task` is a dictionary with at least one key; each of its optional
      entries is `None` when the key is absent. An absent `subtasks` key and
      an empty `subtasks` list behave alike, so both are `[]`. */
  datatype Node =
    | Empty
    | Task(id: Option<int>, name: Option<string>, priority: Option<int>, subtasks: seq<Node>)

  /** One entry of the schedule: the task's identity, its effective
      priority and its nesting level. */
  datatype ScheduledTask = ScheduledTask(id: int, name: string, priority: int, level: int)

  /** The outcome of scheduling a node or a run of sibling nodes. */
  type Outcome = Result<seq<ScheduledTask>, Error>

  /** The priority a node is sorted by and reported with: its `priority`
      entry, or 0 when there is none (an empty dictionary also reads as 0). */
  function Priority(n: Node): int {
    match n
    case Empty => 0
    case Task(_, _, p, _) => p.GetOr(0)
  }

  /** `prefix` followed by the list in `rest`; an error in `rest` wins. */
  function Prepend(prefix: seq<ScheduledTask>, rest: Outcome): Outcome {
    match rest
    case Ok(tail) => Ok(prefix + tail)
    case Err(e) => Err(e)
  }

  /** The list in `first` followed by the list in `second`; the first error
      met, reading left to right, wins. */
  function Concat(first: Outcome, second: Outcome): Outcome {
    match first
    case Ok(head) => Prepend(head, second)
    case Err(e) => Err(e)
  }

  /** Prepending two lists one after the other prepends their concatenation. */
  lemma PrependTwice(a: seq<ScheduledTask>, b: seq<ScheduledTask>, rest: Outcome)
    ensures Prepend(a, Prepend(b, rest)) == Prepend(a + b, rest)
  {
    if rest.Ok? {
      AppendAssoc(a, b, rest.value);
    }
  }

  /** Proof step (a fact about sequences, not about the scheduler):
      concatenation is associative. */
  lemma AppendAssoc(a: seq<ScheduledTask>, b: seq<ScheduledTask>, c: seq<ScheduledTask>)
    ensures a + (b + c) == a + b + c
  {
  }
}
