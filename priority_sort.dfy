/** The ordering `schedule_tasks` puts siblings in: Python's
    `sorted(subtasks, key=priority-or-0, reverse=True)`, a stable sort by
    descending priority. It is modelled as an insertion sort and
    characterised by the three properties that determine it: the result is
    a permutation of the input, non-increasing in priority, and keeps the
    input order among nodes of equal priority. */
module PrioritySort {
  import opened Tasks

  /** Every node is at least as urgent as each node after it. */
  predicate NonIncreasing(s: seq<Node>) {
    forall i, j :: 0 <= i < j < |s| ==> Priority(s[i]) >= Priority(s[j])
  }

  /** The nodes of `s` whose priority is `p`, in their order in `s`. */
  function WithPriority(s: seq<Node>, p: int): seq<Node> {
    if s == [] then []
    else (if Priority(s[0]) == p then [s[0]] else []) + WithPriority(s[1..], p)
  }

  /** Inserts `x` in front of the first node no more urgent than itself. */
  function Insert(x: Node, s: seq<Node>): (r: seq<Node>)
    ensures |r| == |s| + 1
    ensures multiset(r) == multiset(s) + multiset{x}
  {
    if s == [] || Priority(s[0]) <= Priority(x) then [x] + s
    else
      assert s == [s[0]] + s[1..];
      [s[0]] + Insert(x, s[1..])
  }

  /** The siblings in the order they are scheduled. */
  function SortByPriority(s: seq<Node>): (r: seq<Node>)
    ensures |r| == |s|
    ensures multiset(r) == multiset(s)
  {
    if s == [] then []
    else
      assert s == [s[0]] + s[1..];
      Insert(s[0], SortByPriority(s[1..]))
  }

  /** Inserting a node no more urgent than `q` among nodes no more urgent
      than `q` leaves every node no more urgent than `q`. */
  lemma {:induction false} InsertBelow(x: Node, s: seq<Node>, q: int)
    requires Priority(x) <= q
    requires forall i :: 0 <= i < |s| ==> Priority(s[i]) <= q
    ensures forall i :: 0 <= i < |Insert(x, s)| ==> Priority(Insert(x, s)[i]) <= q
  {
    if s != [] && Priority(s[0]) > Priority(x) {
      InsertBelow(x, s[1..], q);
    }
  }

  /** A node at least as urgent as every node of a non-increasing sequence
      can head it. */
  lemma ConsNonIncreasing(y: Node, t: seq<Node>)
    requires NonIncreasing(t)
    requires forall k :: 0 <= k < |t| ==> Priority(t[k]) <= Priority(y)
    ensures NonIncreasing([y] + t)
  {
    var r := [y] + t;
    forall i, j | 0 <= i < j < |r|
      ensures Priority(r[i]) >= Priority(r[j])
    {
      assert r[j] == t[j - 1];
      if i > 0 {
        assert r[i] == t[i - 1];
      }
    }
  }

  lemma {:induction false} InsertNonIncreasing(x: Node, s: seq<Node>)
    requires NonIncreasing(s)
    ensures NonIncreasing(Insert(x, s))
  {
    if s == [] || Priority(s[0]) <= Priority(x) {
      ConsNonIncreasing(x, s);
    } else {
      InsertNonIncreasing(x, s[1..]);
      InsertBelow(x, s[1..], Priority(s[0]));
      ConsNonIncreasing(s[0], Insert(x, s[1..]));
    }
  }

  /** In a non-increasing sequence, a more urgent node lies before some
      split point and a less urgent one after it. */
  lemma SplitNonIncreasing(t: seq<Node>, a: Node, b: Node) returns (k: nat)
    requires NonIncreasing(t)
    requires a in t && b in t && Priority(a) > Priority(b)
    ensures k <= |t|
    ensures a in t[..k] && b in t[k..]
  {
    var i :| 0 <= i < |t| && t[i] == a;
    var j :| 0 <= j < |t| && t[j] == b;
    assert Priority(t[i]) > Priority(t[j]);
    assert i < j;
    k := j;
    assert t[..k][i] == a;
    assert t[k..][0] == b;
  }

  /** Higher priorities come first among the sorted siblings. */
  lemma {:induction false} SortNonIncreasing(s: seq<Node>)
    ensures NonIncreasing(SortByPriority(s))
  {
    if s != [] {
      SortNonIncreasing(s[1..]);
      InsertNonIncreasing(s[0], SortByPriority(s[1..]));
    }
  }

  /** Filtering a sequence with a given first node. */
  lemma WithPriorityCons(y: Node, s: seq<Node>, p: int)
    ensures WithPriority([y] + s, p) == (if Priority(y) == p then [y] else []) + WithPriority(s, p)
  {
    assert ([y] + s)[1..] == s;
  }

  /** Putting the more urgent `y` in front of `t` adds `y` in front of the
      nodes of `y`'s priority, whichever of `x`'s priority `t` holds. */
  lemma WithPriorityAhead(x: Node, y: Node, s: seq<Node>, t: seq<Node>, p: int)
    requires Priority(y) > Priority(x)
    requires WithPriority(t, p) == (if Priority(x) == p then [x] else []) + WithPriority(s, p)
    ensures WithPriority([y] + t, p)
         == (if Priority(x) == p then [x] else []) + WithPriority([y] + s, p)
  {
    WithPriorityCons(y, t, p);
    WithPriorityCons(y, s, p);
  }

  lemma {:induction false} InsertWithPriority(x: Node, s: seq<Node>, p: int)
    ensures WithPriority(Insert(x, s), p)
         == (if Priority(x) == p then [x] else []) + WithPriority(s, p)
  {
    if s == [] || Priority(s[0]) <= Priority(x) {
      WithPriorityCons(x, s, p);
    } else {
      InsertWithPriority(x, s[1..], p);
      WithPriorityAhead(x, s[0], s[1..], Insert(x, s[1..]), p);
      assert [s[0]] + s[1..] == s;
    }
  }

  /** Nodes of equal priority keep their relative input order. */
  lemma {:induction false} SortStable(s: seq<Node>, p: int)
    ensures WithPriority(SortByPriority(s), p) == WithPriority(s, p)
  {
    if s != [] {
      SortStable(s[1..], p);
      InsertWithPriority(s[0], SortByPriority(s[1..]), p);
    }
  }

  lemma {:induction false} WithPriorityMembers(s: seq<Node>, p: int, x: Node)
    requires x in WithPriority(s, p)
    ensures x in s && Priority(x) == p
  {
    if s != [] {
      if x != s[0] || Priority(s[0]) != p {
        WithPriorityMembers(s[1..], p, x);
      }
    }
  }

  /** The first node of two non-increasing sequences that agree on the
      nodes of every priority is the same. */
  lemma HeadsAgree(s: seq<Node>, t: seq<Node>)
    requires s != [] && t != []
    requires NonIncreasing(s) && NonIncreasing(t)
    requires forall p :: WithPriority(s, p) == WithPriority(t, p)
    ensures s[0] == t[0]
  {
    var a, b := Priority(s[0]), Priority(t[0]);
    assert s[0] in WithPriority(t, a) by {
      assert WithPriority(s, a) == [s[0]] + WithPriority(s[1..], a);
    }
    WithPriorityMembers(t, a, s[0]);
    assert t[0] in WithPriority(s, b) by {
      assert WithPriority(t, b) == [t[0]] + WithPriority(t[1..], b);
    }
    WithPriorityMembers(s, b, t[0]);
    assert WithPriority(s, a)[0] == s[0] && WithPriority(t, a)[0] == t[0];
  }

  /** Dropping the same first node keeps two sequences in agreement. */
  lemma TailsAgree(s: seq<Node>, t: seq<Node>)
    requires s != [] && t != [] && s[0] == t[0]
    requires forall p :: WithPriority(s, p) == WithPriority(t, p)
    ensures forall p :: WithPriority(s[1..], p) == WithPriority(t[1..], p)
  {
    forall p
      ensures WithPriority(s[1..], p) == WithPriority(t[1..], p)
    {
      var head := if Priority(s[0]) == p then [s[0]] else [];
      assert WithPriority(s, p) == head + WithPriority(s[1..], p);
      assert WithPriority(t, p) == head + WithPriority(t[1..], p);
      assert (head + WithPriority(s[1..], p))[|head|..] == WithPriority(s[1..], p);
      assert (head + WithPriority(t[1..], p))[|head|..] == WithPriority(t[1..], p);
    }
  }

  /** Two non-increasing sequences that agree on the nodes of every
      priority are equal. */
  lemma {:induction false} NonIncreasingUnique(s: seq<Node>, t: seq<Node>)
    requires NonIncreasing(s) && NonIncreasing(t)
    requires forall p :: WithPriority(s, p) == WithPriority(t, p)
    ensures s == t
    decreases |s|
  {
    if s != [] || t != [] {
      var u := if s != [] then s else t;
      assert WithPriority(u, Priority(u[0])) != [];
      assert s != [] && t != [];
      HeadsAgree(s, t);
      TailsAgree(s, t);
      assert NonIncreasing(s[1..]) && NonIncreasing(t[1..]);
      NonIncreasingUnique(s[1..], t[1..]);
      assert s == [s[0]] + s[1..] && t == [t[0]] + t[1..];
    }
  }

  /** The sorted order is exactly the non-increasing rearrangement that keeps
      equal priorities in input order: any sequence with those two
      properties is the sorted one, and the sorted one has them. */
  lemma SortCharacterised(s: seq<Node>, t: seq<Node>)
    ensures (NonIncreasing(t) && forall p :: WithPriority(t, p) == WithPriority(s, p))
        ==> t == SortByPriority(s)
    ensures t == SortByPriority(s)
        ==> (NonIncreasing(t) && forall p :: WithPriority(t, p) == WithPriority(s, p))
  {
    var r := SortByPriority(s);
    SortNonIncreasing(s);
    forall p
      ensures WithPriority(r, p) == WithPriority(s, p)
    {
      SortStable(s, p);
    }
    if NonIncreasing(t) && forall p :: WithPriority(t, p) == WithPriority(s, p) {
      forall p
        ensures WithPriority(t, p) == WithPriority(r, p)
      {
        assert WithPriority(t, p) == WithPriority(s, p);
      }
      NonIncreasingUnique(t, r);
    }
  }
}
