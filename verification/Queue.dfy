/** The intrusive lists and tail queues of queue.h: elements point at the next element, and at the
    pointer that points at them. */
module Queue {
  /** The address of a pointer to an element: a list head, a queue head, or an element's next field. */
  datatype Link = Nowhere | ListFirst(l: ListHead) | QueueFirst(q: TailQueue) | NextOf(n: Node)

  /** A link embedded in a structure; `owner` names the structure. */
  class Node {
    const owner: nat
    var next: Node?
    var prev: Link

    constructor (owner: nat)
      ensures this.owner == owner
    {
      this.owner, next, prev := owner, null, Nowhere;
    }
  }

  ghost predicate Distinct(s: seq<Node>) {
    forall i, j :: 0 <= i < j < |s| ==> s[i] != s[j]
  }

  lemma Apart(a: seq<Node>, b: seq<Node>)
    requires Distinct(a) && Distinct(b) && forall n :: n in a ==> n !in b
    ensures Distinct(a + b)
    ensures forall i, j :: 0 <= i < |a| && 0 <= j < |b| ==> a[i] != b[j]
  {
    forall i, j | 0 <= i < |a| && 0 <= j < |b| ensures a[i] != b[j] {
      assert a[i] in a && b[j] in b;
    }
  }

  lemma InsertedAt(s: seq<Node>, x: Node, k: nat)
    requires Distinct(s) && x !in s && k <= |s|
    ensures var t := s[..k] + [x] + s[k..];
      && Distinct(t) && |t| == |s| + 1 && t[k] == x
      && (forall i {:trigger t[i]} :: 0 <= i < |t| ==> t[i] == if i < k then s[i] else if i == k then x else s[i - 1])
  {
    var t := s[..k] + [x] + s[k..];
    assert forall i {:trigger t[i]} :: 0 <= i < |t| ==> t[i] == if i < k then s[i] else if i == k then x else s[i - 1];
    forall i | 0 <= i < |s| ensures s[i] != x { assert s[i] in s; }
  }

  lemma OnlyAt(s: seq<Node>, k: nat)
    requires Distinct(s) && k < |s|
    ensures forall i {:trigger s[i]} :: 0 <= i < |s| && s[i] == s[k] ==> i == k
  {
  }

  lemma RemovedAt(s: seq<Node>, k: nat)
    requires Distinct(s) && k < |s|
    ensures var t := s[..k] + s[k + 1..];
      && Distinct(t) && |t| == |s| - 1 && s[k] !in t
      && (forall i {:trigger t[i]} :: 0 <= i < |t| ==> t[i] == if i < k then s[i] else s[i + 1])
  {
  }

  /** The elements of `s` are chained from the pointer `head` on, each next and each back link in place. */
  ghost predicate Chained(s: seq<Node>, head: Link)
    reads s
  {
    && Distinct(s)
    && (forall i {:trigger s[i].next} :: 0 <= i < |s| - 1 ==> s[i].next == s[i + 1])
    && (forall i {:trigger s[i].prev} :: 1 <= i < |s| ==> s[i].prev == NextOf(s[i - 1]))
    && (|s| > 0 ==> s[|s| - 1].next == null && s[0].prev == head)
  }

  class ListHead {
    var first: Node?
    ghost var elems: seq<Node>

    ghost predicate Valid()
      reads this, elems
    {
      && first == (if elems == [] then null else elems[0])
      && Chained(elems, ListFirst(this))
    }

    /** LIST_INIT */
    constructor ()
      ensures Valid() && elems == []
    {
      first, elems := null, [];
    }

    /** LIST_INSERT_HEAD */
    method InsertHead(elm: Node)
      requires Valid() && elm !in elems
      modifies this, elems, elm
      ensures Valid() && elems == [elm] + old(elems)
    {
      elm.next := first;
      if elm.next != null {
        first.prev := NextOf(elm);
      }
      first := elm;
      elm.prev := ListFirst(this);
      elems := [elm] + elems;
    }

    /** LIST_INSERT_BEFORE: the head is not mentioned, only what points at `listelm`. */
    method InsertBefore(listelm: Node, elm: Node, ghost k: nat)
      requires Valid() && elm !in elems && k < |elems| && elems[k] == listelm
      modifies this, elems, elm
      ensures Valid() && elems == old(elems)[..k] + [elm] + old(elems)[k..]
    {
      elm.prev := listelm.prev;
      elm.next := listelm;
      match listelm.prev {
        case ListFirst(l) => l.first := elm;
        case NextOf(n) => n.next := elm;
      }
      listelm.prev := NextOf(elm);
      ghost var l := elems;
      elems := elems[..k] + [elm] + elems[k..];
      InsertedAt(l, elm, k);
    }

    /** LIST_REMOVE */
    method Remove(elm: Node, ghost k: nat)
      requires Valid() && k < |elems| && elems[k] == elm
      modifies this, elems
      ensures Valid() && elems == old(elems)[..k] + old(elems)[k + 1..]
    {
      if elm.next != null {
        assert elm.next == elems[k + 1];
        elm.next.prev := elm.prev;
      }
      match elm.prev {
        case ListFirst(l) => l.first := elm.next;
        case NextOf(n) => n.next := elm.next;
      }
      elems := elems[..k] + elems[k + 1..];
    }
  }

  class TailQueue {
    var first: Node?
    /** tqh_last: where a pointer to the next new element belongs. */
    var last: Link
    ghost var elems: seq<Node>

    ghost predicate Valid()
      reads this, elems
    {
      && first == (if elems == [] then null else elems[0])
      && last == (if elems == [] then QueueFirst(this) else NextOf(elems[|elems| - 1]))
      && Chained(elems, QueueFirst(this))
    }

    /** TAILQ_INIT */
    constructor ()
      ensures Valid() && elems == []
    {
      first, elems := null, [];
      last := QueueFirst(this);
    }

    /** TAILQ_INSERT_HEAD */
    method InsertHead(elm: Node)
      requires Valid() && elm !in elems
      modifies this, elems, elm
      ensures Valid() && elems == [elm] + old(elems)
    {
      elm.next := first;
      if elm.next != null {
        first.prev := NextOf(elm);
      } else {
        last := NextOf(elm);
      }
      first := elm;
      elm.prev := QueueFirst(this);
      elems := [elm] + elems;
    }

    /** TAILQ_INSERT_TAIL */
    method InsertTail(elm: Node)
      requires Valid() && elm !in elems
      modifies this, elems, elm
      ensures Valid() && elems == old(elems) + [elm]
    {
      elm.next := null;
      elm.prev := last;
      match last {
        case QueueFirst(q) => q.first := elm;
        case NextOf(n) => n.next := elm;
      }
      last := NextOf(elm);
      elems := elems + [elm];
    }

    /** TAILQ_INSERT_AFTER */
    method InsertAfter(listelm: Node, elm: Node, ghost k: nat)
      requires Valid() && elm !in elems && k < |elems| && elems[k] == listelm
      modifies this, elems, elm
      ensures Valid() && elems == old(elems)[..k + 1] + [elm] + old(elems)[k + 1..]
    {
      elm.next := listelm.next;
      if elm.next != null {
        assert elm.next == elems[k + 1];
        elm.next.prev := NextOf(elm);
      } else {
        last := NextOf(elm);
      }
      listelm.next := elm;
      elm.prev := NextOf(listelm);
      ghost var l := elems;
      elems := elems[..k + 1] + [elm] + elems[k + 1..];
      InsertedAt(l, elm, k + 1);
    }

    /** TAILQ_INSERT_BEFORE */
    method InsertBefore(listelm: Node, elm: Node, ghost k: nat)
      requires Valid() && elm !in elems && k < |elems| && elems[k] == listelm
      modifies this, elems, elm
      ensures Valid() && elems == old(elems)[..k] + [elm] + old(elems)[k..]
    {
      InsertedAt(elems, elm, k);
      OnlyAt(elems, k);
      if k > 0 { OnlyAt(elems, k - 1); }
      hide Distinct;
      elm.prev := listelm.prev;
      elm.next := listelm;
      match listelm.prev {
        case QueueFirst(q) => q.first := elm;
        case NextOf(n) => n.next := elm;
      }
      listelm.prev := NextOf(elm);
      elems := elems[..k] + [elm] + elems[k..];
    }

    /** TAILQ_REMOVE */
    method Remove(elm: Node, ghost k: nat)
      requires Valid() && k < |elems| && elems[k] == elm
      modifies this, elems
      ensures Valid() && elems == old(elems)[..k] + old(elems)[k + 1..]
      ensures elm.next == old(elm.next) && elm.prev == old(elm.prev)
    {
      RemovedAt(elems, k);
      OnlyAt(elems, k);
      if k > 0 { OnlyAt(elems, k - 1); }
      if k + 1 < |elems| { OnlyAt(elems, k + 1); }
      hide Distinct;
      if elm.next != null {
        assert elm.next == elems[k + 1];
        elm.next.prev := elm.prev;
      } else {
        last := elm.prev;
      }
      match elm.prev {
        case QueueFirst(q) => q.first := elm.next;
        case NextOf(n) => n.next := elm.next;
      }
      elems := elems[..k] + elems[k + 1..];
    }

    /** A pointer that belongs to this queue: its head, or the next field of an element. */
    ghost predicate Mine(l: Link)
      reads this
    {
      (l.QueueFirst? && l.q == this) || (l.NextOf? && l.n in elems)
    }

    /** The links that an element kept when it left the queue still fit the queue as it is now. */
    ghost predicate StillFits(elm: Node)
      requires Valid()
      reads this, elems, elm, elm.next, if elm.prev.NextOf? then {elm.prev.n} else {}
    {
      && (elm.next == null ==> last == elm.prev)
      && (elm.next != null && elm.next in elems ==> elm.next.prev == elm.prev)
      && (Mine(elm.prev) ==> (if elm.prev.QueueFirst? then first else elm.prev.n.next) == elm.next)
    }

    /** TAILQ_REMOVE of an element that is not queued, as env_free does for a blocked environment: the queue
        survives exactly when the stale links of the element still fit. An element that was never queued has a
        null back pointer; false stands for the write through it. */
    method RemoveStale(elm: Node) returns (ok: bool)
      requires Valid() && elm !in elems && !elm.prev.ListFirst?
      requires elm.prev.QueueFirst? ==> elm.prev.q == this
      modifies this`first, this`last, (if elm.next != null then {elm.next} else {})`prev
      modifies (if elm.prev.NextOf? then {elm.prev.n} else {})`next
      ensures ok <==> old(elm.prev) != Nowhere
      ensures ok ==> (Valid() <==> old(StillFits(elm)))
      ensures ok ==> first == if old(elm.prev).QueueFirst? then old(elm.next) else old(first)
      ensures old(elm.prev).NextOf? ==> old(elm.prev).n.next == old(elm.next)
      ensures old(elm.next) != null ==> old(elm.next).prev == old(elm.prev)
    {
      if elm.next != null {
        elm.next.prev := elm.prev;
      } else {
        last := elm.prev;
      }
      match elm.prev {
        case QueueFirst(q) => first := elm.next;
        case NextOf(n) => n.next := elm.next;
        case Nowhere => return false;
      }
      return true;
    }

    /** TAILQ_CONCAT */
    method Concat(other: TailQueue)
      requires Valid() && other.Valid() && other != this
      requires forall n :: n in elems ==> n !in other.elems
      modifies this, elems, other, other.elems
      ensures Valid() && other.Valid()
      ensures elems == old(elems) + old(other.elems) && other.elems == []
    {
      Apart(elems, other.elems);
      if other.first != null {
        match last {
          case QueueFirst(q) => q.first := other.first;
          case NextOf(n) => n.next := other.first;
        }
        other.first.prev := last;
        last := other.last;
        other.first := null;
        other.last := QueueFirst(other);
        elems, other.elems := elems + other.elems, [];
      }
    }

    /** TAILQ_FOREACH visits the elements in order. */
    method Elements() returns (s: seq<Node>)
      requires Valid()
      ensures s == elems
    {
      s := [];
      var v := first;
      while v != null
        invariant |s| <= |elems| && s == elems[..|s|]
        invariant v == if |s| < |elems| then elems[|s|] else null
        decreases |elems| - |s|
      {
        s := s + [v];
        v := v.next;
      }
    }

    /** What a pointer to a pointer holds. */
    static function Deref(l: Link): Node?
      reads if l.QueueFirst? then {l.q} else if l.NextOf? then {l.n} else {}
    {
      match l
      case QueueFirst(q) => q.first
      case NextOf(n) => n.next
      case _ => null
    }

    /** TAILQ_LAST: an element's next and prev fields, read as a queue head. */
    method Last() returns (n: Node?)
      requires Valid()
      ensures n == if elems == [] then null else elems[|elems| - 1]
    {
      match last {
        case QueueFirst(q) => n := Deref(q.last);
        case NextOf(e) => n := Deref(e.prev);
      }
    }

    /** TAILQ_PREV */
    method Prev(elm: Node, ghost k: nat) returns (n: Node?)
      requires Valid() && k < |elems| && elems[k] == elm
      ensures n == if k == 0 then null else elems[k - 1]
    {
      match elm.prev {
        case QueueFirst(q) => n := Deref(q.last);
        case NextOf(e) => n := Deref(e.prev);
      }
    }
  }

  /** a and b are queued, and b blocks. */
  method Blocked(a: Node, b: Node) returns (q: TailQueue)
    requires a != b
    modifies a, b
    ensures fresh(q) && q.Valid() && q.elems == [a] && b.prev == NextOf(a) && b.next == null
  {
    q := new TailQueue();
    q.InsertTail(a);
    q.InsertTail(b);
    assert q.elems == [a, b];
    assert b.prev == NextOf(a) && b.next == null;
    q.Remove(b, 1);
    assert q.elems == [a];
  }

  /** The bad case is real: a and b are queued, b blocks, c is queued, and b is destroyed while blocked. The
      queue then ends after a: c is runnable and will never be reached. */
  method DestroyedWhileBlocked(a: Node, b: Node, c: Node) returns (q: TailQueue)
    requires a != b && b != c && a != c
    modifies a, b, c
    ensures fresh(q) && q.elems == [a, c] && q.first == a && a.next == null && !q.Valid()
  {
    q := Blocked(a, b);
    q.InsertTail(c);
    assert q.elems == [a, c] && q.last == NextOf(c) && b.prev == NextOf(a);
    var _ := q.RemoveStale(b);
  }
}
