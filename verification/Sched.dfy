/** The run queue, round-robin scheduling with slices, and message passing between environments. */
module Sched {
  import opened Options
  import opened EnvNames

  /** Where an environment stands in ipc_recv: not inside, blocked in sys_ipc_recv, or woken with a
      message it has not looked at yet. */
  datatype Phase = Outside | Waiting | Woken

  datatype Message = Message(from: nat, value: nat)

  /** The scheduling and IPC fields of struct Env, and two logs: the sends that found it waiting, and
      the messages it has observed. */
  datatype Proc = Proc(
    status: Status, pri: nat,
    recving: bool, msg: Message,
    phase: Phase, delivered: seq<Message>, seen: seq<Message>)

  /** `ready` is env_sched_list from head to tail, `count` the slices left of the current environment. */
  datatype State = State(ready: seq<nat>, procs: seq<Proc>, count: int, cur: Option<nat>)

  predicate IsRunnable(s: State, e: nat) {
    e < |s.procs| && s.procs[e].status == Runnable
  }

  // ----- the queue as a sequence -----

  ghost predicate Once(l: seq<nat>) {
    forall i, j :: 0 <= i < j < |l| ==> l[i] != l[j]
  }

  function Without(l: seq<nat>, e: nat): (r: seq<nat>)
    ensures e !in r
    ensures forall x :: x in r <==> x in l && x != e
  {
    if l == [] then []
    else if l[0] == e then Without(l[1..], e)
    else [l[0]] + Without(l[1..], e)
  }

  lemma {:induction false} WithoutOnce(l: seq<nat>, e: nat)
    requires Once(l)
    ensures Once(Without(l, e))
    ensures e in l ==> |Without(l, e)| == |l| - 1
    ensures e !in l ==> Without(l, e) == l
  {
    if l != [] {
      WithoutOnce(l[1..], e);
      assert l == [l[0]] + l[1..];
      assert l[0] !in l[1..];
      var r := Without(l[1..], e);
      assert l[0] !in r;
      if l[0] != e {
        forall i, j | 0 <= i < j < |[l[0]] + r| ensures ([l[0]] + r)[i] != ([l[0]] + r)[j] {
          if i == 0 { assert r[j - 1] in r; }
        }
      }
    }
  }

  lemma OnceAppend(l: seq<nat>, e: nat)
    requires Once(l) && e !in l
    ensures Once(l + [e])
  {
    forall i | 0 <= i < |l| ensures l[i] != e {
      assert l[i] in l;
    }
  }

  // ----- kernel calls -----

  /** schedule; None stands for the panic on an empty queue. */
  function Schedule(s: State, yield_: bool): Option<State> {
    if yield_ || s.count == 0 || s.cur.None? || !IsRunnable(s, s.cur.value) then
      var q := if s.cur.Some? && IsRunnable(s, s.cur.value)
               then Without(s.ready, s.cur.value) + [s.cur.value] else s.ready;
      if q == [] then None
      else
        var pri := if q[0] < |s.procs| then s.procs[q[0]].pri else 0;
        Some(s.(ready := q, count := pri - 1, cur := Some(q[0])))
    else Some(s.(count := s.count - 1))
  }

  /** The part of sys_ipc_recv before it calls schedule. */
  function Block(s: State): State
    requires s.cur.Some? && s.cur.value < |s.procs|
  {
    var e := s.cur.value;
    s.(procs := s.procs[e := s.procs[e].(recving := true, status := NotRunnable, phase := Waiting)],
       ready := Without(s.ready, e))
  }

  /** sys_ipc_try_send to `e`: the receiver is updated and queued before any page is looked at, so a bad
      page changes the return value only. */
  function Deliver(s: State, e: nat, m: Message): State
    requires e < |s.procs|
  {
    s.(procs := s.procs[e := s.procs[e].(recving := false, msg := m, status := Runnable, phase := Woken,
                                         delivered := s.procs[e].delivered + [m])],
       ready := s.ready + [e])
  }

  /** ipc_recv reads its message. */
  function Observe(s: State, e: nat): State
    requires e < |s.procs|
  {
    s.(procs := s.procs[e := s.procs[e].(phase := Outside, seen := s.procs[e].seen + [s.procs[e].msg])])
  }

  /** sys_set_env_status */
  function SetStatus(s: State, e: nat, status: Status): State
    requires e < |s.procs|
  {
    var q := if s.procs[e].status == status then s.ready
             else if status == Runnable then s.ready + [e]
             else Without(s.ready, e);
    s.(ready := q, procs := s.procs[e := s.procs[e].(status := status)])
  }

  /** sys_exofork's effect on a free slot: recving is not touched. */
  function Exofork(s: State, e: nat, pri: nat): State
    requires e < |s.procs|
  {
    s.(procs := s.procs[e := s.procs[e].(status := NotRunnable, pri := pri, phase := Outside, delivered := [], seen := [])])
  }

  /** env_free, where the run queue loses the environment if it holds it. */
  function Free(s: State, e: nat): State
    requires e < |s.procs|
  {
    s.(procs := s.procs[e := s.procs[e].(status := EnvNames.Free)], ready := Without(s.ready, e),
       cur := if s.cur == Some(e) then None else s.cur)
  }

  /** env_create, at boot: a free slot becomes runnable at the head of the queue. */
  function Create(s: State, e: nat, pri: nat): State
    requires e < |s.procs|
  {
    var t := Exofork(s, e, pri);
    t.(procs := t.procs[e := t.procs[e].(status := Runnable)], ready := [e] + s.ready)
  }

  // ----- the invariant -----

  /** The queue holds exactly the runnable environments, once each; the running one is at its head; a
      receiver is blocked, and its message is the last one delivered. */
  ghost predicate ProcOk(p: Proc) {
    && (p.recving <==> p.phase == Waiting)
    && (p.recving ==> p.status == NotRunnable)
    && (p.phase == Woken ==>
          && |p.delivered| > 0 && p.msg == p.delivered[|p.delivered| - 1]
          && p.seen == p.delivered[..|p.delivered| - 1])
    && (p.phase != Woken ==> p.seen == p.delivered)
    && (p.status == Runnable ==> p.pri >= 1)
  }

  ghost predicate Inv(s: State) {
    && Once(s.ready)
    && (forall e: nat :: e in s.ready <==> IsRunnable(s, e))
    && (forall e :: 0 <= e < |s.procs| ==> ProcOk(s.procs[e]))
    && s.count >= 0
    && (s.cur.Some? ==> s.cur.value < |s.procs|)
    && (s.cur.Some? && IsRunnable(s, s.cur.value) ==> s.ready[0] == s.cur.value)
  }

  lemma {:induction false} WithoutHead(l: seq<nat>, e: nat)
    requires Once(l) && l != [] && l[0] == e
    ensures Without(l, e) == l[1..]
  {
    assert l == [l[0]] + l[1..];
    assert e !in l[1..];
    WithoutOnce(l[1..], e);
  }

  /** schedule keeps the invariant, panics only when nothing is runnable, and runs a runnable environment. */
  lemma ScheduleKeepsInv(s: State, y: bool)
    requires Inv(s)
    ensures Schedule(s, y).None? ==> s.ready == []
    ensures Schedule(s, y).Some? ==>
      var t := Schedule(s, y).value;
      && Inv(t) && t.procs == s.procs && t.cur.Some? && IsRunnable(t, t.cur.value)
      && multiset(t.ready) == multiset(s.ready)
  {
    hide Inv, Once, Without, Schedule;
    if y || s.count == 0 || s.cur.None? || !IsRunnable(s, s.cur.value) {
      NextQueue(s);
      PickedIs(s, y);
      var q := NextReady(s);
      if q != [] { PickKeepsInv(s, q); }
    } else {
      SliceKeepsInv(s);
      SlicedIs(s, y);
    }
  }

  /** The queue from which schedule picks: a running environment goes to the tail. */
  function NextReady(s: State): seq<nat> {
    if s.cur.Some? && IsRunnable(s, s.cur.value) then Without(s.ready, s.cur.value) + [s.cur.value] else s.ready
  }

  lemma PickedIs(s: State, y: bool)
    requires y || s.count == 0 || s.cur.None? || !IsRunnable(s, s.cur.value)
    ensures var q := NextReady(s);
      Schedule(s, y) ==
        if q == [] then None
        else Some(s.(ready := q, count := (if q[0] < |s.procs| then s.procs[q[0]].pri else 0) - 1, cur := Some(q[0])))
  {
  }

  lemma SlicedIs(s: State, y: bool)
    requires !y && s.count != 0 && s.cur.Some? && IsRunnable(s, s.cur.value)
    ensures Schedule(s, y) == Some(s.(count := s.count - 1))
  {
  }

  /** The queue that schedule picks from holds the same environments. */
  lemma NextQueue(s: State)
    requires Inv(s)
    ensures var q := NextReady(s);
      Once(q) && multiset(q) == multiset(s.ready) && forall x :: x in q <==> x in s.ready
  {
    if s.cur.Some? && IsRunnable(s, s.cur.value) {
      assert s.cur.value in s.ready;
      Rotated(s.ready);
      WithoutHead(s.ready, s.cur.value);
    }
  }

  lemma SliceKeepsInv(s: State)
    requires Inv(s) && s.count != 0
    ensures Inv(s.(count := s.count - 1))
  {
    hide Once;
  }

  lemma PickKeepsInv(s: State, q: seq<nat>)
    requires Inv(s) && q != [] && Once(q) && forall x :: x in q <==> x in s.ready
    ensures IsRunnable(s, q[0]) && Inv(s.(ready := q, count := s.procs[q[0]].pri - 1, cur := Some(q[0])))
  {
    hide Once;
    assert q[0] in q;
    assert ProcOk(s.procs[q[0]]);
  }

  /** Moving the head to the tail. */
  lemma Rotated(l: seq<nat>)
    requires Once(l) && l != []
    ensures Once(l[1..] + [l[0]]) && l[0] !in l[1..]
    ensures multiset(l[1..] + [l[0]]) == multiset(l) && forall x :: x in l[1..] + [l[0]] <==> x in l
  {
    assert l == [l[0]] + l[1..];
    OnceAppend(l[1..], l[0]);
  }

  /** A yielding environment is picked again only if it is the sole runnable one. */
  lemma YieldPicksAnother(s: State)
    requires Inv(s) && s.cur.Some? && Schedule(s, true).Some?
    ensures Schedule(s, true).value.cur == s.cur ==>
      forall e: nat :: IsRunnable(s, e) ==> Some(e) == s.cur
  {
    if IsRunnable(s, s.cur.value) {
      WithoutHead(s.ready, s.cur.value);
      assert s.ready == [s.ready[0]] + s.ready[1..];
      if |s.ready| > 1 { assert s.ready[1] != s.ready[0]; }
    } else if s.ready != [] {
      assert s.ready[0] in s.ready;
    }
  }

  lemma BlockKeepsInv(s: State)
    requires Inv(s) && s.cur.Some? && IsRunnable(s, s.cur.value) && s.procs[s.cur.value].phase == Outside
    ensures Inv(Block(s))
  {
    WithoutOnce(s.ready, s.cur.value);
  }

  lemma DeliverKeepsInv(s: State, e: nat, m: Message)
    requires Inv(s) && e < |s.procs| && s.procs[e].recving && s.procs[e].pri >= 1
    requires s.cur.Some? && IsRunnable(s, s.cur.value)
    ensures Inv(Deliver(s, e, m))
  {
    assert e !in s.ready;
    OnceAppend(s.ready, e);
  }

  lemma ObserveKeepsInv(s: State, e: nat)
    requires Inv(s) && e < |s.procs| && s.procs[e].phase == Woken
    ensures Inv(Observe(s, e))
  {
  }

  /** Suspending is always fine, even the running environment; waking is if the environment has a priority, is
      not waiting in a receive, and is not the caller waking itself up behind others. */
  predicate MaySet(s: State, e: nat, status: Status)
    requires e < |s.procs|
  {
    status == Runnable ==>
      && s.procs[e].pri >= 1 && !s.procs[e].recving
      && (s.cur == Some(e) && s.procs[e].status != Runnable ==> s.ready == [])
  }

  /** sys_set_env_status keeps the invariant exactly then, for statuses the call accepts. */
  lemma SetStatusKeepsInvIff(s: State, e: nat, status: Status)
    requires Inv(s) && e < |s.procs| && s.procs[e].status != EnvNames.Free
    requires status == Runnable || status == NotRunnable
    ensures Inv(SetStatus(s, e, status)) <==> MaySet(s, e, status)
  {
    var t := SetStatus(s, e, status);
    assert ProcOk(s.procs[e]);
    if s.procs[e].status == status {
      assert t == s by { assert t.procs == s.procs; }
    } else if status == Runnable {
      WakeKeepsInvIff(s, e);
    } else {
      SuspendKeepsInv(s, e);
    }
  }

  lemma SuspendKeepsInv(s: State, e: nat)
    requires Inv(s) && IsRunnable(s, e)
    ensures Inv(SetStatus(s, e, NotRunnable))
  {
    var t := SetStatus(s, e, NotRunnable);
    WithoutOnce(s.ready, e);
    assert e in s.ready && e !in t.ready;
    if s.cur.Some? && s.cur.value != e && IsRunnable(s, s.cur.value) {
      WithoutKeepsHead(s.ready, e);
    }
    hide Once;
    forall x: nat ensures x in t.ready <==> IsRunnable(t, x) {
      assert x in s.ready <==> IsRunnable(s, x);
    }
    forall x | 0 <= x < |t.procs| ensures ProcOk(t.procs[x]) {
      assert ProcOk(s.procs[x]);
    }
  }

  lemma WakeKeepsInvIff(s: State, e: nat)
    requires Inv(s) && e < |s.procs| && s.procs[e].status == NotRunnable
    ensures Inv(SetStatus(s, e, Runnable)) <==> MaySet(s, e, Runnable)
  {
    var t := SetStatus(s, e, Runnable);
    assert t.ready == s.ready + [e] && e !in s.ready;
    assert ProcOk(s.procs[e]);
    OnceAppend(s.ready, e);
    assert ProcOk(t.procs[e]) <==> s.procs[e].pri >= 1 && !s.procs[e].recving;
    assert s.ready != [] ==> s.ready[0] in s.ready && t.ready[0] == s.ready[0] != e;
    if s.cur.Some? && s.cur.value != e && IsRunnable(t, s.cur.value) {
      assert IsRunnable(s, s.cur.value) && s.cur.value in s.ready;
    }
  }

  lemma WithoutKeepsHead(l: seq<nat>, e: nat)
    requires l != [] && l[0] != e
    ensures Without(l, e) != [] && Without(l, e)[0] == l[0]
  {
  }

  /** The bad case is real: waking a waiting receiver this way queues it twice at the next send. */
  lemma WakingAReceiverDuplicates(s: State, e: nat, m: Message)
    requires Inv(s) && e < |s.procs| && s.procs[e].recving
    ensures var t := Deliver(SetStatus(s, e, Runnable), e, m); !Once(t.ready)
  {
    var t := Deliver(SetStatus(s, e, Runnable), e, m);
    assert t.ready == s.ready + [e] + [e];
    assert t.ready[|s.ready|] == t.ready[|s.ready| + 1];
  }

  lemma ExoforkKeepsInv(s: State, e: nat, pri: nat)
    requires Inv(s) && e < |s.procs| && s.procs[e].status == EnvNames.Free
    ensures Inv(Exofork(s, e, pri))
  {
  }

  lemma CreateKeepsInv(s: State, e: nat, pri: nat)
    requires Inv(s) && e < |s.procs| && s.procs[e].status == EnvNames.Free && pri >= 1 && s.cur == None
    ensures Inv(Create(s, e, pri))
  {
    assert e !in s.ready;
    forall i | 0 <= i < |s.ready| ensures s.ready[i] != e {
      assert s.ready[i] in s.ready;
    }
  }

  lemma FreeKeepsInv(s: State, e: nat)
    requires Inv(s) && e in s.ready
    ensures Inv(Free(s, e))
  {
    WithoutOnce(s.ready, e);
    if s.cur.Some? && s.cur.value != e && IsRunnable(s, s.cur.value) { WithoutKeepsHead(s.ready, e); }
  }

  /** env_free clears neither env_ipc_recving nor the message: as far as the fields of the slot go, the invariant survives
      the destruction of an environment exactly when that environment is not waiting in a receive. */
  lemma FreeKeepsInvIff(s: State, e: nat)
    requires Inv(s) && e < |s.procs| && s.procs[e].status != EnvNames.Free
    ensures Inv(Free(s, e)) <==> !s.procs[e].recving
  {
    if e in s.ready {
      assert ProcOk(s.procs[e]);
      FreeKeepsInv(s, e);
    } else {
      WithoutOnce(s.ready, e);
      assert ProcOk(s.procs[e]);
      assert Free(s, e).procs[e] == s.procs[e].(status := EnvNames.Free);
    }
  }

  /** What comes of it: whoever gets the slot of a destroyed receiver still counts as receiving. Once it has been
      made runnable, a send to it puts it on the run queue a second time. */
  lemma DestroyedReceiverDuplicates(s: State, e: nat, pri: nat, m: Message)
    requires Inv(s) && e < |s.procs| && s.procs[e].recving
    ensures var t := SetStatus(Exofork(Free(s, e), e, pri), e, Runnable);
      && IsRunnable(t, e) && t.procs[e].recving && t.ready == s.ready + [e] && Once(t.ready)
      && Deliver(t, e, m).ready == s.ready + [e, e] && !Once(Deliver(t, e, m).ready) && !Inv(Deliver(t, e, m))
  {
    assert ProcOk(s.procs[e]) && e !in s.ready;
    WithoutOnce(s.ready, e);
    OnceAppend(s.ready, e);
    var l := s.ready + [e, e];
    assert s.ready + [e] + [e] == l && l[|s.ready|] == l[|s.ready| + 1];
  }

  // ----- every run -----

  datatype Event =
    | Tick
    | YieldCpu
    | Recv
    | Send(to: nat, value: nat)
    | Look
    | Wake(e: nat)
    | Suspend(e: nat)
    | Fork(e: nat)
    | Exit(e: nat)

  /** The guards under which the kernel keeps its queue: only queued environments are freed or suspended, and
      only environments that are not blocked in a receive are woken. The clock and a yield come in any state,
      also when the current environment has suspended itself or there is none. */
  ghost predicate Allowed(s: State, ev: Event) {
    && (ev.Tick? || ev.YieldCpu? || (s.cur.Some? && IsRunnable(s, s.cur.value)))
    && match ev
       case Recv => s.procs[s.cur.value].phase == Outside
       case Send(e, _) => e < |s.procs| && s.procs[e].pri >= 1
       case Look => s.procs[s.cur.value].phase == Woken
       case Wake(e) =>
         e < |s.procs| && s.procs[e].status == NotRunnable && !s.procs[e].recving && s.procs[e].pri >= 1
       case Suspend(e) => e in s.ready
       case Fork(e) => e < |s.procs| && s.procs[e].status == EnvNames.Free
       case Exit(e) => e in s.ready
       case _ => true
  }

  /** One kernel call, or one look at a received message; None is a panic for want of a runnable environment. */
  ghost function Next(s: State, ev: Event): Option<State>
    requires Allowed(s, ev)
  {
    match ev
    case Tick => Schedule(s, false)
    case YieldCpu => Schedule(s, true)
    case Recv => Schedule(Block(s), true)
    case Send(e, v) => if s.procs[e].recving then Some(Deliver(s, e, Message(s.cur.value, v))) else Some(s)
    case Look => Some(Observe(s, s.cur.value))
    case Wake(e) => Some(SetStatus(s, e, Runnable))
    case Suspend(e) => if e < |s.procs| then Some(SetStatus(s, e, NotRunnable)) else Some(s)
    case Fork(e) => Some(Exofork(s, e, s.procs[s.cur.value].pri))
    case Exit(e) =>
      if e >= |s.procs| then Some(s)
      else if s.cur == Some(e) then Schedule(Free(s, e), true) else Some(Free(s, e))
  }

  lemma EventKeepsInv(s: State, ev: Event)
    requires Inv(s) && Allowed(s, ev)
    ensures Next(s, ev).Some? ==> Inv(Next(s, ev).value)
  {
    match ev
    case Tick => ScheduleKeepsInv(s, false);
    case YieldCpu => ScheduleKeepsInv(s, true);
    case Recv =>
      BlockKeepsInv(s);
      ScheduleKeepsInv(Block(s), true);
    case Send(e, v) => if s.procs[e].recving { DeliverKeepsInv(s, e, Message(s.cur.value, v)); }
    case Look => ObserveKeepsInv(s, s.cur.value);
    case Wake(e) => SetStatusKeepsInvIff(s, e, Runnable);
    case Suspend(e) =>
      assert ProcOk(s.procs[e]);
      SetStatusKeepsInvIff(s, e, NotRunnable);
    case Fork(e) => ExoforkKeepsInv(s, e, s.procs[s.cur.value].pri);
    case Exit(e) =>
      FreeKeepsInv(s, e);
      ScheduleKeepsInv(Free(s, e), true);
  }

  /** No call changes a priority, except that a forked child gets the caller's; and no call touches an environment other than
      the caller and the one it names. */
  lemma OnlyTheNamedChange(s: State, ev: Event, x: nat)
    requires Inv(s) && Allowed(s, ev) && Next(s, ev).Some? && x < |s.procs|
    ensures var u := Next(s, ev).value;
      && |u.procs| == |s.procs|
      && u.procs[x].pri == (if ev == Fork(x) then s.procs[s.cur.value].pri else s.procs[x].pri)
      && (s.cur != Some(x) && !(ev.Send? && ev.to == x) && ev != Wake(x) && ev != Suspend(x) && ev != Fork(x) && ev != Exit(x) ==>
            u.procs[x] == s.procs[x])
  {
  }

  ghost predicate Reaches(s: State, events: seq<Event>, t: State)
    decreases |events|
  {
    if events == [] then t == s
    else Allowed(s, events[0]) && Next(s, events[0]).Some? && Reaches(Next(s, events[0]).value, events[1..], t)
  }

  lemma {:induction false} EveryRunKeepsInv(s: State, events: seq<Event>, t: State)
    requires Inv(s) && Reaches(s, events, t)
    ensures Inv(t)
    decreases |events|
  {
    hide Inv, Allowed, Next;
    if events != [] {
      EventKeepsInv(s, events[0]);
      EveryRunKeepsInv(Next(s, events[0]).value, events[1..], t);
    }
  }

  /** In every run env_sched_list holds exactly the runnable environments, once each, and no waiting receiver. */
  lemma QueueIsTheRunnable(s: State, events: seq<Event>, t: State)
    requires Inv(s) && Reaches(s, events, t)
    ensures Once(t.ready)
    ensures forall e: nat :: e in t.ready <==> IsRunnable(t, e)
    ensures forall e :: 0 <= e < |t.procs| && t.procs[e].recving ==> e !in t.ready
  {
    EveryRunKeepsInv(s, events, t);
  }

  /** Rendezvous: what an environment has observed is exactly, in order, the sends that found it waiting,
      up to at most one it has been woken for; that one is still intact in its fields. */
  lemma MessagesInOrder(s: State, events: seq<Event>, t: State, e: nat)
    requires Inv(s) && Reaches(s, events, t) && e < |t.procs|
    ensures t.procs[e].seen <= t.procs[e].delivered
    ensures |t.procs[e].delivered| - |t.procs[e].seen| == if t.procs[e].phase == Woken then 1 else 0
    ensures t.procs[e].phase == Woken ==> t.procs[e].delivered == t.procs[e].seen + [t.procs[e].msg]
  {
    EveryRunKeepsInv(s, events, t);
    assert ProcOk(t.procs[e]);
  }

  /** A send is delivered exactly when the target is waiting; it then closes the target to further sends. */
  lemma SendDeliversOnce(s: State, e: nat, v: nat)
    requires Inv(s) && Allowed(s, Send(e, v))
    ensures var t := Next(s, Send(e, v)).value;
      && |t.procs| == |s.procs|
      && (s.procs[e].phase == Waiting ==>
            && t.procs[e].delivered == s.procs[e].delivered + [Message(s.cur.value, v)]
            && t.procs[e].msg == Message(s.cur.value, v) && !t.procs[e].recving && e in t.ready)
      && (s.procs[e].phase != Waiting ==> t == s)
      && (forall f :: 0 <= f < |s.procs| && f != e ==> t.procs[f] == s.procs[f])
  {
    assert ProcOk(s.procs[e]);
  }

  /** What the other calls do to the environment that they are about: a receiver waits, and can be sent to; a status is what it
      was set to; one that is waked queues last; a child waits to be started, with nothing received; one that exits is free. */
  lemma CallsDoWhatTheySay(s: State, ev: Event)
    requires Inv(s) && Allowed(s, ev) && Next(s, ev).Some?
    ensures var t := Next(s, ev).value;
      && |t.procs| == |s.procs|
      && (ev.Recv? ==>
            var p := t.procs[s.cur.value];
            && p.status == NotRunnable && p.recving && p.phase == Waiting && s.cur.value !in t.ready && t.cur != s.cur
            && p.msg == s.procs[s.cur.value].msg)
      && (ev.Look? ==> t.procs[s.cur.value].seen == s.procs[s.cur.value].seen + [s.procs[s.cur.value].msg] && t.ready == s.ready)
      && (ev.Wake? ==> t.procs[ev.e].status == Runnable && t.ready == s.ready + [ev.e])
      && (ev.Suspend? ==> t.procs[ev.e].status == NotRunnable && ev.e !in t.ready && t.cur == s.cur)
      && (ev.Fork? ==> t.procs[ev.e].status == NotRunnable && t.procs[ev.e].delivered == [] && t.ready == s.ready && t.cur == s.cur)
      && (ev.Exit? ==> t.procs[ev.e].status == EnvNames.Free && ev.e !in t.ready && t.cur != Some(ev.e))
      && (ev.Send? && s.procs[ev.to].recving ==> t.procs[ev.to].status == Runnable && t.ready == s.ready + [ev.to] && t.cur == s.cur)
  {
    match ev
    case Recv =>
      BlockKeepsInv(s);
      ScheduleKeepsInv(Block(s), true);
    case Exit(e) =>
      FreeKeepsInv(s, e);
      ScheduleKeepsInv(Free(s, e), true);
    case _ =>
  }

  // ----- bounded waiting -----

  /** Slices that will be used before `e` is reached: what is left of the current environment, and the
      priorities of those queued ahead. */
  function Ahead(l: seq<nat>, procs: seq<Proc>, cur: Option<nat>, count: int, e: nat): int {
    if l == [] || l[0] == e then 0
    else (if cur == Some(l[0]) then count else if l[0] < |procs| then procs[l[0]].pri else 0)
         + Ahead(l[1..], procs, cur, count, e)
  }

  function Rank(s: State, e: nat): int {
    Ahead(s.ready, s.procs, s.cur, s.count, e)
  }

  lemma {:induction false} AheadAppend(l: seq<nat>, x: nat, procs: seq<Proc>, cur: Option<nat>, count: int, e: nat)
    requires e in l
    ensures Ahead(l + [x], procs, cur, count, e) == Ahead(l, procs, cur, count, e)
  {
    if l[0] != e {
      assert (l + [x])[1..] == l[1..] + [x];
      AheadAppend(l[1..], x, procs, cur, count, e);
    }
  }

  /** Only the processes in the list matter, and of the current environment only whether it is in it. */
  lemma {:induction false} AheadSame(l: seq<nat>, procs: seq<Proc>, procs': seq<Proc>, cur: Option<nat>, cur': Option<nat>,
                                     count: int, count': int, e: nat)
    requires |procs| == |procs'|
    requires forall x :: x in l && x < |procs| ==> procs[x].pri == procs'[x].pri
    requires forall x :: x in l ==> cur != Some(x) && cur' != Some(x)
    ensures Ahead(l, procs, cur, count, e) == Ahead(l, procs', cur', count', e)
  {
    if l != [] && l[0] != e {
      assert l[0] in l;
      AheadSame(l[1..], procs, procs', cur, cur', count, count', e);
    }
  }

  lemma {:induction false} AheadSamePri(l: seq<nat>, procs: seq<Proc>, procs': seq<Proc>, cur: Option<nat>, count: int, e: nat)
    requires |procs| == |procs'|
    requires forall x :: x in l && x < |procs| ==> procs[x].pri == procs'[x].pri
    ensures Ahead(l, procs, cur, count, e) == Ahead(l, procs', cur, count, e)
  {
    if l != [] && l[0] != e {
      assert l[0] in l;
      AheadSamePri(l[1..], procs, procs', cur, count, e);
    }
  }

  lemma {:induction false} AheadWithout(l: seq<nat>, x: nat, procs: seq<Proc>, cur: Option<nat>, count: nat, e: nat)
    requires x != e
    ensures 0 <= Ahead(Without(l, x), procs, cur, count, e) <= Ahead(l, procs, cur, count, e)
  {
    if l != [] {
      AheadWithout(l[1..], x, procs, cur, count, e);
      if l[0] != x {
        assert ([l[0]] + Without(l[1..], x))[1..] == Without(l[1..], x);
      }
    }
  }

  /** Each call of schedule brings every waiting environment strictly closer, or runs it. */
  lemma ScheduleBringsCloser(s: State, y: bool, e: nat)
    requires Inv(s) && e in s.ready && s.cur != Some(e)
    ensures Schedule(s, y).Some?
    ensures var t := Schedule(s, y).value;
      t.cur == Some(e) || (e in t.ready && 0 <= Rank(t, e) < Rank(s, e))
  {
    var t := Schedule(s, y).value;
    var l := s.ready;
    assert l == [l[0]] + l[1..];
    if s.cur.Some? && IsRunnable(s, s.cur.value) {
      var c := s.cur.value;
      WithoutHead(l, c);
      assert c !in l[1..] && e in l[1..];
      if t.cur != Some(e) {
        if y || s.count == 0 {
          RotateBringsCloser(s, y, e);
        } else {
          AheadSame(l[1..], s.procs, s.procs, s.cur, s.cur, s.count, s.count - 1, e);
          RankPositive(l[1..], s.procs, s.cur, s.count, e);
        }
      }
    } else if t.cur != Some(e) {
      FreshHead(s, l, e);
    }
  }

  lemma {:induction false} RankPositive(l: seq<nat>, procs: seq<Proc>, cur: Option<nat>, count: nat, e: nat)
    ensures Ahead(l, procs, cur, count, e) >= 0
  {
    if l != [] && l[0] != e { RankPositive(l[1..], procs, cur, count, e); }
  }

  /** A new head starts with its priority, of which one slice is used at once. */
  lemma FreshHead(s: State, l: seq<nat>, e: nat)
    requires Inv(s) && l == s.ready && e in l && l[0] != e
    requires s.cur.None? || !IsRunnable(s, s.cur.value)
    ensures Schedule(s, true).Some?
    ensures var t := Schedule(s, true).value;
      e in t.ready && 0 <= Rank(t, e) < Rank(s, e) && Schedule(s, false) == Schedule(s, true)
  {
    assert l == [l[0]] + l[1..];
    assert l[0] in l && l[0] !in l[1..];
    assert ProcOk(s.procs[l[0]]);
    forall x | x in l[1..] ensures s.cur != Some(x) && Some(l[0]) != Some(x) {
      assert x in l;
    }
    AheadSame(l[1..], s.procs, s.procs, s.cur, Some(l[0]), s.count, s.procs[l[0]].pri - 1, e);
    RankPositive(l[1..], s.procs, Some(l[0]), s.procs[l[0]].pri - 1, e);
  }

  lemma RotateBringsCloser(s: State, y: bool, e: nat)
    requires Inv(s) && e in s.ready && s.cur.Some? && s.cur.value != e && IsRunnable(s, s.cur.value)
    requires y || s.count == 0
    ensures Schedule(s, y).Some?
    ensures var t := Schedule(s, y).value;
      t.cur == Some(e) || (e in t.ready && 0 <= Rank(t, e) < Rank(s, e))
  {
    var c, l := s.cur.value, s.ready;
    assert l == [c] + l[1..];
    WithoutHead(l, c);
    var rest := l[1..];
    assert e in rest && c !in rest;
    var h := rest[0];
    assert h in rest && h in l;
    assert ProcOk(s.procs[h]);
    var t := Schedule(s, y).value;
    assert t.ready == rest + [c];
    if h != e {
      var tail := rest[1..];
      assert rest == [h] + tail;
      assert h !in tail by { assert forall i :: 0 <= i < |tail| ==> tail[i] == l[i + 2]; }
      assert (rest + [c])[1..] == tail + [c];
      AheadAppend(tail, c, s.procs, t.cur, t.count, e);
      AheadSame(tail, s.procs, s.procs, s.cur, t.cur, s.count, t.count, e);
      RankPositive(tail, s.procs, t.cur, t.count, e);
      assert Ahead(l, s.procs, s.cur, s.count, e) == s.count + Ahead(rest, s.procs, s.cur, s.count, e);
      assert Ahead(rest, s.procs, s.cur, s.count, e) == s.procs[h].pri + Ahead(tail, s.procs, s.cur, s.count, e);
      assert Rank(t, e) == t.count + Ahead(tail + [c], s.procs, t.cur, t.count, e);
    }
  }

  predicate CallsSchedule(s: State, ev: Event) {
    match ev
    case Tick => true
    case YieldCpu => true
    case Recv => true
    case Exit(e) => s.cur == Some(e)
    case _ => false
  }

  /** Removing another environment brings a waiting one no further away. */
  lemma RemovalHelps(s: State, x: nat, e: nat, procs: seq<Proc>)
    requires Inv(s) && e in s.ready && x != e && |procs| == |s.procs|
    requires forall y :: 0 <= y < |procs| ==> procs[y].pri == s.procs[y].pri
    ensures e in Without(s.ready, x)
    ensures 0 <= Ahead(Without(s.ready, x), procs, s.cur, s.count, e) <= Rank(s, e)
    ensures s.cur == Some(x) ==> Ahead(Without(s.ready, x), procs, None, s.count, e) <= Rank(s, e)
  {
    AheadWithout(s.ready, x, s.procs, s.cur, s.count, e);
    AheadSamePri(Without(s.ready, x), s.procs, procs, s.cur, s.count, e);
    if s.cur == Some(x) {
      AheadSame(Without(s.ready, x), procs, procs, s.cur, None, s.count, s.count, e);
    }
  }

  /** No event moves a waiting environment back; every one that schedules moves it forward. */
  lemma EventBringsCloser(s: State, ev: Event, e: nat)
    requires Inv(s) && Allowed(s, ev) && e in s.ready && s.cur != Some(e)
    requires ev != Exit(e) && ev != Suspend(e)
    ensures Next(s, ev).Some?
    ensures var t := Next(s, ev).value;
      || t.cur == Some(e)
      || (e in t.ready && 0 <= Rank(t, e) && Rank(t, e) + (if CallsSchedule(s, ev) then 1 else 0) <= Rank(s, e))
  {
    hide Once, Without, Ahead;
    RankPositive(s.ready, s.procs, s.cur, s.count, e);
    match ev
    case Tick => ScheduleBringsCloser(s, false, e);
    case YieldCpu => ScheduleBringsCloser(s, true, e);
    case Recv =>
      BlockKeepsInv(s);
      RemovalHelps(s, s.cur.value, e, Block(s).procs);
      ScheduleBringsCloser(Block(s), true, e);
    case Send(x, v) =>
      if s.procs[x].recving {
        AheadAppend(s.ready, x, s.procs, s.cur, s.count, e);
        AheadSamePri(s.ready + [x], s.procs, Deliver(s, x, Message(s.cur.value, v)).procs, s.cur, s.count, e);
      }
    case Look => AheadSamePri(s.ready, s.procs, Observe(s, s.cur.value).procs, s.cur, s.count, e);
    case Wake(x) =>
      AheadAppend(s.ready, x, s.procs, s.cur, s.count, e);
      AheadSamePri(s.ready + [x], s.procs, SetStatus(s, x, Runnable).procs, s.cur, s.count, e);
    case Suspend(x) => SuspendHelps(s, x, e);
    case Fork(x) => ForkKeepsRank(s, x, s.procs[s.cur.value].pri, e);
    case Exit(x) => ExitHelps(s, x, e);
  }

  lemma SuspendHelps(s: State, x: nat, e: nat)
    requires Inv(s) && e in s.ready && x in s.ready && x != e
    ensures x < |s.procs| && e in SetStatus(s, x, NotRunnable).ready
    ensures 0 <= Rank(SetStatus(s, x, NotRunnable), e) <= Rank(s, e)
  {
    assert IsRunnable(s, x);
    RemovalHelps(s, x, e, SetStatus(s, x, NotRunnable).procs);
  }

  lemma ExitHelps(s: State, x: nat, e: nat)
    requires Inv(s) && e in s.ready && x in s.ready && x != e && s.cur != Some(e)
    ensures x < |s.procs| && e in Free(s, x).ready && 0 <= Rank(Free(s, x), e) <= Rank(s, e)
    ensures s.cur == Some(x) ==>
      && Schedule(Free(s, x), true).Some?
      && var t := Schedule(Free(s, x), true).value;
         t.cur == Some(e) || (e in t.ready && 0 <= Rank(t, e) < Rank(s, e))
  {
    hide Schedule;
    assert IsRunnable(s, x);
    FreeKeepsInv(s, x);
    RemovalHelps(s, x, e, Free(s, x).procs);
    RankPositive(Without(s.ready, x), Free(s, x).procs, None, s.count, e);
    if s.cur == Some(x) { ScheduleBringsCloser(Free(s, x), true, e); }
  }

  lemma ForkKeepsRank(s: State, x: nat, pri: nat, e: nat)
    requires Inv(s) && x < |s.procs| && s.procs[x].status == EnvNames.Free
    ensures Rank(Exofork(s, x, pri), e) == Rank(s, e)
  {
    assert x !in s.ready;
    AheadSamePri(s.ready, s.procs, Exofork(s, x, pri).procs, s.cur, s.count, e);
  }

  /** Calls of schedule in a run during which `e` is neither run, destroyed nor suspended. */
  ghost function Scheduled(s: State, events: seq<Event>): nat
    decreases |events|
  {
    if events == [] then 0
    else if !Allowed(s, events[0]) || Next(s, events[0]).None? then 0
    else (if CallsSchedule(s, events[0]) then 1 else 0) + Scheduled(Next(s, events[0]).value, events[1..])
  }

  ghost predicate NeverRuns(s: State, events: seq<Event>, e: nat)
    decreases |events|
  {
    && s.cur != Some(e)
    && (events != [] && Allowed(s, events[0]) && Next(s, events[0]).Some? ==>
          NeverRuns(Next(s, events[0]).value, events[1..], e))
  }

  /** Bounded waiting: however the others arrive, block and die, a waiting environment is run after at most
      as many calls of schedule as the slices queued ahead of it. */
  lemma {:induction false} BoundedWaiting(s: State, events: seq<Event>, t: State, e: nat)
    requires Inv(s) && Reaches(s, events, t) && e in s.ready
    requires NeverRuns(s, events, e) && Exit(e) !in events && Suspend(e) !in events
    ensures Scheduled(s, events) <= Rank(s, e)
    decreases |events|
  {
    hide Inv, Allowed, Next, CallsSchedule, Rank;
    if events == [] {
      Ranked(s, e);
    } else {
      var ev := events[0];
      assert ev in events;
      EventKeepsInv(s, ev);
      EventBringsCloser(s, ev, e);
      var u := Next(s, ev).value;
      assert NeverRuns(u, events[1..], e);
      BoundedWaiting(u, events[1..], t, e);
    }
  }

  lemma Ranked(s: State, e: nat)
    requires Inv(s)
    ensures Rank(s, e) >= 0
  {
    RankPositive(s.ready, s.procs, s.cur, s.count, e);
  }

  // ----- the clock alone -----

  /** n timer ticks and nothing else. */
  function Ticks(s: State, n: nat): State
    decreases n
  {
    if n == 0 then s
    else match Schedule(s, false)
      case Some(t) => Ticks(t, n - 1)
      case None => s
  }

  /** The queue is right and its head is running; nothing is said about priorities or slices. */
  ghost predicate Queued(s: State) {
    && Once(s.ready) && (forall e: nat :: e in s.ready <==> IsRunnable(s, e))
    && s.ready != [] && s.cur == Some(s.ready[0])
  }

  /** Whoever is between the head and position k has a slice to give up. */
  predicate Open(s: State, k: nat)
    requires k < |s.ready|
  {
    s.count >= 0 && forall i :: 0 < i < k && s.ready[i] < |s.procs| ==> s.procs[s.ready[i]].pri >= 1
  }

  /** What one tick does to position k > 0. */
  lemma TickMoves(s: State, k: nat)
    requires Queued(s) && 0 < k < |s.ready|
    ensures Schedule(s, false).Some?
    ensures var t := Schedule(s, false).value;
      && Queued(t) && t.procs == s.procs
      && (s.count != 0 ==> t.ready == s.ready && t.count == s.count - 1)
      && (s.count == 0 ==>
            && t.ready == s.ready[1..] + [s.ready[0]]
            && s.ready[1] < |s.procs| && t.count == s.procs[s.ready[1]].pri - 1)
  {
    var l := s.ready;
    assert l == [l[0]] + l[1..];
    assert l[0] in l && l[1] in l;
    WithoutHead(l, l[0]);
    assert l[0] !in l[1..];
    OnceAppend(l[1..], l[0]);
  }

  lemma {:induction false} OpenIsReached(s: State, k: nat) returns (n: nat)
    requires Queued(s) && 0 < k < |s.ready| && Open(s, k)
    ensures Ticks(s, n).cur == Some(s.ready[k])
    decreases k, s.count
  {
    TickMoves(s, k);
    var t := Schedule(s, false).value;
    if s.count != 0 {
      n := OpenIsReached(t, k);
    } else if k == 1 {
      assert Ticks(t, 0) == t;
      n := 0;
    } else {
      assert forall i :: 0 < i < k - 1 ==> t.ready[i] == s.ready[i + 1];
      n := OpenIsReached(t, k - 1);
    }
    n := n + 1;
  }

  lemma {:induction false} ShutIsNotReached(s: State, k: nat, n: nat)
    requires Queued(s) && 0 < k < |s.ready| && !Open(s, k)
    ensures Ticks(s, n).cur != Some(s.ready[k])
    decreases n
  {
    hide Schedule, Without;
    if n > 0 {
      TickMoves(s, k);
      var t := Schedule(s, false).value;
      if s.count != 0 {
        ShutIsNotReached(t, k, n - 1);
      } else {
        var i :| 0 < i < k && s.ready[i] < |s.procs| && s.procs[s.ready[i]].pri < 1;
        assert i > 1 ==> t.ready[i - 1] == s.ready[i];
        ShutIsNotReached(t, k - 1, n - 1);
      }
    }
  }

  /** Why priorities must be at least one: by the clock alone a queued environment is reached if and only if
      the slices of the running one have not run below zero and everyone queued in between has a priority. */
  lemma ReachedByTicksIff(s: State, k: nat)
    requires Queued(s) && 0 < k < |s.ready|
    ensures (exists n: nat :: Ticks(s, n).cur == Some(s.ready[k])) <==> Open(s, k)
  {
    if Open(s, k) {
      var n := OpenIsReached(s, k);
    } else {
      forall n: nat ensures Ticks(s, n).cur != Some(s.ready[k]) { ShutIsNotReached(s, k, n); }
    }
  }

  lemma {:induction false} SliceRunsDown(s: State, n: nat)
    requires Inv(s) && s.cur.Some? && IsRunnable(s, s.cur.value) && n <= s.count
    ensures Ticks(s, n) == s.(count := s.count - n)
    decreases n
  {
    hide Inv;
    if n > 0 {
      CountedInv(s);
      SliceRunsDown(Schedule(s, false).value, n - 1);
    }
  }

  lemma CountedInv(s: State)
    requires Inv(s) && s.count > 0
    ensures Inv(s.(count := s.count - 1))
  {
    hide Once;
  }

  /** At the end of its slice the running environment goes, if another one can run. */
  lemma SpentGoes(s: State, e: nat)
    requires Inv(s) && s.count == 0 && s.cur.Some? && IsRunnable(s, s.cur.value) && IsRunnable(s, e) && e != s.cur.value
    ensures Ticks(s, 1).cur != s.cur
  {
    assert Schedule(s, false) == Schedule(s, true);
    YieldPicksAnother(s);
    ScheduleKeepsInv(s, true);
    var t := Schedule(s, true).value;
    assert Ticks(t, 0) == t;
  }

  /** A slice is the priority: whatever made the kernel pick an environment (a yield, an expired slice, nobody running, or a
      running one that cannot run), it keeps the CPU for fewer ticks than its priority, and not for as many if anybody else can
      run. */
  lemma SliceIsPriority(s: State, yield_: bool, n: nat)
    requires Inv(s) && (yield_ || s.count == 0 || s.cur.None? || !IsRunnable(s, s.cur.value)) && Schedule(s, yield_).Some?
    ensures var t := Schedule(s, yield_).value;
      && t.cur.Some? && t.cur.value < |s.procs|
      && var p := s.procs[t.cur.value].pri;
      && (n < p ==> Ticks(t, n).cur == t.cur)
      && (n == p && (exists e :: IsRunnable(s, e) && e != t.cur.value) ==> Ticks(t, n).cur != t.cur)
  {
    ScheduleKeepsInv(s, yield_);
    var t := Schedule(s, yield_).value;
    var p := s.procs[t.cur.value].pri;
    assert ProcOk(t.procs[t.cur.value]) && t.count == p - 1;
    hide Inv, Schedule;
    if n < p {
      SliceRunsDown(t, n);
    } else if n == p && exists e :: IsRunnable(s, e) && e != t.cur.value {
      var e: nat :| IsRunnable(s, e) && e != t.cur.value;
      SliceEnds(t, e);
    }
  }

  lemma {:induction false} SliceEnds(s: State, e: nat)
    requires Inv(s) && s.cur.Some? && IsRunnable(s, s.cur.value) && IsRunnable(s, e) && e != s.cur.value && s.count >= 0
    ensures Ticks(s, s.count + 1).cur != s.cur
    decreases s.count
  {
    hide Inv;
    if s.count == 0 {
      SpentGoes(s, e);
    } else {
      CountedInv(s);
      SliceEnds(Schedule(s, false).value, e);
    }
  }

  /** The events by which environment e gives up the CPU of itself, or by which others take it away. */
  predicate GivesUp(ev: Event, e: nat) {
    ev.YieldCpu? || ev.Recv? || ev == Suspend(e) || ev == Exit(e)
  }

  function TicksIn(events: seq<Event>): nat {
    if events == [] then 0 else (if events[0].Tick? then 1 else 0) + TicksIn(events[1..])
  }

  /** In any run of calls the running environment keeps the CPU while it does not give it up and the clock has not ticked
      through its slice. */
  lemma {:induction false} KeepsTheCpu(s: State, events: seq<Event>, t: State)
    requires Inv(s) && s.cur.Some? && IsRunnable(s, s.cur.value) && Reaches(s, events, t)
    requires TicksIn(events) <= s.count && forall ev :: ev in events ==> !GivesUp(ev, s.cur.value)
    ensures t.cur == s.cur && t.count == s.count - TicksIn(events) && IsRunnable(t, s.cur.value)
    decreases |events|
  {
    if events != [] {
      var ev := events[0];
      assert ev in events;
      EventKeepsInv(s, ev);
      StaysRunning(s, ev);
      var u := Next(s, ev).value;
      hide Inv, Allowed, Next;
      KeepsTheCpu(u, events[1..], t);
    }
  }

  lemma StaysRunning(s: State, ev: Event)
    requires Inv(s) && s.cur.Some? && IsRunnable(s, s.cur.value) && Allowed(s, ev) && !GivesUp(ev, s.cur.value)
    requires Next(s, ev).Some? && (ev.Tick? ==> s.count > 0)
    ensures var u := Next(s, ev).value;
      u.cur == s.cur && u.count == s.count - (if ev.Tick? then 1 else 0) && IsRunnable(u, s.cur.value)
  {
    if ev.Exit? { assert ev.e in s.ready; }
  }

  /** The bad case is real: once an environment of priority 0 has the CPU the clock never takes it away. */
  lemma ZeroPriorityKeepsTheCpu(s: State, n: nat)
    requires Queued(s) && |s.ready| > 1 && s.count == 0 && IsRunnable(s, s.ready[1]) && s.procs[s.ready[1]].pri == 0
    ensures Ticks(s, n + 1).cur == Some(s.ready[1])
  {
    TickMoves(s, 1);
    SpentKeepsTheCpu(Schedule(s, false).value, n);
  }

  lemma {:induction false} SpentKeepsTheCpu(s: State, n: nat)
    requires Queued(s) && |s.ready| > 1 && s.count < 0
    ensures Ticks(s, n).cur == s.cur
    decreases n
  {
    if n > 0 {
      TickMoves(s, 1);
      SpentKeepsTheCpu(Schedule(s, false).value, n - 1);
    }
  }
}

/** The same calls on the kernel's own data: environments linked into an intrusive tail queue. */
module SchedList {
  import opened Options
  import opened EnvNames
  import opened Queue
  import Sched

  class Scheduler {
    /** env_sched_link of every environment */
    const links: seq<Node>
    /** env_sched_list */
    const list: TailQueue
    var procs: seq<Sched.Proc>
    var count: int
    var curenv: Option<nat>
    ghost var ready: seq<nat>

    ghost function Snap(): Sched.State
      reads this
    {
      Sched.State(ready, procs, count, curenv)
    }

    /** The heap queue links exactly the environments of `ready`, in order. */
    ghost predicate Linked()
      reads `ready, list, links, list.elems
    {
      && (forall n :: n in list.elems ==> n in links)
      && list.Valid()
      && (forall i :: 0 <= i < |links| ==> links[i].owner == i)
      && |list.elems| == |ready|
      && (forall i :: 0 <= i < |ready| ==> ready[i] < |links| && list.elems[i] == links[ready[i]])
      && (forall n :: n in links ==> Near(n))
    }

    /** Queued or not, the pointers of a link are null or stay among the links and the head of the queue. */
    ghost predicate Near(n: Node)
      reads n
    {
      && (n.next == null || n.next in links)
      && (n.prev == Nowhere || n.prev == QueueFirst(list) || (n.prev.NextOf? && n.prev.n in links))
    }

    /** The links that an environment outside the queue has kept still fit the queue. */
    ghost predicate Fits(e: nat)
      reads `ready, list, links, list.elems
    {
      Linked() && e < |links| && Near(links[e]) && list.StillFits(links[e])
    }

    /** Environments outside the queue keep their back pointers. */
    twostate predicate KeepsLinks()
      reads `ready, links
    {
      forall i {:trigger links[i].prev} :: 0 <= i < |links| && i !in ready ==> links[i].prev == old(links[i].prev)
    }

    lemma QueuedNear()
      requires list.Valid() && forall n :: n in list.elems ==> n in links
      ensures forall n :: n in list.elems ==> Near(n)
    {
      forall i | 0 <= i < |list.elems| ensures Near(list.elems[i]) {
        if i + 1 < |list.elems| { assert list.elems[i + 1] in list.elems; }
        if i > 0 { assert list.elems[i].prev == NextOf(list.elems[i - 1]) && list.elems[i - 1] in list.elems; }
      }
    }

    ghost predicate Valid()
      reads this, list, links, list.elems
    {
      Linked() && |links| == |procs| && Sched.Inv(Snap())
    }

    /** env_init: nothing is queued and every slot is free. */
    constructor (links: seq<Node>)
      requires forall i :: 0 <= i < |links| ==> links[i].owner == i && links[i].next == null && links[i].prev == Nowhere
      ensures Valid() && curenv == None && ready == [] && |procs| == |links| && this.links == links && fresh(list)
      ensures forall e :: 0 <= e < |procs| ==> procs[e].status == Free
    {
      this.links := links;
      list := new TailQueue();
      procs := seq(|links|, _ => Sched.Proc(Free, 0, false, Sched.Message(0, 0), Sched.Outside, [], []));
      count, curenv, ready := 0, None, [];
    }

    /** The scheduler's part of env_create, used only before the first environment runs. */
    method EnvCreate(e: nat, pri: nat)
      requires Valid() && e < |procs| && procs[e].status == Free && pri >= 1 && curenv == None
      modifies this, list, links
      ensures Valid() && Snap() == Sched.Create(old(Snap()), e, pri) && KeepsLinks()
      ensures |procs| == |old(procs)| && procs[e].pri == pri && procs[e].status == Runnable && ready == [e] + old(ready)
    {
      hide Linked, Sched.Inv, Sched.Once;
      Sched.CreateKeepsInv(Snap(), e, pri);
      InvFacts(Snap());
      Prepend(e);
      procs := procs[e := procs[e].(status := NotRunnable, pri := pri, phase := Sched.Outside, delivered := [], seen := [])];
      procs := procs[e := procs[e].(status := Runnable)];
    }

    lemma NotLinked(e: nat)
      requires Linked() && e < |links| && e !in ready
      ensures links[e] !in list.elems
    {
      forall i | 0 <= i < |list.elems| ensures list.elems[i] != links[e] {
        assert links[ready[i]].owner == ready[i] && ready[i] in ready;
      }
    }

    lemma OutsideQueue()
      requires Linked()
      ensures forall i {:trigger links[i].prev} :: 0 <= i < |links| && links[i] in list.elems ==> i in ready
    {
      forall i | 0 <= i < |links| && links[i] in list.elems ensures i in ready {
        if i !in ready { NotLinked(i); }
      }
    }

    /** TAILQ_REMOVE of a queued environment. */
    method Drop(e: nat)
      requires Linked() && Sched.Once(ready) && e in ready
      modifies `ready, list, links
      ensures Linked() && ready == Sched.Without(old(ready), e) && KeepsLinks()
    {
      hide Linked, Sched.Without, Sched.Once, KeepsLinks;
      ghost var k :| 0 <= k < |ready| && ready[k] == e;
      WithoutAt(ready, e, k);
      DropAt(e, k);
    }

    method DropAt(e: nat, ghost k: nat)
      requires Linked() && k < |ready| && ready[k] == e
      modifies `ready, list, links
      ensures Linked() && ready == old(ready)[..k] + old(ready)[k + 1..] && KeepsLinks()
    {
      hide Chained, TailQueue.Valid;
      ghost var l, elems := ready, list.elems;
      OutsideQueue();
      list.Remove(links[e], k);
      ready := l[..k] + l[k + 1..];
      forall i | 0 <= i < |ready| ensures ready[i] < |links| && list.elems[i] == links[ready[i]] {
        var j := if i < k then i else i + 1;
        assert ready[i] == l[j] && list.elems[i] == elems[j];
      }
      assert forall x :: x in l ==> x == e || x in ready;
      QueuedNear();
    }

    /** TAILQ_INSERT_HEAD of an environment that is not queued. */
    method Prepend(e: nat)
      requires Linked() && e < |links| && e !in ready
      modifies `ready, list, links
      ensures Linked() && ready == [e] + old(ready) && KeepsLinks()
    {
      NotLinked(e);
      OutsideQueue();
      list.InsertHead(links[e]);
      ready := [e] + ready;
      QueuedNear();
    }

    /** TAILQ_INSERT_TAIL of an environment that is not queued. */
    method Append(e: nat)
      requires Linked() && e < |links| && e !in ready
      modifies `ready, list, links
      ensures Linked() && ready == old(ready) + [e] && KeepsLinks()
    {
      NotLinked(e);
      OutsideQueue();
      list.InsertTail(links[e]);
      ready := ready + [e];
      QueuedNear();
    }

    /** TAILQ_FIRST, as the environment it belongs to. */
    method First() returns (r: Option<nat>)
      requires Linked()
      ensures r == if ready == [] then None else Some(ready[0])
    {
      if list.first == null {
        r := None;
      } else {
        r := Some(list.first.owner);
      }
    }

    /** The running environment goes to the tail. */
    method Rotate(e: nat)
      requires Linked() && Sched.Once(ready) && e in ready && e < |links|
      modifies `ready, list, links
      ensures Linked() && ready == Sched.Without(old(ready), e) + [e] && KeepsLinks()
    {
      hide Linked, Sched.Once, Sched.Without;
      Drop(e);
      Append(e);
    }

    /** schedule; false stands for the panic on an empty queue. */
    method Schedule(yield_: bool) returns (ok: bool)
      requires Valid()
      modifies this, list, links
      ensures ok == Sched.Schedule(old(Snap()), yield_).Some?
      ensures ok ==> Valid() && Snap() == Sched.Schedule(old(Snap()), yield_).value && KeepsLinks()
    {
      hide Linked, Sched.Inv, Sched.Once, Sched.Without;
      Sched.ScheduleKeepsInv(Snap(), yield_);
      InvFacts(Snap());
      var runnable := curenv.Some? && procs[curenv.value].status == Runnable;
      if yield_ || count == 0 || !runnable {
        if runnable {
          Rotate(curenv.value);
        }
        var first := First();
        if first.None? {
          return false;
        }
        curenv := first;
        count := procs[first.value].pri;
      }
      count := count - 1;
      return true;
    }

    /** sys_ipc_recv, which ends in schedule(1). */
    method SysIpcRecv() returns (ok: bool)
      requires Valid() && curenv.Some? && Sched.IsRunnable(Snap(), curenv.value)
      requires procs[curenv.value].phase == Sched.Outside
      modifies this, list, links
      ensures ok ==>
        && |procs| == |old(procs)| && old(curenv).value < |procs|
        && procs[old(curenv).value].recving && procs[old(curenv).value].status == NotRunnable && old(curenv).value !in ready
      ensures ok == Sched.Schedule(Sched.Block(old(Snap())), true).Some?
      ensures ok ==> Valid() && Snap() == Sched.Schedule(Sched.Block(old(Snap())), true).value
    {
      hide Linked, Sched.Inv, Sched.Once, Sched.Without;
      var e := curenv.value;
      Sched.BlockKeepsInv(Snap());
      InvFacts(Snap());
      procs := procs[e := procs[e].(recving := true, status := NotRunnable, phase := Sched.Waiting)];
      Drop(e);
      ok := Schedule(true);
    }

    /** The part of sys_ipc_try_send that fills in the message and queues the receiver. */
    method Deliver(e: nat, value: nat)
      requires Valid() && curenv.Some? && Sched.IsRunnable(Snap(), curenv.value)
      requires e < |procs| && procs[e].recving && procs[e].pri >= 1
      modifies this, list, links
      ensures Valid() && Snap() == Sched.Deliver(old(Snap()), e, Sched.Message(old(curenv).value, value))
      ensures |procs| == |old(procs)| && !procs[e].recving && procs[e].status == Runnable && ready == old(ready) + [e]
      ensures procs[e].msg.from == old(curenv).value && procs[e].msg.value == value
    {
      hide Linked, Sched.Inv, Sched.Once, Sched.Without;
      var m := Sched.Message(curenv.value, value);
      Sched.DeliverKeepsInv(Snap(), e, m);
      InvFacts(Snap());
      procs := procs[e := procs[e].(recving := false, msg := m, status := Runnable, phase := Sched.Woken,
                                    delivered := procs[e].delivered + [m])];
      Append(e);
    }

    /** The scheduler's part of sys_exofork. */
    method SysExofork(e: nat)
      requires Valid() && curenv.Some? && e < |procs| && procs[e].status == Free
      modifies `procs
      ensures Valid() && Snap() == Sched.Exofork(old(Snap()), e, old(procs)[old(curenv).value].pri)
      ensures |procs| == |old(procs)| && procs[e].pri == old(procs)[old(curenv).value].pri && procs[e].status == NotRunnable
    {
      hide Linked, Sched.Inv;
      InvFacts(Snap());
      Sched.ExoforkKeepsInv(Snap(), e, procs[curenv.value].pri);
      procs := procs[e := procs[e].(status := NotRunnable, pri := procs[curenv.value].pri, phase := Sched.Outside,
                                    delivered := [], seen := [])];
    }

    /** sys_set_env_status on a resolved environment. The heap queue stays well formed in any case; whether the
        queue invariant survives is said exactly. */
    method SysSetEnvStatus(e: nat, status: Status) returns (r: Result<()>)
      requires Valid() && e < |procs| && procs[e].status != Free
      modifies this, list, links
      ensures Linked() && |links| == |procs|
      ensures status != Runnable && status != NotRunnable ==> r == Err(Inval) && Snap() == old(Snap())
      ensures status == Runnable || status == NotRunnable ==>
        r == Ok(()) && Snap() == Sched.SetStatus(old(Snap()), e, status)
      ensures status == Runnable || status == NotRunnable ==> (Valid() <==> Sched.MaySet(old(Snap()), e, status))
    {
      if status != Runnable && status != NotRunnable {
        return Err(Inval);
      }
      hide Linked, Sched.Inv, Sched.Once, Sched.Without, Sched.MaySet;
      Sched.SetStatusKeepsInvIff(Snap(), e, status);
      assert Sched.Once(ready) && (e in ready <==> procs[e].status == Runnable) by { InvFacts(Snap()); }
      Requeue(e, status);
      procs := procs[e := procs[e].(status := status)];
      return Ok(());
    }

    /** The part of sys_set_env_status that moves the environment in or out of the queue. */
    method Requeue(e: nat, status: Status)
      requires Linked() && |links| == |procs| && e < |procs| && procs[e].status != Free
      requires Sched.Once(ready) && (e in ready <==> procs[e].status == Runnable)
      requires status == Runnable || status == NotRunnable
      modifies `ready, list, links
      ensures Linked() && ready ==
        if procs[e].status == status then old(ready)
        else if status == Runnable then old(ready) + [e] else Sched.Without(old(ready), e)
    {
      hide Linked, Sched.Once, Sched.Without;
      if procs[e].status != status {
        if status == Runnable {
          Append(e);
        } else {
          Drop(e);
        }
      }
    }

    /** The scheduler's part of env_destroy. A queued environment is taken out, and if it was the running one the
        CPU goes to the next. For one that is not queued everything depends on the links it kept. */
    method EnvDestroy(e: nat) returns (ok: bool)
      requires Valid() && e < |procs| && procs[e].status != Free
      requires e in ready || curenv != Some(e)
      modifies this, list, links
      ensures e in old(ready) && old(curenv) != Some(e) ==> ok && Valid() && Snap() == Sched.Free(old(Snap()), e)
      ensures e in old(ready) && old(curenv) == Some(e) ==>
        var s := Sched.Schedule(Sched.Free(old(Snap()), e), true);
        ok == s.Some? && (ok ==> Valid() && Snap() == s.value)
      ensures e !in old(ready) ==> ok == (old(links[e].prev) != Nowhere)
      ensures e !in old(ready) && ok ==>
        && Snap() == Sched.Free(old(Snap()), e)
        && (Valid() <==> old(Fits(e)) && !old(procs)[e].recving)
    {
      hide Linked, Fits, Sched.Inv, Sched.Once, Sched.Without;
      InvFacts(Snap());
      if procs[e].status != Runnable { // the same macro in both cases, with the two contracts it has
        ok := DestroyUnqueued(e);
        return;
      }
      Sched.FreeKeepsInv(Snap(), e);
      procs := procs[e := procs[e].(status := Free)];
      Drop(e);
      if curenv == Some(e) {
        curenv := None;
        ok := Schedule(true);
      } else {
        ok := true;
      }
    }

    /** env_free of an environment that is not queued: the run queue is fit for use afterwards if and only if the
        links the environment kept still fit it, and its slot if and only if it was not receiving. False
        stands for the write through the null pointer of an environment that was never queued. */
    method DestroyUnqueued(e: nat) returns (ok: bool)
      requires Valid() && e < |procs| && procs[e].status != Free && e !in ready && curenv != Some(e)
      modifies this, list, links
      ensures ok == (old(links[e].prev) != Nowhere)
      ensures ok ==>
        && Snap() == Sched.Free(old(Snap()), e)
        && (Valid() <==> old(Fits(e)) && !old(procs)[e].recving)
    {
      Sched.FreeKeepsInvIff(Snap(), e);
      Sched.WithoutOnce(ready, e);
      hide Sched.Inv, Sched.Once, Sched.Without, Chained, Linked, Fits;
      procs := procs[e := procs[e].(status := Free)];
      ok := Unlink(e);
    }

    /** TAILQ_REMOVE of an environment that is not queued. */
    method Unlink(e: nat) returns (ok: bool)
      requires Linked() && e < |links| && e !in ready
      modifies list`first, list`last, links
      ensures ok == (old(links[e].prev) != Nowhere)
      ensures ok ==> (Linked() <==> old(Fits(e)))
    {
      NotLinked(e);
      assert Near(links[e]);
      ok := list.RemoveStale(links[e]);
    }
  }

  /** The bad case is real: spawn gives up on a child by destroying it before it was ever runnable. The kernel
      then writes through a null pointer, whichever slot the child has. */
  method DestroyedBeforeQueued(links: seq<Node>, child: nat) returns (s: Scheduler, ok: bool)
    requires 0 < child < |links|
    requires forall i :: 0 <= i < |links| ==> links[i].owner == i && links[i].next == null && links[i].prev == Nowhere
    modifies links
    ensures fresh(s) && s.links == links && !ok
  {
    hide Scheduler.Linked, Scheduler.Fits, Sched.Inv;
    s := new Scheduler(links);
    s.EnvCreate(0, 1);
    ok := s.Schedule(true);
    assert ok && s.ready == [0] && s.curenv == Some(0);
    s.SysExofork(child);
    ok := s.EnvDestroy(child);
  }

  /** What the invariant says about single environments. */
  lemma InvFacts(s: Sched.State)
    requires Sched.Inv(s)
    ensures Sched.Once(s.ready)
    ensures forall e: nat :: e in s.ready <==> Sched.IsRunnable(s, e)
    ensures forall e: nat :: e < |s.procs| && s.procs[e].recving ==> e !in s.ready
    ensures s.cur.Some? ==> s.cur.value < |s.procs|
    ensures s.ready != [] ==> s.ready[0] < |s.procs|
  {
    forall e: nat | e < |s.procs| && s.procs[e].recving ensures e !in s.ready {
      assert Sched.ProcOk(s.procs[e]);
    }
    assert s.ready != [] ==> s.ready[0] in s.ready;
  }

  lemma {:induction false} WithoutAt(l: seq<nat>, e: nat, k: nat)
    requires Sched.Once(l) && k < |l| && l[k] == e
    ensures Sched.Without(l, e) == l[..k] + l[k + 1..]
  {
    assert l == [l[0]] + l[1..];
    if k == 0 {
      Sched.WithoutHead(l, e);
    } else {
      WithoutAt(l[1..], e, k - 1);
      assert l[..k] == [l[0]] + l[1..][..k - 1];
      assert l[k + 1..] == l[1..][k..];
    }
  }
}
