/** Memory and scheduling together: who is scheduled has a live address space, and a message takes its page along. */
module System {
  import opened Options
  import opened Mmu
  import opened Vm
  import opened PageTables
  import opened EnvNames
  import opened Words
  import opened Kernel
  import opened SchedList
  import opened Queue
  import Sched
  import Teardown

  /** An environment has an address space exactly when its slot is not free, and then it has a priority. */
  ghost predicate Agree(asids: map<nat, nat>, procs: seq<Sched.Proc>) {
    && |procs| == NENV
    && (forall e: nat {:trigger procs[e]} :: e < NENV ==> (e in asids <==> procs[e].status != Free))
    && (forall e: nat {:trigger procs[e]} :: e < NENV && procs[e].status != Free ==> procs[e].pri >= 1)
  }

  lemma AgreeFreed(asids: map<nat, nat>, q: Sched.State, e: nat, vm: State, vm': State)
    requires Agree(asids, q.procs) && e < |q.procs| && vm.asids == asids && Teardown.Released(vm, vm', e)
    ensures Agree(vm'.asids, Sched.Free(q, e).procs) && e !in vm'.asids
  {
  }

  lemma AgreeBlocked(asids: map<nat, nat>, q: Sched.State)
    requires Agree(asids, q.procs) && q.cur.Some? && Sched.IsRunnable(q, q.cur.value)
    ensures Agree(asids, Sched.Block(q).procs)
  {
  }

  lemma LiveSlot(vm: State, vm': State, e: nat, q: Sched.State)
    requires Teardown.Released(vm, vm', e) && Agree(vm.asids, q.procs) && e < NENV
    ensures e < |q.procs| && e in vm.asids && q.procs[e].status != Free
  {
  }

  /** A runnable environment has an address space. */
  lemma AgreeLive(asids: map<nat, nat>, q: Sched.State, e: nat)
    requires Agree(asids, q.procs) && Sched.IsRunnable(q, e)
    ensures e in asids && e < NENV
  {
  }

  ghost predicate Legal(dstva: seq<nat>) {
    |dstva| == NENV && forall e :: 0 <= e < NENV ==> dstva[e] < UTOP
  }

  class Os {
    const kernel: Machine
    const sched: Scheduler
    /** env_ipc_dstva of every environment */
    var dstva: seq<nat>

    ghost predicate Valid()
      reads this, kernel, sched, sched.list, sched.links, sched.list.elems
    {
      && kernel.ValidAll() && sched.Valid()
      && Agree(kernel.vm.asids, sched.procs) && Legal(dstva) && kernel.curenv == sched.curenv
    }

    /** After env_init: nobody is alive and nobody is queued. */
    constructor (kernel: Machine, sched: Scheduler)
      requires kernel.ValidAll() && kernel.vm.asids == map[] && kernel.curenv == None
      requires sched.Valid() && |sched.procs| == NENV && sched.curenv == None
      requires forall e :: 0 <= e < NENV ==> sched.procs[e].status == Free
      ensures Valid() && this.kernel == kernel && this.sched == sched
    {
      this.kernel, this.sched := kernel, sched;
      dstva := seq(NENV, _ => 0);
    }

    /** The current environment is in user mode. */
    ghost predicate Running()
      reads this, kernel, sched
    {
      kernel.curenv.Some? && Sched.IsRunnable(sched.Snap(), kernel.curenv.value)
    }

    /** schedule with its call of env_run: the environment it picks has a live address space, and every TLB
        entry under its ASID is its own current translation; global ones are right under refills exactly if all agree. */
    method Schedule(yield_: bool) returns (ok: bool)
      requires Valid()
      modifies sched, sched.list, sched.links, kernel
      ensures ok == Sched.Schedule(old(sched.Snap()), yield_).Some?
      ensures ok ==>
        && Valid() && Running() && sched.Snap() == Sched.Schedule(old(sched.Snap()), yield_).value
        && kernel.vm == old(kernel.vm) && HitsOwn(kernel.vm, kernel.curenv.value)
        && (RefillsKeepHitsFresh(kernel.vm) <==> GlobalsAgree(kernel.vm))
    {
      hide Sched.Inv, Sched.Schedule, Inv, Refines, EnvsMatch, Lists, HitsOwn, RefillsKeepHitsFresh, GlobalsAgree;
      Sched.ScheduleKeepsInv(sched.Snap(), yield_);
      ok := sched.Schedule(yield_);
      if ok {
        kernel.EnvRun(sched.curenv.value);
      }
    }

    /** sys_exofork: the child has an address space of its own and is not runnable yet. */
    method SysExofork() returns (r: Result<nat>)
      requires Valid() && Running()
      modifies kernel, sched`procs
      ensures Valid() && Running()
      ensures r.Ok? ==>
        && r.value !in old(kernel.vm).asids && r.value in kernel.vm.asids
        && kernel.curenv.value < |old(sched.procs)| && r.value < |old(sched.procs)|
        && sched.Snap() == Sched.Exofork(old(sched.Snap()), r.value, old(sched.procs)[kernel.curenv.value].pri)
        && r.value < |sched.procs| && sched.procs[r.value].pri == old(sched.procs)[old(kernel.curenv).value].pri
      ensures r.Err? ==> sched.Snap() == old(sched.Snap()) && kernel.vm.asids == old(kernel.vm).asids
    {
      hide Sched.Inv, Sched.Schedule, Inv, Refines, EnvsMatch, Lists;
      InvFacts(sched.Snap());
      r := kernel.SysExofork();
      if r.Ok? {
        LiveEnvFacts(kernel.envs, kernel.envFree, kernel.asidBitmap, kernel.born, kernel.birth, kernel.vm, r.value);
        sched.SysExofork(r.value);
      }
    }

    /** sys_env_destroy: the address space and the place in the run queue go together, and if it was the caller
        another environment runs. A child that is not runnable is freed as well; the system survives that exactly when
        the child was not receiving and the links it kept still fit the queue. */
    method SysEnvDestroy(envid: nat) returns (r: Result<nat>, ok: bool)
      requires Valid() && Running()
      modifies kernel, sched, sched.list, sched.links
      ensures |old(kernel.envs)| == NENV && old(kernel.curenv).value < NENV && |sched.links| == |old(sched.procs)|
      ensures r == Resolve(old(kernel.envs), old(kernel.curenv), envid, true)
      ensures r.Err? <==> Stranger(old(kernel.envs), old(kernel.curenv).value, envid)
      ensures r.Ok? ==> MayActOn(old(kernel.envs), old(kernel.curenv).value, envid, r.value)
      ensures r.Ok? ==> r.value < |old(sched.procs)|
      ensures r.Ok? && ok ==> Running() && r.value !in kernel.vm.asids
      ensures r.Ok? && !Sched.IsRunnable(old(sched.Snap()), r.value) ==> ok == (old(sched.links[r.value].prev) != Nowhere)
      ensures r.Ok? && r.value != old(kernel.curenv).value ==>
        && (Sched.IsRunnable(old(sched.Snap()), r.value) ==> ok)
        && (ok ==> sched.Snap() == Sched.Free(old(sched.Snap()), r.value))
      ensures r.Err? ==> ok && Valid() && sched.Snap() == old(sched.Snap()) && kernel.vm == old(kernel.vm)
      ensures r.Ok? && ok ==>
        (Valid() <==> Sched.IsRunnable(old(sched.Snap()), r.value) || (old(sched.Fits(r.value)) && !old(sched.procs)[r.value].recving))
    {
      hide Sched.Inv, Sched.Schedule, Sched.Without, Sched.Once, Inv, Refines, EnvsMatch, Lists, Teardown.Released,
        Scheduler.Linked, Scheduler.Fits, MayActOn, Stranger;
      InvFacts(sched.Snap());
      ghost var q, vm := sched.Snap(), kernel.vm;
      r := kernel.SysEnvDestroy(envid);
      ok := true;
      if r.Ok? {
        AgreeLive(vm.asids, q, old(kernel.curenv).value);
        LiveSlot(vm, kernel.vm, r.value, q);
        AgreeFreed(vm.asids, q, r.value, vm, kernel.vm);
        hide Agree;
        if Sched.IsRunnable(q, r.value) {
          Sched.FreeKeepsInv(q, r.value);
          Sched.ScheduleKeepsInv(Sched.Free(q, r.value), true);
        }
        ok := sched.EnvDestroy(r.value);
        if ok && kernel.curenv.None? {
          AgreeLive(kernel.vm.asids, sched.Snap(), sched.curenv.value);
          kernel.EnvRun(sched.curenv.value);
        }
      }
    }

    /** sys_ipc_recv */
    method SysIpcRecv(va: nat) returns (r: Result<()>, ok: bool)
      requires Valid() && Running() && sched.procs[kernel.curenv.value].phase == Sched.Outside
      modifies this, kernel, sched, sched.list, sched.links
      ensures va != 0 && IllegalVa(va) ==> r == Err(Inval) && ok && Valid() && sched.Snap() == old(sched.Snap())
      ensures va == 0 || !IllegalVa(va) ==>
        && r == Ok(()) && old(kernel.curenv).value < |old(sched.procs)|
        && ok == Sched.Schedule(Sched.Block(old(sched.Snap())), true).Some?
        && (ok ==>
              && Valid() && Running() && kernel.vm == old(kernel.vm)
              && sched.Snap() == Sched.Schedule(Sched.Block(old(sched.Snap())), true).value
              && |old(dstva)| == NENV && dstva == old(dstva)[old(kernel.curenv).value := va])
    {
      hide Sched.Inv, Sched.Schedule, Sched.Without, Sched.Once, Inv, Refines, EnvsMatch, Lists;
      InvFacts(sched.Snap());
      if va != 0 && IllegalVa(va) {
        return Err(Inval), true;
      }
      AgreeLive(kernel.vm.asids, sched.Snap(), kernel.curenv.value);
      AgreeBlocked(kernel.vm.asids, sched.Snap());
      dstva := dstva[kernel.curenv.value := va];
      ghost var blocked := Sched.Block(sched.Snap());
      Sched.BlockKeepsInv(sched.Snap());
      Sched.ScheduleKeepsInv(blocked, true);
      ok := sched.SysIpcRecv();
      if ok {
        AgreeLive(kernel.vm.asids, sched.Snap(), sched.curenv.value);
        kernel.EnvRun(sched.curenv.value);
      }
      r := Ok(());
    }

    /** sys_ipc_try_send, with its page: all outcomes in the order of the checks. The receiver is woken before the
        page is looked at, so an error about the page comes after the message is delivered. */
    method SysIpcTrySend(envid: nat, value: nat, srcva: nat, arg: PermArg) returns (r: Result<()>)
      requires Valid() && Running()
      modifies kernel, sched, sched.list, sched.links
      ensures Running()
      ensures |old(kernel.envs)| == NENV && old(kernel.curenv).value < NENV
      ensures r.Ok? && srcva != 0 ==>
        PassedPlainly(old(kernel.envs), old(kernel.curenv).value, envid, srcva, old(dstva), old(kernel.vm), kernel.vm, arg)
      ensures var target := Resolve(old(kernel.envs), old(kernel.curenv), envid, false);
        && Sent(old(kernel.vm), kernel.vm, old(kernel.freeList), old(kernel.curenv).value, target, srcva, old(dstva), arg,
                old(sched.Snap()), sched.Snap(), value, r)
        && (Valid() <==>
              (r.Ok? && srcva != 0 ==>
                 && target.Ok? && target.value < |old(dstva)|
                 && PageSound(old(kernel.vm), old(kernel.curenv).value, target.value, srcva, old(dstva)[target.value], arg)))
    {
      hide Sched.Inv, Inv, Refines, EnvsMatch, Lists, Insertable, PageSent, PageSound, PassedPlainly;
      var cur := kernel.curenv.value;
      InvFacts(sched.Snap());
      LiveEnvFacts(kernel.envs, kernel.envFree, kernel.asidBitmap, kernel.born, kernel.birth, kernel.vm, cur);
      if srcva != 0 && IllegalVa(srcva) {
        return Err(Inval);
      }
      var target := Resolve(kernel.envs, kernel.curenv, envid, false);
      if target.Err? {
        return Err(target.error);
      }
      var e := target.value;
      ResolvedIsLive(kernel.envs, kernel.envFree, kernel.asidBitmap, kernel.born, kernel.birth, kernel.vm,
                     kernel.curenv, envid, false);
      if !sched.procs[e].recving {
        return Err(IpcNotRecv);
      }
      sched.Deliver(e, value);
      if srcva == 0 {
        return Ok(());
      }
      r := SendPage(cur, e, srcva, dstva[e], arg);
      if r.Ok? {
        PassedIs(kernel.envs, cur, envid, srcva, dstva, old(kernel.vm), kernel.vm, old(kernel.freeList), arg, r);
      }
    }

    /** The last part of sys_ipc_try_send. */
    method SendPage(cur: nat, e: nat, srcva: nat, va: nat, arg: PermArg) returns (r: Result<()>)
      requires kernel.ValidAll() && cur in kernel.vm.asids && e in kernel.vm.asids
      requires !IllegalVa(srcva) && va < UTOP
      modifies kernel`ref, kernel`freeList, kernel`mem, kernel`tlb, kernel`vm
      ensures kernel.ValidAll() <==> (r.Ok? ==> PageSound(old(kernel.vm), cur, e, srcva, va, arg))
      ensures kernel.vm.asids == old(kernel.vm).asids
      ensures PageSent(old(kernel.vm), kernel.vm, old(kernel.freeList), cur, e, srcva, va, arg, r)
    {
      hide Inv, Refines, EnvsMatch, Lists, Insertable;
      LiveEnvFacts(kernel.envs, kernel.envFree, kernel.asidBitmap, kernel.born, kernel.birth, kernel.vm, cur);
      PdxBelowUtop(srcva);
      PdxBelowUtop(va);
      var pte := kernel.PageLookup(cur, kernel.envs[cur].pgdir, PdxOf(srcva), PtxOf(srcva));
      if pte.None? {
        return Err(Inval);
      }
      LeafInsertable(kernel.vm, Leaf(cur, PdxOf(srcva), PtxOf(srcva)));
      r := kernel.MapPage(e, pte.value.frame, va, arg);
      MappedAsids(old(kernel.vm), kernel.vm, old(kernel.freeList), e, pte.value.frame, va, arg, r);
    }
  }

  /** The receiver is the environment with that id, or the caller for 0; at its address it now has the caller's page at srcva,
      with the bits asked for. */
  ghost predicate PassedPlainly(envs: seq<Env>, cur: nat, envid: nat, srcva: nat, dstva: seq<nat>, s0: State, s: State, arg: PermArg) {
    forall e: nat :: e < |envs| && e < |dstva| && (if envid == 0 then e == cur else e == envid % 1024 && envs[e].id == envid) ==>
      PageAt(s0, cur, srcva).Some? && AsAsked(PageAt(s, e, dstva[e]), PageAt(s0, cur, srcva).value.frame, arg)
  }

  lemma PassedIs(envs: seq<Env>, cur: nat, envid: nat, srcva: nat, dstva: seq<nat>, s0: State, s: State, l: seq<nat>, arg: PermArg,
                 r: Result<()>)
    requires |envs| == NENV && cur < NENV && Legal(dstva) && srcva < UTOP && r.Ok?
    requires var target := Resolve(envs, Some(cur), envid, false);
      target.Ok? && target.value < NENV && PageSent(s0, s, l, cur, target.value, srcva, dstva[target.value], arg, r)
    ensures PassedPlainly(envs, cur, envid, srcva, dstva, s0, s, arg)
  {
    var e := Resolve(envs, Some(cur), envid, false).value;
    SamePage(s0, cur, srcva);
    SamePage(s, e, dstva[e]);
    hide AsAsked, Mapped, PdxOf, PtxOf, Translate;
    MappedAsAsked(s0, s, l, e, Translate(s0, cur, PdxOf(srcva), PtxOf(srcva)).value.frame, dstva[e], arg, r);
  }

  lemma MappedAsids(s0: State, s: State, l: seq<nat>, e: nat, pp: nat, va: nat, arg: PermArg, r: Result<()>)
    requires Mapped(s0, s, l, e, pp, va, arg, r)
    ensures s.asids == s0.asids
  {
    InsertRawChanges(s0, Leaf(e, PdxOf(va), PtxOf(va)), pp, Word(pp, arg), Top(l));
  }

  /** The page of the sender is mapped at the receiver's address, or the call fails without change. */
  ghost predicate PageSent(s0: State, s: State, l: seq<nat>, cur: nat, e: nat, srcva: nat, va: nat, arg: PermArg, r: Result<()>) {
    var en := Translate(s0, cur, PdxOf(srcva), PtxOf(srcva));
    if en.None? then r == Err(Inval) && s == s0
    else Mapped(s0, s, l, e, en.value.frame, va, arg, r)
  }

  /** The word stored for the receiver names the sender's page, and its count can be raised. */
  ghost predicate PageSound(s: State, cur: nat, e: nat, srcva: nat, va: nat, arg: PermArg) {
    var en := Translate(s, cur, PdxOf(srcva), PtxOf(srcva));
    && en.Some? && en.value.frame < |s.ref|
    && Sound(s, Leaf(e, PdxOf(va), PtxOf(va)), en.value.frame, Word(en.value.frame, arg))
  }

  /** What sys_ipc_try_send does and returns. */
  ghost predicate Sent(s0: State, s: State, l: seq<nat>, cur: nat, target: Result<nat>, srcva: nat, dstva: seq<nat>,
                       arg: PermArg, q0: Sched.State, q: Sched.State, value: nat, r: Result<()>) {
    if srcva != 0 && IllegalVa(srcva) then r == Err(Inval) && s == s0 && q == q0
    else if target.Err? then r == Err(target.error) && s == s0 && q == q0
    else
      var e := target.value;
      && e < |q0.procs| && e < |dstva|
      && if !q0.procs[e].recving then r == Err(IpcNotRecv) && s == s0 && q == q0
         else
           && q == Sched.Deliver(q0, e, Sched.Message(cur, value))
           && if srcva == 0 then r == Ok(()) && s == s0
              else PageSent(s0, s, l, cur, e, srcva, dstva[e], arg, r)
  }
}
