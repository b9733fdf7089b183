/** Any number of processes inside pipe_read and pipe_write at once, and exactly when a call is right: pipe_read takes
    only bytes that are there, and pipe_write puts bytes only where there is room. */
module PipeCases {
  import opened PipeEnds
  import opened PipeData

  const U32: nat := 0x1_0000_0000

  /** n bytes to get, some of them got already; or bytes still to put. */
  datatype Work = Get(n: nat, got: seq<int>) | Put(todo: seq<int>)

  /** Where a process stands in the loop of pipe_read or pipe_write; `sure` says that the waiting loop was left
      because the pipe was found closed. */
  datatype At =
    | First
    | FirstTest(closed: bool)
    | Second(sure: bool)
    | SecondTest(sure: bool, closed: bool)
    | Transfer

  datatype Job = Job(fd: nat, work: Work, at: At)

  /** The processes in `jobs` are inside a call; nothing keeps two of them out of the same end. */
  datatype Crowd = Crowd(w: World, jobs: map<nat, Job>, rpos: nat, wpos: nat, buf: seq<int>)

  datatype Deed =
    | Plain(step: Step)
    | Enter(x: Slot, work: Work)
    | Go

  function EndOf(work: Work): End {
    if work.Get? then Reader else Writer
  }

  function Left(work: Work): nat {
    match work
    case Get(n, got) => if |got| < n then n - |got| else 0
    case Put(todo) => |todo|
  }

  /** The test that keeps a call waiting, in 32-bit unsigned arithmetic. */
  predicate Stuck(m: Crowd, e: End) {
    if e.Reader? then m.rpos >= m.wpos else (m.wpos - m.rpos) % U32 >= BY2PIPE
  }

  /** There is a byte to take, or room to put one. */
  predicate Ready(m: Crowd, e: End) {
    if e.Reader? then m.rpos < m.wpos else m.wpos < m.rpos + BY2PIPE
  }

  predicate AtCheckIn(j: Job) {
    j.at.First? || j.at.Second?
  }

  /** A process inside a call makes no other calls than the end checks of that code. */
  ghost predicate Able(m: Crowd, a: Deed) {
    var p := m.w.cur;
    match a
    case Plain(step) =>
      && Enabled(m.w, step)
      && (p in m.jobs ==> step.Switch? || step.Advance? || (AtCheckIn(m.jobs[p]) && step == Check(m.jobs[p].fd)))
    case Enter(x, work) => x.proc !in m.jobs && CanCall(m.w, x, EndOf(work)) && (work.Get? ==> work.got == [])
    case Go =>
      && p in m.jobs && |m.buf| == BY2PIPE
      && (AtCheckIn(m.jobs[p]) ==> p in m.w.pcs && m.w.pcs[p].Checked?)
      && (m.jobs[p].at.Transfer? ==>
            if m.jobs[p].work.Get? then m.rpos < MAX_POS else m.jobs[p].work.todo != [] && m.wpos < MAX_POS)
  }

  function Entered(m: Crowd, x: Slot, work: Work): Crowd {
    if Left(work) == 0 then m else m.(jobs := m.jobs[x.proc := Job(x.fd, work, First)])
  }

  /** The process goes on at another place of its loop. */
  function MovedTo(m: Crowd, p: nat, at: At): Crowd
    requires p in m.jobs
  {
    m.(jobs := m.jobs[p := m.jobs[p].(at := at)])
  }

  /** The next round of the loop, or the end of the call. */
  function NextRound(m: Crowd, p: nat, work: Work): Crowd
    requires p in m.jobs
  {
    m.(jobs := if Left(work) == 0 then m.jobs - {p} else m.jobs[p := Job(m.jobs[p].fd, work, First)])
  }

  ghost function Gone(m: Crowd): Crowd
    requires Able(m, Go)
  {
    var p := m.w.cur;
    var j := m.jobs[p];
    match j.at
    case First => MovedTo(m, p, FirstTest(m.w.pcs[p].closed)).(w := m.w.(pcs := m.w.pcs[p := Idle]))
    case FirstTest(c) => MovedTo(m, p, if !c && Stuck(m, EndOf(j.work)) then First else Second(c))
    case Second(sure) => MovedTo(m, p, SecondTest(sure, m.w.pcs[p].closed)).(w := m.w.(pcs := m.w.pcs[p := Idle]))
    case SecondTest(_, c) =>
      if c && (j.work.Put? || Stuck(m, Reader)) then m.(jobs := m.jobs - {p}) else MovedTo(m, p, Transfer)
    case Transfer =>
      match j.work
      case Get(n, got) => NextRound(m, p, Get(n, got + [m.buf[m.rpos % BY2PIPE]])).(rpos := m.rpos + 1)
      case Put(todo) => NextRound(m, p, Put(todo[1..])).(buf := m.buf[m.wpos % BY2PIPE := todo[0]], wpos := m.wpos + 1)
  }

  ghost function Done(m: Crowd, a: Deed): Crowd
    requires Able(m, a)
  {
    match a
    case Plain(step) => m.(w := Next(m.w, step), jobs := if step.Destroy? then m.jobs - {step.p} else m.jobs)
    case Enter(x, work) => Entered(m, x, work)
    case Go => Gone(m)
  }

  ghost predicate Leads(m: Crowd, deeds: seq<Deed>, q: Crowd)
    decreases |deeds|
  {
    if deeds == [] then q == m
    else Able(m, deeds[0]) && Leads(Done(m, deeds[0]), deeds[1..], q)
  }

  /** Process p makes no further call. */
  predicate OneCall(deeds: seq<Deed>, p: nat) {
    forall a :: a in deeds && a.Enter? ==> a.x.proc != p
  }

  /** The next move of process p takes from an empty pipe, or puts into a full one. */
  ghost predicate Wrong(m: Crowd, p: nat) {
    m.w.cur == p && Able(m, Go) && m.jobs[p].at.Transfer? && !Ready(m, EndOf(m.jobs[p].work))
  }

  /** In no run does the call make a wrong move, whatever all other processes do meanwhile. */
  ghost predicate AlwaysRight(m: Crowd, x: Slot, work: Work) {
    forall deeds, q {:trigger Leads(Entered(m, x, work), deeds, q)} ::
      Leads(Entered(m, x, work), deeds, q) && OneCall(deeds, x.proc) ==> !Wrong(q, x.proc)
  }

  /** All processes are between calls. */
  ghost predicate Resting(m: Crowd) {
    && Quiet(m.w) && (forall y :: y in m.w.fds ==> y.proc in m.w.pcs) && m.jobs == map[]
    && |m.buf| == BY2PIPE && m.rpos <= m.wpos <= m.rpos + BY2PIPE && m.wpos <= MAX_POS
  }

  // ----- calls in progress -----

  /** The process is inside an end check of its own descriptor, or between two. */
  predicate OwnCheck(pc: Pc, fd: nat, e: End) {
    match pc
    case Idle => true
    case CheckFd(f, d, _) => f == fd && d == e
    case CheckPipe(f, d, _, _) => f == fd && d == e
    case CheckRuns(f, d, _, _, _) => f == fd && d == e
    case Checked(f, d, _) => f == fd && d == e
    case _ => false
  }

  ghost predicate JobOk(w: World, p: nat, j: Job) {
    && Slot(p, j.fd) in w.fds && w.fds[Slot(p, j.fd)] == EndOf(j.work) && Left(j.work) > 0
    && p in w.pcs && (if AtCheckIn(j) then OwnCheck(w.pcs[p], j.fd, EndOf(j.work)) else w.pcs[p].Idle?)
  }

  ghost predicate JobsOk(m: Crowd) {
    Inv(m.w) && m.wpos <= MAX_POS && forall p {:trigger m.jobs[p]} :: p in m.jobs ==> JobOk(m.w, p, m.jobs[p])
  }

  lemma JobStays(w: World, step: Step, p: nat, j: Job)
    requires JobOk(w, p, j) && Enabled(w, step) && step != Destroy(p)
    requires w.cur == p ==> step.Switch? || step.Advance? || (AtCheckIn(j) && step == Check(j.fd))
    ensures JobOk(Next(w, step), p, j)
  {
  }

  /** Using up the answer of a check is a step that others do not notice. */
  lemma UseIsFinish(w: World, p: nat)
    requires w.cur == p && p in w.pcs && w.pcs[p].Checked?
    ensures Enabled(w, Finish) && Next(w, Finish) == w.(pcs := w.pcs[p := Idle])
  {
  }

  lemma JobsStayPlain(m: Crowd, step: Step)
    requires JobsOk(m) && Able(m, Plain(step))
    ensures JobsOk(Done(m, Plain(step)))
  {
    hide Inv, Next, Possible, JobOk, InOrder;
    StepKeepsInv(m.w, step);
    var t := Done(m, Plain(step));
    forall p | p in t.jobs ensures JobOk(t.w, p, t.jobs[p]) {
      JobStays(m.w, step, p, m.jobs[p]);
    }
  }

  lemma JobsStayGo(m: Crowd)
    requires JobsOk(m) && Able(m, Go)
    ensures JobsOk(Gone(m))
  {
    var c := m.w.cur;
    assert JobOk(m.w, c, m.jobs[c]);
    if AtCheckIn(m.jobs[c]) {
      UseIsFinish(m.w, c);
      StepKeepsInv(m.w, Finish);
    }
    hide Inv;
    var t := Gone(m);
    forall p | p in t.jobs ensures JobOk(t.w, p, t.jobs[p]) {
      assert JobOk(m.w, p, m.jobs[p]);
    }
  }

  lemma JobsStay(m: Crowd, a: Deed)
    requires JobsOk(m) && Able(m, a)
    ensures JobsOk(Done(m, a))
  {
    match a
    case Plain(step) => JobsStayPlain(m, step);
    case Go => JobsStayGo(m);
    case Enter(_, _) => hide Inv;
  }

  // ----- nobody else at this end -----

  /** The call at x, as long as it lasts, is by the only process that holds the end. */
  ghost predicate Lone(m: Crowd, x: Slot, e: End) {
    x.proc in m.jobs ==>
      var j := m.jobs[x.proc];
      && j.fd == x.fd && EndOf(j.work) == e && Inside(m.w, x, e)
      && match j.at
         case First => true
         case FirstTest(c) => c ==> Alone(m.w, x, e)
         case Second(sure) => if sure then Sure(m.w, x, e) else Ready(m, e)
         case SecondTest(sure, c) => (c ==> Alone(m.w, x, e)) && (if sure then c else Ready(m, e))
         case Transfer => Ready(m, e)
  }

  /** A step of the world outside the call. */
  lemma LoneWorld(m: Crowd, step: Step, x: Slot, e: End, t: Crowd)
    requires JobsOk(m) && Lone(m, x, e) && Enabled(m.w, step) && Bystander(m.w, step, x)
    requires t.w == Next(m.w, step) && (x.proc in t.jobs ==> x.proc in m.jobs && t.jobs[x.proc] == m.jobs[x.proc])
    requires Ready(m, e) ==> Ready(t, e)
    ensures Lone(t, x, e)
  {
    hide Inv, Next, Possible, InOrder, Inside, Alone, Sure, Bystander, Ready, JobOk;
    if x.proc in t.jobs {
      InsideStays(m.w, step, x, e);
      if Alone(m.w, x, e) { AloneStays(m.w, step, x, e); }
      if Sure(m.w, x, e) { SureStays(m.w, step, x, e); }
    }
  }

  lemma LonePlain(m: Crowd, step: Step, x: Slot, e: End)
    requires JobsOk(m) && Lone(m, x, e) && Able(m, Plain(step))
    ensures Lone(Done(m, Plain(step)), x, e)
  {
    var t := Done(m, Plain(step));
    if x.proc in t.jobs {
      hide Inv, Next, Possible, InOrder, Inside, Alone, Sure, JobOk;
      LoneWorld(m, step, x, e, t);
    }
  }

  /** A move of another process is at the other end. */
  lemma LoneOther(m: Crowd, x: Slot, e: End)
    requires JobsOk(m) && Lone(m, x, e) && Able(m, Go) && m.w.cur != x.proc
    ensures Lone(Gone(m), x, e)
  {
    if x.proc in m.jobs {
      var c := m.w.cur;
      assert JobOk(m.w, c, m.jobs[c]) && EndOf(m.jobs[c].work) != e;
      if AtCheckIn(m.jobs[c]) {
        UseIsFinish(m.w, c);
        hide Inv, Next, Possible, Inside, Alone, Sure, JobOk;
        LoneWorld(m, Finish, x, e, Gone(m));
      }
    }
  }

  lemma LoneSelf(m: Crowd, x: Slot, e: End)
    requires JobsOk(m) && Lone(m, x, e) && Able(m, Go) && m.w.cur == x.proc
    ensures Lone(Gone(m), x, e)
  {
    hide Inv;
    assert JobOk(m.w, x.proc, m.jobs[x.proc]);
    if !Stuck(m, e) { NotStuck(m, e); }
    hide Stuck;
    if AtCheckIn(m.jobs[x.proc]) {
      UseIsFinish(m.w, x.proc);
      assert Alone(m.w, x, e) ==> Alone(Gone(m).w, x, e);
    }
  }

  /** The 32-bit test errs on one side only. */
  lemma NotStuck(m: Crowd, e: End)
    requires !Stuck(m, e) && m.wpos <= MAX_POS
    ensures Ready(m, e)
  {
  }

  lemma LoneStays(m: Crowd, a: Deed, x: Slot, e: End)
    requires JobsOk(m) && Lone(m, x, e) && Able(m, a) && (a.Enter? ==> a.x.proc != x.proc)
    ensures Lone(Done(m, a), x, e)
  {
    match a
    case Plain(step) => LonePlain(m, step, x, e);
    case Go => if m.w.cur == x.proc { LoneSelf(m, x, e); } else { LoneOther(m, x, e); }
    case Enter(_, _) =>
  }

  lemma {:induction false} LoneIsRight(m: Crowd, deeds: seq<Deed>, q: Crowd, x: Slot, e: End)
    requires JobsOk(m) && Lone(m, x, e) && Leads(m, deeds, q) && OneCall(deeds, x.proc)
    ensures !Wrong(q, x.proc)
    decreases |deeds|
  {
    if deeds != [] {
      hide JobsOk, Lone, Able, Done, Wrong;
      JobsStay(m, deeds[0]);
      LoneStays(m, deeds[0], x, e);
      LoneIsRight(Done(m, deeds[0]), deeds[1..], q, x, e);
    }
  }

  // ----- nobody else at the other end, and nothing to do -----

  /** While the call at x lasts nothing moves: its process alone has the other end, and everybody waits. */
  ghost predicate Jammed(m: Crowd, x: Slot, z: Slot, e: End) {
    x.proc in m.jobs ==>
      && z in m.w.fds && m.w.fds[z] == Other(e) && z.proc == x.proc && Sole(m.w, Other(e), x.proc) && Stuck(m, e)
      && forall p {:trigger m.jobs[p]} :: p in m.jobs ==> EndOf(m.jobs[p].work) == e && (m.jobs[p].at == First || m.jobs[p].at == FirstTest(false))
  }

  lemma JammedPlain(m: Crowd, step: Step, x: Slot, z: Slot, e: End)
    requires JobsOk(m) && Jammed(m, x, z, e) && Able(m, Plain(step))
    ensures Jammed(Done(m, Plain(step)), x, z, e)
  {
    hide Inv;
    var t := Done(m, Plain(step));
    if x.proc in t.jobs {
      assert JobOk(m.w, x.proc, m.jobs[x.proc]);
      HeldStays(m.w, step, z, x.proc, Other(e));
    }
  }

  /** What a process inside its checks holds, and holds alone, stays so. */
  lemma HeldStays(w: World, step: Step, z: Slot, p: nat, d: End)
    requires Enabled(w, step) && step != Destroy(p) && p in w.pcs && z in w.fds && w.fds[z] == d && z.proc == p && Sole(w, d, p)
    requires w.cur == p ==> step.Switch? || step.Advance? || step.Check?
    requires w.pcs[p].Idle? || w.pcs[p].CheckFd? || w.pcs[p].CheckPipe? || w.pcs[p].CheckRuns? || w.pcs[p].Checked?
    ensures var t := Next(w, step); z in t.fds && t.fds[z] == d && Sole(t, d, p)
  {
  }

  lemma JammedGo(m: Crowd, x: Slot, z: Slot, e: End)
    requires JobsOk(m) && Jammed(m, x, z, e) && Able(m, Go)
    ensures Jammed(Gone(m), x, z, e)
  {
    if x.proc in m.jobs {
      var c := m.w.cur;
      assert JobOk(m.w, c, m.jobs[c]);
      if AtCheckIn(m.jobs[c]) {
        assert PcOk(m.w, c);
        EmptyEnd(m.w, Other(e));
      }
      hide Inv, JobOk;
    }
  }

  lemma JammedStays(m: Crowd, a: Deed, x: Slot, z: Slot, e: End)
    requires JobsOk(m) && Jammed(m, x, z, e) && Able(m, a) && (a.Enter? ==> a.x.proc != x.proc)
    ensures Jammed(Done(m, a), x, z, e)
  {
    match a
    case Plain(step) => JammedPlain(m, step, x, z, e);
    case Go => JammedGo(m, x, z, e);
    case Enter(_, _) => hide JobsOk;
  }

  lemma {:induction false} JammedIsRight(m: Crowd, deeds: seq<Deed>, q: Crowd, x: Slot, z: Slot, e: End)
    requires JobsOk(m) && Jammed(m, x, z, e) && Leads(m, deeds, q) && OneCall(deeds, x.proc)
    ensures !Wrong(q, x.proc)
    decreases |deeds|
  {
    if deeds != [] {
      hide JobsOk, Jammed, Able, Done, Wrong;
      JobsStay(m, deeds[0]);
      JammedStays(m, deeds[0], x, z, e);
      JammedIsRight(Done(m, deeds[0]), deeds[1..], q, x, z, e);
    }
  }

  // ----- runs -----

  lemma {:induction false} LeadsConcat(m: Crowd, a: seq<Deed>, q: Crowd, b: seq<Deed>, r: Crowd)
    requires Leads(m, a, q) && Leads(q, b, r)
    ensures Leads(m, a + b, r)
    decreases |a|
  {
    hide Able, Done;
    if a == [] {
      assert a + b == b;
    } else {
      LeadsConcat(Done(m, a[0]), a[1..], q, b, r);
      assert (a + b)[1..] == a[1..] + b;
    }
  }

  lemma OneDeed(m: Crowd, a: Deed)
    requires Able(m, a)
    ensures Leads(m, [a], Done(m, a))
  {
    assert [a][1..] == [];
    assert Leads(Done(m, a), [], Done(m, a));
  }

  lemma Then(m: Crowd, a: seq<Deed>, q: Crowd, d: Deed)
    requires Leads(m, a, q) && Able(q, d)
    ensures Leads(m, a + [d], Done(q, d))
  {
    hide Able, Done, Leads;
    OneDeed(q, d);
    LeadsConcat(m, a, q, [d], Done(q, d));
  }

  const CHECK_MOVES: nat := 4

  function Checks(fd: nat, k: nat): seq<Deed>
    requires k <= CHECK_MOVES
  {
    if k == 0 then [] else Checks(fd, k - 1) + [Plain(CheckMove(fd, k - 1))]
  }

  /** The running process is about to check its descriptor. */
  ghost predicate AboutToCheck(m: Crowd) {
    var p := m.w.cur;
    && p in m.jobs && AtCheckIn(m.jobs[p]) && Slot(p, m.jobs[p].fd) in m.w.fds && m.w.fds[Slot(p, m.jobs[p].fd)] == EndOf(m.jobs[p].work)
    && p in m.w.pcs && p in m.w.runs && m.w.pcs[p] == Idle && |m.buf| == BY2PIPE
  }

  /** What _pipe_is_closed answers when it is not disturbed. */
  ghost predicate Closed(w: World, e: End) {
    FdRef(w, e) == PipeRef(w)
  }

  lemma {:induction false} CheckRuns(m: Crowd, k: nat)
    requires AboutToCheck(m) && k <= CHECK_MOVES
    ensures Leads(m, Checks(m.jobs[m.w.cur].fd, k), m.(w := Checking(m.w, m.jobs[m.w.cur].fd, k)))
  {
    var fd := m.jobs[m.w.cur].fd;
    if k == 0 {
      NotYetChecking(m.w, fd);
    } else {
      CheckRuns(m, k - 1);
      CheckStep(m.w, fd, k - 1);
      var v := m.(w := Checking(m.w, fd, k - 1));
      assert v.w.cur == m.w.cur;
      hide Leads, Checking, Next, Possible;
      assert Able(v, Plain(CheckMove(fd, k - 1)));
      Then(m, Checks(fd, k - 1), v, Plain(CheckMove(fd, k - 1)));
    }
  }

  /** A whole check, and its answer used up. */
  function CheckDeeds(fd: nat): seq<Deed> {
    Checks(fd, CHECK_MOVES) + [Go]
  }

  ghost function Answered(m: Crowd): Crowd
    requires m.w.cur in m.jobs
  {
    var j := m.jobs[m.w.cur];
    var c := Closed(m.w, EndOf(j.work));
    MovedTo(m, m.w.cur, if j.at.Second? then SecondTest(j.at.sure, c) else FirstTest(c))
  }

  lemma CheckAndUse(m: Crowd)
    requires AboutToCheck(m)
    ensures Leads(m, CheckDeeds(m.jobs[m.w.cur].fd), Answered(m))
  {
    var fd := m.jobs[m.w.cur].fd;
    var v := m.(w := Checking(m.w, fd, CHECK_MOVES));
    CheckRuns(m, CHECK_MOVES);
    assert m.w.pcs[m.w.cur := Idle] == m.w.pcs;
    assert v.w.(pcs := v.w.pcs[m.w.cur := Idle]) == m.w;
    assert Able(v, Go) && Done(v, Go) == Answered(m);
    hide Leads;
    Then(m, Checks(fd, CHECK_MOVES), v, Go);
  }

  function PassDeeds(fd: nat): seq<Deed> {
    CheckDeeds(fd) + [Go] + (CheckDeeds(fd) + [Go])
  }

  /** The two tests let a call through when there is something to do. */
  lemma TestsPassed(m: Crowd, c: bool)
    requires AboutToCheck(m) && Ready(m, EndOf(m.jobs[m.w.cur].work)) && m.rpos <= m.wpos && (m.jobs[m.w.cur].work.Put? ==> !c)
    ensures var m1 := MovedTo(m, m.w.cur, FirstTest(c)); Able(m1, Go) && Done(m1, Go) == MovedTo(m, m.w.cur, Second(c))
    ensures var m3 := MovedTo(m, m.w.cur, SecondTest(c, c)); Able(m3, Go) && Done(m3, Go) == MovedTo(m, m.w.cur, Transfer)
  {
  }

  lemma SecondIsAboutToCheck(m: Crowd, sure: bool)
    requires AboutToCheck(m)
    ensures AboutToCheck(MovedTo(m, m.w.cur, Second(sure)))
    ensures Answered(MovedTo(m, m.w.cur, Second(sure))) == MovedTo(m, m.w.cur, SecondTest(sure, Closed(m.w, EndOf(m.jobs[m.w.cur].work))))
  {
  }

  /** One pass of the two tests. */
  lemma Pass(m: Crowd)
    requires AboutToCheck(m) && m.jobs[m.w.cur].at == First && Ready(m, EndOf(m.jobs[m.w.cur].work)) && m.rpos <= m.wpos
    requires m.jobs[m.w.cur].work.Put? ==> !Closed(m.w, Writer)
    ensures Leads(m, PassDeeds(m.jobs[m.w.cur].fd), MovedTo(m, m.w.cur, Transfer))
  {
    hide Leads, Able, Done, Closed, Ready;
    var p := m.w.cur;
    var fd := m.jobs[p].fd;
    var c := Closed(m.w, EndOf(m.jobs[p].work));
    var m2 := MovedTo(m, p, Second(c));
    TestsPassed(m, c);
    CheckAndUse(m);
    SecondIsAboutToCheck(m, c);
    CheckAndUse(m2);
    hide AboutToCheck;
    Then(m, CheckDeeds(fd), MovedTo(m, p, FirstTest(c)), Go);
    Then(m2, CheckDeeds(fd), MovedTo(m, p, SecondTest(c, c)), Go);
    LeadsConcat(m, CheckDeeds(fd) + [Go], m2, CheckDeeds(fd) + [Go], MovedTo(m, p, Transfer));
  }

  /** A reader of an empty pipe, and any writer, that finds the pipe closed returns. */
  lemma ReturnsWhenClosed(m: Crowd)
    requires AboutToCheck(m) && m.jobs[m.w.cur].at == First && Closed(m.w, EndOf(m.jobs[m.w.cur].work))
    requires m.jobs[m.w.cur].work.Get? ==> m.rpos >= m.wpos
    ensures Leads(m, PassDeeds(m.jobs[m.w.cur].fd), m.(jobs := m.jobs - {m.w.cur}))
  {
    hide Leads, Closed;
    var p := m.w.cur;
    var fd := m.jobs[p].fd;
    var m1, m2, m3 := MovedTo(m, p, FirstTest(true)), MovedTo(m, p, Second(true)), MovedTo(m, p, SecondTest(true, true));
    assert Able(m1, Go) && Done(m1, Go) == m2;
    assert Able(m3, Go) && Done(m3, Go) == m.(jobs := m.jobs - {p});
    hide Able, Done;
    CheckAndUse(m);
    SecondIsAboutToCheck(m, true);
    CheckAndUse(m2);
    hide AboutToCheck;
    Then(m, CheckDeeds(fd), m1, Go);
    Then(m2, CheckDeeds(fd), m3, Go);
    LeadsConcat(m, CheckDeeds(fd) + [Go], m2, CheckDeeds(fd) + [Go], m.(jobs := m.jobs - {p}));
  }

  /** A reader of an empty pipe, or a writer to a full one, that finds the pipe open is back where it was. */
  lemma WaitsWhileOpen(m: Crowd)
    requires AboutToCheck(m) && m.jobs[m.w.cur].at == First && !Closed(m.w, EndOf(m.jobs[m.w.cur].work))
    requires if m.jobs[m.w.cur].work.Get? then m.rpos >= m.wpos else m.wpos == m.rpos + 32
    ensures Leads(m, CheckDeeds(m.jobs[m.w.cur].fd) + [Go], m)
  {
    hide Leads, Closed;
    var p := m.w.cur;
    var m1 := MovedTo(m, p, FirstTest(false));
    assert m.jobs[p := m.jobs[p].(at := First)] == m.jobs;
    assert Able(m1, Go) && Done(m1, Go) == m;
    CheckAndUse(m);
    hide Able, Done;
    Then(m, CheckDeeds(m.jobs[p].fd), m1, Go);
  }

  /** How many bytes an end can move right now. */
  function Room(m: Crowd, e: End): int {
    if e.Reader? then m.wpos - m.rpos else m.rpos + BY2PIPE - m.wpos
  }

  predicate InRange(m: Crowd) {
    m.rpos <= m.wpos <= m.rpos + BY2PIPE && m.wpos < MAX_POS && |m.buf| == BY2PIPE
  }

  predicate NoEnter(deeds: seq<Deed>) {
    forall a :: a in deeds ==> !a.Enter?
  }

  lemma {:induction false} ChecksNoEnter(fd: nat, k: nat)
    requires k <= CHECK_MOVES
    ensures NoEnter(Checks(fd, k))
  {
    if k > 0 { ChecksNoEnter(fd, k - 1); }
  }

  lemma PassNoEnter(fd: nat)
    ensures NoEnter(PassDeeds(fd))
  {
    ChecksNoEnter(fd, CHECK_MOVES);
  }

  /** One byte more, and nothing else. */
  ghost predicate OneMoved(m: Crowd, q: Crowd, e: End) {
    && q == m.(jobs := q.jobs, buf := q.buf, rpos := if e.Reader? then m.rpos + 1 else m.rpos, wpos := if e.Reader? then m.wpos else m.wpos + 1)
    && |q.buf| == |m.buf|
  }

  /** Process p waits at the first check with k bytes to go at the end e. */
  ghost predicate Begins(m: Crowd, p: nat, e: End, k: nat) {
    && m.w.cur == p && AboutToCheck(m) && m.jobs[p].at == First && EndOf(m.jobs[p].work) == e && Left(m.jobs[p].work) == k
    && (e.Writer? ==> !Closed(m.w, Writer))
  }

  lemma MoveOne(m: Crowd, p: nat, e: End, k: nat) returns (deeds: seq<Deed>, q: Crowd)
    requires Begins(m, p, e, k) && k > 0 && Room(m, e) > 0 && InRange(m)
    ensures Leads(m, deeds, q) && NoEnter(deeds) && OneMoved(m, q, e)
    ensures q.jobs - {p} == m.jobs - {p} && (k == 1 ==> q.jobs == m.jobs - {p}) && (k > 1 ==> Begins(q, p, e, k - 1))
  {
    Pass(m);
    var fd := m.jobs[p].fd;
    var t := MovedTo(m, p, Transfer);
    assert Able(t, Go);
    q := Gone(t);
    Then(m, PassDeeds(fd), t, Go);
    deeds := PassDeeds(fd) + [Go];
    PassNoEnter(fd);
    hide Leads, Able, Checks;
  }

  /** A whole call that is not disturbed and finds all it needs. */
  lemma {:induction false} MoveAll(m: Crowd, p: nat, e: End, k: nat) returns (deeds: seq<Deed>, q: Crowd)
    requires Begins(m, p, e, k) && k > 0 && Room(m, e) >= k && InRange(m) && (e.Writer? ==> m.wpos + k < MAX_POS)
    ensures Leads(m, deeds, q) && NoEnter(deeds) && Moved(m, q, e, k) && q.jobs == m.jobs - {p}
    decreases k
  {
    hide Leads, Begins;
    deeds, q := MoveOne(m, p, e, k);
    if k > 1 {
      var more, r := MoveAll(q, p, e, k - 1);
      LeadsConcat(m, deeds, q, more, r);
      deeds, q := deeds + more, r;
    }
  }

  /** k bytes have been moved. */
  ghost predicate Moved(m: Crowd, q: Crowd, e: End, k: nat) {
    && q == m.(jobs := q.jobs, buf := q.buf, rpos := if e.Reader? then m.rpos + k else m.rpos, wpos := if e.Reader? then m.wpos else m.wpos + k)
    && |q.buf| == |m.buf|
  }

  /** The world when process p has run and process c runs again. */
  ghost function Bounced(w: World, p: nat): World
    requires p in w.runs && w.cur in w.runs && p != w.cur
  {
    w.(runs := w.runs[p := w.runs[p] + 1][w.cur := w.runs[w.cur] + 1])
  }

  function SomeWork(e: End, k: nat): Work {
    if e.Reader? then Get(k, []) else Put(seq(k, _ => 0))
  }

  /** Another process that is between calls and holds the end e at y. */
  ghost predicate Bystands(m: Crowd, y: Slot, e: End) {
    && y.proc != m.w.cur && y.proc in m.w.pcs && y.proc in m.w.runs && m.w.pcs[y.proc] == Idle && y.proc !in m.jobs
    && y in m.w.fds && m.w.fds[y] == e && m.w.cur in m.w.pcs && m.w.cur in m.w.runs
  }

  /** The other process is switched to and calls. */
  lemma OtherEnters(m: Crowd, y: Slot, e: End, k: nat) returns (q: Crowd)
    requires Bystands(m, y, e) && k > 0 && |m.buf| == BY2PIPE && (e.Writer? ==> !Closed(m.w, Writer))
    ensures Leads(m, [Plain(Switch(y.proc))] + [Enter(y, SomeWork(e, k))], q) && Begins(q, y.proc, e, k)
    ensures q == m.(w := Next(m.w, Switch(y.proc)), jobs := q.jobs) && q.jobs - {y.proc} == m.jobs
  {
    var m1 := m.(w := Next(m.w, Switch(y.proc)));
    var call := Enter(y, SomeWork(e, k));
    q := Entered(m1, y, SomeWork(e, k));
    assert Able(m, Plain(Switch(y.proc))) && Done(m, Plain(Switch(y.proc))) == m1;
    assert y == Slot(y.proc, y.fd);
    assert Able(m1, call) && Done(m1, call) == q;
    SameCounts(m.w, m1.w, e);
    hide Leads, Able, Done;
    OneDeed(m, Plain(Switch(y.proc)));
    Then(m, [Plain(Switch(y.proc))], m1, call);
  }

  /** The other process is switched to, moves k bytes in one call, and the first one runs again. */
  lemma OtherMoves(m: Crowd, y: Slot, e: End, k: nat) returns (deeds: seq<Deed>, q: Crowd)
    requires Bystands(m, y, e) && k > 0 && Room(m, e) >= k && InRange(m) && (e.Writer? ==> !Closed(m.w, Writer) && m.wpos + k < MAX_POS)
    ensures Leads(m, deeds, q) && OneCall(deeds, m.w.cur) && Moved(m.(w := Bounced(m.w, y.proc)), q, e, k) && q.jobs == m.jobs
  {
    hide Leads, Begins;
    var x := m.w.cur;
    var m2 := OtherEnters(m, y, e, k);
    var a, m3 := MoveAll(m2, y.proc, e, k);
    q := m3.(w := Next(m3.w, Switch(x)));
    assert Able(m3, Plain(Switch(x))) && Done(m3, Plain(Switch(x))) == q;
    hide Able, Done;
    Then(m2, a, m3, Plain(Switch(x)));
    LeadsConcat(m, [Plain(Switch(y.proc))] + [Enter(y, SomeWork(e, k))], m2, a + [Plain(Switch(x))], q);
    deeds := [Plain(Switch(y.proc))] + [Enter(y, SomeWork(e, k))] + (a + [Plain(Switch(x))]);
  }

  lemma SameCounts(w: World, t: World, e: End)
    requires t.fds == w.fds && t.data == w.data
    ensures Closed(t, e) == Closed(w, e)
  {
    assert FdSet(t, e) == FdSet(w, e);
  }

  // ----- the bad runs -----

  /** Something to do: x passes its tests, the other process y at the same end does all there is to do, and x goes on. */
  lemma ReadyBreaks(m: Crowd, x: nat, y: Slot, e: End, k: nat) returns (deeds: seq<Deed>, q: Crowd)
    requires Begins(m, x, e, k) && k > 0 && Ready(m, e) && InRange(m) && m.rpos + BY2PIPE < MAX_POS && Bystands(m, y, e)
    ensures Leads(m, deeds, q) && OneCall(deeds, x) && Wrong(q, x) && x in q.jobs && q.jobs[x].work == m.jobs[x].work
  {
    Pass(m);
    var fd := m.jobs[x].fd;
    PassNoEnter(fd);
    var t := MovedTo(m, x, Transfer);
    assert Bystands(t, y, e);
    var more;
    more, q := OtherMoves(t, y, e, Room(t, e));
    assert Wrong(q, x);
    hide Leads, Able, Checks;
    LeadsConcat(m, PassDeeds(fd), t, more, q);
    deeds := PassDeeds(fd) + more;
  }

  /** Nothing to do, but some other process z at the other end can change that. */
  lemma StuckBreaks(m: Crowd, x: nat, y: Slot, z: Slot, e: End, k: nat) returns (deeds: seq<Deed>, q: Crowd)
    requires Begins(m, x, e, k) && k > 0 && !Ready(m, e) && InRange(m) && m.rpos + BY2PIPE + 1 < MAX_POS
    requires Bystands(m, y, e) && Bystands(m, z, Other(e)) && !Closed(m.w, Writer)
    ensures Leads(m, deeds, q) && OneCall(deeds, x) && Wrong(q, x) && x in q.jobs && q.jobs[x].work == m.jobs[x].work
  {
    hide Leads, Wrong;
    var a, t := OtherMoves(m, z, Other(e), 1);
    SameCounts(m.w, t.w, Writer);
    assert Begins(t, x, e, k) && Bystands(t, y, e);
    var b;
    b, q := ReadyBreaks(t, x, y, e, k);
    LeadsConcat(m, a, t, b, q);
    deeds := a + b;
  }

  /** Another process begins to close its descriptor y, and the first one runs again. */
  ghost function Interrupted(w: World, y: Slot): World
    requires w.cur in w.pcs && w.cur in w.runs && y.proc in w.runs && y.proc != w.cur
  {
    w.(fds := w.fds - {y}, pcs := w.pcs[y.proc := CloseData(y.fd)],
       runs := w.runs[y.proc := w.runs[y.proc] + 1][w.cur := w.runs[w.cur] + 1])
  }

  function Interruption(x: nat, y: Slot): seq<Deed> {
    [Plain(Switch(y.proc))] + [Plain(Close(y.fd))] + [Plain(Switch(x))]
  }

  lemma InterruptionRuns(m: Crowd, y: Slot, e: End)
    requires Bystands(m, y, e)
    ensures Leads(m, Interruption(m.w.cur, y), m.(w := Interrupted(m.w, y)))
  {
    var x := m.w.cur;
    var w1 := Next(m.w, Switch(y.proc));
    assert y == Slot(y.proc, y.fd);
    var w2 := Next(w1, Close(y.fd));
    assert Next(w2, Switch(x)) == Interrupted(m.w, y);
    var m1, m2 := m.(w := w1), m.(w := w2);
    assert Able(m, Plain(Switch(y.proc))) && Done(m, Plain(Switch(y.proc))) == m1;
    assert Able(m1, Plain(Close(y.fd))) && Done(m1, Plain(Close(y.fd))) == m2;
    assert Able(m2, Plain(Switch(x))) && Done(m2, Plain(Switch(x))) == m.(w := Interrupted(m.w, y));
    hide Leads, Able, Done;
    OneDeed(m, Plain(Switch(y.proc)));
    Then(m, [Plain(Switch(y.proc))], m1, Plain(Close(y.fd)));
    Then(m, [Plain(Switch(y.proc))] + [Plain(Close(y.fd))], m2, Plain(Switch(x)));
  }

  lemma InterruptedCounts(w: World, y: Slot)
    requires w.cur in w.pcs && w.cur in w.runs && y.proc in w.runs && y.proc != w.cur
    requires w.data == w.fds.Keys && y in w.fds && FdRef(w, Other(w.fds[y])) == 0
    ensures Closed(w, w.fds[y]) && !Closed(Interrupted(w, y), w.fds[y])
  {
    var e := w.fds[y];
    EmptyEnd(w, Other(e));
    assert FdSet(w, e) == w.data;
    assert FdSet(Interrupted(w, y), e) == w.data - {y};
  }

  /** The caller at its second check, disturbed. */
  lemma StillAboutToCheck(m: Crowd, y: Slot, e: End)
    requires AboutToCheck(m) && Bystands(m, y, e)
    ensures AboutToCheck(m.(w := Interrupted(m.w, y)))
  {
  }

  function TwoAnswers(x: nat, fd: nat, y: Slot): seq<Deed> {
    CheckDeeds(fd) + [Go] + (Interruption(x, y) + (CheckDeeds(fd) + [Go]))
  }

  /** Nothing to do, and nobody at the other end: the first check says "closed"; y begins to close; the second check
      says "open", and x goes on. */
  lemma ClosedBreaks(m: Crowd, x: nat, y: Slot, e: End)
    requires m.w.cur == x && AboutToCheck(m) && m.jobs[x].at == First && EndOf(m.jobs[x].work) == e && Left(m.jobs[x].work) > 0
    requires !Ready(m, e) && InRange(m) && Bystands(m, y, e) && m.w.data == m.w.fds.Keys && FdRef(m.w, Other(e)) == 0
    ensures var q := MovedTo(m, x, Transfer).(w := Interrupted(m.w, y));
      Leads(m, TwoAnswers(x, m.jobs[x].fd, y), q) && Wrong(q, x)
  {
    hide Leads, Able, Done, InRange, Ready, Closed, Wrong;
    var fd := m.jobs[x].fd;
    var m2 := MovedTo(m, x, Second(true));
    var t := m.(w := Interrupted(m.w, y));
    var q := MovedTo(t, x, Transfer);
    InterruptedCounts(m.w, y);
    Misled(m, t, x, e);
    hide Interrupted;
    CheckAndUse(m);
    assert Bystands(m2, y, e);
    InterruptionRuns(m2, y, e);
    StillAboutToCheck(m, y, e);
    SecondIsAboutToCheck(t, true);
    CheckAndUse(MovedTo(t, x, Second(true)));
    hide Bystands, AboutToCheck;
    Then(m, CheckDeeds(fd), MovedTo(m, x, FirstTest(true)), Go);
    Then(MovedTo(t, x, Second(true)), CheckDeeds(fd), MovedTo(t, x, SecondTest(true, false)), Go);
    LeadsConcat(m2, Interruption(x, y), MovedTo(t, x, Second(true)), CheckDeeds(fd) + [Go], q);
    LeadsConcat(m, CheckDeeds(fd) + [Go], m2, Interruption(x, y) + (CheckDeeds(fd) + [Go]), q);
  }

  /** Told "closed" and then "open", a call goes on with nothing to do. */
  lemma Misled(m: Crowd, t: Crowd, x: nat, e: End)
    requires m.w.cur == x && x in m.jobs && EndOf(m.jobs[x].work) == e && Left(m.jobs[x].work) > 0
    requires !Ready(m, e) && InRange(m) && t == m.(w := t.w) && t.w.cur == x
    ensures var m1 := MovedTo(m, x, FirstTest(true)); Able(m1, Go) && Done(m1, Go) == MovedTo(m, x, Second(true))
    ensures var m4 := MovedTo(t, x, SecondTest(true, false)); Able(m4, Go) && Done(m4, Go) == MovedTo(t, x, Transfer)
    ensures Wrong(MovedTo(t, x, Transfer), x)
  {
  }

  /** The writer y forks a child, and the child begins to close its only descriptor. */
  ghost function Orphaned(w: World, y: Slot, c: nat): World
    requires w.cur in w.runs && y.proc in w.runs && y.proc != w.cur
  {
    w.(data := w.data + {Slot(c, y.fd)}, pcs := w.pcs[c := CloseData(y.fd)],
       runs := w.runs[y.proc := w.runs[y.proc] + 1][c := 1][w.cur := w.runs[w.cur] + 1])
  }

  /** The world after k steps of that. */
  ghost function Forking(w: World, y: Slot, c: nat, k: nat): World
    requires w.cur in w.runs && y.proc in w.runs && y.proc != w.cur && y in w.fds
  {
    var w1 := w.(cur := y.proc, runs := w.runs[y.proc := w.runs[y.proc] + 1]);
    var w2 := w1.(fds := w.fds[Slot(c, y.fd) := w.fds[y]], data := w.data + {Slot(c, y.fd)});
    var w3 := w2.(pcs := w.pcs[c := Idle], runs := w1.runs[c := 0]);
    var w4 := w3.(cur := c, runs := w1.runs[c := 1]);
    if k == 0 then w else if k == 1 then w1 else if k == 2 then w2 else if k == 3 then w3 else if k == 4 then w4
    else if k == 5 then w4.(fds := w.fds, pcs := w.pcs[c := CloseData(y.fd)]) else Orphaned(w, y, c)
  }

  function ForkStep(x: nat, y: Slot, c: nat, k: nat): Step {
    if k == 0 then Switch(y.proc) else if k == 1 then Share(c, y.fd) else if k == 2 then Start(c)
    else if k == 3 then Switch(c) else if k == 4 then Close(y.fd) else Switch(x)
  }

  function ForkDeeds(x: nat, y: Slot, c: nat, k: nat): seq<Deed> {
    if k == 0 then [] else ForkDeeds(x, y, c, k - 1) + [Plain(ForkStep(x, y, c, k - 1))]
  }

  /** A process number nobody uses. */
  ghost predicate Unused(m: Crowd, c: nat) {
    c !in m.w.pcs && c !in m.jobs && c != m.w.cur && forall fd :: Slot(c, fd) !in m.w.fds && Slot(c, fd) !in m.w.data
  }

  lemma ForkingStep(m: Crowd, y: Slot, c: nat, k: nat)
    requires Bystands(m, y, Writer) && Unused(m, c) && y in m.w.data && k < 6
    ensures Able(m.(w := Forking(m.w, y, c, k)), Plain(ForkStep(m.w.cur, y, c, k)))
    ensures Done(m.(w := Forking(m.w, y, c, k)), Plain(ForkStep(m.w.cur, y, c, k))) == m.(w := Forking(m.w, y, c, k + 1))
  {
    assert y == Slot(y.proc, y.fd);
    assert m.w.fds[Slot(c, y.fd) := m.w.fds[y]] - {Slot(c, y.fd)} == m.w.fds;
  }

  lemma {:induction false} ForkRuns(m: Crowd, y: Slot, c: nat, k: nat)
    requires Bystands(m, y, Writer) && Unused(m, c) && y in m.w.data && k <= 6
    ensures Leads(m, ForkDeeds(m.w.cur, y, c, k), m.(w := Forking(m.w, y, c, k)))
    ensures NoEnter(ForkDeeds(m.w.cur, y, c, k))
  {
    if k > 0 {
      ForkRuns(m, y, c, k - 1);
      ForkingStep(m, y, c, k - 1);
      hide Leads, Able, Done, Forking;
      Then(m, ForkDeeds(m.w.cur, y, c, k - 1), m.(w := Forking(m.w, y, c, k - 1)), Plain(ForkStep(m.w.cur, y, c, k - 1)));
    }
  }

  lemma OrphanedOpen(w: World, y: Slot, c: nat)
    requires w.cur in w.runs && y.proc in w.runs && y.proc != w.cur
    requires w.data == w.fds.Keys && Slot(c, y.fd) !in w.data
    ensures !Closed(Orphaned(w, y, c), Writer)
  {
    var t := Orphaned(w, y, c);
    assert FdSet(t, Writer) <= w.data;
    assert FdRef(t, Writer) <= |w.data| by { Smaller(FdSet(t, Writer), w.data); }
    assert |t.data| == |w.data| + 1;
  }

  lemma {:induction false} Smaller(a: set<Slot>, b: set<Slot>)
    requires a <= b
    ensures |a| <= |b|
    decreases |a|
  {
    if a != {} {
      var z :| z in a;
      Smaller(a - {z}, b - {z});
    }
  }

  /** Room, but no reader: with a child of y half closed all writers are told "open". */
  lemma OrphanBreaks(m: Crowd, x: nat, y: Slot, c: nat) returns (deeds: seq<Deed>, q: Crowd)
    requires m.w.cur == x && AboutToCheck(m) && m.jobs[x].at == First && EndOf(m.jobs[x].work) == Writer && Left(m.jobs[x].work) > 0
    requires Ready(m, Writer) && InRange(m) && m.rpos + BY2PIPE < MAX_POS && Bystands(m, y, Writer) && m.w.data == m.w.fds.Keys && Unused(m, c)
    ensures Leads(m, deeds, q) && OneCall(deeds, x) && Wrong(q, x) && x in q.jobs && q.jobs[x].work == m.jobs[x].work
  {
    hide Leads, Wrong, Able;
    ForkRuns(m, y, c, 6);
    OrphanedOpen(m.w, y, c);
    var t := m.(w := Orphaned(m.w, y, c));
    assert t.w == Forking(m.w, y, c, 6);
    assert Begins(t, x, Writer, Left(m.jobs[x].work)) && Bystands(t, y, Writer);
    var more;
    more, q := ReadyBreaks(t, x, y, Writer, Left(m.jobs[x].work));
    LeadsConcat(m, ForkDeeds(x, y, c, 6), t, more, q);
    deeds := ForkDeeds(x, y, c, 6) + more;
  }

  // ----- exactly when a call is right -----

  /** What makes a call right: nothing to move, nobody else at this end, or nothing to move now and nobody but the
      caller itself at the other end, so that the call waits for ever. */
  ghost predicate Sound(m: Crowd, x: Slot, work: Work) {
    var e := EndOf(work);
    Left(work) == 0 || Sole(m.w, e, x.proc) || (!Ready(m, e) && FdRef(m.w, Other(e)) != 0 && Sole(m.w, Other(e), x.proc))
  }

  lemma RestingInv(m: Crowd, x: Slot, work: Work)
    requires Resting(m) && CanCall(m.w, x, EndOf(work)) && (work.Get? ==> work.got == [])
    ensures JobsOk(m) && JobsOk(Entered(m, x, work)) && Able(m, Enter(x, work))
  {
    QuietInv(m.w);
    JobsStay(m, Enter(x, work));
  }

  lemma SoundIsRight(m: Crowd, x: Slot, work: Work)
    requires Resting(m) && CanCall(m.w, x, EndOf(work)) && (work.Get? ==> work.got == []) && Sound(m, x, work)
    ensures AlwaysRight(m, x, work)
  {
    var e, t := EndOf(work), Entered(m, x, work);
    RestingInv(m, x, work);
    forall deeds, q | Leads(t, deeds, q) && OneCall(deeds, x.proc) ensures !Wrong(q, x.proc) {
      if Left(work) == 0 || Sole(m.w, e, x.proc) {
        assert Lone(t, x, e);
        LoneIsRight(t, deeds, q, x, e);
      } else {
        var z := SomeHolder(m.w, Other(e));
        assert Jammed(t, x, z, e);
        JammedIsRight(t, deeds, q, x, z, e);
      }
    }
  }

  lemma SomeHolder(w: World, e: End) returns (z: Slot)
    requires FdRef(w, e) != 0
    ensures z in w.fds && w.fds[z] == e
  {
    z :| z in FdSet(w, e);
  }

  lemma {:induction false} UnusedNumber(used: set<nat>) returns (c: nat)
    ensures forall p :: p in used ==> p < c
    decreases |used|
  {
    if used == {} {
      c := 0;
    } else {
      var p :| p in used;
      c := UnusedNumber(used - {p});
      c := if c <= p then p + 1 else c;
      assert forall v :: v in used ==> v == p || v in used - {p};
    }
  }

  /** In every other state there is a run in which the call goes wrong. */
  lemma UnsoundBreaks(m: Crowd, x: Slot, work: Work) returns (deeds: seq<Deed>, q: Crowd)
    requires Resting(m) && CanCall(m.w, x, EndOf(work)) && (work.Get? ==> work.got == []) && !Sound(m, x, work)
    requires m.rpos + BY2PIPE + 1 < MAX_POS
    ensures Leads(Entered(m, x, work), deeds, q) && OneCall(deeds, x.proc) && Wrong(q, x.proc)
    ensures x.proc in q.jobs && q.jobs[x.proc].work == work
  {
    hide Leads, Wrong, Able;
    var e, t := EndOf(work), Entered(m, x, work);
    var y :| y in m.w.fds && m.w.fds[y] == e && y.proc != x.proc;
    assert AboutToCheck(t) && Bystands(t, y, e) && InRange(t);
    QuietCheckIsExact(m.w, e);
    QuietCheckIsExact(m.w, Writer);
    if Ready(t, e) {
      if e.Writer? && Closed(t.w, Writer) {
        var c := UnusedNumber(m.w.pcs.Keys);
        assert Unused(t, c);
        deeds, q := OrphanBreaks(t, x.proc, y, c);
      } else {
        assert Begins(t, x.proc, e, Left(work));
        deeds, q := ReadyBreaks(t, x.proc, y, e, Left(work));
      }
    } else if FdRef(m.w, Other(e)) == 0 {
      ClosedBreaks(t, x.proc, y, e);
      deeds, q := TwoAnswers(x.proc, x.fd, y), MovedTo(t, x.proc, Transfer).(w := Interrupted(t.w, y));
      AnswersNoEnter(x.proc, x.fd, y);
    } else {
      var z :| z in m.w.fds && m.w.fds[z] == Other(e) && z.proc != x.proc;
      EmptyEnd(m.w, Reader);
      assert Begins(t, x.proc, e, Left(work));
      deeds, q := StuckBreaks(t, x.proc, y, z, e, Left(work));
    }
  }

  lemma AnswersNoEnter(x: nat, fd: nat, y: Slot)
    ensures NoEnter(TwoAnswers(x, fd, y))
  {
    ChecksNoEnter(fd, CHECK_MOVES);
  }

  lemma RightIffSound(m: Crowd, x: Slot, work: Work)
    requires Resting(m) && CanCall(m.w, x, EndOf(work)) && (work.Get? ==> work.got == []) && m.rpos + BY2PIPE + 1 < MAX_POS
    ensures AlwaysRight(m, x, work) <==> Sound(m, x, work)
  {
    hide Resting, Sound, Leads, Wrong;
    if Sound(m, x, work) {
      SoundIsRight(m, x, work);
    } else {
      var deeds, q := UnsoundBreaks(m, x, work);
      assert !AlwaysRight(m, x, work);
    }
  }

  /** pipe_read of n bytes, in every state with all processes between calls: in no run does it take from an empty pipe
      if and only if it reads nothing, or no other process holds the read end, or the pipe is empty and its own process is
      the only one that holds the write end. */
  lemma ReadIff(m: Crowd, x: Slot, n: nat)
    requires Resting(m) && CanCall(m.w, x, Reader) && m.rpos + BY2PIPE + 1 < MAX_POS
    ensures AlwaysRight(m, x, Get(n, [])) <==>
      n == 0 || Sole(m.w, Reader, x.proc) || (m.rpos == m.wpos && FdRef(m.w, Writer) != 0 && Sole(m.w, Writer, x.proc))
  {
    RightIffSound(m, x, Get(n, []));
  }

  /** pipe_write likewise: in no run does it put a byte over one not yet read if and only if it writes nothing, or no
      other process holds the write end, or the pipe is full and its own process is the only one that holds the read end. */
  lemma WriteIff(m: Crowd, x: Slot, bytes: seq<int>)
    requires Resting(m) && CanCall(m.w, x, Writer) && m.rpos + BY2PIPE + 1 < MAX_POS
    ensures AlwaysRight(m, x, Put(bytes)) <==>
      bytes == [] || Sole(m.w, Writer, x.proc)
      || (m.wpos == m.rpos + BY2PIPE && FdRef(m.w, Reader) != 0 && Sole(m.w, Reader, x.proc))
  {
    RightIffSound(m, x, Put(bytes));
  }

  /** A call by the only process at its end is right whatever the others are in the middle of. */
  lemma SoleIsRight(m: Crowd, x: Slot, work: Work)
    requires JobsOk(m) && Able(m, Enter(x, work)) && Sole(m.w, EndOf(work), x.proc)
    ensures AlwaysRight(m, x, work)
  {
    var e, t := EndOf(work), Entered(m, x, work);
    JobsStay(m, Enter(x, work));
    forall deeds, q | Leads(t, deeds, q) && OneCall(deeds, x.proc) ensures !Wrong(q, x.proc) {
      LoneIsRight(t, deeds, q, x, e);
    }
  }

  lemma {:induction false} EveryRunKeepsJobs(m: Crowd, deeds: seq<Deed>, q: Crowd)
    requires JobsOk(m) && Leads(m, deeds, q)
    ensures JobsOk(q)
    decreases |deeds|
  {
    hide JobsOk, Able, Done;
    if deeds != [] {
      JobsStay(m, deeds[0]);
      EveryRunKeepsJobs(Done(m, deeds[0]), deeds[1..], q);
    }
  }

  // ----- the bad cases are real -----

  /** Processes 0 and 1 hold the read end, process 2 the write end if `writer`, and `bytes` are in the pipe. */
  function TwoReaders(writer: bool, bytes: nat): Crowd {
    var fds := map[Slot(0, 0) := Reader, Slot(1, 0) := Reader];
    var all := if writer then fds[Slot(2, 1) := Writer] else fds;
    Crowd(World(all, all.Keys, 0, map[0 := 0, 1 := 0, 2 := 0], map[0 := Idle, 1 := Idle, 2 := Idle]),
          map[], 0, bytes, seq(BY2PIPE, _ => 0))
  }

  /** One byte in the pipe, two readers of one byte: both find it there, and both take it. */
  lemma LastByteTakenTwice() returns (deeds: seq<Deed>, q: Crowd)
    ensures Leads(Entered(TwoReaders(true, 1), Slot(0, 0), Get(1, [])), deeds, q) && OneCall(deeds, 0)
    ensures Wrong(q, 0) && Gone(q).rpos > Gone(q).wpos
  {
    hide Leads;
    var m := TwoReaders(true, 1);
    assert Slot(1, 0) in m.w.fds;
    deeds, q := UnsoundBreaks(m, Slot(0, 0), Get(1, []));
  }

  /** An empty pipe without writers, two readers, one of them about to close: a byte is taken that was never there. */
  lemma SecondReaderBreaksReads() returns (q: Crowd)
    ensures Leads(Entered(TwoReaders(false, 0), Slot(0, 0), Get(1, [])), TwoAnswers(0, 0, Slot(1, 0)), q)
    ensures Wrong(q, 0) && Gone(q).rpos > Gone(q).wpos
  {
    hide Leads;
    var m := Entered(TwoReaders(false, 0), Slot(0, 0), Get(1, []));
    EmptyEnd(m.w, Writer);
    ClosedBreaks(m, 0, Slot(1, 0), Reader);
    q := MovedTo(m, 0, Transfer).(w := Interrupted(m.w, Slot(1, 0)));
  }

  // ----- the guarded pipe is a crowd -----

  function ReadJob(p: Pipe): Job {
    match p.rpc
    case RCheck1(b, n) => Job(p.r.fd, Get(n, From(p.taken, b)), First)
    case RTest1(b, n, c) => Job(p.r.fd, Get(n, From(p.taken, b)), FirstTest(c))
    case RCheck2(b, n, sure) => Job(p.r.fd, Get(n, From(p.taken, b)), Second(sure))
    case RTest2(b, n, sure, c) => Job(p.r.fd, Get(n, From(p.taken, b)), SecondTest(sure, c))
    case RTake(b, n) => Job(p.r.fd, Get(n, From(p.taken, b)), Transfer)
    case _ => Job(p.r.fd, Get(0, []), First)
  }

  function WriteJob(p: Pipe): Job {
    match p.wpc
    case WCheck1(b, bs) => Job(p.s.fd, Put(From(bs, p.wpos - b)), First)
    case WTest1(b, bs, c) => Job(p.s.fd, Put(From(bs, p.wpos - b)), FirstTest(c))
    case WCheck2(b, bs, sure) => Job(p.s.fd, Put(From(bs, p.wpos - b)), Second(sure))
    case WTest2(b, bs, sure, c) => Job(p.s.fd, Put(From(bs, p.wpos - b)), SecondTest(sure, c))
    case WPut(b, bs) => Job(p.s.fd, Put(From(bs, p.wpos - b)), Transfer)
    case _ => Job(p.s.fd, Put([]), First)
  }

  function From(s: seq<int>, k: int): seq<int> {
    if 0 <= k <= |s| then s[k..] else []
  }

  function Jobs(p: Pipe): map<nat, Job> {
    var reading := if RBusy(p) then map[p.r.proc := ReadJob(p)] else map[];
    if WBusy(p) then reading[p.s.proc := WriteJob(p)] else reading
  }

  /** A pipe with at most one reader and one writer inside, seen as a crowd. */
  function Seen(p: Pipe): Crowd {
    Crowd(p.w, Jobs(p), p.rpos, p.wpos, p.buf)
  }

  function AsDeed(a: Act): Deed {
    match a
    case Base(step) => Plain(step)
    case ReadCall(x, n) => Enter(x, Get(n, []))
    case WriteCall(x, bytes) => Enter(x, Put(bytes))
    case _ => Go
  }

  lemma BaseIsDeed(p: Pipe, step: Step)
    requires PipeInv(p) && CanAct(p, Base(step))
    ensures Able(Seen(p), Plain(step)) && Done(Seen(p), Plain(step)) == Seen(Based(p, step))
  {
    hide Next, Possible, InOrder, Inv, Fifo, Reading, Writing;
    assert Done(Seen(p), Plain(step)).jobs == Seen(Based(p, step)).jobs;
  }

  lemma TakeIsGo(p: Pipe)
    requires PipeInv(p) && CanAct(p, ReadStep) && p.rpc.RTake?
    ensures Able(Seen(p), Go) && Gone(Seen(p)) == Seen(Read(p))
  {
    var byte := p.buf[p.rpos % BY2PIPE];
    assert From(p.taken + [byte], p.rpc.start) == From(p.taken, p.rpc.start) + [byte];
    assert WriteJob(Read(p)) == WriteJob(p);
    assert |From(p.taken, p.rpc.start)| == p.rpos - p.rpc.start && p.rpos < MAX_POS;
    hide Inv, Inside, Fifo, Reading, Writing, WriteJob, From;
    assert Jobs(p)[p.r.proc] == ReadJob(p);
    assert Gone(Seen(p)).jobs == Jobs(Read(p));
  }

  lemma ReadCheckIsGo(p: Pipe)
    requires PipeInv(p) && CanAct(p, ReadStep) && (p.rpc.RCheck1? || p.rpc.RCheck2?)
    ensures Able(Seen(p), Go) && Gone(Seen(p)) == Seen(Read(p))
  {
    assert WriteJob(Read(p)) == WriteJob(p);
    hide Inv, Inside, Fifo, Reading, Writing, From, WriteJob;
    assert Jobs(p)[p.r.proc] == ReadJob(p);
    assert Gone(Seen(p)).jobs == Jobs(Read(p));
  }

  lemma ReadTestIsGo(p: Pipe)
    requires PipeInv(p) && CanAct(p, ReadStep) && (p.rpc.RTest1? || p.rpc.RTest2?)
    ensures Able(Seen(p), Go) && Gone(Seen(p)) == Seen(Read(p))
  {
    assert WriteJob(Read(p)) == WriteJob(p);
    hide Inv, Inside, Fifo, Reading, Writing, From, WriteJob;
    assert Jobs(p)[p.r.proc] == ReadJob(p);
    assert Gone(Seen(p)).jobs == Jobs(Read(p));
  }

  lemma PutIsGo(p: Pipe)
    requires PipeInv(p) && CanAct(p, WriteStep) && p.wpc.WPut?
    ensures Able(Seen(p), Go) && Gone(Seen(p)) == Seen(Write(p))
  {
    var bs, k := p.wpc.bytes, p.wpos - p.wpc.start;
    assert From(bs, k)[0] == bs[k] && From(bs, k)[1..] == From(bs, k + 1);
    assert ReadJob(Write(p)) == ReadJob(p);
    hide Inv, Inside, Fifo, Reading, Writing;
    assert Jobs(p)[p.s.proc] == WriteJob(p);
    assert Gone(Seen(p)).jobs == Jobs(Write(p));
  }

  lemma WriteCheckIsGo(p: Pipe)
    requires PipeInv(p) && CanAct(p, WriteStep) && (p.wpc.WCheck1? || p.wpc.WCheck2?)
    ensures Able(Seen(p), Go) && Gone(Seen(p)) == Seen(Write(p))
  {
    assert ReadJob(Write(p)) == ReadJob(p);
    hide Inv, Inside, Fifo, Reading, Writing, From, ReadJob;
    assert Jobs(p)[p.s.proc] == WriteJob(p);
    assert Gone(Seen(p)).jobs == Jobs(Write(p));
  }

  lemma WriteTestIsGo(p: Pipe)
    requires PipeInv(p) && CanAct(p, WriteStep) && (p.wpc.WTest1? || p.wpc.WTest2?)
    ensures Able(Seen(p), Go) && Gone(Seen(p)) == Seen(Write(p))
  {
    assert (p.wpos - p.rpos) % U32 == p.wpos - p.rpos;
    assert ReadJob(Write(p)) == ReadJob(p);
    hide Inv, Inside, Fifo, Reading, Writing, From, ReadJob;
    assert Jobs(p)[p.s.proc] == WriteJob(p);
    assert Gone(Seen(p)).jobs == Jobs(Write(p));
  }

  lemma CallIsEnter(p: Pipe, a: Act)
    requires PipeInv(p) && CanAct(p, a) && (a.ReadCall? || a.WriteCall?)
    ensures Able(Seen(p), AsDeed(a)) && Done(Seen(p), AsDeed(a)) == Seen(Do(p, a))
  {
    hide Inv;
    assert From(p.taken, p.rpos) == [];
    assert Done(Seen(p), AsDeed(a)).jobs == Seen(Do(p, a)).jobs;
  }

  lemma ActIsDeed(p: Pipe, a: Act)
    requires PipeInv(p) && CanAct(p, a)
    ensures Able(Seen(p), AsDeed(a)) && Done(Seen(p), AsDeed(a)) == Seen(Do(p, a))
  {
    hide PipeInv, Seen;
    match a
    case Base(step) => BaseIsDeed(p, step);
    case ReadStep =>
      if p.rpc.RTake? { TakeIsGo(p); } else if p.rpc.RTest1? || p.rpc.RTest2? { ReadTestIsGo(p); } else { ReadCheckIsGo(p); }
    case WriteStep =>
      if p.wpc.WPut? { PutIsGo(p); } else if p.wpc.WTest1? || p.wpc.WTest2? { WriteTestIsGo(p); } else { WriteCheckIsGo(p); }
    case _ => CallIsEnter(p, a);
  }

  function AsDeeds(acts: seq<Act>): seq<Deed> {
    if acts == [] then [] else [AsDeed(acts[0])] + AsDeeds(acts[1..])
  }

  /** Every run of the guarded pipe is a run of the crowd: the two models are of the same code, and differ in the
      guard that a call is by the only process at its end. */
  lemma {:induction false} GuardedRunIsCrowdRun(p: Pipe, acts: seq<Act>, q: Pipe)
    requires PipeInv(p) && Runs(p, acts, q)
    ensures Leads(Seen(p), AsDeeds(acts), Seen(q))
    decreases |acts|
  {
    hide PipeInv, Seen, CanAct, Do, Able, Done;
    if acts != [] {
      ActIsDeed(p, acts[0]);
      ActKeepsInv(p, acts[0]);
      GuardedRunIsCrowdRun(Do(p, acts[0]), acts[1..], q);
      assert AsDeeds(acts)[1..] == AsDeeds(acts[1..]);
    }
  }
}
