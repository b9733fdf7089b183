/** How a pipe finds out that its other end is closed: by comparing page reference counts, while other
    processes map and unmap the pages one system call at a time. */
module PipeEnds {
  datatype End = Reader | Writer

  function Other(e: End): End {
    if e.Reader? then Writer else Reader
  }

  /** File descriptor `fd` of process `proc`. */
  datatype Slot = Slot(proc: nat, fd: nat)

  /** Where a process stands inside close, dup or _pipe_is_closed. */
  datatype Pc =
    | Idle
    | CloseData(fd: nat)
    | DupCloseData(from: nat, to: nat)
    | DupMapData(from: nat, to: nat)
    | DupMapFd(from: nat, to: nat)
    | DupUndo(to: nat)
    | CheckFd(fd: nat, end: End, runs: nat)
    | CheckPipe(fd: nat, end: End, runs: nat, fdRef: nat)
    | CheckRuns(fd: nat, end: End, runs: nat, fdRef: nat, pipeRef: nat)
    | Checked(fd: nat, end: End, closed: bool)

  /** `fds` are the slots whose Fd page is one of the pipe's two, `data` the slots whose data page is the
      pipe page; `cur` is running, `runs` is env_runs. */
  datatype World = World(
    fds: map<Slot, End>,
    data: set<Slot>,
    cur: nat,
    runs: map<nat, nat>,
    pcs: map<nat, Pc>)

  ghost function FdSet(w: World, e: End): set<Slot> {
    set x | x in w.fds && w.fds[x] == e
  }

  /** pageref of the Fd page of one end, and of the pipe page. */
  ghost function FdRef(w: World, e: End): nat {
    |FdSet(w, e)|
  }

  ghost function PipeRef(w: World): nat {
    |w.data|
  }

  datatype Step =
    | Switch(p: nat)
    | Close(fd: nat)
    | Dup(from: nat, to: nat)
    | Check(fd: nat)
    | Advance
    | Finish
    | Share(child: nat, fd: nat)
    | ShareData(child: nat, fd: nat)
    | ShareFd(child: nat, fd: nat)
    | Start(child: nat)
    | Destroy(p: nat)

  /** Share hands both pages of a descriptor to a child at once; ShareData and ShareFd hand over one. */
  ghost predicate Possible(w: World, step: Step) {
    match step
    case Switch(p) => p in w.pcs && p in w.runs
    case Close(fd) => w.cur in w.pcs && w.pcs[w.cur].Idle?
    case Dup(_, _) => w.cur in w.pcs && w.pcs[w.cur].Idle?
    case Check(fd) =>
      w.cur in w.pcs && w.pcs[w.cur].Idle? && w.cur in w.runs && Slot(w.cur, fd) in w.fds
    case Advance => w.cur in w.pcs && !w.pcs[w.cur].Idle? && !w.pcs[w.cur].Checked? && w.cur in w.runs
    case Finish => w.cur in w.pcs && w.pcs[w.cur].Checked?
    case Share(c, _) => w.cur in w.pcs && w.pcs[w.cur].Idle? && c !in w.pcs
    case ShareData(c, _) => w.cur in w.pcs && w.pcs[w.cur].Idle? && c !in w.pcs
    case ShareFd(c, _) => w.cur in w.pcs && w.pcs[w.cur].Idle? && c !in w.pcs
    case Start(c) => w.cur in w.pcs && w.pcs[w.cur].Idle? && c !in w.pcs
    case Destroy(_) => w.cur in w.pcs && w.pcs[w.cur].Idle?
  }

  /** The pipe page of a shared descriptor goes before its Fd page. */
  predicate InOrder(w: World, step: Step) {
    step.ShareFd? && Slot(w.cur, step.fd) in w.fds ==> Slot(step.child, step.fd) in w.data
  }

  ghost predicate Enabled(w: World, step: Step) {
    Possible(w, step) && InOrder(w, step)
  }

  /** One system call of the running process. */
  ghost function Call(w: World, pc: Pc): World
    requires w.cur in w.pcs && w.cur in w.runs && !pc.Idle? && !pc.Checked?
  {
    var p := w.cur;
    match pc
    case CloseData(fd) =>
      w.(data := w.data - {Slot(p, fd)}, pcs := w.pcs[p := Idle])
    case DupCloseData(o, n) =>
      w.(data := w.data - {Slot(p, n)}, pcs := w.pcs[p := DupMapData(o, n)])
    case DupMapData(o, n) =>
      w.(data := if Slot(p, o) in w.data then w.data + {Slot(p, n)} else w.data, pcs := w.pcs[p := DupMapFd(o, n)])
    case DupMapFd(o, n) =>
      if Slot(p, o) in w.fds then w.(fds := w.fds[Slot(p, n) := w.fds[Slot(p, o)]], pcs := w.pcs[p := Idle])
      else w.(fds := w.fds - {Slot(p, n)}, pcs := w.pcs[p := DupUndo(n)])
    case DupUndo(n) =>
      w.(data := w.data - {Slot(p, n)}, pcs := w.pcs[p := Idle])
    case CheckFd(fd, e, r) =>
      w.(pcs := w.pcs[p := CheckPipe(fd, e, r, FdRef(w, e))])
    case CheckPipe(fd, e, r, f) =>
      w.(pcs := w.pcs[p := CheckRuns(fd, e, r, f, PipeRef(w))])
    case CheckRuns(fd, e, r, f, g) =>
      if w.runs[p] != r then w.(pcs := w.pcs[p := CheckFd(fd, e, w.runs[p])])
      else w.(pcs := w.pcs[p := Checked(fd, e, f == g)])
  }

  function SharedFds(w: World, c: nat, fd: nat): map<Slot, End> {
    if Slot(w.cur, fd) in w.fds then w.fds[Slot(c, fd) := w.fds[Slot(w.cur, fd)]] else w.fds
  }

  function SharedData(w: World, c: nat, fd: nat): set<Slot> {
    if Slot(w.cur, fd) in w.data then w.data + {Slot(c, fd)} else w.data
  }

  ghost function Next(w: World, step: Step): World
    requires Possible(w, step)
  {
    var p := w.cur;
    match step
    case Switch(q) => w.(cur := q, runs := w.runs[q := w.runs[q] + 1])
    case Close(fd) =>
      if Slot(p, fd) !in w.fds then w
      else w.(fds := w.fds - {Slot(p, fd)}, pcs := w.pcs[p := CloseData(fd)])
    case Dup(o, n) =>
      if Slot(p, o) !in w.fds then w
      else if Slot(p, n) !in w.fds then w.(pcs := w.pcs[p := DupMapData(o, n)])
      else w.(fds := w.fds - {Slot(p, n)}, pcs := w.pcs[p := DupCloseData(o, n)])
    case Check(fd) => w.(pcs := w.pcs[p := CheckFd(fd, w.fds[Slot(p, fd)], w.runs[p])])
    case Advance => Call(w, w.pcs[p])
    case Finish => w.(pcs := w.pcs[p := Idle])
    case Share(c, fd) =>
      w.(fds := SharedFds(w, c, fd), data := SharedData(w, c, fd))
    case ShareData(c, fd) => w.(data := SharedData(w, c, fd))
    case ShareFd(c, fd) => w.(fds := SharedFds(w, c, fd))
    case Start(c) => w.(pcs := w.pcs[c := Idle], runs := w.runs[c := 0])
    case Destroy(q) =>
      w.(fds := (map x | x in w.fds && x.proc != q :: w.fds[x]),
         data := (set x | x in w.data && x.proc != q),
         pcs := w.pcs - {q})
  }

  // ----- the invariant -----

  /** What a process inside a call may rely on. The counts it has read are still right as long as nobody
      else has run, which it can tell from env_runs. */
  ghost predicate PcOk(w: World, p: nat)
    requires p in w.pcs
  {
    && p in w.runs
    && match w.pcs[p]
       case CloseData(fd) => Slot(p, fd) !in w.fds
       case DupCloseData(_, n) => Slot(p, n) !in w.fds
       case DupMapFd(o, n) => Slot(p, o) in w.fds ==> Slot(p, n) in w.data
       case DupUndo(n) => Slot(p, n) !in w.fds
       case CheckFd(_, _, r) => r <= w.runs[p]
       case CheckPipe(_, e, r, f) =>
         r <= w.runs[p] && (w.cur == p && w.runs[p] == r ==> f == FdRef(w, e))
       case CheckRuns(_, e, r, f, g) =>
         r <= w.runs[p] && (w.cur == p && w.runs[p] == r ==> f == FdRef(w, e) && g == PipeRef(w))
       case Checked(_, e, closed) => closed ==> FdRef(w, Other(e)) == 0
       case _ => true
  }

  /** The Fd page of a slot is mapped only while its pipe page is. */
  ghost predicate Backed(w: World) {
    forall x :: x in w.fds ==> x in w.data
  }

  ghost predicate Inv(w: World) {
    && Backed(w)
    && (forall p {:trigger PcOk(w, p)} :: p in w.pcs ==> PcOk(w, p))
  }

  // ----- counting -----

  /** Exactly what the two counts say, in any state: the pipe page has one reference for each end that is
      open, one more for each slot that has only the pipe page, one less for each that has only the Fd page. */
  lemma CountsExact(w: World)
    ensures PipeRef(w) + |w.fds.Keys - w.data| == FdRef(w, Reader) + FdRef(w, Writer) + |w.data - w.fds.Keys|
  {
    var r, wr, both := FdSet(w, Reader), FdSet(w, Writer), w.fds.Keys * w.data;
    assert r !! wr && r + wr == w.fds.Keys;
    assert |w.fds.Keys| == FdRef(w, Reader) + FdRef(w, Writer) by { assert |r + wr| == |r| + |wr|; }
    assert w.fds.Keys == both + (w.fds.Keys - w.data);
    assert w.data == both + (w.data - w.fds.Keys);
  }

  /** _pipe_is_closed answers 1 exactly when the slots that hold only a pipe page, plus the open slots of
      the other end, are as many as the slots that hold only an Fd page. */
  lemma ClosedIff(w: World, e: End)
    ensures FdRef(w, e) == PipeRef(w) <==> FdRef(w, Other(e)) + |w.data - w.fds.Keys| == |w.fds.Keys - w.data|
  {
    CountsExact(w);
  }

  /** With every Fd page backed, equal counts mean that the other end is gone. */
  lemma EqualMeansClosed(w: World, e: End)
    requires Backed(w) && FdRef(w, e) == PipeRef(w)
    ensures FdRef(w, Other(e)) == 0
  {
    CountsExact(w);
    assert w.fds.Keys - w.data == {};
  }

  lemma EmptyEnd(w: World, e: End)
    ensures FdRef(w, e) == 0 <==> forall x :: x in w.fds ==> w.fds[x] != e
  {
    if FdRef(w, e) == 0 {
      forall x | x in w.fds ensures w.fds[x] != e {
        assert w.fds[x] == e ==> x in FdSet(w, e);
      }
    } else {
      var x :| x in FdSet(w, e);
    }
  }

  /** No step opens an end that nobody holds. */
  lemma EndsStayClosed(w: World, step: Step, e: End)
    requires Enabled(w, step) && FdRef(w, e) == 0
    ensures FdRef(Next(w, step), e) == 0
  {
    EmptyEnd(w, e);
    EmptyEnd(Next(w, step), e);
  }

  // ----- every step keeps the invariant -----

  lemma StepBacked(w: World, step: Step)
    requires Inv(w) && Enabled(w, step)
    ensures Backed(Next(w, step))
  {
    if w.cur in w.pcs { assert PcOk(w, w.cur); }
  }

  lemma StepPc(w: World, step: Step, p: nat)
    requires Inv(w) && Enabled(w, step) && p in Next(w, step).pcs
    ensures PcOk(Next(w, step), p)
  {
    var t := Next(w, step);
    if p in w.pcs {
      assert PcOk(w, p);
      if w.pcs[p].Checked? && w.pcs[p].closed { EndsStayClosed(w, step, Other(w.pcs[p].end)); }
      if step.Advance? && p == w.cur && w.pcs[p].CheckRuns? && w.runs[p] == w.pcs[p].runs && w.pcs[p].fdRef == w.pcs[p].pipeRef {
        EqualMeansClosed(w, w.pcs[p].end);
        assert t.fds == w.fds;
      }
    }
  }

  lemma StepKeepsInv(w: World, step: Step)
    requires Inv(w) && Enabled(w, step)
    ensures Inv(Next(w, step))
  {
    hide Possible, Next, PcOk, Backed;
    StepBacked(w, step);
    forall p | p in Next(w, step).pcs ensures PcOk(Next(w, step), p) {
      StepPc(w, step, p);
    }
  }

  // ----- every run -----

  ghost predicate Reaches(w: World, steps: seq<Step>, t: World)
    decreases |steps|
  {
    if steps == [] then t == w
    else Enabled(w, steps[0]) && Reaches(Next(w, steps[0]), steps[1..], t)
  }

  /** A pipe with every process between calls. */
  ghost predicate Quiet(w: World) {
    w.data == w.fds.Keys && forall p :: p in w.pcs ==> p in w.runs && w.pcs[p] == Idle
  }

  lemma QuietInv(w: World)
    requires Quiet(w)
    ensures Inv(w)
  {
  }

  lemma {:induction false} EveryRunKeepsInv(w: World, steps: seq<Step>, t: World)
    requires Inv(w) && Reaches(w, steps, t)
    ensures Inv(t)
    decreases |steps|
  {
    hide Inv, Possible, Next;
    if steps != [] {
      StepKeepsInv(w, steps[0]);
      EveryRunKeepsInv(Next(w, steps[0]), steps[1..], t);
    }
  }

  lemma {:induction false} ClosedForever(w: World, steps: seq<Step>, t: World, e: End)
    requires Reaches(w, steps, t) && FdRef(w, e) == 0
    ensures FdRef(t, e) == 0
    decreases |steps|
  {
    hide Possible, Next, FdRef;
    if steps != [] {
      EndsStayClosed(w, steps[0], e);
      ClosedForever(Next(w, steps[0]), steps[1..], t, e);
    }
  }

  /** In every interleaving the pipe page has at least one reference for each open end. */
  lemma PipePageCovers(w: World, steps: seq<Step>, t: World)
    requires Quiet(w) && Reaches(w, steps, t)
    ensures Backed(t)
    ensures PipeRef(t) >= FdRef(t, Reader) + FdRef(t, Writer)
  {
    QuietInv(w);
    EveryRunKeepsInv(w, steps, t);
    CountsExact(t);
    assert t.fds.Keys - t.data == {};
  }

  /** No false end of pipe: when _pipe_is_closed has answered 1, nobody holds the other end, and in no
      continuation will anybody hold it again. */
  lemma NoFalseEndOfPipe(w: World, steps: seq<Step>, t: World, p: nat, more: seq<Step>, u: World)
    requires Quiet(w) && Reaches(w, steps, t) && p in t.pcs && t.pcs[p].Checked? && t.pcs[p].closed
    requires Reaches(t, more, u)
    ensures FdRef(t, Other(t.pcs[p].end)) == 0
    ensures FdRef(u, Other(t.pcs[p].end)) == 0
  {
    QuietInv(w);
    EveryRunKeepsInv(w, steps, t);
    assert PcOk(t, p);
    ClosedForever(t, more, u, Other(t.pcs[p].end));
  }

  /** And no missed end: when no call is half way through, the check tells exactly whether the other end
      is closed. */
  lemma QuietCheckIsExact(w: World, e: End)
    requires w.data == w.fds.Keys
    ensures FdRef(w, e) == PipeRef(w) <==> FdRef(w, Other(e)) == 0
  {
    CountsExact(w);
    assert w.fds.Keys - w.data == {} && w.data - w.fds.Keys == {};
  }

  // ----- calls that nobody disturbs -----

  function Advances(k: nat): seq<Step> {
    if k == 0 then [] else [Advance] + Advances(k - 1)
  }

  lemma Onward(w: World, step: Step, steps: seq<Step>, t: World)
    requires Enabled(w, step) && Reaches(Next(w, step), steps, t)
    ensures Reaches(w, [step] + steps, t)
  {
    assert ([step] + steps)[1..] == steps;
  }

  lemma OneAdvance(w: World)
    requires Enabled(w, Advance)
    ensures Reaches(w, Advances(1), Next(w, Advance))
  {
    assert Reaches(Next(w, Advance), [], Next(w, Advance));
    assert Advances(0) == [] && Advances(1) == [Advance] + [];
    Onward(w, Advance, [], Next(w, Advance));
  }

  /** The running process is between calls and has descriptor fd of the pipe open. */
  ghost predicate HasOpen(w: World, fd: nat) {
    && w.cur in w.pcs && w.cur in w.runs && w.pcs[w.cur] == Idle
    && Slot(w.cur, fd) in w.fds && Slot(w.cur, fd) in w.data
  }

  /** close gives up both pages of the descriptor, and changes nothing else. */
  lemma CloseCloses(w: World, fd: nat)
    requires HasOpen(w, fd)
    ensures Reaches(w, [Close(fd)] + Advances(1), w.(fds := w.fds - {Slot(w.cur, fd)}, data := w.data - {Slot(w.cur, fd)}))
  {
    var u := Next(w, Close(fd));
    assert w.pcs[w.cur := CloseData(fd)][w.cur := Idle] == w.pcs;
    OneAdvance(u);
    Onward(w, Close(fd), Advances(1), Next(u, Advance));
  }

  /** dup leaves the old descriptor open, and the new one open on the same end, whatever it was before. */
  lemma DupDuplicates(w: World, o: nat, n: nat)
    requires HasOpen(w, o) && n != o && (Slot(w.cur, n) in w.data ==> Slot(w.cur, n) in w.fds)
    ensures var x, y := Slot(w.cur, o), Slot(w.cur, n);
      Reaches(w, [Dup(o, n)] + Advances(if y in w.fds then 3 else 2), w.(fds := w.fds[y := w.fds[x]], data := w.data + {y}))
  {
    var x, y, p := Slot(w.cur, o), Slot(w.cur, n), w.cur;
    var emptied := w.(fds := w.fds - {y}, data := w.data - {y}, pcs := w.pcs[p := DupMapData(o, n)]);
    var t := w.(fds := w.fds[y := w.fds[x]], data := w.data + {y});
    DupMaps(w, o, n);
    if y in w.fds {
      var u := Next(w, Dup(o, n));
      assert Enabled(u, Advance) && Next(u, Advance) == emptied;
      hide Next, Possible;
      Onward(u, Advance, Advances(2), t);
      Onward(w, Dup(o, n), Advances(3), t);
    } else {
      assert w.fds - {y} == w.fds && w.data - {y} == w.data;
      Onward(w, Dup(o, n), Advances(2), t);
    }
  }

  lemma DupMaps(w: World, o: nat, n: nat)
    requires HasOpen(w, o) && n != o
    ensures var x, y, p := Slot(w.cur, o), Slot(w.cur, n), w.cur;
      Reaches(w.(fds := w.fds - {y}, data := w.data - {y}, pcs := w.pcs[p := DupMapData(o, n)]), Advances(2),
              w.(fds := w.fds[y := w.fds[x]], data := w.data + {y}))
  {
    var x, y, p := Slot(w.cur, o), Slot(w.cur, n), w.cur;
    var u := w.(fds := w.fds - {y}, data := w.data - {y}, pcs := w.pcs[p := DupMapData(o, n)]);
    var v := Next(u, Advance);
    assert v == u.(data := w.data + {y}, pcs := w.pcs[p := DupMapFd(o, n)]);
    assert w.pcs[p := Idle] == w.pcs && (w.fds - {y})[y := w.fds[x]] == w.fds[y := w.fds[x]];
    OneAdvance(v);
    Onward(u, Advance, Advances(1), Next(v, Advance));
  }

  /** The world after k steps of dup of a descriptor to itself. */
  ghost function SelfDup(w: World, fd: nat, k: nat): World {
    var x := Slot(w.cur, fd);
    if k == 0 then w
    else if k == 1 then w.(fds := w.fds - {x}, pcs := w.pcs[w.cur := DupCloseData(fd, fd)])
    else if k == 5 then w.(fds := w.fds - {x}, data := w.data - {x})
    else
      w.(fds := w.fds - {x}, data := w.data - {x},
         pcs := w.pcs[w.cur := if k == 2 then DupMapData(fd, fd) else if k == 3 then DupMapFd(fd, fd) else DupUndo(fd)])
  }

  lemma SelfDupStep(w: World, fd: nat, k: nat)
    requires HasOpen(w, fd) && 0 < k < 5
    ensures Enabled(SelfDup(w, fd, k), Advance) && Next(SelfDup(w, fd, k), Advance) == SelfDup(w, fd, k + 1)
  {
    var x := Slot(w.cur, fd);
    assert w.fds - {x} - {x} == w.fds - {x} && w.data - {x} - {x} == w.data - {x};
    assert k == 4 ==> w.pcs[w.cur := DupUndo(fd)][w.cur := Idle] == w.pcs;
  }

  lemma {:induction false} SelfDupRuns(w: World, fd: nat, k: nat)
    requires HasOpen(w, fd) && 0 < k <= 5
    ensures Reaches(SelfDup(w, fd, k), Advances(5 - k), SelfDup(w, fd, 5))
    decreases 5 - k
  {
    hide SelfDup, Next, Possible;
    if k < 5 {
      SelfDupStep(w, fd, k);
      SelfDupRuns(w, fd, k + 1);
      Onward(SelfDup(w, fd, k), Advance, Advances(4 - k), SelfDup(w, fd, 5));
    }
  }

  /** dup of a descriptor to itself closes it: the close comes first, and then there is nothing to map. */
  lemma DupToItselfCloses(w: World, fd: nat)
    requires HasOpen(w, fd)
    ensures Reaches(w, [Dup(fd, fd)] + Advances(4), w.(fds := w.fds - {Slot(w.cur, fd)}, data := w.data - {Slot(w.cur, fd)}))
  {
    SelfDupRuns(w, fd, 1);
    assert Enabled(w, Dup(fd, fd)) && Next(w, Dup(fd, fd)) == SelfDup(w, fd, 1);
    Onward(w, Dup(fd, fd), Advances(4), SelfDup(w, fd, 5));
  }

  /** A child that shares a descriptor has both its pages, on the same end, and each count is one higher. */
  lemma ShareHandsOver(w: World, c: nat, fd: nat)
    requires HasOpen(w, fd) && Possible(w, Share(c, fd)) && Slot(c, fd) !in w.fds && Slot(c, fd) !in w.data
    ensures var t, x, y := Next(w, Share(c, fd)), Slot(w.cur, fd), Slot(c, fd);
      && y in t.fds && t.fds[y] == w.fds[x] && y in t.data
      && FdRef(t, w.fds[x]) == FdRef(w, w.fds[x]) + 1 && PipeRef(t) == PipeRef(w) + 1
      && FdRef(t, Other(w.fds[x])) == FdRef(w, Other(w.fds[x]))
  {
    var t, x, y := Next(w, Share(c, fd)), Slot(w.cur, fd), Slot(c, fd);
    assert FdSet(t, w.fds[x]) == FdSet(w, w.fds[x]) + {y};
    assert FdSet(t, Other(w.fds[x])) == FdSet(w, Other(w.fds[x]));
  }

  /** A destroyed process holds nothing any more, and the others what they held. */
  lemma DestroyGivesUp(w: World, p: nat, x: Slot)
    requires Possible(w, Destroy(p))
    ensures var t := Next(w, Destroy(p));
      && (x in t.fds <==> x in w.fds && x.proc != p) && (x in t.data <==> x in w.data && x.proc != p)
      && (x in t.fds ==> t.fds[x] == w.fds[x]) && p !in t.pcs
  {
  }

  /** _pipe_is_closed answers 1 if and only if the counts are equal. */
  lemma CheckAnswers(w: World, fd: nat)
    requires HasOpen(w, fd)
    ensures var e := w.fds[Slot(w.cur, fd)];
      Reaches(w, [Check(fd)] + Advances(3), w.(pcs := w.pcs[w.cur := Checked(fd, e, FdRef(w, e) == PipeRef(w))]))
  {
    NotYetChecking(w, fd);
    CheckStep(w, fd, 0);
    CheckStep(w, fd, 1);
    CheckStep(w, fd, 2);
    CheckStep(w, fd, 3);
    var t := Checking(w, fd, 4);
    hide Next, Possible, Checking;
    OneAdvance(Checking(w, fd, 3));
    Onward(Checking(w, fd, 2), Advance, Advances(1), t);
    Onward(Checking(w, fd, 1), Advance, Advances(2), t);
    Onward(w, Check(fd), Advances(3), t);
  }

  // ----- the order of sharing -----

  /** A step that is possible keeps every Fd page backed exactly when it shares no Fd page ahead of its
      pipe page. */
  lemma BackedIffInOrder(w: World, step: Step)
    requires Inv(w) && Possible(w, step)
    ensures Backed(Next(w, step)) <==> InOrder(w, step)
  {
    if InOrder(w, step) {
      StepBacked(w, step);
    } else {
      assert Slot(step.child, step.fd) in Next(w, step).fds;
    }
  }

  ghost predicate ReachesFreely(w: World, steps: seq<Step>, t: World)
    decreases |steps|
  {
    if steps == [] then t == w
    else Possible(w, steps[0]) && ReachesFreely(Next(w, steps[0]), steps[1..], t)
  }

  /** _pipe_is_closed run without a switch: k of its four steps done. */
  ghost function Checking(w: World, fd: nat, k: nat): World
    requires w.cur in w.pcs && w.cur in w.runs && Slot(w.cur, fd) in w.fds && k <= 4
  {
    var e, r := w.fds[Slot(w.cur, fd)], w.runs[w.cur];
    w.(pcs := w.pcs[w.cur :=
      if k == 0 then Idle else if k == 1 then CheckFd(fd, e, r) else if k == 2 then CheckPipe(fd, e, r, FdRef(w, e))
      else if k == 3 then CheckRuns(fd, e, r, FdRef(w, e), PipeRef(w)) else Checked(fd, e, FdRef(w, e) == PipeRef(w))])
  }

  function CheckMove(fd: nat, k: nat): Step {
    if k == 0 then Check(fd) else Advance
  }

  lemma CheckStep(w: World, fd: nat, k: nat)
    requires w.cur in w.pcs && w.cur in w.runs && Slot(w.cur, fd) in w.fds && k < 4
    ensures Enabled(Checking(w, fd, k), CheckMove(fd, k))
    ensures Next(Checking(w, fd, k), CheckMove(fd, k)) == Checking(w, fd, k + 1)
  {
    var v, t := Checking(w, fd, k), Checking(w, fd, k + 1);
    assert FdSet(v, w.fds[Slot(w.cur, fd)]) == FdSet(w, w.fds[Slot(w.cur, fd)]);
    assert Next(v, CheckMove(fd, k)).pcs == t.pcs;
  }

  /** Process p has been told that the other end is closed while somebody has it open. */
  ghost predicate FalselyClosed(w: World, p: nat) {
    p in w.pcs && w.pcs[p].Checked? && w.pcs[p].closed && FdRef(w, Other(w.pcs[p].end)) != 0
  }

  /** Two readers, 0 and 3, and a writer, 1. */
  function ThreeHolders(): World {
    World(map[Slot(0, 0) := Reader, Slot(3, 0) := Reader, Slot(1, 1) := Writer],
          {Slot(0, 0), Slot(3, 0), Slot(1, 1)}, 0, map[0 := 0, 1 := 0, 3 := 0], map[0 := Idle, 1 := Idle, 3 := Idle])
  }

  function FdFirst(c: nat, fd: nat, q: nat): seq<Step> {
    [ShareFd(c, fd), Switch(q), Check(fd), Advance, Advance, Advance]
  }

  /** Fork and spawn walk upwards and so map the Fd page before the pipe page. Seen half way, the order
      matters: process 0 is sharing its read end with child 2 when reader 3 checks and finds the pipe closed
      while a writer has it open. */
  lemma HalfSharedSlotLies()
    ensures Quiet(ThreeHolders()) && !InOrder(ThreeHolders(), ShareFd(2, 0))
    ensures exists t :: ReachesFreely(ThreeHolders(), FdFirst(2, 0, 3), t) && FalselyClosed(t, 3)
  {
    HalfWay();
    hide ThreeHolders;
    FdFirstLies(ThreeHolders(), 2, 0, 3);
  }

  lemma HalfWay()
    ensures var w := ThreeHolders();
      && Possible(w, ShareFd(2, 0)) && Possible(Next(w, ShareFd(2, 0)), Switch(3))
      && Quiet(w) && !InOrder(w, ShareFd(2, 0))
    ensures var t := Next(Next(ThreeHolders(), ShareFd(2, 0)), Switch(3));
      && t.cur == 3 && 3 in t.pcs && 3 in t.runs && t.pcs[3] == Idle && Slot(3, 0) in t.fds && t.fds[Slot(3, 0)] == Reader
      && FdRef(t, Reader) == PipeRef(t) && FdRef(t, Writer) != 0
  {
    FdFirstCounts(Next(Next(ThreeHolders(), ShareFd(2, 0)), Switch(3)));
  }

  /** A process shares an Fd page, and process q, which has the read end as well, checks right then. */
  lemma FdFirstLies(w: World, c: nat, fd: nat, q: nat)
    requires Possible(w, ShareFd(c, fd)) && Possible(Next(w, ShareFd(c, fd)), Switch(q))
    requires var t := Next(Next(w, ShareFd(c, fd)), Switch(q));
      && t.cur == q && q in t.pcs && q in t.runs && t.pcs[q] == Idle && Slot(q, fd) in t.fds && t.fds[Slot(q, fd)] == Reader
      && FdRef(t, Reader) == PipeRef(t) && FdRef(t, Writer) != 0
    ensures exists t :: ReachesFreely(w, FdFirst(c, fd, q), t) && FalselyClosed(t, q)
  {
    hide Checking, ReachesFreely, Next, Possible, FalselyClosed, FdRef;
    var w1 := Next(w, ShareFd(c, fd));
    var w2 := Next(w1, Switch(q));
    CheckRunsFreely(w2, fd);
    CheckedFalsely(w2, fd);
    var steps: seq<Step> := [Check(fd), Advance, Advance, Advance];
    FreelyFirst(w1, Switch(q), steps, Checking(w2, fd, 4));
    FreelyFirst(w, ShareFd(c, fd), [Switch(q)] + steps, Checking(w2, fd, 4));
    assert FdFirst(c, fd, q) == [ShareFd(c, fd)] + ([Switch(q)] + steps);
  }

  lemma FreelyFirst(w: World, step: Step, steps: seq<Step>, t: World)
    requires Possible(w, step) && ReachesFreely(Next(w, step), steps, t)
    ensures ReachesFreely(w, [step] + steps, t)
  {
    assert ([step] + steps)[1..] == steps;
  }

  lemma CheckedFalsely(w: World, fd: nat)
    requires w.cur in w.pcs && w.cur in w.runs && Slot(w.cur, fd) in w.fds && w.fds[Slot(w.cur, fd)] == Reader
    requires FdRef(w, Reader) == PipeRef(w) && FdRef(w, Writer) != 0
    ensures FalselyClosed(Checking(w, fd, 4), w.cur)
  {
    assert FdSet(Checking(w, fd, 4), Writer) == FdSet(w, Writer);
  }

  lemma CheckRunsFreely(w: World, fd: nat)
    requires w.cur in w.pcs && w.cur in w.runs && Slot(w.cur, fd) in w.fds && w.pcs[w.cur] == Idle
    ensures ReachesFreely(w, [Check(fd), Advance, Advance, Advance], Checking(w, fd, 4))
  {
    hide Possible, Next, Checking;
    var t := Checking(w, fd, 4);
    CheckStep(w, fd, 0);
    CheckStep(w, fd, 1);
    CheckStep(w, fd, 2);
    CheckStep(w, fd, 3);
    NotYetChecking(w, fd);
    var s: seq<Step> := [Check(fd), Advance, Advance, Advance];
    assert s[1..] == [Advance, Advance, Advance] && s[1..][1..] == [Advance, Advance] && s[1..][1..][1..] == [Advance];
    assert ReachesFreely(t, [], t);
    assert ReachesFreely(Checking(w, fd, 3), [Advance], t);
    assert ReachesFreely(Checking(w, fd, 2), [Advance, Advance], t);
    assert ReachesFreely(Checking(w, fd, 1), [Advance, Advance, Advance], t);
  }

  lemma NotYetChecking(w: World, fd: nat)
    requires w.cur in w.pcs && w.cur in w.runs && Slot(w.cur, fd) in w.fds && w.pcs[w.cur] == Idle
    ensures Checking(w, fd, 0) == w
  {
    assert w.pcs[w.cur := Idle] == w.pcs;
  }

  lemma FdFirstCounts(w: World)
    requires w.fds == map[Slot(0, 0) := Reader, Slot(3, 0) := Reader, Slot(1, 1) := Writer, Slot(2, 0) := Reader]
    requires w.data == {Slot(0, 0), Slot(3, 0), Slot(1, 1)}
    ensures FdRef(w, Reader) == 3 == PipeRef(w) && FdRef(w, Writer) == 1
  {
    assert FdSet(w, Reader) == {Slot(0, 0), Slot(3, 0), Slot(2, 0)};
    assert FdSet(w, Writer) == {Slot(1, 1)};
  }
}

/** Bytes through a pipe, with the end checks of PipeEnds.

    Any number of processes hold, duplicate, share and close the two ends. While a process is inside
    pipe_read or pipe_write no other process holds the same end. */
module PipeData {
  import opened PipeEnds

  const BY2PIPE: nat := 32
  const MAX_POS: nat := 0xffff_ffff

  /** Where pipe_read stands. `start` is the read position at the call; `sure` says that the waiting loop
      was left because the pipe was found closed. */
  datatype RPc =
    | RIdle
    | RCheck1(start: nat, n: nat)
    | RTest1(start: nat, n: nat, closed: bool)
    | RCheck2(start: nat, n: nat, sure: bool)
    | RTest2(start: nat, n: nat, sure: bool, closed: bool)
    | RTake(start: nat, n: nat)
    | RDone(start: nat, n: nat)

  datatype WPc =
    | WIdle
    | WCheck1(start: nat, bytes: seq<int>)
    | WTest1(start: nat, bytes: seq<int>, closed: bool)
    | WCheck2(start: nat, bytes: seq<int>, sure: bool)
    | WTest2(start: nat, bytes: seq<int>, sure: bool, closed: bool)
    | WPut(start: nat, bytes: seq<int>)
    | WDone(start: nat, bytes: seq<int>)

  /** `r` and `s` are the slots of the latest pipe_read and pipe_write; `written` and `taken` are all bytes
      ever put into and got out of the pipe. */
  datatype Pipe = Pipe(
    w: World, r: Slot, s: Slot,
    rpos: nat, wpos: nat, buf: seq<int>,
    written: seq<int>, taken: seq<int>,
    rpc: RPc, wpc: WPc)

  datatype Act =
    | Base(step: Step)
    | ReadCall(x: Slot, n: nat)
    | ReadStep
    | WriteCall(x: Slot, bytes: seq<int>)
    | WriteStep

  predicate RBusy(p: Pipe) { !p.rpc.RIdle? && !p.rpc.RDone? }
  predicate WBusy(p: Pipe) { !p.wpc.WIdle? && !p.wpc.WDone? }

  /** Nobody but process `proc` holds the end e. */
  ghost predicate Sole(w: World, e: End, proc: nat) {
    forall y :: y in w.fds && w.fds[y] == e ==> y.proc == proc
  }

  /** A process inside pipe_read or pipe_write makes no other calls than the end checks of that code. */
  ghost predicate InCode(p: Pipe, step: Step) {
    && (RBusy(p) && p.w.cur == p.r.proc ==>
          step.Switch? || step.Advance? || (step == Check(p.r.fd) && (p.rpc.RCheck1? || p.rpc.RCheck2?)))
    && (WBusy(p) && p.w.cur == p.s.proc ==>
          step.Switch? || step.Advance? || (step == Check(p.s.fd) && (p.wpc.WCheck1? || p.wpc.WCheck2?)))
  }

  ghost predicate AtCheck(p: Pipe, x: Slot) {
    x.proc in p.w.pcs && p.w.pcs[x.proc].Checked?
  }

  ghost predicate CanRead(p: Pipe) {
    match p.rpc
    case RIdle => false
    case RDone(_, _) => false
    case RCheck1(_, _) => AtCheck(p, p.r)
    case RCheck2(_, _, _) => AtCheck(p, p.r)
    case _ => true
  }

  ghost predicate CanWrite(p: Pipe) {
    match p.wpc
    case WIdle => false
    case WDone(_, _) => false
    case WCheck1(_, _) => AtCheck(p, p.s)
    case WCheck2(_, _, _) => AtCheck(p, p.s)
    case WPut(_, _) => p.wpos < MAX_POS
    case _ => true
  }

  /** The running process is between calls and holds the end e at slot x. */
  ghost predicate CanCall(w: World, x: Slot, e: End) {
    w.cur == x.proc && x.proc in w.pcs && w.pcs[x.proc].Idle? && x in w.fds && w.fds[x] == e
  }

  ghost predicate CanAct(p: Pipe, a: Act) {
    match a
    case Base(step) => Enabled(p.w, step) && InCode(p, step)
    case ReadCall(x, _) =>
      !RBusy(p) && CanCall(p.w, x, Reader) && Sole(p.w, Reader, x.proc) && (WBusy(p) ==> x.proc != p.s.proc)
    case ReadStep => p.w.cur == p.r.proc && |p.buf| == BY2PIPE && CanRead(p)
    case WriteCall(x, _) =>
      !WBusy(p) && CanCall(p.w, x, Writer) && Sole(p.w, Writer, x.proc) && (RBusy(p) ==> x.proc != p.r.proc)
    case WriteStep =>
      && p.w.cur == p.s.proc && |p.buf| == BY2PIPE && CanWrite(p)
      && (p.wpc.WPut? ==> p.wpc.start <= p.wpos < p.wpc.start + |p.wpc.bytes|)
  }

  ghost function Use(p: Pipe, x: Slot): Pipe {
    p.(w := p.w.(pcs := p.w.pcs[x.proc := Idle]))
  }

  /** One move of pipe_read. */
  ghost function Read(p: Pipe): Pipe
    requires CanRead(p) && |p.buf| == BY2PIPE
  {
    match p.rpc
    case RCheck1(b, n) => Use(p, p.r).(rpc := RTest1(b, n, p.w.pcs[p.r.proc].closed))
    case RTest1(b, n, c) => p.(rpc := if !c && p.rpos >= p.wpos then RCheck1(b, n) else RCheck2(b, n, c))
    case RCheck2(b, n, sure) => Use(p, p.r).(rpc := RTest2(b, n, sure, p.w.pcs[p.r.proc].closed))
    case RTest2(b, n, _, c) => p.(rpc := if c && p.rpos >= p.wpos then RDone(b, n) else RTake(b, n))
    case RTake(b, n) =>
      p.(taken := p.taken + [p.buf[p.rpos % BY2PIPE]], rpos := p.rpos + 1,
         rpc := if p.rpos + 1 == b + n then RDone(b, n) else RCheck1(b, n))
  }

  /** One move of pipe_write. */
  ghost function Write(p: Pipe): Pipe
    requires CanWrite(p) && |p.buf| == BY2PIPE
    requires p.wpc.WPut? ==> p.wpc.start <= p.wpos < p.wpc.start + |p.wpc.bytes|
  {
    match p.wpc
    case WCheck1(b, bs) => Use(p, p.s).(wpc := WTest1(b, bs, p.w.pcs[p.s.proc].closed))
    case WTest1(b, bs, c) =>
      p.(wpc := if !c && p.wpos - p.rpos >= BY2PIPE then WCheck1(b, bs) else WCheck2(b, bs, c))
    case WCheck2(b, bs, sure) => Use(p, p.s).(wpc := WTest2(b, bs, sure, p.w.pcs[p.s.proc].closed))
    case WTest2(b, bs, _, c) => p.(wpc := if c then WDone(b, bs) else WPut(b, bs))
    case WPut(b, bs) =>
      var byte := bs[p.wpos - b];
      p.(buf := p.buf[p.wpos % BY2PIPE := byte], written := p.written + [byte], wpos := p.wpos + 1,
         wpc := if p.wpos + 1 == b + |bs| then WDone(b, bs) else WCheck1(b, bs))
  }

  function ReadCalled(p: Pipe, x: Slot, n: nat): Pipe {
    p.(r := x, rpc := if n == 0 then RDone(p.rpos, 0) else RCheck1(p.rpos, n))
  }

  function WriteCalled(p: Pipe, x: Slot, bytes: seq<int>): Pipe {
    p.(s := x, wpc := if bytes == [] then WDone(p.wpos, []) else WCheck1(p.wpos, bytes))
  }

  /** Any step of any process; a process destroyed inside a transfer leaves it where it stands. */
  ghost function Based(p: Pipe, step: Step): Pipe
    requires Enabled(p.w, step)
  {
    p.(w := Next(p.w, step),
       rpc := if RBusy(p) && step == Destroy(p.r.proc) then RIdle else p.rpc,
       wpc := if WBusy(p) && step == Destroy(p.s.proc) then WIdle else p.wpc)
  }

  ghost function Do(p: Pipe, a: Act): Pipe
    requires CanAct(p, a)
  {
    match a
    case Base(step) => Based(p, step)
    case ReadCall(x, n) => ReadCalled(p, x, n)
    case ReadStep => Read(p)
    case WriteCall(x, bytes) => WriteCalled(p, x, bytes)
    case WriteStep => Write(p)
  }

  // ----- the invariant -----

  /** All slots with either page are open, of the end e, and of the process of x. */
  ghost predicate Alone(w: World, x: Slot, e: End) {
    x in w.fds && w.data == w.fds.Keys && forall y :: y in w.fds ==> y.proc == x.proc && w.fds[y] == e
  }

  /** A check that began when its process was alone can only answer "closed". */
  ghost predicate SureCheck(w: World, pc: Pc) {
    match pc
    case Idle => true
    case CheckFd(_, _, _) => true
    case CheckPipe(_, _, _, f) => f == PipeRef(w)
    case CheckRuns(_, _, _, f, g) => f == g == PipeRef(w)
    case Checked(_, _, closed) => closed
    case _ => false
  }

  /** The process of x is inside an end check on x, or between two. */
  ghost predicate AtOwnCheck(w: World, x: Slot, e: End, pc: Pc) {
    match pc
    case Idle => true
    case CheckFd(fd, d, _) => fd == x.fd && d == e
    case CheckPipe(fd, d, _, _) => fd == x.fd && d == e
    case CheckRuns(fd, d, _, _, _) => fd == x.fd && d == e
    case Checked(fd, d, closed) => fd == x.fd && d == e && (closed ==> Alone(w, x, e))
    case _ => false
  }

  /** The process of x is inside a transfer call on the open slot x, and the only holder of its end. */
  ghost predicate Inside(w: World, x: Slot, e: End) {
    && x in w.fds && w.fds[x] == e && Sole(w, e, x.proc)
    && x.proc in w.pcs && AtOwnCheck(w, x, e, w.pcs[x.proc])
  }

  ghost predicate Sure(w: World, x: Slot, e: End) {
    Alone(w, x, e) && x.proc in w.pcs && SureCheck(w, w.pcs[x.proc])
  }

  /** Between checks the process is not inside one. */
  ghost predicate Reading(p: Pipe) {
    && (RBusy(p) ==>
          && Inside(p.w, p.r, Reader)
          && (p.rpc.RCheck1? || p.rpc.RCheck2? || p.w.pcs[p.r.proc] == Idle))
    && match p.rpc
       case RIdle => true
       case RCheck1(b, n) => b <= p.rpos < b + n
       case RTest1(b, n, c) => b <= p.rpos < b + n && (c ==> Alone(p.w, p.r, Reader))
       case RCheck2(b, n, sure) => b <= p.rpos < b + n && (if sure then Sure(p.w, p.r, Reader) else p.rpos < p.wpos)
       case RTest2(b, n, sure, c) =>
         b <= p.rpos < b + n && (c ==> Alone(p.w, p.r, Reader)) && (if sure then c else p.rpos < p.wpos)
       case RTake(b, n) => b <= p.rpos < b + n && p.rpos < p.wpos
       case RDone(b, n) => b <= p.rpos <= b + n && (p.rpos < b + n ==> FdRef(p.w, Writer) == 0 && p.rpos == p.wpos)
  }

  ghost predicate Writing(p: Pipe) {
    && (WBusy(p) ==>
          && Inside(p.w, p.s, Writer) && p.wpc.start <= p.wpos < p.wpc.start + |p.wpc.bytes|
          && (p.wpc.WCheck1? || p.wpc.WCheck2? || p.w.pcs[p.s.proc] == Idle))
    && (!p.wpc.WIdle? ==>
          && p.wpos == |p.written|
          && p.wpc.start <= p.wpos <= p.wpc.start + |p.wpc.bytes|
          && p.written[p.wpc.start..p.wpos] == p.wpc.bytes[..p.wpos - p.wpc.start])
    && match p.wpc
       case WTest1(_, _, c) => c ==> Alone(p.w, p.s, Writer)
       case WCheck2(_, _, sure) => if sure then Sure(p.w, p.s, Writer) else p.wpos < p.rpos + BY2PIPE
       case WTest2(_, _, sure, c) => (c ==> Alone(p.w, p.s, Writer)) && (if sure then c else p.wpos < p.rpos + BY2PIPE)
       case WPut(_, _) => p.wpos < p.rpos + BY2PIPE
       case WDone(b, bs) => p.wpos < b + |bs| ==> FdRef(p.w, Reader) == 0
       case _ => true
  }

  /** The buffer holds exactly the bytes written and not yet taken, in order. */
  ghost predicate Fifo(p: Pipe) {
    && |p.buf| == BY2PIPE
    && p.wpos == |p.written| && p.rpos == |p.taken|
    && p.rpos <= p.wpos <= p.rpos + BY2PIPE && p.wpos <= MAX_POS
    && p.taken == p.written[..p.rpos]
    && (forall k :: p.rpos <= k < p.wpos ==> p.buf[k % BY2PIPE] == p.written[k])
  }

  ghost predicate PipeInv(p: Pipe) {
    && (RBusy(p) && WBusy(p) ==> p.r.proc != p.s.proc)
    && Inv(p.w)
    && Fifo(p) && Reading(p) && Writing(p)
  }

  /** For the only holder of an end, equal counts mean that nobody else has the pipe. */
  lemma EqualMeansAlone(w: World, x: Slot, e: End)
    requires Backed(w) && Sole(w, e, x.proc) && x in w.fds && w.fds[x] == e && FdRef(w, e) == PipeRef(w)
    ensures Alone(w, x, e)
  {
    EqualMeansClosed(w, e);
    EmptyEnd(w, Other(e));
    CountsExact(w);
    assert w.fds.Keys - w.data == {};
    assert w.data - w.fds.Keys == {};
    forall y | y in w.data ensures y in w.fds {
      assert y !in w.fds.Keys ==> y in w.data - w.fds.Keys;
    }
  }

  lemma AloneCounts(w: World, x: Slot, e: End)
    requires Alone(w, x, e)
    ensures FdRef(w, e) == PipeRef(w) && FdRef(w, Other(e)) == 0
  {
    assert FdSet(w, e) == w.data;
    assert FdSet(w, Other(e)) == {};
  }

  // ----- every act keeps it -----

  /** The steps that other processes, and the end check of x itself, may take. */
  ghost predicate Bystander(w: World, step: Step, x: Slot) {
    && step != Destroy(x.proc)
    && (w.cur == x.proc ==> step.Switch? || step.Advance? || step == Check(x.fd))
  }

  /** Own slots stay, and nobody else comes to hold an end that only x's process holds. */
  ghost predicate Undisturbed(w: World, t: World, x: Slot, e: End) {
    && (forall y: Slot {:trigger y in t.data} {:trigger y in t.fds} :: y.proc == x.proc ==> (y in t.data <==> y in w.data) && (y in t.fds <==> y in w.fds))
    && (forall y :: y in w.fds && y.proc == x.proc ==> y in t.fds && t.fds[y] == w.fds[y])
    && (Sole(w, e, x.proc) ==> Sole(t, e, x.proc))
    && (Alone(w, x, e) ==> t.fds == w.fds && t.data == w.data)
  }

  /** A system call of another process, half way through close or dup. */
  lemma CallUndisturbed(w: World, x: Slot, e: End)
    requires Enabled(w, Advance) && w.cur != x.proc
    ensures Undisturbed(w, Next(w, Advance), x, e)
  {
    var t := Next(w, Advance);
    if Alone(w, x, e) {
      assert t.fds == w.fds;
      assert t.data == w.data;
    }
  }

  lemma CheckUndisturbed(w: World, x: Slot, e: End)
    requires Enabled(w, Advance) && w.cur == x.proc && AtOwnCheck(w, x, e, w.pcs[x.proc])
    ensures Next(w, Advance).fds == w.fds && Next(w, Advance).data == w.data
  {
  }

  lemma StepUndisturbed(w: World, step: Step, x: Slot, e: End)
    requires Inside(w, x, e) && Enabled(w, step) && Bystander(w, step, x)
    ensures Undisturbed(w, Next(w, step), x, e)
  {
    if step.Advance? {
      if w.cur == x.proc { CheckUndisturbed(w, x, e); } else { CallUndisturbed(w, x, e); }
    } else if Alone(w, x, e) {
      var t := Next(w, step);
      assert t.fds == w.fds;
      assert t.data == w.data;
    }
  }

  lemma AloneStays(w: World, step: Step, x: Slot, e: End)
    requires Inside(w, x, e) && Alone(w, x, e) && Enabled(w, step) && Bystander(w, step, x)
    ensures Alone(Next(w, step), x, e)
  {
    hide Next, Possible, Inside;
    StepUndisturbed(w, step, x, e);
  }

  /** Where the end check of x stands after a step. */
  lemma CheckStays(w: World, step: Step, x: Slot, e: End)
    requires Inv(w) && Inside(w, x, e) && Enabled(w, step) && Bystander(w, step, x)
    ensures x.proc in Next(w, step).pcs && AtOwnCheck(Next(w, step), x, e, Next(w, step).pcs[x.proc])
  {
    hide Alone;
    var t := Next(w, step);
    if Alone(w, x, e) { AloneStays(w, step, x, e); }
    if step.Advance? && w.cur == x.proc { AdvanceCheck(w, x, e); }
  }

  lemma AdvanceCheck(w: World, x: Slot, e: End)
    requires Inv(w) && Inside(w, x, e) && Enabled(w, Advance) && w.cur == x.proc
    ensures AtOwnCheck(Next(w, Advance), x, e, Next(w, Advance).pcs[x.proc])
  {
    hide Alone;
    var t, pc := Next(w, Advance), w.pcs[x.proc];
    assert PcOk(w, x.proc);
    if pc.CheckRuns? && pc.runs == w.runs[x.proc] && pc.fdRef == pc.pipeRef {
      EqualMeansAlone(w, x, e);
      AloneStays(w, Advance, x, e);
    }
  }

  lemma InsideStays(w: World, step: Step, x: Slot, e: End)
    requires Inv(w) && Inside(w, x, e) && Enabled(w, step) && Bystander(w, step, x)
    ensures Inside(Next(w, step), x, e)
  {
    hide Next, Possible, Alone, AtOwnCheck, Sole, Inv, InOrder;
    StepUndisturbed(w, step, x, e);
    CheckStays(w, step, x, e);
  }

  lemma SureStays(w: World, step: Step, x: Slot, e: End)
    requires Inside(w, x, e) && Sure(w, x, e) && Enabled(w, step) && Bystander(w, step, x)
    ensures Sure(Next(w, step), x, e)
  {
    hide Alone;
    AloneStays(w, step, x, e);
    AloneCounts(w, x, e);
    StepUndisturbed(w, step, x, e);
    if step.Advance? && w.cur == x.proc { SureAdvance(w, x, e); } else { hide Undisturbed, Call; }
  }

  lemma SureAdvance(w: World, x: Slot, e: End)
    requires Inside(w, x, e) && Sure(w, x, e) && Enabled(w, Advance) && w.cur == x.proc
    requires FdRef(w, e) == PipeRef(w)
    ensures x.proc in Next(w, Advance).pcs && SureCheck(Next(w, Advance), Next(w, Advance).pcs[x.proc])
  {
    CheckUndisturbed(w, x, e);
  }

  /** Outside the end checks a busy process stays where it is. */
  lemma IdleStays(w: World, step: Step, x: Slot)
    requires x.proc in w.pcs && w.pcs[x.proc] == Idle && Enabled(w, step) && Bystander(w, step, x)
    requires w.cur == x.proc ==> !step.Check?
    ensures x.proc in Next(w, step).pcs && Next(w, step).pcs[x.proc] == Idle
  {
  }

  lemma BaseReading(p: Pipe, step: Step)
    requires PipeInv(p) && CanAct(p, Base(step))
    ensures Reading(Based(p, step))
  {
    hide Next, Possible, Inv, Alone, Inside, Sure, FdRef, InOrder;
    if RBusy(p) && step != Destroy(p.r.proc) {
      InsideStays(p.w, step, p.r, Reader);
      if !p.rpc.RCheck1? && !p.rpc.RCheck2? { InsidePc(p.w, p.r, Reader); IdleStays(p.w, step, p.r); }
      if Alone(p.w, p.r, Reader) { AloneStays(p.w, step, p.r, Reader); }
      if Sure(p.w, p.r, Reader) { SureStays(p.w, step, p.r, Reader); }
    } else if !RBusy(p) && FdRef(p.w, Writer) == 0 {
      EndsStayClosed(p.w, step, Writer);
    }
  }

  lemma InsidePc(w: World, x: Slot, e: End)
    requires Inside(w, x, e)
    ensures x.proc in w.pcs
  {
  }

  lemma BaseWriting(p: Pipe, step: Step)
    requires PipeInv(p) && CanAct(p, Base(step))
    ensures Writing(Based(p, step))
  {
    hide Next, Possible, Inv, Alone, Inside, Sure, FdRef, InOrder;
    if WBusy(p) && step != Destroy(p.s.proc) {
      InsideStays(p.w, step, p.s, Writer);
      if !p.wpc.WCheck1? && !p.wpc.WCheck2? { InsidePc(p.w, p.s, Writer); IdleStays(p.w, step, p.s); }
      if Alone(p.w, p.s, Writer) { AloneStays(p.w, step, p.s, Writer); }
      if Sure(p.w, p.s, Writer) { SureStays(p.w, step, p.s, Writer); }
    } else if !WBusy(p) && FdRef(p.w, Reader) == 0 {
      EndsStayClosed(p.w, step, Reader);
    }
  }

  lemma BaseKeeps(p: Pipe, step: Step)
    requires PipeInv(p) && CanAct(p, Base(step))
    ensures PipeInv(Do(p, Base(step)))
  {
    hide Next, Possible, InCode, Inv, Inside, Reading, Writing, InOrder;
    StepKeepsInv(p.w, step);
    BaseReading(p, step);
    BaseWriting(p, step);
  }

  /** Using up the answer of a check disturbs nobody. */
  lemma UseKeeps(p: Pipe, x: Slot)
    requires PipeInv(p) && AtCheck(p, x) && p.w.cur == x.proc
    ensures Inv(Use(p, x).w)
  {
    assert Use(p, x).w == Next(p.w, Finish);
    StepKeepsInv(p.w, Finish);
  }

  lemma ReadMove(p: Pipe)
    requires PipeInv(p) && CanAct(p, ReadStep) && !p.rpc.RTake?
    ensures PipeInv(Read(p))
  {
    if p.rpc.RCheck1? || p.rpc.RCheck2? { UseKeeps(p, p.r); }
    if p.rpc.RTest2? && p.rpc.closed { AloneCounts(p.w, p.r, Reader); }
    hide Inv;
    assert Fifo(Read(p));
    assert Reading(Read(p));
    assert Writing(Read(p));
  }

  lemma ReadTake(p: Pipe)
    requires PipeInv(p) && p.rpc.RTake?
    ensures PipeInv(Read(p))
  {
    hide Inv;
    var t := Read(p);
    assert p.written[..p.rpos] + [p.written[p.rpos]] == p.written[..p.rpos + 1];
    assert Fifo(t);
    assert Reading(t);
    assert Writing(t);
  }

  lemma WriteMove(p: Pipe)
    requires PipeInv(p) && CanAct(p, WriteStep) && !p.wpc.WPut?
    ensures PipeInv(Write(p))
  {
    if p.wpc.WCheck1? || p.wpc.WCheck2? { UseKeeps(p, p.s); }
    if p.wpc.WTest2? && p.wpc.closed { AloneCounts(p.w, p.s, Writer); }
    hide Inv;
    assert Fifo(Write(p));
    assert Writing(Write(p));
    assert Reading(Write(p));
  }

  lemma WritePut(p: Pipe)
    requires PipeInv(p) && CanAct(p, WriteStep) && p.wpc.WPut?
    ensures PipeInv(Write(p))
  {
    hide Inv;
    var t := Write(p);
    PutFifo(p);
    var b, bs := p.wpc.start, p.wpc.bytes;
    assert t.written[b..t.wpos] == p.written[b..p.wpos] + [bs[p.wpos - b]];
    assert bs[..t.wpos - b] == bs[..p.wpos - b] + [bs[p.wpos - b]];
    assert Writing(t);
    EmptyEnd(p.w, Writer);
    assert Reading(t);
  }

  lemma PutFifo(p: Pipe)
    requires Fifo(p) && p.wpc.WPut? && p.wpos < MAX_POS && p.wpos < p.rpos + BY2PIPE
    requires p.wpc.start <= p.wpos < p.wpc.start + |p.wpc.bytes|
    ensures Fifo(Write(p))
  {
    var t := Write(p);
    forall k | t.rpos <= k < t.wpos ensures t.buf[k % BY2PIPE] == t.written[k] {
      if k < p.wpos {
        assert k % BY2PIPE != p.wpos % BY2PIPE by { DistinctSlots(k, p.wpos); }
      }
    }
  }

  /** Positions less than a buffer apart use different places. */
  lemma DistinctSlots(k: nat, m: nat)
    requires k < m < k + BY2PIPE
    ensures k % BY2PIPE != m % BY2PIPE
  {
  }

  lemma CallKeeps(p: Pipe, a: Act)
    requires PipeInv(p) && CanAct(p, a) && (a.ReadCall? || a.WriteCall?)
    ensures PipeInv(Do(p, a))
  {
    hide Inv;
  }

  lemma ActKeepsInv(p: Pipe, a: Act)
    requires PipeInv(p) && CanAct(p, a)
    ensures PipeInv(Do(p, a))
  {
    match a
    case Base(step) => BaseKeeps(p, step);
    case ReadStep => if p.rpc.RTake? { ReadTake(p); } else { ReadMove(p); }
    case WriteStep => if p.wpc.WPut? { WritePut(p); } else { WriteMove(p); }
    case _ => CallKeeps(p, a);
  }

  // ----- every run -----

  ghost predicate Runs(p: Pipe, acts: seq<Act>, q: Pipe)
    decreases |acts|
  {
    if acts == [] then q == p
    else CanAct(p, acts[0]) && Runs(Do(p, acts[0]), acts[1..], q)
  }

  /** A new pipe, with every process between calls. */
  ghost predicate Fresh(p: Pipe) {
    && Quiet(p.w)
    && |p.buf| == BY2PIPE && p.rpos == 0 && p.wpos == 0 && p.written == [] && p.taken == []
    && p.rpc == RIdle && p.wpc == WIdle
  }

  lemma {:induction false} EveryRunKeepsPipe(p: Pipe, acts: seq<Act>, q: Pipe)
    requires PipeInv(p) && Runs(p, acts, q)
    ensures PipeInv(q)
    decreases |acts|
  {
    hide PipeInv, CanAct, Do;
    if acts != [] {
      ActKeepsInv(p, acts[0]);
      EveryRunKeepsPipe(Do(p, acts[0]), acts[1..], q);
    }
  }

  lemma FreshInv(p: Pipe)
    requires Fresh(p)
    ensures PipeInv(p)
  {
    QuietInv(p.w);
  }

  /** In every interleaving the bytes read are a prefix of the bytes written, and at most 32 are on the way. */
  lemma PipeIsFifo(p: Pipe, acts: seq<Act>, q: Pipe)
    requires Fresh(p) && Runs(p, acts, q)
    ensures q.taken <= q.written
    ensures |q.taken| == q.rpos && |q.written| == q.wpos && 0 <= q.wpos - q.rpos <= BY2PIPE
  {
    FreshInv(p);
    EveryRunKeepsPipe(p, acts, q);
  }

  /** Exact end of file: pipe_read comes back with all n bytes, or nobody holds the write end any more and
      every byte ever written has been read. */
  lemma ShortReadIsEndOfFile(p: Pipe, acts: seq<Act>, q: Pipe)
    requires Fresh(p) && Runs(p, acts, q) && q.rpc.RDone?
    ensures q.rpc.start <= |q.taken| <= q.rpc.start + q.rpc.n
    ensures |q.taken| == q.rpc.start + q.rpc.n || (FdRef(q.w, Writer) == 0 && q.taken == q.written)
  {
    FreshInv(p);
    EveryRunKeepsPipe(p, acts, q);
    assert q.written[..q.wpos] == q.written;
  }

  /** pipe_write puts a prefix of its bytes, in order, and all of them unless the read end is gone. */
  lemma ShortWriteMeansNoReader(p: Pipe, acts: seq<Act>, q: Pipe)
    requires Fresh(p) && Runs(p, acts, q) && q.wpc.WDone?
    ensures q.wpc.start <= |q.written| && q.written[q.wpc.start..] <= q.wpc.bytes
    ensures |q.written| == q.wpc.start + |q.wpc.bytes| || FdRef(q.w, Reader) == 0
  {
    FreshInv(p);
    EveryRunKeepsPipe(p, acts, q);
    assert q.written[q.wpc.start..q.wpos] == q.written[q.wpc.start..];
  }
}
