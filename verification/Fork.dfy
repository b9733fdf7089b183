/** Copy-on-write fork in every interleaving, against independent memories.

    Environments store, fault, copy and fork concurrently; a fork walks the parent's pages one at a time
    and write-protects each in two steps, between which the parent may go on storing. */
module Fork {
  import opened Options
  import opened Mmu

  type Content = seq<int>

  /** Virtual page `page` of environment `env`. */
  datatype Slot = At(env: nat, page: nat)

  /** A fork in progress: pages below `cursor` are done; `mid` means the child maps page `cursor`
      copy-on-write while the parent can still write it; `had` are the parent's pages at the start. */
  datatype Walk = Walk(child: nat, cursor: nat, mid: bool, had: set<nat>)

  /** cow_entry in progress: `done` bytes of `page` are copied into the private frame. */
  datatype Fault = Fault(page: nat, frame: nat, done: nat)

  /** What programs should see: one memory of their own each, and library cells in common. */
  datatype Spec = Spec(own: map<Slot, Content>, lib: map<Slot, nat>, cells: map<nat, Content>)

  datatype World = World(
    maps: map<Slot, Entry>,
    data: map<nat, Content>,
    runnable: set<nat>,
    parent: map<nat, nat>,
    forks: map<nat, Walk>,
    faults: map<nat, Fault>,
    spec: Spec)

  /** VPN(USTACKTOP) */
  const LIMIT: nat := 0x7f3fe

  datatype Step =
    | Store(e: nat, page: nat, off: nat, byte: int)
    | CowBegin(e: nat, page: nat, frame: nat)
    | CowByte(e: nat)
    | CowEnd(e: nat)
    | Alloc(e: nat, page: nat, frame: nat, perm: Perm, size: nat)
    | ForkBegin(e: nat, child: nat)
    | DupSkip(e: nat)
    | DupFirst(e: nat)
    | DupSecond(e: nat)
    | ForkEnd(e: nat)

  /** duppage and cow_entry change permissions like this. */
  function Protected(perm: Perm): Perm {
    perm.(d := false, cow := true)
  }

  function Unprotected(perm: Perm): Perm {
    perm.(cow := false, d := true)
  }

  predicate SharedAsIs(perm: Perm) {
    !perm.d || perm.library
  }

  function PagesOf(w: World, e: nat): set<nat> {
    set x | x in w.maps && x.env == e :: x.page
  }

  predicate FreshFrame(w: World, f: nat) {
    f !in w.data
  }

  predicate FreshEnv(w: World, c: nat) {
    && c !in w.runnable && c !in w.forks && c !in w.faults && c !in w.parent
    && (forall x :: x in w.maps ==> x.env != c)
  }

  /** `e` is running user code, not inside the fault handler. */
  predicate Ready(w: World, e: nat) {
    e in w.runnable && e !in w.faults
  }

  predicate Enabled(w: World, step: Step) {
    match step
    case Store(e, page, off, _) =>
      var x := At(e, page);
      Ready(w, e) && x in w.maps && w.maps[x].perm.d && w.maps[x].frame in w.data && off < |w.data[w.maps[x].frame]|
    case CowBegin(e, page, f) =>
      var x := At(e, page);
      Ready(w, e) && x in w.maps && !w.maps[x].perm.d && w.maps[x].perm.cow && w.maps[x].frame in w.data && FreshFrame(w, f)
    case CowByte(e) =>
      e in w.faults && var c := w.faults[e];
      && At(e, c.page) in w.maps && w.maps[At(e, c.page)].frame in w.data && c.frame in w.data
      && c.done < |w.data[w.maps[At(e, c.page)].frame]| && c.done < |w.data[c.frame]|
    case CowEnd(e) =>
      e in w.faults && var c := w.faults[e];
      && At(e, c.page) in w.maps && w.maps[At(e, c.page)].frame in w.data
      && c.done == |w.data[w.maps[At(e, c.page)].frame]|
    case Alloc(e, page, f, perm, _) =>
      Ready(w, e) && At(e, page) !in w.maps && FreshFrame(w, f) && !perm.cow
    case ForkBegin(e, c) => Ready(w, e) && e !in w.forks && FreshEnv(w, c) && c != e
    case DupSkip(e) =>
      Ready(w, e) && e in w.forks && !w.forks[e].mid && w.forks[e].cursor < LIMIT && At(e, w.forks[e].cursor) !in w.maps
    case DupFirst(e) =>
      Ready(w, e) && e in w.forks && !w.forks[e].mid && w.forks[e].cursor < LIMIT && At(e, w.forks[e].cursor) in w.maps
    case DupSecond(e) =>
      Ready(w, e) && e in w.forks && w.forks[e].mid && At(e, w.forks[e].cursor) in w.maps
    case ForkEnd(e) => Ready(w, e) && e in w.forks && !w.forks[e].mid && w.forks[e].cursor == LIMIT
  }

  /** The specification: a store changes one private page or one shared cell; fork copies page by page. */
  function SpecStore(s: Spec, x: Slot, off: nat, byte: int): Spec {
    if x in s.own && off < |s.own[x]| then s.(own := s.own[x := s.own[x][off := byte]])
    else if x in s.lib && s.lib[x] in s.cells && off < |s.cells[s.lib[x]]| then
      s.(cells := s.cells[s.lib[x] := s.cells[s.lib[x]][off := byte]])
    else s
  }

  function SpecCopy(s: Spec, x: Slot, y: Slot): Spec {
    if x in s.own then s.(own := s.own[y := s.own[x]])
    else if x in s.lib then s.(lib := s.lib[y := s.lib[x]])
    else s
  }

  function SpecNew(s: Spec, x: Slot, library: bool, cell: nat, content: Content): Spec {
    if library then s.(lib := s.lib[x := cell], cells := s.cells[cell := content])
    else s.(own := s.own[x := content])
  }

  function Zeros(n: nat): (z: Content)
    ensures |z| == n
  {
    seq(n, _ => 0)
  }

  function Next(w: World, step: Step): World
    requires Enabled(w, step)
  {
    match step
    case Store(e, page, off, byte) =>
      var f := w.maps[At(e, page)].frame;
      w.(data := w.data[f := w.data[f][off := byte]], spec := SpecStore(w.spec, At(e, page), off, byte))
    case CowBegin(e, page, f) =>
      w.(data := w.data[f := Zeros(|w.data[w.maps[At(e, page)].frame]|)], faults := w.faults[e := Fault(page, f, 0)])
    case CowByte(e) =>
      var c := w.faults[e];
      var src := w.data[w.maps[At(e, c.page)].frame];
      w.(data := w.data[c.frame := w.data[c.frame][c.done := src[c.done]]],
         faults := w.faults[e := c.(done := c.done + 1)])
    case CowEnd(e) =>
      var c := w.faults[e];
      var x := At(e, c.page);
      w.(maps := w.maps[x := Entry(c.frame, Unprotected(w.maps[x].perm))], faults := w.faults - {e})
    case Alloc(e, page, f, perm, size) =>
      w.(maps := w.maps[At(e, page) := Entry(f, perm)], data := w.data[f := Zeros(size)],
         spec := SpecNew(w.spec, At(e, page), perm.library, f, Zeros(size)))
    case ForkBegin(e, c) =>
      w.(forks := w.forks[e := Walk(c, 0, false, PagesOf(w, e))], parent := w.parent[c := e])
    case DupSkip(e) =>
      w.(forks := w.forks[e := w.forks[e].(cursor := w.forks[e].cursor + 1)])
    case DupFirst(e) =>
      var k := w.forks[e];
      var x, y := At(e, k.cursor), At(k.child, k.cursor);
      var perm := w.maps[x].perm;
      if SharedAsIs(perm) then
        w.(maps := w.maps[y := w.maps[x]], forks := w.forks[e := k.(cursor := k.cursor + 1)],
           spec := SpecCopy(w.spec, x, y))
      else
        w.(maps := w.maps[y := Entry(w.maps[x].frame, Protected(perm))], forks := w.forks[e := k.(mid := true)])
    case DupSecond(e) =>
      var k := w.forks[e];
      var x, y := At(e, k.cursor), At(k.child, k.cursor);
      w.(maps := w.maps[x := Entry(w.maps[x].frame, Protected(w.maps[x].perm))],
         forks := w.forks[e := k.(cursor := k.cursor + 1, mid := false)],
         spec := SpecCopy(w.spec, x, y))
    case ForkEnd(e) =>
      w.(forks := w.forks - {e}, runnable := w.runnable + {w.forks[e].child})
  }

  // ----- the invariant -----

  /** `c` is the child of a fork that parent `p` has not finished. */
  predicate Unborn(w: World, c: nat, p: nat) {
    c in w.parent && w.parent[c] == p && p in w.forks && w.forks[p].child == c
  }

  /** The child's slot of the page that its parent is just write-protecting. */
  predicate MidChild(w: World, y: Slot) {
    && y.env in w.parent && Unborn(w, y.env, w.parent[y.env])
    && w.forks[w.parent[y.env]].mid && w.forks[w.parent[y.env]].cursor == y.page
  }

  predicate MidPair(w: World, x: Slot, y: Slot) {
    MidChild(w, y) && x == At(w.parent[y.env], y.page)
  }

  /** Every page a program can reach reads as the specification says, and an unborn child holds only
      pages that the walk has passed. */
  predicate SlotOk(w: World, x: Slot)
    requires x in w.maps
  {
    var en := w.maps[x];
    && en.frame in w.data
    && (en.perm.cow ==> !en.perm.d && !en.perm.library)
    && (!en.perm.library && !MidChild(w, x) ==> Get(w.spec.own, x) == Some(w.data[en.frame]))
    && (MidChild(w, x) ==> x !in w.spec.own)
    && (en.perm.library ==>
          && x !in w.spec.own && Get(w.spec.lib, x) == Some(en.frame)
          && Get(w.spec.cells, en.frame) == Some(w.data[en.frame]))
    && (x.env in w.parent && Unborn(w, x.env, w.parent[x.env]) ==>
          x.page < w.forks[w.parent[x.env]].cursor || MidChild(w, x))
  }

  /** Who may share a frame: library pages, pages nobody can write, and a page being protected. */
  predicate PairOk(w: World, x: Slot, y: Slot)
    requires x in w.maps && y in w.maps
  {
    x != y && w.maps[x].frame == w.maps[y].frame ==>
      || (w.maps[x].perm.library && w.maps[y].perm.library)
      || (!w.maps[x].perm.library && !w.maps[y].perm.library && !w.maps[x].perm.d && !w.maps[y].perm.d)
      || MidPair(w, x, y) || MidPair(w, y, x)
  }

  predicate ForkOk(w: World, p: nat)
    requires p in w.forks
  {
    var k := w.forks[p];
    var x, y := At(p, k.cursor), At(k.child, k.cursor);
    && p in w.runnable && k.child !in w.runnable && k.child !in w.forks && k.child !in w.faults
    && Unborn(w, k.child, p) && k.cursor <= LIMIT
    && (forall v :: v in k.had ==> At(p, v) in w.maps && (v < k.cursor ==> At(k.child, v) in w.maps))
    && (k.mid ==>
          && k.cursor < LIMIT
          && x in w.maps && w.maps[x].perm.d && !w.maps[x].perm.library
          && y in w.maps && w.maps[y] == Entry(w.maps[x].frame, Protected(w.maps[x].perm)))
  }

  /** A handler copies its own copy-on-write page into a frame of the same size. */
  predicate FaultOk(w: World, e: nat)
    requires e in w.faults
  {
    var x, c := At(e, w.faults[e].page), w.faults[e];
    && e in w.runnable
    && x in w.maps && w.maps[x].perm.cow && w.maps[x].frame in w.data
    && c.frame in w.data && |w.data[c.frame]| == |w.data[w.maps[x].frame]|
    && c.done <= |w.data[c.frame]|
    && w.data[c.frame][..c.done] == w.data[w.maps[x].frame][..c.done]
  }

  /** The frame being filled is nobody's yet. */
  predicate ApartOk(w: World, e: nat, x: Slot)
    requires e in w.faults && x in w.maps
  {
    w.maps[x].frame != w.faults[e].frame
  }

  predicate FaultsOk(w: World, e: nat, g: nat)
    requires e in w.faults && g in w.faults
  {
    w.faults[e].frame == w.faults[g].frame ==> e == g
  }

  ghost predicate Inv(w: World) {
    && (forall x {:trigger SlotOk(w, x)} :: x in w.maps ==> SlotOk(w, x))
    && (forall x, y {:trigger PairOk(w, x, y)} :: x in w.maps && y in w.maps ==> PairOk(w, x, y))
    && (forall p {:trigger ForkOk(w, p)} :: p in w.forks ==> ForkOk(w, p))
    && (forall e {:trigger FaultOk(w, e)} :: e in w.faults ==> FaultOk(w, e))
    && (forall e, x {:trigger ApartOk(w, e, x)} :: e in w.faults && x in w.maps ==> ApartOk(w, e, x))
    && (forall e, g {:trigger FaultsOk(w, e, g)} :: e in w.faults && g in w.faults ==> FaultsOk(w, e, g))
    && (forall x :: x in w.spec.own ==> x in w.maps)
  }

  // ----- every step keeps it -----

  /** A running environment is nobody's unborn child. */
  lemma RunningIsBorn(w: World, x: Slot)
    requires Inv(w) && x.env in w.runnable
    ensures !MidChild(w, x)
    ensures x.env in w.parent ==> !Unborn(w, x.env, w.parent[x.env])
  {
    assert x.env in w.parent && w.parent[x.env] in w.forks ==> ForkOk(w, w.parent[x.env]);
  }

  /** A private page its owner can write is shared with nobody but the child it is being protected for. */
  lemma WritableIsAlone(w: World, x: Slot, y: Slot)
    requires Inv(w) && x in w.maps && y in w.maps && x != y && w.maps[x].frame == w.maps[y].frame
    requires w.maps[x].perm.d && !w.maps[x].perm.library && x.env in w.runnable
    ensures MidPair(w, x, y)
  {
    assert PairOk(w, x, y);
    RunningIsBorn(w, x);
  }

  /** Mappings and walks that do not change keep what they are part of. */
  lemma PairStays(w: World, t: World, y: Slot, z: Slot)
    requires y in w.maps && z in w.maps && t.maps == w.maps && t.forks == w.forks && t.parent == w.parent
    requires PairOk(w, y, z)
    ensures PairOk(t, y, z)
  {
  }

  lemma ForkStays(w: World, t: World, p: nat)
    requires p in w.forks && t.maps == w.maps && t.forks == w.forks && t.parent == w.parent && t.runnable == w.runnable
    requires forall c :: c in t.faults ==> c in w.faults || c in w.runnable
    requires ForkOk(w, p)
    ensures ForkOk(t, p)
  {
  }

  lemma StoreKeeps(w: World, e: nat, page: nat, off: nat, byte: int)
    requires Inv(w) && Enabled(w, Store(e, page, off, byte))
    ensures Inv(Next(w, Store(e, page, off, byte)))
  {
    hide PairOk, ForkOk, SlotOk, FaultOk;
    var t := Next(w, Store(e, page, off, byte));
    forall y | y in t.maps ensures SlotOk(t, y) { StoreSlot(w, e, page, off, byte, y); }
    forall g | g in t.faults ensures FaultOk(t, g) { StoreFault(w, e, page, off, byte, g); }
    forall p | p in t.forks ensures ForkOk(t, p) { assert ForkOk(w, p); ForkStays(w, t, p); }
    forall y, z | y in t.maps && z in t.maps ensures PairOk(t, y, z) { assert PairOk(w, y, z); PairStays(w, t, y, z); }
    forall g, y | g in t.faults && y in t.maps ensures ApartOk(t, g, y) { assert ApartOk(w, g, y); }
    forall g, h | g in t.faults && h in t.faults ensures FaultsOk(t, g, h) { assert FaultsOk(w, g, h); }
  }

  lemma StoreSlot(w: World, e: nat, page: nat, off: nat, byte: int, y: Slot)
    requires Inv(w) && Enabled(w, Store(e, page, off, byte)) && y in w.maps
    ensures SlotOk(Next(w, Store(e, page, off, byte)), y)
  {
    var x := At(e, page);
    assert SlotOk(w, x) && SlotOk(w, y);
    RunningIsBorn(w, x);
    if y != x && w.maps[y].frame == w.maps[x].frame {
      assert PairOk(w, x, y);
      assert MidChild(w, y) ==> ForkOk(w, w.parent[y.env]);
    }
  }

  lemma StoreFault(w: World, e: nat, page: nat, off: nat, byte: int, g: nat)
    requires Inv(w) && Enabled(w, Store(e, page, off, byte)) && g in w.faults
    ensures FaultOk(Next(w, Store(e, page, off, byte)), g)
  {
    var x, y := At(e, page), At(g, w.faults[g].page);
    assert FaultOk(w, g) && SlotOk(w, y) && ApartOk(w, g, x);
    RunningIsBorn(w, x);
    RunningIsBorn(w, y);
    assert PairOk(w, x, y);
  }

  lemma CowBeginKeeps(w: World, e: nat, page: nat, f: nat)
    requires Inv(w) && Enabled(w, CowBegin(e, page, f))
    ensures Inv(Next(w, CowBegin(e, page, f)))
  {
    hide PairOk, ForkOk;
    var t := Next(w, CowBegin(e, page, f));
    forall y | y in t.maps ensures SlotOk(t, y) { assert SlotOk(w, y); }
    forall y, z | y in t.maps && z in t.maps ensures PairOk(t, y, z) { assert PairOk(w, y, z); PairStays(w, t, y, z); }
    forall p | p in t.forks ensures ForkOk(t, p) {
      assert ForkOk(w, p);
      ForkStays(w, t, p);
    }
    forall g | g in t.faults ensures FaultOk(t, g) {
      if g == e { assert SlotOk(w, At(e, page)); }
      else { assert FaultOk(w, g); }
    }
    forall g, y | g in t.faults && y in t.maps ensures ApartOk(t, g, y) {
      if g == e { assert SlotOk(w, y); } else { assert ApartOk(w, g, y); }
    }
    forall g, h | g in t.faults && h in t.faults ensures FaultsOk(t, g, h) {
      if g != e { assert FaultOk(w, g); }
      if h != e { assert FaultOk(w, h); }
      if g != e && h != e { assert FaultsOk(w, g, h); }
    }
  }

  lemma CowByteKeeps(w: World, e: nat)
    requires Inv(w) && Enabled(w, CowByte(e))
    ensures Inv(Next(w, CowByte(e)))
  {
    hide PairOk, ForkOk;
    var t := Next(w, CowByte(e));
    assert FaultOk(w, e);
    forall y | y in t.maps ensures SlotOk(t, y) { assert SlotOk(w, y) && ApartOk(w, e, y); }
    forall y, z | y in t.maps && z in t.maps ensures PairOk(t, y, z) { assert PairOk(w, y, z); PairStays(w, t, y, z); }
    forall p | p in t.forks ensures ForkOk(t, p) { assert ForkOk(w, p); ForkStays(w, t, p); }
    forall g | g in t.faults ensures FaultOk(t, g) { CowByteFault(w, e, g); }
    forall g, y | g in t.faults && y in t.maps ensures ApartOk(t, g, y) { assert ApartOk(w, g, y); }
    forall g, h | g in t.faults && h in t.faults ensures FaultsOk(t, g, h) { assert FaultsOk(w, g, h); }
  }

  lemma CowByteFault(w: World, e: nat, g: nat)
    requires Inv(w) && Enabled(w, CowByte(e)) && g in w.faults
    ensures FaultOk(Next(w, CowByte(e)), g)
  {
    assert FaultOk(w, e) && FaultOk(w, g) && FaultsOk(w, g, e);
    assert ApartOk(w, e, At(g, w.faults[g].page));
  }

  lemma CowEndKeeps(w: World, e: nat)
    requires Inv(w) && Enabled(w, CowEnd(e))
    ensures Inv(Next(w, CowEnd(e)))
  {
    var t := Next(w, CowEnd(e));
    var x, c := At(e, w.faults[e].page), w.faults[e];
    assert FaultOk(w, e) && SlotOk(w, x);
    RunningIsBorn(w, x);
    assert w.data[c.frame] == w.data[w.maps[x].frame] by {
      assert w.data[c.frame][..c.done] == w.data[c.frame];
      assert w.data[w.maps[x].frame][..c.done] == w.data[w.maps[x].frame];
    }
    forall y | y in t.maps ensures SlotOk(t, y) { assert SlotOk(w, y); }
    forall y, z | y in t.maps && z in t.maps ensures PairOk(t, y, z) {
      assert PairOk(w, y, z) && ApartOk(w, e, y) && ApartOk(w, e, z);
    }
    forall p | p in t.forks ensures ForkOk(t, p) { assert ForkOk(w, p); }
    forall g | g in t.faults ensures FaultOk(t, g) { assert FaultOk(w, g); }
    forall g, y | g in t.faults && y in t.maps ensures ApartOk(t, g, y) {
      assert ApartOk(w, g, y) && FaultsOk(w, g, e);
    }
    forall g, h | g in t.faults && h in t.faults ensures FaultsOk(t, g, h) { assert FaultsOk(w, g, h); }
  }

  lemma AllocKeeps(w: World, e: nat, page: nat, f: nat, perm: Perm, size: nat)
    requires Inv(w) && Enabled(w, Alloc(e, page, f, perm, size))
    ensures Inv(Next(w, Alloc(e, page, f, perm, size)))
  {
    hide PairOk, SlotOk;
    var t := Next(w, Alloc(e, page, f, perm, size));
    var x := At(e, page);
    forall y | y in t.maps ensures SlotOk(t, y) { AllocSlot(w, e, page, f, perm, size, y); }
    forall y, z | y in t.maps && z in t.maps ensures PairOk(t, y, z) {
      AllocPair(w, e, page, f, perm, size, y, z);
    }
    forall p | p in t.forks ensures ForkOk(t, p) { assert ForkOk(w, p); }
    forall g | g in t.faults ensures FaultOk(t, g) { assert FaultOk(w, g); }
    forall g, y | g in t.faults && y in t.maps ensures ApartOk(t, g, y) {
      assert FaultOk(w, g);
      if y != x { assert ApartOk(w, g, y); }
    }
    forall g, h | g in t.faults && h in t.faults ensures FaultsOk(t, g, h) { assert FaultsOk(w, g, h); }
  }

  lemma AllocSlot(w: World, e: nat, page: nat, f: nat, perm: Perm, size: nat, y: Slot)
    requires Inv(w) && Enabled(w, Alloc(e, page, f, perm, size)) && y in Next(w, Alloc(e, page, f, perm, size)).maps
    ensures SlotOk(Next(w, Alloc(e, page, f, perm, size)), y)
  {
    RunningIsBorn(w, At(e, page));
    if y != At(e, page) { assert SlotOk(w, y); }
  }

  lemma AllocPair(w: World, e: nat, page: nat, f: nat, perm: Perm, size: nat, y: Slot, z: Slot)
    requires Inv(w) && Enabled(w, Alloc(e, page, f, perm, size))
    requires y in Next(w, Alloc(e, page, f, perm, size)).maps && z in Next(w, Alloc(e, page, f, perm, size)).maps
    ensures PairOk(Next(w, Alloc(e, page, f, perm, size)), y, z)
  {
    var x := At(e, page);
    if y != x { assert SlotOk(w, y); }
    if z != x { assert SlotOk(w, z); }
    if y != x && z != x { assert PairOk(w, y, z); }
  }

  lemma ForkBeginKeeps(w: World, e: nat, c: nat)
    requires Inv(w) && Enabled(w, ForkBegin(e, c))
    ensures Inv(Next(w, ForkBegin(e, c)))
  {
    hide PairOk, SlotOk;
    var t := Next(w, ForkBegin(e, c));
    forall y | y in t.maps ensures SlotOk(t, y) { ForkBeginSlot(w, e, c, y); }
    forall y, z | y in t.maps && z in t.maps ensures PairOk(t, y, z) { ForkBeginPair(w, e, c, y, z); }
    forall p | p in t.forks ensures ForkOk(t, p) { if p != e { assert ForkOk(w, p); } }
    forall g | g in t.faults ensures FaultOk(t, g) { assert FaultOk(w, g); }
    forall g, y | g in t.faults && y in t.maps ensures ApartOk(t, g, y) { assert ApartOk(w, g, y); }
    forall g, h | g in t.faults && h in t.faults ensures FaultsOk(t, g, h) { assert FaultsOk(w, g, h); }
  }

  lemma ForkBeginSlot(w: World, e: nat, c: nat, y: Slot)
    requires Inv(w) && Enabled(w, ForkBegin(e, c)) && y in w.maps
    ensures SlotOk(Next(w, ForkBegin(e, c)), y)
  {
    assert SlotOk(w, y);
  }

  lemma ForkBeginPair(w: World, e: nat, c: nat, y: Slot, z: Slot)
    requires Inv(w) && Enabled(w, ForkBegin(e, c)) && y in w.maps && z in w.maps
    ensures PairOk(Next(w, ForkBegin(e, c)), y, z)
  {
    assert PairOk(w, y, z);
  }

  lemma DupSkipKeeps(w: World, e: nat)
    requires Inv(w) && Enabled(w, DupSkip(e))
    ensures Inv(Next(w, DupSkip(e)))
  {
    var t := Next(w, DupSkip(e));
    forall y | y in t.maps ensures SlotOk(t, y) { assert SlotOk(w, y); }
    forall y, z | y in t.maps && z in t.maps ensures PairOk(t, y, z) { assert PairOk(w, y, z); }
    forall p | p in t.forks ensures ForkOk(t, p) { assert ForkOk(w, p); }
    forall g | g in t.faults ensures FaultOk(t, g) { assert FaultOk(w, g); }
    forall g, y | g in t.faults && y in t.maps ensures ApartOk(t, g, y) { assert ApartOk(w, g, y); }
    forall g, h | g in t.faults && h in t.faults ensures FaultsOk(t, g, h) { assert FaultsOk(w, g, h); }
  }

  lemma DupFirstKeeps(w: World, e: nat)
    requires Inv(w) && Enabled(w, DupFirst(e))
    ensures Inv(Next(w, DupFirst(e)))
  {
    hide PairOk, SlotOk, ForkOk;
    var t := Next(w, DupFirst(e));
    var k := w.forks[e];
    var x, y := At(e, k.cursor), At(k.child, k.cursor);
    forall z | z in t.maps ensures SlotOk(t, z) { DupFirstSlot(w, e, z); }
    forall z, u | z in t.maps && u in t.maps ensures PairOk(t, z, u) {
      DupFirstPair(w, e, z, u);
    }
    forall p | p in t.forks ensures ForkOk(t, p) { DupFirstFork(w, e, p); }
    forall g | g in t.faults ensures FaultOk(t, g) { DupFirstFault(w, e, g); }
    forall g, z | g in t.faults && z in t.maps ensures ApartOk(t, g, z) {
      assert ApartOk(w, g, x);
      if z != y { assert ApartOk(w, g, z); }
    }
    forall g, h | g in t.faults && h in t.faults ensures FaultsOk(t, g, h) { assert FaultsOk(w, g, h); }
  }

  lemma DupFirstFault(w: World, e: nat, g: nat)
    requires Inv(w) && Enabled(w, DupFirst(e)) && g in w.faults
    ensures FaultOk(Next(w, DupFirst(e)), g)
  {
    assert ForkOk(w, e) && FaultOk(w, g);
  }

  lemma DupFirstFork(w: World, e: nat, p: nat)
    requires Inv(w) && Enabled(w, DupFirst(e)) && p in w.forks
    ensures ForkOk(Next(w, DupFirst(e)), p)
  {
    assert ForkOk(w, e) && ForkOk(w, p);
  }

  lemma DupFirstSlot(w: World, e: nat, z: Slot)
    requires Inv(w) && Enabled(w, DupFirst(e)) && z in Next(w, DupFirst(e)).maps
    ensures SlotOk(Next(w, DupFirst(e)), z)
  {
    var k := w.forks[e];
    var x, y := At(e, k.cursor), At(k.child, k.cursor);
    assert ForkOk(w, e) && SlotOk(w, x);
    RunningIsBorn(w, x);
    assert y in w.maps ==> SlotOk(w, y);
    if z != y { assert SlotOk(w, z); }
  }

  lemma DupFirstPair(w: World, e: nat, z: Slot, u: Slot)
    requires Inv(w) && Enabled(w, DupFirst(e))
    requires z in Next(w, DupFirst(e)).maps && u in Next(w, DupFirst(e)).maps
    ensures PairOk(Next(w, DupFirst(e)), z, u)
  {
    var k := w.forks[e];
    var x, y := At(e, k.cursor), At(k.child, k.cursor);
    assert ForkOk(w, e) && SlotOk(w, x);
    RunningIsBorn(w, x);
    if z != y { assert SlotOk(w, z) && PairOk(w, z, x); }
    if u != y { assert SlotOk(w, u) && PairOk(w, u, x); }
    if z != y && u != y { assert PairOk(w, z, u); }
  }

  lemma DupSecondKeeps(w: World, e: nat)
    requires Inv(w) && Enabled(w, DupSecond(e))
    ensures Inv(Next(w, DupSecond(e)))
  {
    hide PairOk, SlotOk;
    var t := Next(w, DupSecond(e));
    var k := w.forks[e];
    var x, y := At(e, k.cursor), At(k.child, k.cursor);
    assert ForkOk(w, e);
    forall z | z in t.maps ensures SlotOk(t, z) { DupSecondSlot(w, e, z); }
    forall z, u | z in t.maps && u in t.maps ensures PairOk(t, z, u) {
      DupSecondPair(w, e, z, u);
    }
    forall p | p in t.forks ensures ForkOk(t, p) { assert ForkOk(w, p); }
    forall g | g in t.faults ensures FaultOk(t, g) { assert FaultOk(w, g); }
    forall g, z | g in t.faults && z in t.maps ensures ApartOk(t, g, z) { assert ApartOk(w, g, z); }
    forall g, h | g in t.faults && h in t.faults ensures FaultsOk(t, g, h) { assert FaultsOk(w, g, h); }
  }

  lemma DupSecondSlot(w: World, e: nat, z: Slot)
    requires Inv(w) && Enabled(w, DupSecond(e)) && z in Next(w, DupSecond(e)).maps
    ensures SlotOk(Next(w, DupSecond(e)), z)
  {
    var k := w.forks[e];
    var x, y := At(e, k.cursor), At(k.child, k.cursor);
    assert ForkOk(w, e) && SlotOk(w, x) && SlotOk(w, y) && SlotOk(w, z);
    RunningIsBorn(w, x);
  }

  lemma ForkEndKeeps(w: World, e: nat)
    requires Inv(w) && Enabled(w, ForkEnd(e))
    ensures Inv(Next(w, ForkEnd(e)))
  {
    var t := Next(w, ForkEnd(e));
    assert ForkOk(w, e);
    forall y | y in t.maps ensures SlotOk(t, y) { assert SlotOk(w, y); }
    forall y, z | y in t.maps && z in t.maps ensures PairOk(t, y, z) { assert PairOk(w, y, z); }
    forall p | p in t.forks ensures ForkOk(t, p) { assert ForkOk(w, p); }
    forall g | g in t.faults ensures FaultOk(t, g) { assert FaultOk(w, g); }
    forall g, y | g in t.faults && y in t.maps ensures ApartOk(t, g, y) { assert ApartOk(w, g, y); }
    forall g, h | g in t.faults && h in t.faults ensures FaultsOk(t, g, h) { assert FaultsOk(w, g, h); }
  }

  lemma DupSecondPair(w: World, e: nat, z: Slot, u: Slot)
    requires Inv(w) && Enabled(w, DupSecond(e))
    requires z in Next(w, DupSecond(e)).maps && u in Next(w, DupSecond(e)).maps
    ensures PairOk(Next(w, DupSecond(e)), z, u)
  {
    var k := w.forks[e];
    var x, y := At(e, k.cursor), At(k.child, k.cursor);
    assert ForkOk(w, e) && SlotOk(w, x) && SlotOk(w, y);
    RunningIsBorn(w, x);
    assert PairOk(w, z, u);
  }

  lemma StepKeepsInv(w: World, step: Step)
    requires Inv(w) && Enabled(w, step)
    ensures Inv(Next(w, step))
  {
    hide Inv, Enabled, Next;
    match step
    case Store(e, page, off, byte) => StoreKeeps(w, e, page, off, byte);
    case CowBegin(e, page, f) => CowBeginKeeps(w, e, page, f);
    case CowByte(e) => CowByteKeeps(w, e);
    case CowEnd(e) => CowEndKeeps(w, e);
    case Alloc(e, page, f, perm, size) => AllocKeeps(w, e, page, f, perm, size);
    case ForkBegin(e, c) => ForkBeginKeeps(w, e, c);
    case DupSkip(e) => DupSkipKeeps(w, e);
    case DupFirst(e) => DupFirstKeeps(w, e);
    case DupSecond(e) => DupSecondKeeps(w, e);
    case ForkEnd(e) => ForkEndKeeps(w, e);
  }

  // ----- every run -----

  /** `t` is reached from `w` by some interleaving of user stores, fault handlers and forks. */
  ghost predicate Reaches(w: World, steps: seq<Step>, t: World)
    decreases |steps|
  {
    if steps == [] then t == w
    else Enabled(w, steps[0]) && Reaches(Next(w, steps[0]), steps[1..], t)
  }

  /** Before any fork: every mapped page has its frame, and only library or unwritable pages share one. */
  ghost predicate Start(w: World) {
    && w.forks == map[] && w.faults == map[] && w.parent == map[]
    && (forall x :: x in w.maps ==> SlotOk(w, x))
    && (forall x, y :: x in w.maps && y in w.maps && x != y && w.maps[x].frame == w.maps[y].frame ==>
          || (w.maps[x].perm.library && w.maps[y].perm.library)
          || (!w.maps[x].perm.library && !w.maps[y].perm.library && !w.maps[x].perm.d && !w.maps[y].perm.d))
    && (forall x :: x in w.spec.own ==> x in w.maps)
  }

  lemma StartInv(w: World)
    requires Start(w)
    ensures Inv(w)
  {
  }

  lemma {:induction false} EveryRunKeepsInv(w: World, steps: seq<Step>, t: World)
    requires Inv(w) && Reaches(w, steps, t)
    ensures Inv(t)
    decreases |steps|
  {
    hide Inv, Enabled, Next;
    if steps != [] {
      StepKeepsInv(w, steps[0]);
      EveryRunKeepsInv(Next(w, steps[0]), steps[1..], t);
    }
  }

  /** What an environment reads at one of its pages. */
  function Read(w: World, x: Slot): Option<Content> {
    if x in w.maps then Get(w.data, w.maps[x].frame) else None
  }

  /** What the specification says it should read. */
  function SpecRead(s: Spec, x: Slot): Option<Content> {
    if x in s.own then Some(s.own[x])
    else if x in s.lib then Get(s.cells, s.lib[x])
    else None
  }

  /** Fork refines independent memories: in every interleaving, each running environment reads exactly
      what the specification machine holds for it. */
  lemma ForkRefinesMemories(w: World, steps: seq<Step>, t: World, x: Slot)
    requires Start(w) && Reaches(w, steps, t) && x in t.maps && x.env in t.runnable
    ensures Read(t, x) == SpecRead(t.spec, x)
  {
    StartInv(w);
    EveryRunKeepsInv(w, steps, t);
    assert SlotOk(t, x);
    RunningIsBorn(t, x);
  }

  /** Isolation: a store to a private page is seen through no other slot, except the child's slot of the
      one page that is still being protected. */
  lemma StoresArePrivate(w: World, steps: seq<Step>, t: World, e: nat, page: nat, off: nat, byte: int, y: Slot)
    requires Start(w) && Reaches(w, steps, t) && Enabled(t, Store(e, page, off, byte))
    requires !t.maps[At(e, page)].perm.library && y != At(e, page) && !MidChild(t, y)
    ensures Read(Next(t, Store(e, page, off, byte)), y) == Read(t, y)
  {
    StartInv(w);
    EveryRunKeepsInv(w, steps, t);
    var x := At(e, page);
    if y in t.maps && t.maps[y].frame == t.maps[x].frame {
      WritableIsAlone(t, x, y);
    }
  }

  /** A store is read back, and a new page reads as zeros. */
  lemma StoreIsReadBack(w: World, e: nat, page: nat, off: nat, byte: int)
    requires Enabled(w, Store(e, page, off, byte))
    ensures var x, t := At(e, page), Next(w, Store(e, page, off, byte));
      && Read(w, x).Some? && Read(t, x).Some? && |Read(t, x).value| == |Read(w, x).value|
      && forall k :: 0 <= k < |Read(t, x).value| ==> Read(t, x).value[k] == if k == off then byte else Read(w, x).value[k]
  {
  }

  lemma NewPageIsZero(w: World, e: nat, page: nat, f: nat, perm: Perm, size: nat)
    requires Enabled(w, Alloc(e, page, f, perm, size))
    ensures var x, t := At(e, page), Next(w, Alloc(e, page, f, perm, size));
      && Read(t, x).Some? && |Read(t, x).value| == size && (forall k :: 0 <= k < size ==> Read(t, x).value[k] == 0)
      && t.maps[x].perm == perm
  {
  }

  // ----- library pages -----

  /** A library page, as one slot maps it. */
  predicate IsLibrary(w: World, x: Slot) {
    x in w.maps && w.maps[x].perm.library
  }

  /** No step changes a library page's slot: neither its frame nor its permission. */
  lemma LibraryStays(w: World, step: Step, x: Slot)
    requires Inv(w) && Enabled(w, step) && IsLibrary(w, x)
    ensures x in Next(w, step).maps && Next(w, step).maps[x] == w.maps[x]
  {
    match step
    case CowEnd(e) => assert FaultOk(w, e) && SlotOk(w, x);
    case DupFirst(e) =>
      assert ForkOk(w, e) && SlotOk(w, x);
    case DupSecond(e) => assert ForkOk(w, e);
    case _ =>
  }

  /** Library pages that the walk of process p has passed are the child's as well. */
  ghost predicate HandedOn(w: World, p: nat)
    requires p in w.forks
  {
    forall v {:trigger At(p, v)} :: v in w.forks[p].had && v < w.forks[p].cursor && IsLibrary(w, At(p, v)) ==>
      At(w.forks[p].child, v) in w.maps && w.maps[At(w.forks[p].child, v)] == w.maps[At(p, v)]
  }

  ghost predicate AllHandedOn(w: World) {
    forall p {:trigger HandedOn(w, p)} :: p in w.forks ==> HandedOn(w, p)
  }

  /** A page of the parent that was there before the fork is library after a step only if it was before. */
  lemma LibraryWas(w: World, step: Step, p: nat, v: nat)
    requires Inv(w) && Enabled(w, step) && p in w.forks && v in w.forks[p].had && IsLibrary(Next(w, step), At(p, v))
    ensures IsLibrary(w, At(p, v))
  {
    assert ForkOk(w, p);
    match step
    case CowEnd(e) => assert FaultOk(w, e) && SlotOk(w, At(e, w.faults[e].page));
    case DupFirst(e) => assert ForkOk(w, e);
    case DupSecond(e) => assert ForkOk(w, e);
    case _ =>
  }

  /** The walk goes past a page: DupFirst hands a library page on, the other steps pass no library page. */
  lemma PassedIsHandedOn(w: World, step: Step, p: nat)
    requires Inv(w) && Enabled(w, step) && p in w.forks && p in Next(w, step).forks
    requires var v := w.forks[p].cursor;
      v in w.forks[p].had && v < Next(w, step).forks[p].cursor && IsLibrary(w, At(p, v))
    ensures var v, c, t := w.forks[p].cursor, w.forks[p].child, Next(w, step);
      At(c, v) in t.maps && t.maps[At(c, v)] == w.maps[At(p, v)]
  {
    assert ForkOk(w, p);
  }

  lemma WalkMoves(w: World, step: Step, p: nat)
    requires Inv(w) && Enabled(w, step) && p in Next(w, step).forks
    ensures p in w.forks ==>
      var k, m := w.forks[p], Next(w, step).forks[p];
      m.child == k.child && m.had == k.had && k.cursor <= m.cursor <= k.cursor + 1
    ensures p !in w.forks ==> Next(w, step).forks[p].cursor == 0
  {
  }

  lemma StepHandsOn(w: World, step: Step, p: nat)
    requires Inv(w) && AllHandedOn(w) && Enabled(w, step) && p in Next(w, step).forks
    ensures HandedOn(Next(w, step), p)
  {
    hide Enabled, Next, Inv;
    var t := Next(w, step);
    WalkMoves(w, step, p);
    if p in w.forks {
      assert HandedOn(w, p);
      var c := w.forks[p].child;
      forall v | v in t.forks[p].had && v < t.forks[p].cursor && IsLibrary(t, At(p, v))
        ensures At(c, v) in t.maps && t.maps[At(c, v)] == t.maps[At(p, v)]
      {
        LibraryWas(w, step, p, v);
        LibraryStays(w, step, At(p, v));
        if v < w.forks[p].cursor { LibraryStays(w, step, At(c, v)); } else { PassedIsHandedOn(w, step, p); }
      }
    }
  }

  lemma {:induction false} EveryRunHandsOn(w: World, steps: seq<Step>, t: World)
    requires Inv(w) && AllHandedOn(w) && Reaches(w, steps, t)
    ensures Inv(t) && AllHandedOn(t)
    decreases |steps|
  {
    hide Inv, Enabled, Next, HandedOn;
    if steps != [] {
      var u := Next(w, steps[0]);
      StepKeepsInv(w, steps[0]);
      forall p | p in u.forks ensures HandedOn(u, p) { StepHandsOn(w, steps[0], p); }
      EveryRunHandsOn(u, steps[1..], t);
    }
  }

  lemma {:induction false} LibraryStaysForever(w: World, steps: seq<Step>, t: World, x: Slot)
    requires Inv(w) && Reaches(w, steps, t) && IsLibrary(w, x)
    ensures x in t.maps && t.maps[x] == w.maps[x]
    decreases |steps|
  {
    hide Inv, Enabled, Next;
    if steps != [] {
      StepKeepsInv(w, steps[0]);
      LibraryStays(w, steps[0], x);
      LibraryStaysForever(Next(w, steps[0]), steps[1..], t, x);
    }
  }

  /** Library pages are shared by fork and stay shared: of the pages the parent had when fork began, each library
      page is mapped by the child, when fork returns, to the same frame and cell, and in every continuation,
      whatever anybody stores, parent and child read the same there. */
  lemma LibraryIsShared(w: World, steps: seq<Step>, t: World, e: nat, v: nat, more: seq<Step>, u: World)
    requires Start(w) && Reaches(w, steps, t) && Enabled(t, ForkEnd(e))
    requires v in t.forks[e].had && v < LIMIT && IsLibrary(t, At(e, v))
    requires Reaches(Next(t, ForkEnd(e)), more, u)
    ensures var x, y := At(e, v), At(t.forks[e].child, v);
      && x in u.maps && y in u.maps && u.maps[x] == u.maps[y] == t.maps[x]
      && Get(u.spec.lib, x) == Get(u.spec.lib, y) == Some(t.maps[x].frame)
      && Read(u, x) == Read(u, y) == Get(u.spec.cells, t.maps[x].frame)
  {
    hide Inv, Enabled, Next;
    StartInv(w);
    EveryRunHandsOn(w, steps, t);
    ForkEnds(t, e);
    var x, y, n := At(e, v), At(t.forks[e].child, v), Next(t, ForkEnd(e));
    assert HandedOn(t, e);
    StepKeepsInv(t, ForkEnd(e));
    LibraryStaysForever(n, more, u, x);
    LibraryStaysForever(n, more, u, y);
    EveryRunKeepsInv(n, more, u);
    LibraryCell(u, x);
    LibraryCell(u, y);
  }

  lemma ForkEnds(t: World, e: nat)
    requires Enabled(t, ForkEnd(e))
    ensures e in t.forks && t.forks[e].cursor == LIMIT && Next(t, ForkEnd(e)).maps == t.maps
  {
  }

  lemma LibraryCell(w: World, x: Slot)
    requires Inv(w) && IsLibrary(w, x)
    ensures Get(w.spec.lib, x) == Some(w.maps[x].frame) && Read(w, x) == Get(w.spec.cells, w.maps[x].frame)
  {
    assert SlotOk(w, x);
  }

  /** At the moment a page is write-protected the child owns a copy of what the parent holds then. */
  lemma ProtectedIsCopied(w: World, steps: seq<Step>, t: World, e: nat)
    requires Start(w) && Reaches(w, steps, t) && Enabled(t, DupSecond(e))
    ensures var u := Next(t, DupSecond(e));
      var x, y := At(e, t.forks[e].cursor), At(t.forks[e].child, t.forks[e].cursor);
      && Read(u, y) == Read(t, x) && Get(u.spec.own, y) == Read(t, x)
      && y in u.maps && !u.maps[x].perm.d && u.maps[x].perm.cow && !u.maps[y].perm.d && u.maps[y].perm.cow
  {
    StartInv(w);
    EveryRunKeepsInv(w, steps, t);
    assert ForkOk(t, e) && SlotOk(t, At(e, t.forks[e].cursor));
    RunningIsBorn(t, At(e, t.forks[e].cursor));
  }

  /** When fork returns, the child has every page below USTACKTOP that the parent had when it began. */
  lemma ChildIsComplete(w: World, steps: seq<Step>, t: World, e: nat, v: nat)
    requires Start(w) && Reaches(w, steps, t) && Enabled(t, ForkEnd(e))
    requires v in t.forks[e].had && v < LIMIT
    ensures var u := Next(t, ForkEnd(e)); At(t.forks[e].child, v) in u.maps && t.forks[e].child in u.runnable
  {
    StartInv(w);
    EveryRunKeepsInv(w, steps, t);
    assert ForkOk(t, e);
  }

  // ----- permissions -----

  /** The two bits that copy-on-write trades, taken together, and all the others one by one. */
  predicate Alike(p: Perm, q: Perm) {
    && (p.d || p.cow <==> q.d || q.cow)
    && p.g == q.g && p.v == q.v && p.n == q.n && p.dirty == q.dirty && p.library == q.library
  }

  /** No step takes a page away from anybody: what could be written, at once or after a fault, still can, all other bits stay,
      and a page that could not be written is left alone altogether. */
  lemma StepKeepsAlike(w: World, step: Step, x: Slot)
    requires Inv(w) && Enabled(w, step) && x in w.maps
    ensures x in Next(w, step).maps && Alike(w.maps[x].perm, Next(w, step).maps[x].perm)
    ensures !w.maps[x].perm.d && !w.maps[x].perm.cow ==> Next(w, step).maps[x] == w.maps[x]
  {
    match step
    case CowEnd(e) => CowEndAlike(w, e, x);
    case DupFirst(e) => DupFirstAlike(w, e, x);
    case DupSecond(e) => DupSecondAlike(w, e, x);
    case Alloc(e, page, f, perm, size) => assert x != At(e, page);
    case _ => SameMaps(w, step);
  }

  lemma SameMaps(w: World, step: Step)
    requires Enabled(w, step) && !step.CowEnd? && !step.DupFirst? && !step.DupSecond? && !step.Alloc?
    ensures Next(w, step).maps == w.maps
  {
  }

  lemma CowEndAlike(w: World, e: nat, x: Slot)
    requires Inv(w) && Enabled(w, CowEnd(e)) && x in w.maps
    ensures var t := Next(w, CowEnd(e));
      && x in t.maps && Alike(w.maps[x].perm, t.maps[x].perm)
      && (!w.maps[x].perm.d && !w.maps[x].perm.cow ==> t.maps[x] == w.maps[x])
  {
    assert FaultOk(w, e);
  }

  lemma DupFirstAlike(w: World, e: nat, x: Slot)
    requires Inv(w) && Enabled(w, DupFirst(e)) && x in w.maps
    ensures x in Next(w, DupFirst(e)).maps && Next(w, DupFirst(e)).maps[x] == w.maps[x]
  {
    assert ForkOk(w, e) && SlotOk(w, x);
  }

  lemma DupSecondAlike(w: World, e: nat, x: Slot)
    requires Inv(w) && Enabled(w, DupSecond(e)) && x in w.maps
    ensures var t := Next(w, DupSecond(e));
      && x in t.maps && Alike(w.maps[x].perm, t.maps[x].perm)
      && (!w.maps[x].perm.d && !w.maps[x].perm.cow ==> t.maps[x] == w.maps[x])
  {
    assert ForkOk(w, e);
  }

  lemma {:induction false} EveryRunKeepsAlike(w: World, steps: seq<Step>, t: World, x: Slot)
    requires Inv(w) && Reaches(w, steps, t) && x in w.maps
    ensures x in t.maps && Alike(w.maps[x].perm, t.maps[x].perm)
    ensures !w.maps[x].perm.d && !w.maps[x].perm.cow ==> t.maps[x] == w.maps[x]
    decreases |steps|
  {
    hide Inv, Enabled, Next;
    if steps != [] {
      StepKeepsInv(w, steps[0]);
      StepKeepsAlike(w, steps[0], x);
      EveryRunKeepsAlike(Next(w, steps[0]), steps[1..], t, x);
    }
  }

  /** What duppage does to the two slots of a page, bit by bit. */
  lemma DupIsExact(w: World, steps: seq<Step>, t: World, e: nat)
    requires Start(w) && Reaches(w, steps, t) && Enabled(t, DupFirst(e))
    ensures var x, y := At(e, t.forks[e].cursor), At(t.forks[e].child, t.forks[e].cursor);
      var u, perm := Next(t, DupFirst(e)), t.maps[x].perm;
      && u.maps[x] == t.maps[x] && y in u.maps && u.maps[y].frame == t.maps[x].frame
      && (!perm.d || perm.library ==> u.maps[y] == t.maps[x] && !u.forks[e].mid)
      && (perm.d && !perm.library ==>
            && u.forks[e].mid && !u.maps[y].perm.d && u.maps[y].perm.cow && Alike(perm, u.maps[y].perm)
            && Enabled(u, DupSecond(e)) && Next(u, DupSecond(e)).maps == u.maps[x := u.maps[y]])
  {
    StartInv(w);
    EveryRunKeepsInv(w, steps, t);
    assert ForkOk(t, e);
  }

  /** cow_entry makes the page writable: the fault is over, and the store that caused it can be made. */
  lemma CowEndMakesWritable(w: World, steps: seq<Step>, t: World, e: nat, off: nat, byte: int)
    requires Start(w) && Reaches(w, steps, t) && Enabled(t, CowEnd(e))
    ensures var x, u := At(e, t.faults[e].page), Next(t, CowEnd(e));
      && x in t.maps && x in u.maps && t.maps[x].frame in t.data
      && u.maps[x].perm.d && !u.maps[x].perm.cow && Alike(t.maps[x].perm, u.maps[x].perm)
      && (off < |t.data[t.maps[x].frame]| ==> Enabled(u, Store(e, x.page, off, byte)))
  {
    StartInv(w);
    EveryRunKeepsInv(w, steps, t);
    assert FaultOk(t, e);
  }

  /** The pages that the walk of process p has passed, and the one it is protecting, are the child's with like permissions. */
  ghost predicate GivenOn(w: World, p: nat)
    requires p in w.forks
  {
    forall v {:trigger At(p, v)} :: v in w.forks[p].had && v < w.forks[p].cursor ==>
      && At(p, v) in w.maps && At(w.forks[p].child, v) in w.maps
      && Alike(w.maps[At(p, v)].perm, w.maps[At(w.forks[p].child, v)].perm)
  }

  ghost predicate AllGivenOn(w: World) {
    forall p {:trigger GivenOn(w, p)} :: p in w.forks ==> GivenOn(w, p)
  }

  /** The page that the walk passes in this step. */
  lemma PassedIsGivenOn(w: World, step: Step, p: nat)
    requires Inv(w) && Enabled(w, step) && p in w.forks && p in Next(w, step).forks
    requires w.forks[p].cursor in w.forks[p].had && w.forks[p].cursor < Next(w, step).forks[p].cursor
    ensures var v, c, t := w.forks[p].cursor, w.forks[p].child, Next(w, step);
      At(p, v) in t.maps && At(c, v) in t.maps && Alike(t.maps[At(p, v)].perm, t.maps[At(c, v)].perm)
  {
    assert ForkOk(w, p);
  }

  lemma StepGivesOn(w: World, step: Step, p: nat)
    requires Inv(w) && AllGivenOn(w) && Enabled(w, step) && p in Next(w, step).forks
    ensures GivenOn(Next(w, step), p)
  {
    hide Enabled, Next, Inv;
    var t := Next(w, step);
    WalkMoves(w, step, p);
    if p in w.forks {
      assert GivenOn(w, p);
      var c := w.forks[p].child;
      forall v | v in t.forks[p].had && v < t.forks[p].cursor
        ensures At(p, v) in t.maps && At(c, v) in t.maps && Alike(t.maps[At(p, v)].perm, t.maps[At(c, v)].perm)
      {
        if v < w.forks[p].cursor {
          StepKeepsAlike(w, step, At(p, v));
          StepKeepsAlike(w, step, At(c, v));
        } else {
          PassedIsGivenOn(w, step, p);
        }
      }
    }
  }

  lemma {:induction false} EveryRunGivesOn(w: World, steps: seq<Step>, t: World)
    requires Inv(w) && AllGivenOn(w) && Reaches(w, steps, t)
    ensures Inv(t) && AllGivenOn(t)
    decreases |steps|
  {
    hide Inv, Enabled, Next, GivenOn;
    if steps != [] {
      var u := Next(w, steps[0]);
      StepKeepsInv(w, steps[0]);
      forall p | p in u.forks ensures GivenOn(u, p) { StepGivesOn(w, steps[0], p); }
      EveryRunGivesOn(u, steps[1..], t);
    }
  }

  /** When fork returns, and for ever after, the child can do with each page what the parent could: write it, at once or after a
      fault, or only read it; and the other bits are the parent's. */
  lemma ChildMayDoTheSame(w: World, steps: seq<Step>, t: World, e: nat, v: nat, more: seq<Step>, u: World)
    requires Start(w) && Reaches(w, steps, t) && Enabled(t, ForkEnd(e))
    requires v in t.forks[e].had && v < LIMIT && Reaches(Next(t, ForkEnd(e)), more, u)
    ensures var x, y := At(e, v), At(t.forks[e].child, v);
      x in t.maps && y in u.maps && Alike(t.maps[x].perm, u.maps[y].perm)
  {
    hide Inv, Enabled, Next, GivenOn;
    StartInv(w);
    EveryRunGivesOn(w, steps, t);
    ForkEnds(t, e);
    assert GivenOn(t, e);
    GivenPage(t, e, v);
    StepKeepsInv(t, ForkEnd(e));
    EveryRunKeepsAlike(Next(t, ForkEnd(e)), more, u, At(t.forks[e].child, v));
  }

  lemma GivenPage(w: World, p: nat, v: nat)
    requires p in w.forks && GivenOn(w, p) && v in w.forks[p].had && v < w.forks[p].cursor
    ensures At(p, v) in w.maps && At(w.forks[p].child, v) in w.maps
    ensures Alike(w.maps[At(p, v)].perm, w.maps[At(w.forks[p].child, v)].perm)
  {
  }

  // ----- every store can be made -----

  lemma {:induction false} ReachesThen(w: World, steps: seq<Step>, t: World, step: Step)
    requires Reaches(w, steps, t) && Enabled(t, step)
    ensures Reaches(w, steps + [step], Next(t, step))
    decreases |steps|
  {
    hide Enabled, Next;
    if steps == [] {
      assert steps + [step] == [step] && [step][1..] == [];
      assert Reaches(Next(t, step), [], Next(t, step));
    } else {
      ReachesThen(Next(w, steps[0]), steps[1..], t, step);
      assert (steps + [step])[1..] == steps[1..] + [step];
    }
  }

  /** The handler of process e has k bytes of its page copied. */
  ghost predicate Copying(w: World, e: nat, page: nat, n: nat, k: nat) {
    && Inv(w) && e in w.faults && w.faults[e].page == page && w.faults[e].done == k <= n
    && At(e, page) in w.maps && w.maps[At(e, page)].frame in w.data && |w.data[w.maps[At(e, page)].frame]| == n
  }

  lemma CopyOne(w: World, e: nat, page: nat, n: nat, k: nat)
    requires Copying(w, e, page, n, k) && k < n
    ensures Enabled(w, CowByte(e)) && Copying(Next(w, CowByte(e)), e, page, n, k + 1)
  {
    assert FaultOk(w, e) && ApartOk(w, e, At(e, page));
    StepKeepsInv(w, CowByte(e));
  }

  lemma {:induction false} CopyAll(w: World, e: nat, page: nat, n: nat, k: nat) returns (t: World)
    requires Copying(w, e, page, n, 0) && k <= n
    ensures Reaches(w, seq(k, _ => CowByte(e)), t) && Copying(t, e, page, n, k)
    decreases k
  {
    hide Copying, Enabled, Next;
    if k == 0 {
      t := w;
      assert Reaches(w, [], w);
      assert seq(k, _ => CowByte(e)) == [];
    } else {
      var u := CopyAll(w, e, page, n, k - 1);
      CopyOne(u, e, page, n, k - 1);
      t := Next(u, CowByte(e));
      ReachesThen(w, seq(k - 1, _ => CowByte(e)), u, CowByte(e));
      assert seq(k, _ => CowByte(e)) == seq(k - 1, _ => CowByte(e)) + [CowByte(e)];
    }
  }

  /** A process in user code can make every store to a page that is writable or copy-on-write, after at most one run of its
      handler. */
  lemma StoreCanBeMade(w: World, e: nat, page: nat, off: nat, byte: int, f: nat) returns (steps: seq<Step>, t: World)
    requires Inv(w) && Ready(w, e) && At(e, page) in w.maps && FreshFrame(w, f)
    requires w.maps[At(e, page)].perm.d || w.maps[At(e, page)].perm.cow
    requires w.maps[At(e, page)].frame in w.data ==> off < |w.data[w.maps[At(e, page)].frame]|
    ensures Reaches(w, steps, t) && Enabled(t, Store(e, page, off, byte))
    ensures w.maps[At(e, page)].perm.d ==> steps == []
  {
    var x := At(e, page);
    assert SlotOk(w, x);
    var n := |w.data[w.maps[x].frame]|;
    if w.maps[x].perm.d {
      steps, t := [], w;
    } else {
      var begin := CowBegin(e, page, f);
      StepKeepsInv(w, begin);
      var w1 := Next(w, begin);
      assert Copying(w1, e, page, n, 0);
      var w2 := CopyAll(w1, e, page, n, n);
      assert Enabled(w2, CowEnd(e)) && FaultOk(w2, e);
      t := Next(w2, CowEnd(e));
      assert Enabled(t, Store(e, page, off, byte));
      hide Enabled, Next, Inv, Copying;
      ReachesThen(w1, seq(n, _ => CowByte(e)), w2, CowEnd(e));
      steps := [begin] + (seq(n, _ => CowByte(e)) + [CowEnd(e)]);
      assert steps[1..] == seq(n, _ => CowByte(e)) + [CowEnd(e)];
    }
  }

  // ----- fork gets done -----

  /** Process e is in fork and in user code, with the walk at page c. */
  ghost predicate Walking(w: World, e: nat, c: nat, mid: bool) {
    Inv(w) && Ready(w, e) && e in w.forks && w.forks[e].cursor == c && w.forks[e].mid == mid
  }

  /** A step of the walk is possible, and it goes on. */
  lemma WalkStep(w: World, e: nat, c: nat, mid: bool) returns (step: Step)
    requires Walking(w, e, c, mid) && c < LIMIT
    ensures Enabled(w, step)
    ensures Walking(Next(w, step), e, c + 1, false) || (!mid && Walking(Next(w, step), e, c, true))
    ensures Next(w, step).forks[e].child == w.forks[e].child
  {
    assert ForkOk(w, e);
    step := if mid then DupSecond(e) else if At(e, c) in w.maps then DupFirst(e) else DupSkip(e);
    StepKeepsInv(w, step);
  }

  lemma MidIsBelow(w: World, e: nat, c: nat, mid: bool)
    requires Walking(w, e, c, mid)
    ensures c <= LIMIT && (mid ==> c < LIMIT)
  {
    assert ForkOk(w, e);
  }

  /** From every reachable state a fork in progress can be finished by the parent alone, and then the child runs. */
  lemma {:induction false} ForkCanFinish(w: World, e: nat, c: nat, mid: bool) returns (steps: seq<Step>, t: World)
    requires Walking(w, e, c, mid)
    ensures Reaches(w, steps, t) && Enabled(t, ForkEnd(e)) && t.forks[e].child == w.forks[e].child
    ensures w.forks[e].child in Next(t, ForkEnd(e)).runnable && e !in Next(t, ForkEnd(e)).forks
    decreases LIMIT - c, if mid then 0 else 1
  {
    MidIsBelow(w, e, c, mid);
    if c == LIMIT {
      steps, t := [], w;
    } else {
      var step := WalkStep(w, e, c, mid);
      hide Enabled, Next, Walking;
      var more;
      if Walking(Next(w, step), e, c + 1, false) {
        more, t := ForkCanFinish(Next(w, step), e, c + 1, false);
      } else {
        more, t := ForkCanFinish(Next(w, step), e, c, true);
      }
      steps := [step] + more;
      assert steps[1..] == more;
    }
  }

  // ----- one fork, from its beginning to its end -----

  /** While fork has not returned it is the same fork. */
  lemma {:induction false} SameFork(w: World, steps: seq<Step>, t: World, e: nat)
    requires Reaches(w, steps, t) && e in w.forks && ForkEnd(e) !in steps
    ensures e in t.forks && t.forks[e].child == w.forks[e].child && t.forks[e].had == w.forks[e].had
    decreases |steps|
  {
    if steps != [] {
      assert steps[0] != ForkEnd(e);
      ForkStaysSame(w, steps[0], e);
      hide Enabled, Next;
      SameFork(Next(w, steps[0]), steps[1..], t, e);
    }
  }

  lemma ForkStaysSame(w: World, step: Step, e: nat)
    requires Enabled(w, step) && e in w.forks && step != ForkEnd(e)
    ensures var t := Next(w, step); e in t.forks && t.forks[e].child == w.forks[e].child && t.forks[e].had == w.forks[e].had
  {
  }

  /** A page the parent has when fork begins is the child's when it ends, with a like permission, whatever everybody did in
      between; and the parent still has it. */
  lemma ForkGivesEveryPage(w: World, before: seq<Step>, s: World, e: nat, c: nat, steps: seq<Step>, t: World, v: nat)
    requires Start(w) && Reaches(w, before, s) && Enabled(s, ForkBegin(e, c)) && Reaches(Next(s, ForkBegin(e, c)), steps, t)
    requires ForkEnd(e) !in steps && Enabled(t, ForkEnd(e)) && At(e, v) in s.maps && v < LIMIT
    ensures At(e, v) in t.maps && At(c, v) in t.maps && c in Next(t, ForkEnd(e)).runnable
    ensures Alike(s.maps[At(e, v)].perm, t.maps[At(e, v)].perm) && Alike(s.maps[At(e, v)].perm, t.maps[At(c, v)].perm)
  {
    var u := Next(s, ForkBegin(e, c));
    assert u.maps == s.maps && e in u.forks && u.forks[e].child == c && v in u.forks[e].had;
    hide Inv, Enabled, Next, GivenOn;
    StartInv(w);
    EveryRunGivesOn(w, before, s);
    StepKeepsInv(s, ForkBegin(e, c));
    forall p | p in u.forks ensures GivenOn(u, p) { StepGivesOn(s, ForkBegin(e, c), p); }
    EveryRunGivesOn(u, steps, t);
    SameFork(u, steps, t, e);
    EveryRunKeepsAlike(u, steps, t, At(e, v));
    ForkEnds(t, e);
    assert GivenOn(t, e);
    GivenPage(t, e, v);
    ChildRuns(t, e);
  }

  lemma ChildRuns(t: World, e: nat)
    requires Enabled(t, ForkEnd(e))
    ensures e in t.forks && t.forks[e].child in Next(t, ForkEnd(e)).runnable
  {
  }
}
