/** Runs of the kernel's calls after which its invariant is gone. */
module KernelCases {
  import opened Options
  import opened Mmu
  import opened Vm
  import opened PageTables
  import opened Words
  import opened Window
  import opened EnvNames
  import opened Kernel
  import Bitmap
  import Frames

  lemma WindowAddress(i: nat)
    requires i < TABLE_SIZE
    ensures var va := UVPT + i * BY2PG; va < ULIM && PdxOf(va) == PDX_UVPT && PtxOf(va) == i
  {
    var va := UVPT + i * BY2PG;
    assert va / 0x1000 == 0x7fc00 + i;
    assert va / 0x40_0000 == 511;
  }

  /** A user reads its page table i through the window, so that the window page is in the TLB, and then stores the
      wrong value into any word of it: the tables are no longer what the kernel takes them for. */
  method WindowStoreBreaks(m: Machine, i: nat, j: nat, value: Entry) returns (ok: bool)
    requires m.ValidAll() && m.curenv.Some? && i < PDX_UVPT && j < TABLE_SIZE
    requires i < PDX_UTOP ==> Table(m.curenv.value, i) in m.vm.refs
    requires value == Wrong(Meaning(m.vm, m.curenv.value, i, j))
    modifies m
    ensures ok && !m.ValidAll()
  {
    hide Inv, Refines, EnvsMatch, Lists;
    WindowAddress(i);
    ghost var s, e := m.vm, m.curenv.value;
    if i < PDX_UTOP { WindowIsWritable(s, e, i); } else { TemplateIsWritable(m.mem, s, m.base, e, i); }
    var r := m.TlbRefill(UVPT + i * BY2PG, {});
    assert m.vm == Fill(s, e, PDX_UVPT, i, {});
    LiveEnvFacts(m.envs, m.envFree, m.asidBitmap, m.born, m.birth, m.vm, e);
    var hit := Key(m.envs[m.curenv.value].asid, PDX_UVPT, i);
    assert Answers(m.vm, e, hit);
    OwnAnswer(m.vm, e, hit);
    ok := m.UserStore(PDX_UVPT, i, j, value, Some(hit));
  }

  lemma OwnAnswer(s: State, e: nat, k: Key)
    requires Inv(s) && Answers(s, e, k) && k.asid == s.asids[e]
    ensures Owner(s, e, k) == e
  {
  }

  /** _do_tlb_refill on the words in memory, whatever they are: page_lookup and tlbwr. */
  method Reload(m: Machine, pgdir: nat, asid: nat, pdx: nat, ptx: nat) returns (r: Option<Entry>)
    requires Shaped(m.mem) && pgdir < |m.mem| && pdx < TABLE_SIZE && ptx < TABLE_SIZE
    requires m.mem[pgdir][pdx].perm.v ==> m.mem[pgdir][pdx].frame < |m.mem|
    modifies m`tlb
    ensures r == Walk(m.mem, pgdir, pdx, ptx)
    ensures m.tlb == if r.Some? then old(m.tlb)[Key(asid, pdx, ptx) := r.value] else old(m.tlb)
  {
    r := Walk(m.mem, pgdir, pdx, ptx);
    if r.Some? {
      m.tlb := m.tlb[Key(asid, pdx, ptx) := r.value];
    }
  }

  /** What that is good for: a user stores the number g of a page of another environment f into its page table i, touches
      the page it has thereby mapped, and stores a value there. That value is what f now has in its page. */
  method WindowStoreSteals(m: Machine, i: nat, j: nat, g: nat, word: nat, value: Entry, ghost f: nat, ghost a: nat, ghost b: nat)
    requires m.ValidAll() && m.curenv.Some? && i < PDX_UTOP && j < TABLE_SIZE && word < TABLE_SIZE
    requires Table(m.curenv.value, i) in m.vm.refs && f != m.curenv.value
    requires Leaf(f, a, b) in m.vm.refs && m.vm.refs[Leaf(f, a, b)].frame == g
    modifies m
    ensures Dir(f) in old(m.vm).refs && Shaped(m.mem) && g < |m.mem| && a < TABLE_SIZE && b < TABLE_SIZE
    ensures var d := old(m.vm).refs[Dir(f)].frame;
      && d < |m.mem| && (m.mem[d][a].perm.v ==> m.mem[d][a].frame < |m.mem|)
      && Walk(m.mem, d, a, b) == Some(old(m.vm).refs[Leaf(f, a, b)]) && m.mem[g][word] == value
  {
    hide Inv, Refines, EnvsMatch, Lists;
    WindowAddress(i);
    ghost var s, e := m.vm, m.curenv.value;
    WindowIsWritable(s, e, i);
    var r := m.TlbRefill(UVPT + i * BY2PG, {});
    assert m.vm == Fill(s, e, PDX_UVPT, i, {});
    PageStolen(m.mem, m.vm, m.base, e, i, j, f, a, b, word, value);
    LiveEnvFacts(m.envs, m.envFree, m.asidBitmap, m.born, m.birth, m.vm, e);
    var env := m.envs[m.curenv.value];
    var hit := Key(env.asid, PDX_UVPT, i);
    assert Answers(m.vm, e, hit);
    var ok := m.UserStore(PDX_UVPT, i, j, Entry(g, PERM_VD), Some(hit));
    var pte := Reload(m, env.pgdir, env.asid, i, j);
    assert pte == Some(Entry(g, PERM_VD));
    var frame := m.tlb[Key(env.asid, i, j)].frame;
    m.mem := Poke(m.mem, frame, word, value);
  }

  /** A user that looks into its window at the page table of a kernel address makes the kernel allocate that table. The
      page is counted, but env_free looks only at the tables below UTOP and never gives it back. */
  method StrayTableLeaks(m: Machine, i: nat) returns (r: Result<Entry>)
    requires m.ValidAll() && m.curenv.Some? && PDX_UVPT < i < TABLE_SIZE && m.freeList != []
    modifies m
    ensures r.Ok? && !m.ValidAll() && m.freeList == old(m.freeList)[1..]
    ensures Leaked(old(m.vm), m.vm, m.ref, old(m.freeList)[0])
  {
    hide Inv, Refines, EnvsMatch, Lists;
    WindowAddress(i);
    r := m.TlbRefill(UVPT + i * BY2PG, {});
  }

  /** sys_mem_alloc(0, va, 0x1000) that gets an even page maps the page after it. That page is free, so the next
      sys_mem_unmap would decrement a count of 0. */
  method HighPermBreaks(m: Machine, va: nat) returns (r: Result<()>)
    requires m.ValidAll() && m.curenv.Some? && !IllegalVa(va)
    requires Table(m.curenv.value, PdxOf(va)) in m.vm.refs && Leaf(m.curenv.value, PdxOf(va), PtxOf(va)) !in m.vm.refs
    requires |m.freeList| > 1 && m.freeList[0] % 2 == 0 && m.freeList[0] + 1 in m.freeList
    modifies m
    ensures r.Ok? && !m.ValidAll()
    ensures var p := old(m.freeList)[0] + 1;
      && Get(m.vm.refs, Leaf(old(m.curenv).value, PdxOf(va), PtxOf(va))) == Some(Entry(p, PERM_V))
      && p < |m.ref| && m.ref[p] == 0
  {
    hide Inv, Refines, EnvsMatch, Lists, Allocated, Target, Or, PdxOf, PtxOf, Frames.Framed, PageTaken, ZeroPage, IllegalVa;
    ghost var s, e, l := m.vm, m.curenv.value, m.freeList;
    OwnTarget(m.envs, m.envFree, m.asidBitmap, m.born, m.birth, s, m.curenv, va);
    ghost var target := Target(m.envs, m.curenv, 0, va);
    assert m.curenv == Some(e) && target == Ok(e);
    var arg := PermArg(1, NO_PERM);
    r := m.SysMemAlloc(0, va, arg);
    assert Allocated(s, m.vm, l, target, va, arg, r);
    HighPermAllocated(s, m.vm, l, e, va, arg, r);
  }

  lemma OwnTarget(envs: seq<Env>, envFree: seq<nat>, bm: Bitmap.Words, born: seq<nat>, birth: map<nat, nat>, s: State,
                  curenv: Option<nat>, va: nat)
    requires EnvsMatch(envs, envFree, bm, born, birth, s) && curenv.Some? && curenv.value in s.asids && !IllegalVa(va)
    ensures Target(envs, curenv, 0, va) == Ok(curenv.value)
  {
    LiveEnvFacts(envs, envFree, bm, born, birth, s, curenv.value);
  }

  lemma HighPermAllocated(s: State, t: State, l: seq<nat>, e: nat, va: nat, arg: PermArg, r: Result<()>)
    requires Inv(s) && Lists(l, s.free) && e in s.asids && !IllegalVa(va)
    requires Table(e, PdxOf(va)) in s.refs && Leaf(e, PdxOf(va), PtxOf(va)) !in s.refs
    requires |l| > 1 && l[0] % 2 == 0 && l[0] + 1 in l
    requires arg == PermArg(1, NO_PERM) && Allocated(s, t, l, Ok(e), va, arg, r)
    ensures r.Ok? && !Inv(t) && Get(t.refs, Leaf(e, PdxOf(va), PtxOf(va))) == Some(Entry(l[0] + 1, PERM_V))
    ensures l[0] + 1 < |t.ref| && t.ref[l[0] + 1] == 0
  {
    hide Inv, Lists, Insertable, InsertRaw, Word, Or, PdxOf, PtxOf, Allocated, Mappable;
    NextFree(l, s);
    AllocatedIs(s, t, l, e, va, arg, r);
    HighBitMiscounts(Take(s, l[0]), Leaf(e, PdxOf(va), PtxOf(va)), l[0], NO_PERM, Top(l[1..]));
  }

  lemma AllocatedIs(s: State, t: State, l: seq<nat>, e: nat, va: nat, arg: PermArg, r: Result<()>)
    requires l != [] && Table(e, PdxOf(va)) in s.refs && Allocated(s, t, l, Ok(e), va, arg, r)
    ensures var x := Leaf(e, PdxOf(va), PtxOf(va));
      && r.Ok? && Inv(Take(s, l[0])) && Mappable(Take(s, l[0]), x) && Insertable(Take(s, l[0]), l[0])
      && Top(l[1..]) < |s.ref| && t == InsertRaw(Take(s, l[0]), x, l[0], Word(l[0], arg), Top(l[1..]))
  {
    hide Inv, Insertable, InsertRaw, Word, PdxOf, PtxOf;
  }

  lemma NextFree(l: seq<nat>, s: State)
    requires Inv(s) && Lists(l, s.free) && |l| > 1 && l[0] + 1 in l
    ensures l[0] + 1 in Take(s, l[0]).free
  {
  }
}
