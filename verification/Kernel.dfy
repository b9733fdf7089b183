/** The kernel's memory management: pages, page tables, TLB and environments, updated in place. */
module Kernel {
  import opened Options
  import opened Mmu
  import opened Vm
  import opened PageTables
  import opened EnvNames
  import opened Teardown
  import opened Frames
  import opened Words
  import opened Window
  import Bitmap

  // ----- the free list -----

  ghost predicate Lists(l: seq<nat>, ps: set<nat>) {
    && (forall p :: p in l <==> p in ps)
    && (forall i, j :: 0 <= i < j < |l| ==> l[i] != l[j])
  }

  lemma PopList(l: seq<nat>, ps: set<nat>)
    requires Lists(l, ps) && l != []
    ensures l[0] in ps && Lists(l[1..], ps - {l[0]})
  {
    assert l[0] in l;
    forall p ensures p in l[1..] <==> p in ps - {l[0]} {
      assert l == [l[0]] + l[1..];
      if p in l[1..] {
        var i :| 0 <= i < |l[1..]| && l[1..][i] == p;
        assert l[i + 1] == p;
      }
    }
  }

  lemma PushList(l: seq<nat>, ps: set<nat>, p: nat)
    requires Lists(l, ps) && p !in ps
    ensures Lists([p] + l, ps + {p})
  {
    forall i | 0 <= i < |l| ensures l[i] != p {
      assert l[i] in l;
    }
  }

  /** The page on top of the free list: the one page_alloc would take. */
  function Top(l: seq<nat>): nat {
    if l == [] then 0 else l[0]
  }

  /** What is not mapped is not cached. */
  lemma UnmappedNotCached(s: State, x: Site)
    requires Inv(s) && Mappable(s, x) && x !in s.refs
    ensures KeyOf(s, x) !in s.tlb
  {
    assert Translate(s, x.env, x.pdx, x.ptx) == None;
  }

  // ----- environments -----

  /** envs[], env_free_list and asid_bitmap describe exactly the live address spaces of `s`. */
  ghost predicate EnvsMatch(envs: seq<Env>, envFree: seq<nat>, bm: Bitmap.Words, born: seq<nat>,
                            birth: map<nat, nat>, s: State) {
    && Named(envs, born, birth)
    && birth.Keys == s.asids.Keys
    && LiveMatch(envs, s)
    && FreeMatch(envFree, s)
    && AsidsMatch(bm, s)
  }

  ghost predicate LiveMatch(envs: seq<Env>, s: State) {
    && |envs| == NENV
    && (forall e :: e in s.asids ==>
          && e < NENV && Dir(e) in s.refs
          && envs[e].asid == s.asids[e] && envs[e].pgdir == s.refs[Dir(e)].frame)
  }

  ghost predicate FreeMatch(envFree: seq<nat>, s: State) {
    && (forall e: nat :: e in envFree <==> e < NENV && e !in s.asids)
    && (forall i, j :: 0 <= i < j < |envFree| ==> envFree[i] != envFree[j])
  }

  ghost predicate AsidsMatch(bm: Bitmap.Words, s: State) {
    && Bitmap.Holds(bm, NASID)
    && (forall a :: a in s.asids.Values ==> a < NASID)
    && (forall a: nat :: a < NASID ==> (Bitmap.Bit(bm, a) <==> a in s.asids.Values))
  }

  lemma EnvsStay(envs: seq<Env>, envFree: seq<nat>, bm: Bitmap.Words, born: seq<nat>, birth: map<nat, nat>,
                 s: State, t: State)
    requires EnvsMatch(envs, envFree, bm, born, birth, s)
    requires t.asids == s.asids && forall e :: Dir(e) in s.refs ==> Get(t.refs, Dir(e)) == Some(s.refs[Dir(e)])
    ensures EnvsMatch(envs, envFree, bm, born, birth, t)
  {
    forall e | e in t.asids ensures Dir(e) in t.refs && t.refs[Dir(e)] == s.refs[Dir(e)] {
      assert Get(t.refs, Dir(e)) == Some(s.refs[Dir(e)]);
    }
  }

  /** mkenvid was called but the slot stays free. */
  lemma EnvsRenamed(envs: seq<Env>, envFree: seq<nat>, bm: Bitmap.Words, born: seq<nat>, birth: map<nat, nat>,
                    s: State, e: nat, env: Env)
    requires EnvsMatch(envs, envFree, bm, born, birth, s) && e < NENV && e !in s.asids && env.status == envs[e].status
    ensures EnvsMatch(envs[e := env], envFree, bm, born + [e], birth, s)
  {
    assert e !in birth;
  }

  lemma AdoptAsids(bm: Bitmap.Words, s: State, e: nat, p: nat, a: nat)
    requires AsidsMatch(bm, s) && e !in s.asids && a < NASID
    ensures AsidsMatch(Bitmap.Put(bm, a, true), Adopt(s, e, p, a))
  {
    Bitmap.PutBit(bm, NASID, a, true);
    var t := Adopt(s, e, p, a);
    forall b ensures b in t.asids.Values <==> b in s.asids.Values || b == a {
      if b in s.asids.Values {
        var f :| f in s.asids && s.asids[f] == b;
        assert f in t.asids && t.asids[f] == b;
      }
      assert e in t.asids && t.asids[e] == a;
    }
  }

  lemma RetireAsids(bm: Bitmap.Words, s: State, t: State, e: nat)
    requires AsidsMatch(bm, s) && AsidsDistinct(s) && e in s.asids && t.asids == s.asids - {e}
    ensures s.asids[e] < NASID
    ensures AsidsMatch(Bitmap.Put(bm, s.asids[e], false), t)
  {
    assert s.asids[e] in s.asids.Values;
    Bitmap.PutBit(bm, NASID, s.asids[e], false);
    forall b ensures b in t.asids.Values <==> b in s.asids.Values && b != s.asids[e] {
      if b in s.asids.Values && b != s.asids[e] {
        var f :| f in s.asids && s.asids[f] == b;
        assert f in t.asids && t.asids[f] == b;
      }
    }
  }

  lemma EnvsAdopted(envs: seq<Env>, envFree: seq<nat>, bm: Bitmap.Words, born: seq<nat>, birth: map<nat, nat>,
                    s: State, p: nat, a: nat, parent: nat)
    requires EnvsMatch(envs, envFree, bm, born, birth, s) && envFree != [] && a < NASID
    requires born != [] && born[|born| - 1] == envFree[0] && envFree[0] < NENV
    requires envs[envFree[0]].id == EnvId(|born|, envFree[0])
    ensures |envs| == NENV
    ensures var e := envFree[0];
      EnvsMatch(envs[e := envs[e].(asid := a, pgdir := p, parent := parent)], envFree[1..],
                Bitmap.Put(bm, a, true), born, birth[e := |born| - 1], Adopt(s, e, p, a))
  {
    hide AsidsMatch, FreeMatch, LiveMatch, Named;
    var e := envFree[0];
    FreeAdopted(envFree, s, e, p, a);
    AdoptAsids(bm, s, e, p, a);
    LiveAdopted(envs, s, e, p, a, parent);
    NamedAdopted(envs, born, birth, e, envs[e].(asid := a, pgdir := p, parent := parent));
  }

  lemma LiveAdopted(envs: seq<Env>, s: State, e: nat, p: nat, a: nat, parent: nat)
    requires LiveMatch(envs, s) && e < NENV && e !in s.asids
    ensures |envs| == NENV
    ensures LiveMatch(envs[e := envs[e].(asid := a, pgdir := p, parent := parent)], Adopt(s, e, p, a))
  {
  }

  lemma NamedAdopted(envs: seq<Env>, born: seq<nat>, birth: map<nat, nat>, e: nat, env: Env)
    requires Named(envs, born, birth) && e < NENV && e !in birth
    requires born != [] && born[|born| - 1] == e && env.id == EnvId(|born|, e)
    ensures Named(envs[e := env], born, birth[e := |born| - 1])
  {
  }

  lemma LiveReleased(envs: seq<Env>, s: State, t: State, e: nat)
    requires LiveMatch(envs, s) && Released(s, t, e)
    ensures |envs| == NENV && e < NENV && envs[e].asid == s.asids[e]
    ensures LiveMatch(envs[e := envs[e].(status := Free)], t)
  {
    hide Kept;
  }

  lemma NamedReleased(envs: seq<Env>, born: seq<nat>, birth: map<nat, nat>, e: nat)
    requires Named(envs, born, birth) && e < NENV
    ensures Named(envs[e := envs[e].(status := Free)], born, birth - {e})
  {
  }

  lemma FreeAdopted(envFree: seq<nat>, s: State, e: nat, p: nat, a: nat)
    requires FreeMatch(envFree, s) && envFree != [] && e == envFree[0]
    ensures e !in s.asids && FreeMatch(envFree[1..], Adopt(s, e, p, a))
  {
    assert e in envFree;
    var others := set f | f in envFree;
    assert Lists(envFree, others);
    PopList(envFree, others);
  }

  lemma FreeReleased(envFree: seq<nat>, s: State, t: State, e: nat)
    requires FreeMatch(envFree, s) && e in s.asids && e < NENV && t.asids == s.asids - {e}
    ensures FreeMatch([e] + envFree, t)
  {
    forall i | 0 <= i < |envFree| ensures envFree[i] != e {
      assert envFree[i] in envFree;
    }
  }

  lemma EnvsReleased(envs: seq<Env>, envFree: seq<nat>, bm: Bitmap.Words, born: seq<nat>, birth: map<nat, nat>,
                     s: State, t: State, e: nat)
    requires EnvsMatch(envs, envFree, bm, born, birth, s) && AsidsDistinct(s) && Released(s, t, e)
    ensures |envs| == NENV && e < NENV && envs[e].asid < NASID
    ensures EnvsMatch(envs[e := envs[e].(status := Free)], [e] + envFree, Bitmap.Put(bm, envs[e].asid, false),
                      born, birth - {e}, t)
  {
    hide AsidsMatch, FreeMatch, LiveMatch, Named, Kept, AsidsDistinct;
    LiveReleased(envs, s, t, e);
    RetireAsids(bm, s, t, e);
    FreeReleased(envFree, s, t, e);
    NamedReleased(envs, born, birth, e);
  }

  datatype WalkResult = NoMemory | NoTable | TableAt(frame: nat)

  class Machine {
    /** pages[i].pp_ref */
    var ref: seq<nat>
    /** page_free_list */
    var freeList: seq<nat>
    /** physical memory */
    var mem: Memory
    var tlb: map<Key, Entry>
    /** base_pgdir */
    const base: nat

    var envs: seq<Env>
    /** env_free_list */
    var envFree: seq<nat>
    var asidBitmap: Bitmap.Words
    /** the static counter of mkenvid */
    var idCount: nat
    var curenv: Option<nat>

    ghost var vm: State
    ghost var born: seq<nat>
    ghost var birth: map<nat, nat>

    ghost predicate Valid()
      reads this
    {
      && Inv(vm)
      && vm.ref == ref && vm.tlb == tlb
      && Lists(freeList, vm.free)
      && Refines(mem, vm, base)
    }

    ghost predicate ValidAll()
      reads this
    {
      && Valid()
      && EnvsMatch(envs, envFree, asidBitmap, born, birth, vm)
      && idCount == |born|
      && (curenv.Some? ==> curenv.value in vm.asids)
    }

    /** `pgdir` and `asid` belong to live environment `e`. */
    ghost predicate Owns(e: nat, pgdir: nat, asid: nat)
      reads this
    {
      && e in vm.asids && vm.asids[e] == asid
      && Dir(e) in vm.refs && vm.refs[Dir(e)].frame == pgdir
    }

    /** The kernel as page_init and env_init leave it: boot pages pinned, no environment alive. */
    constructor (base: nat, mem: Memory, ref: seq<nat>, freeList: seq<nat>, ghost s: State)
      requires BootState(s) && s.ref == ref && Lists(freeList, s.free)
      requires |mem| == |ref| && Shaped(mem) && TemplateMatches(mem, s, base)
      ensures ValidAll() && vm == s && curenv == None && this.freeList == freeList && this.ref == ref
      ensures envFree == seq(NENV, i => i)
    {
      this.base, this.mem, this.ref, this.freeList := base, mem, ref, freeList;
      tlb, vm, idCount, curenv, born, birth := map[], s, 0, None, [], map[];
      asidBitmap := seq(2, _ => seq(32, _ => false));
      envs := seq(NENV, _ => Env(0, 0, 0, 0, Free));
      envFree := [];
      new;
      for i := NENV downto 0
        invariant envFree == seq(NENV - i, k => i + k)
        invariant this.base == base && this.mem == mem && this.ref == ref && this.freeList == freeList
        invariant tlb == map[] && vm == s && idCount == 0 && curenv == None && born == [] && birth == map[]
        invariant asidBitmap == seq(2, _ => seq(32, _ => false))
        invariant envs == seq(NENV, _ => Env(0, 0, 0, 0, Free))
      {
        envFree := [i] + envFree;
      }
      BootInv(s);
      BootEnvs(envs, envFree, asidBitmap, s);
    }

    method PageAlloc() returns (r: Option<nat>)
      requires Valid()
      modifies `freeList, `mem, `vm
      ensures Valid()
      ensures r.None? <==> old(freeList) == []
      ensures r.None? ==> freeList == old(freeList) && mem == old(mem) && vm == old(vm)
      ensures r.Some? ==>
        && r.value == Top(old(freeList)) && r.value in old(vm).free && r.value < |mem| == |old(mem)|
        && freeList == old(freeList)[1..]
        && mem == old(mem)[r.value := ZeroPage()]
        && vm == Take(old(vm), r.value)
      ensures Framed(old(vm), old(mem), vm, mem, if r.Some? then {r.value} else {})
    {
      FramedSame(vm, mem);
      if freeList == [] {
        return None;
      }
      var pp := freeList[0];
      PopList(freeList, vm.free);
      TakeKeepsInv(vm, pp);
      NoHolders(vm, pp);
      DataWrite(mem, vm, Take(vm, pp), base, pp, ZeroPage());
      TakeTables(vm, pp);
      FramedWrite(vm, mem, Take(vm, pp), pp, ZeroPage(), {pp});
      freeList := freeList[1..];
      mem := mem[pp := ZeroPage()];
      vm := Take(vm, pp);
      return Some(pp);
    }

    method PageFree(pp: nat)
      requires pp < |ref| && ref[pp] == 0
      modifies `freeList
      ensures freeList == [pp] + old(freeList)
    {
      freeList := [pp] + freeList;
    }

    method PageDecref(pp: nat)
      requires pp < |ref| && ref[pp] > 0
      modifies `ref, `freeList
      ensures ref == old(ref)[pp := old(ref)[pp] - 1]
      ensures freeList == if old(ref)[pp] == 1 then [pp] + old(freeList) else old(freeList)
    {
      ref := ref[pp := ref[pp] - 1];
      if ref[pp] == 0 {
        PageFree(pp);
      }
    }

    method TlbInvalidate(asid: nat, pdx: nat, ptx: nat)
      modifies `tlb
      ensures tlb == old(tlb) - {Key(asid, pdx, ptx)}
    {
      tlb := tlb - {Key(asid, pdx, ptx)};
    }

    /** page_lookup on any virtual page, the UVPT window included. */
    method PageLookup(ghost e: nat, pgdir: nat, pdx: nat, ptx: nat) returns (r: Option<Entry>)
      requires Valid() && e in vm.asids && Dir(e) in vm.refs && vm.refs[Dir(e)].frame == pgdir
      requires pdx < TABLE_SIZE && ptx < TABLE_SIZE
      ensures r == Translate(vm, e, pdx, ptx)
    {
      WalkIsTranslate(mem, vm, base, e, pdx, ptx);
      r := Walk(mem, pgdir, pdx, ptx);
    }

    method PgdirWalk(ghost e: nat, pgdir: nat, pdx: nat, create: bool) returns (r: WalkResult)
      requires Valid() && pdx < PDX_UTOP && e in vm.asids && Dir(e) in vm.refs && vm.refs[Dir(e)].frame == pgdir
      modifies `ref, `freeList, `mem, `vm
      ensures Valid()
      ensures Table(e, pdx) in old(vm).refs ==> r == TableAt(old(vm).refs[Table(e, pdx)].frame)
      ensures Table(e, pdx) !in old(vm).refs && !create ==> r == NoTable
      ensures Table(e, pdx) !in old(vm).refs && create && old(freeList) == [] ==> r == NoMemory
      ensures Table(e, pdx) in old(vm).refs || !create || old(freeList) == [] ==>
        vm == old(vm) && mem == old(mem) && freeList == old(freeList) && ref == old(ref)
      ensures Table(e, pdx) !in old(vm).refs && create && old(freeList) != [] ==>
        && r == TableAt(old(freeList)[0]) && old(freeList)[0] in old(vm).free
        && freeList == old(freeList)[1..]
        && vm == WithTable(old(vm), e, pdx, old(freeList)[0])
      ensures Framed(old(vm), old(mem), vm, mem, if create then TableTaken(old(vm), e, pdx, old(freeList)) else {})
    {
      FramedSame(vm, mem);
      DirWordReads(mem, vm, base, e, pdx);
      if mem[pgdir][pdx].perm.v {
        return TableAt(mem[pgdir][pdx].frame);
      }
      if !create {
        return NoTable;
      }
      r := NewTable(e, pgdir, pdx);
    }

    /** The part of pgdir_walk that allocates a page table and links it into the directory. */
    method NewTable(ghost e: nat, pgdir: nat, pdx: nat) returns (r: WalkResult)
      requires Valid() && pdx < PDX_UTOP && e in vm.asids && Dir(e) in vm.refs && vm.refs[Dir(e)].frame == pgdir
      requires Table(e, pdx) !in vm.refs
      modifies `ref, `freeList, `mem, `vm
      ensures Valid()
      ensures old(freeList) == [] ==>
        r == NoMemory && vm == old(vm) && mem == old(mem) && freeList == old(freeList) && ref == old(ref)
      ensures old(freeList) != [] ==>
        && r == TableAt(old(freeList)[0]) && old(freeList)[0] in old(vm).free
        && freeList == old(freeList)[1..]
        && vm == WithTable(old(vm), e, pdx, old(freeList)[0])
      ensures Framed(old(vm), old(mem), vm, mem, TableTaken(old(vm), e, pdx, old(freeList)))
    {
      hide Inv, Refines, Lists, Framed;
      ghost var was := vm;
      var page := PageAlloc();
      if page.None? {
        return NoMemory;
      }
      var pp := page.value;
      NewTableWrite(mem, was, base, e, pdx, pp);
      NewTableFrames(mem, vm, base, e, pdx, pp);
      FramedTrans(was, old(mem), vm, mem, Link(vm, Table(e, pdx), Entry(pp, PERM_VD)),
                  mem[pgdir := mem[pgdir][pdx := Entry(pp, PERM_VD)]], {pp}, {pp}, {pp});
      mem := mem[pgdir := mem[pgdir][pdx := Entry(pp, PERM_VD)]];
      ref := ref[pp := ref[pp] + 1];
      vm := Link(vm, Table(e, pdx), Entry(pp, PERM_VD));
      return TableAt(pp);
    }

    method PageRemove(ghost e: nat, pgdir: nat, asid: nat, pdx: nat, ptx: nat)
      requires Valid() && Owns(e, pgdir, asid) && pdx < PDX_UTOP && ptx < TABLE_SIZE
      modifies `ref, `freeList, `mem, `tlb, `vm
      ensures Valid()
      ensures vm == Remove(old(vm), Leaf(e, pdx, ptx))
      ensures Leaf(e, pdx, ptx) !in old(vm).refs ==> freeList == old(freeList)
      ensures Framed(old(vm), old(mem), vm, mem, {})
    {
      hide Inv, Refines, Lists, Framed, TablesFrom;
      MemorySize(mem, vm, base);
      FramedSame(vm, mem);
      var pte := PageLookup(e, pgdir, pdx, ptx);
      ghost var x := Leaf(e, pdx, ptx);
      assert pte == Get(vm.refs, x);
      if pte.None? {
        return;
      }
      PteSlot(mem, vm, base, x);
      RemoveStep(mem, vm, base, x);
      RemoveList(vm, x, freeList);
      var table := mem[pgdir][pdx].frame;
      ghost var next := Unlink(vm, x);
      UnlinkTables(vm, x);
      TableWriteFrames(vm, mem, next, Table(e, pdx), ptx, ZERO_ENTRY);
      PageDecref(pte.value.frame);
      mem := mem[table := mem[table][ptx := ZERO_ENTRY]];
      TlbInvalidate(asid, pdx, ptx);
      vm := next;
    }

    /** page_insert, with the perm argument as it comes. The invariant survives exactly when the word stored names
        the page and the 16-bit count can be raised. */
    method PageInsert(ghost e: nat, pgdir: nat, asid: nat, pp: nat, pdx: nat, ptx: nat, arg: PermArg)
      returns (r: Result<()>)
      requires Valid() && Owns(e, pgdir, asid) && pdx < PDX_UTOP && ptx < TABLE_SIZE && Insertable(vm, pp)
      modifies `ref, `freeList, `mem, `tlb, `vm
      ensures Valid() <==> r.Err? || Sound(old(vm), Leaf(e, pdx, ptx), pp, Word(pp, arg))
      ensures r.Err? <==> Table(e, pdx) !in old(vm).refs && old(freeList) == []
      ensures r.Err? ==>
        && r.error == NoMem && vm == old(vm)
        && ref == old(ref) && freeList == old(freeList) && mem == old(mem) && tlb == old(tlb)
      ensures r.Ok? ==>
        && Top(old(freeList)) < |old(ref)|
        && (Table(e, pdx) !in old(vm).refs ==> Top(old(freeList)) in old(vm).free)
        && vm == InsertRaw(old(vm), Leaf(e, pdx, ptx), pp, Word(pp, arg), Top(old(freeList)))
        && AsAsked(Translate(vm, e, pdx, ptx), pp, arg)
      ensures vm.ref == ref && vm.tlb == tlb && Framed(old(vm), old(mem), vm, mem, TableTaken(old(vm), e, pdx, old(freeList)))
    {
      hide Inv, Refines, Lists, Insertable, Framed, TablesFrom, InsertRaw, LinkRaw, RepermRaw, Remove;
      MemorySize(mem, vm, base);
      FramedSame(vm, mem);
      ghost var x := Leaf(e, pdx, ptx);
      ghost var was := vm;
      TopInRange(freeList, vm, pp);
      LeafWordReads(mem, vm, base, x);
      InsertCases(vm, x, pp, Word(pp, arg), Top(freeList));
      InsertAsAsked(vm, x, pp, arg, Top(freeList));
      hide AsAsked, Translate;
      var w := PgdirWalk(e, pgdir, pdx, false);
      if w.TableAt? && mem[w.frame][ptx].perm.v {
        if mem[w.frame][ptx].frame != pp {
          RemoveOther(e, pgdir, asid, pp, pdx, ptx);
        } else {
          Repermit(e, pgdir, asid, w.frame, pdx, ptx, Word(pp, arg));
          return Ok(());
        }
      }
      UnmappedNotCached(vm, x);
      TlbInvalidate(asid, pdx, ptx);
      assert tlb == vm.tlb;
      ghost var mid, memMid, l := vm, mem, freeList;
      r := InsertNew(e, pgdir, pp, pdx, ptx, Word(pp, arg));
      FramedTrans(was, old(mem), mid, memMid, vm, mem, {}, TableTaken(mid, e, pdx, l), TableTaken(mid, e, pdx, l));
    }

    /** The part of page_insert for another page that is mapped there. */
    method RemoveOther(ghost e: nat, pgdir: nat, asid: nat, ghost pp: nat, pdx: nat, ptx: nat)
      requires Valid() && Owns(e, pgdir, asid) && pdx < PDX_UTOP && ptx < TABLE_SIZE && Insertable(vm, pp)
      requires Leaf(e, pdx, ptx) in vm.refs && vm.refs[Leaf(e, pdx, ptx)].frame != pp
      modifies `ref, `freeList, `mem, `tlb, `vm
      ensures Valid() && vm == Remove(old(vm), Leaf(e, pdx, ptx)) && Insertable(vm, pp)
      ensures pp < |old(vm).ref| == |vm.ref| && vm.ref[pp] == old(vm).ref[pp]
      ensures Owns(e, pgdir, asid) && Leaf(e, pdx, ptx) !in vm.refs
      ensures Table(e, pdx) in old(vm).refs && Table(e, pdx) in vm.refs
      ensures Framed(old(vm), old(mem), vm, mem, {})
    {
      hide Inv, Refines, Lists, Insertable, Framed, Remove;
      InsertAfterRemove(vm, Leaf(e, pdx, ptx), pp);
      PageRemove(e, pgdir, asid, pdx, ptx);
    }

    /** The part of page_insert for a page that is mapped there already. */
    method Repermit(ghost e: nat, ghost pgdir: nat, asid: nat, table: nat, pdx: nat, ptx: nat, w: Entry)
      requires Valid() && Owns(e, pgdir, asid) && pdx < PDX_UTOP && ptx < TABLE_SIZE && w.perm.v
      requires Leaf(e, pdx, ptx) in vm.refs && Table(e, pdx) in vm.refs && vm.refs[Table(e, pdx)].frame == table
      modifies `mem, `tlb, `vm
      ensures vm == RepermRaw(old(vm), Leaf(e, pdx, ptx), w) && vm.ref == ref && vm.tlb == tlb
      ensures Valid() <==> w.frame == old(vm).refs[Leaf(e, pdx, ptx)].frame
      ensures Framed(old(vm), old(mem), vm, mem, {})
    {
      hide Inv, Refines, Lists, Framed, TablesFrom;
      ghost var x := Leaf(e, pdx, ptx);
      MemorySize(mem, vm, base);
      RepermStep(mem, vm, base, x, w);
      RepermTables(vm, x, w);
      TableWriteFrames(vm, mem, RepermRaw(vm, x, w), Table(e, pdx), ptx, w);
      TlbInvalidate(asid, pdx, ptx);
      mem := mem[table := mem[table][ptx := w]];
      vm := RepermRaw(vm, x, w);
    }

    /** The rest of page_insert once the virtual page is unmapped. */
    method InsertNew(ghost e: nat, pgdir: nat, pp: nat, pdx: nat, ptx: nat, en: Entry) returns (r: Result<()>)
      requires Valid() && e in vm.asids && Dir(e) in vm.refs && vm.refs[Dir(e)].frame == pgdir
      requires pdx < PDX_UTOP && ptx < TABLE_SIZE && Leaf(e, pdx, ptx) !in vm.refs
      requires Insertable(vm, pp) && en.perm.v
      modifies `ref, `freeList, `mem, `vm
      ensures Valid() <==> r.Err? || Sound(old(vm), Leaf(e, pdx, ptx), pp, en)
      ensures r.Err? <==> Table(e, pdx) !in old(vm).refs && old(freeList) == []
      ensures r.Err? ==>
        r.error == NoMem && vm == old(vm) && ref == old(ref) && freeList == old(freeList) && mem == old(mem)
      ensures r.Ok? ==>
        && Top(old(freeList)) < |old(ref)|
        && vm == LinkRaw(WithTable(old(vm), e, pdx, Top(old(freeList))), Leaf(e, pdx, ptx), pp, en)
      ensures vm.ref == ref && vm.tlb == tlb && Framed(old(vm), old(mem), vm, mem, TableTaken(old(vm), e, pdx, old(freeList)))
    {
      hide Inv, Refines, Lists, Insertable, Linkable, Framed, TablesFrom;
      TopInRange(freeList, vm, pp);
      ghost var was, top := vm, Top(freeList);
      var w := PgdirWalk(e, pgdir, pdx, true);
      if w.NoMemory? {
        return Err(NoMem);
      }
      assert vm == WithTable(was, e, pdx, top);
      ghost var x := Leaf(e, pdx, ptx);
      LinkStep(mem, was, vm, base, x, pp, en, top);
      LinkTables(vm, x, pp, en);
      MemorySize(mem, vm, base);
      TableWriteFrames(vm, mem, LinkRaw(vm, x, pp, en), Table(e, pdx), ptx, en);
      FramedTrans(was, old(mem), vm, mem, LinkRaw(vm, x, pp, en), mem[w.frame := mem[w.frame][ptx := en]],
                  TableTaken(was, e, pdx, old(freeList)), {}, TableTaken(was, e, pdx, old(freeList)));
      mem := mem[w.frame := mem[w.frame][ptx := en]];
      ref := ref[pp := (ref[pp] + 1) % COUNT_LIMIT];
      vm := LinkRaw(vm, x, pp, en);
      return Ok(());
    }

    method AsidAlloc() returns (r: Option<nat>)
      requires Bitmap.Holds(asidBitmap, NASID)
      modifies `asidBitmap
      ensures Bitmap.Holds(old(asidBitmap), NASID)
      ensures r.None? ==> asidBitmap == old(asidBitmap) && forall a: nat :: a < NASID ==> Bitmap.Bit(asidBitmap, a)
      ensures r.Some? ==>
        && r.value < NASID && !Bitmap.Bit(old(asidBitmap), r.value)
        && (forall a: nat :: a < r.value ==> Bitmap.Bit(old(asidBitmap), a))
        && asidBitmap == Bitmap.Put(old(asidBitmap), r.value, true)
    {
      for i := 0 to NASID
        invariant asidBitmap == old(asidBitmap)
        invariant forall a: nat :: a < i ==> Bitmap.Bit(asidBitmap, a)
      {
        if !Bitmap.Bit(asidBitmap, i) {
          asidBitmap := Bitmap.Put(asidBitmap, i, true);
          return Some(i);
        }
      }
      return None;
    }

    /** env_setup_vm: returns the directory page. */
    method EnvSetupVm() returns (r: Option<nat>)
      requires Valid()
      modifies `ref, `freeList, `mem, `vm
      ensures Valid()
      ensures r.None? <==> old(freeList) == []
      ensures r.None? ==> vm == old(vm) && mem == old(mem) && ref == old(ref) && freeList == old(freeList)
      ensures r.Some? ==>
        && r.value == old(freeList)[0] && r.value in old(vm).free && r.value < |old(ref)|
        && vm == PinDir(old(vm), r.value) && ReadyDir(mem, vm, base, r.value)
      ensures Framed(old(vm), old(mem), vm, mem, if r.Some? then {r.value} else {})
    {
      hide Inv, Refines, Lists, ReadyDir, Framed;
      ghost var was := vm;
      var page := PageAlloc();
      if page.None? {
        return None;
      }
      var p := page.value;
      SetupStep(mem, was, base, p);
      ref := ref[p := ref[p] + 1];
      var template := mem[base][PDX_UTOP..PDX_UVPT];
      var pgdir := ZeroPage()[..PDX_UTOP] + template + [Entry(p, PERM_V)] + ZeroPage()[PDX_UVPT + 1..];
      assert pgdir == FreshDir(mem, base, p);
      PinFrames(mem, vm, base, p, pgdir);
      FramedTrans(was, old(mem), vm, mem, PinDir(was, p), mem[p := pgdir], {p}, {p}, {p});
      mem := mem[p := pgdir];
      vm := PinDir(was, p);
      return Some(p);
    }

    method EnvAlloc(parent: nat) returns (r: Result<nat>)
      requires ValidAll()
      modifies this
      ensures ValidAll() && curenv == old(curenv)
      ensures idCount <= old(idCount) + 1
      ensures r.Ok? ==>
        && old(envFree) != [] && r.value == old(envFree)[0] < |envs| && envFree == old(envFree)[1..]
        && idCount == old(idCount) + 1 && envs[r.value].id == EnvId(idCount, r.value)
        && envs[r.value].parent == parent
        && envs[r.value].asid !in old(vm).asids.Values
        && old(freeList) != [] && old(freeList)[0] in old(vm).free && old(freeList)[0] < |old(ref)|
        && vm == Adopt(PinDir(old(vm), old(freeList)[0]), r.value, old(freeList)[0], envs[r.value].asid)
        && (forall k :: k in tlb && k.asid == envs[r.value].asid ==> !IsPrivate(k.pdx, k.ptx))
      ensures r.Err? && (old(envFree) == [] || old(freeList) == []) ==> vm == old(vm) && idCount == old(idCount)
      ensures r.Err? && old(envFree) != [] && old(freeList) != [] ==>
        && (forall a: nat :: a < NASID ==> a in old(vm).asids.Values)
        && old(freeList)[0] < |old(ref)| && vm == PinDir(old(vm), old(freeList)[0])
      ensures r.Err? ==> r.error == if old(envFree) != [] && old(freeList) == [] then NoMem else NoFreeEnv
      ensures r.Err? && (old(envFree) == [] || old(freeList) == []) ==> mem == old(mem)
      ensures Framed(old(vm), old(mem), vm, mem, if old(freeList) == [] then {} else {old(freeList)[0]})
    {
      hide Inv, Refines, Lists, EnvsMatch, ReadyDir, AsidsMatch, Framed;
      MemorySize(mem, vm, base);
      FramedSame(vm, mem);
      if envFree == [] {
        FramedTrans(vm, mem, vm, mem, vm, mem, {}, {}, if freeList == [] then {} else {freeList[0]});
        return Err(NoFreeEnv);
      }
      FreeEnvFacts(envs, envFree, asidBitmap, born, birth, vm);
      var e := envFree[0];
      ghost var s0 := vm;
      var page := EnvSetupVm();
      if page.None? {
        return Err(NoMem);
      }
      PinDirs(s0, page.value);
      EnvsStay(envs, envFree, asidBitmap, born, birth, s0, vm);
      FreeEnvFacts(envs, envFree, asidBitmap, born, birth, vm);
      idCount := idCount + 1;
      EnvsRenamed(envs, envFree, asidBitmap, born, birth, vm, e, envs[e].(id := EnvId(idCount, e), pgdir := page.value));
      envs := envs[e := envs[e].(id := EnvId(idCount, e), pgdir := page.value)];
      born := born + [e];
      ghost var mid := vm;
      r := BindAsid(e, page.value, parent);
      FramedTrans(s0, old(mem), mid, mem, vm, mem, {page.value}, {}, {page.value});
    }

    /** The second half of env_alloc: an ASID for the named environment. */
    method BindAsid(e: nat, p: nat, parent: nat) returns (r: Result<nat>)
      requires ValidAll() && ReadyDir(mem, vm, base, p)
      requires envFree != [] && e == envFree[0] < NENV && e !in vm.asids
      requires born != [] && born[|born| - 1] == e && envs[e].id == EnvId(|born|, e)
      modifies `asidBitmap, `envs, `envFree, `vm, `birth
      ensures ValidAll()
      ensures r.Err? ==>
        && r.error == NoFreeEnv && vm == old(vm) && envs == old(envs) && envFree == old(envFree)
        && forall a: nat :: a < NASID ==> a in old(vm).asids.Values
      ensures r.Ok? ==>
        && r.value == e < |envs| && envFree == old(envFree)[1..]
        && envs[e].id == old(envs)[e].id && envs[e].parent == parent
        && envs[e].asid !in old(vm).asids.Values
        && vm == Adopt(old(vm), e, p, envs[e].asid)
        && (forall k :: k in tlb && k.asid == envs[e].asid ==> !IsPrivate(k.pdx, k.ptx))
      ensures Framed(old(vm), mem, vm, mem, {})
    {
      hide Inv, Refines, Lists, EnvsMatch, ReadyDir, AsidsMatch, Framed, IsPrivate, EnvId, Bitmap.Put;
      MemorySize(mem, vm, base);
      FramedSame(vm, mem);
      FreeEnvFacts(envs, envFree, asidBitmap, born, birth, vm);
      ghost var bm := asidBitmap;
      var asid := AsidAlloc();
      if asid.None? {
        FullAsids(bm, vm);
        return Err(NoFreeEnv);
      }
      Attach(e, p, asid.value, parent, bm);
      return Ok(e);
    }

    /** The end of env_alloc: the environment gets its ASID and directory and leaves the free list. */
    method Attach(e: nat, p: nat, asid: nat, parent: nat, ghost bm: Bitmap.Words)
      requires Valid() && EnvsMatch(envs, envFree, bm, born, birth, vm) && ReadyDir(mem, vm, base, p)
      requires idCount == |born| && (curenv.Some? ==> curenv.value in vm.asids)
      requires asid < NASID && Bitmap.Holds(bm, NASID) && !Bitmap.Bit(bm, asid) && asidBitmap == Bitmap.Put(bm, asid, true)
      requires |envs| == NENV && envFree != [] && e == envFree[0] < NENV && e !in vm.asids
      requires born != [] && born[|born| - 1] == e && envs[e].id == EnvId(|born|, e)
      modifies `envs, `envFree, `vm, `birth
      ensures ValidAll()
      ensures e < |envs| && envFree == old(envFree)[1..]
      ensures envs[e].id == old(envs)[e].id && envs[e].parent == parent && envs[e].asid == asid && asid !in old(vm).asids.Values
      ensures vm == Adopt(old(vm), e, p, asid)
      ensures forall k :: k in tlb && k.asid == asid ==> !IsPrivate(k.pdx, k.ptx)
      ensures Framed(old(vm), mem, vm, mem, {})
    {
      hide Inv, Refines, Lists, EnvsMatch, ReadyDir, AsidsMatch, Framed, IsPrivate, EnvId, Bitmap.Put;
      FreeEnvFacts(envs, envFree, bm, born, birth, vm);
      FreshAsid(bm, vm, asid);
      AdoptStep(mem, vm, base, e, p, asid);
      ReadyFrames(mem, vm, base, e, p, asid);
      EnvsAdopted(envs, envFree, bm, born, birth, vm, p, asid, parent);
      envs := envs[e := envs[e].(asid := asid, pgdir := p, parent := parent)];
      envFree := envFree[1..];
      vm := Adopt(vm, e, p, asid);
      birth := birth[e := |born| - 1];
    }

    /** One page table of env_free: all its pages, then the table itself. */
    method FreeTable(ghost s0: State, ghost m0: Memory, ghost e: nat, pgdir: nat, asid: nat, pdeno: nat)
      requires Valid() && Owns(e, pgdir, asid) && pdeno < PDX_UTOP
      requires Progress(s0, vm, e, pdeno, 0) && Table(e, pdeno) in vm.refs && Framed(s0, m0, vm, mem, {})
      modifies `ref, `freeList, `mem, `tlb, `vm
      ensures Valid() && Owns(e, pgdir, asid) && Progress(s0, vm, e, pdeno + 1, 0) && Framed(s0, m0, vm, mem, {})
    {
      hide Inv, Refines, Lists, Progress, Framed, TablesFrom;
      DirWordReads(mem, vm, base, e, pdeno);
      DirInMemory(mem, vm, base, e);
      var pa := mem[pgdir][pdeno].frame;
      for pteno := 0 to TABLE_SIZE
        invariant Valid() && Owns(e, pgdir, asid) && Progress(s0, vm, e, pdeno, pteno)
        invariant Table(e, pdeno) in vm.refs && vm.refs[Table(e, pdeno)].frame == pa
        invariant Framed(s0, m0, vm, mem, {})
      {
        LeafWordReads(mem, vm, base, Leaf(e, pdeno, pteno));
        ProgressLeaf(s0, vm, e, pdeno, pteno);
        RemoveChanges(vm, Leaf(e, pdeno, pteno));
        assert Get(Remove(vm, Leaf(e, pdeno, pteno)).refs, Table(e, pdeno)) == Get(vm.refs, Table(e, pdeno));
        assert Get(Remove(vm, Leaf(e, pdeno, pteno)).refs, Dir(e)) == Get(vm.refs, Dir(e));
        if mem[pa][pteno].perm.v {
          ghost var now, memNow := vm, mem;
          PageRemove(e, pgdir, asid, pdeno, pteno);
          FramedTrans(s0, m0, now, memNow, vm, mem, {}, {}, {});
        }
      }
      DropTableStep(mem, s0, vm, base, e, pdeno);
      RemoveList(vm, Table(e, pdeno), freeList);
      ghost var next := Unlink(vm, Table(e, pdeno));
      MemorySize(mem, vm, base);
      UnlinkTables(vm, Table(e, pdeno));
      TableWriteFrames(vm, mem, next, Dir(e), pdeno, ZERO_ENTRY);
      FramedTrans(s0, m0, vm, mem, next, mem[pgdir := mem[pgdir][pdeno := ZERO_ENTRY]], {}, {}, {});
      mem := mem[pgdir := mem[pgdir][pdeno := ZERO_ENTRY]];
      PageDecref(pa);
      TlbInvalidate(asid, PDX_UVPT, pdeno);
      vm := next;
    }

    method EnvFree(e: nat)
      requires Valid() && EnvsMatch(envs, envFree, asidBitmap, born, birth, vm) && e in vm.asids
      modifies `ref, `freeList, `mem, `tlb, `vm, `envs, `envFree, `asidBitmap, `birth
      ensures Valid() && EnvsMatch(envs, envFree, asidBitmap, born, birth, vm)
      ensures Released(old(vm), vm, e)
      ensures envFree == [e] + old(envFree) && |old(envs)| == NENV && e < NENV
      ensures envs == old(envs)[e := old(envs)[e].(status := Free)]
      ensures Framed(old(vm), old(mem), vm, mem, {})
    {
      hide Inv, Refines, Lists, Progress, Released, EnvsMatch, Framed;
      ghost var s0 := vm;
      LiveEnvFacts(envs, envFree, asidBitmap, born, birth, vm, e);
      var pgdir, asid := envs[e].pgdir, envs[e].asid;
      FreeTables(e, pgdir, asid);
      ProgressEnd(s0, vm, e);
      ghost var next := Retire(vm, e);
      DistinctAsids(s0);
      EnvsReleased(envs, envFree, asidBitmap, born, birth, s0, next, e);
      ghost var mid := vm;
      FreeDir(e, pgdir, asid);
      FramedTrans(s0, old(mem), mid, mem, vm, mem, {}, {}, {});
      asidBitmap := Bitmap.Put(asidBitmap, asid, false);
      envs := envs[e := envs[e].(status := Free)];
      envFree := [e] + envFree;
      birth := birth - {e};
    }

    /** The outer loop of env_free. */
    method FreeTables(ghost e: nat, pgdir: nat, asid: nat)
      requires Valid() && Owns(e, pgdir, asid)
      modifies `ref, `freeList, `mem, `tlb, `vm
      ensures Valid() && Owns(e, pgdir, asid) && Progress(old(vm), vm, e, PDX_UTOP, 0)
      ensures Framed(old(vm), old(mem), vm, mem, {})
    {
      hide Inv, Refines, Lists, Progress, Framed;
      ghost var s0, m0 := vm, mem;
      MemorySize(mem, vm, base);
      FramedSame(vm, mem);
      ProgressStart(vm, e);
      for pdeno := 0 to PDX_UTOP
        invariant Valid() && Owns(e, pgdir, asid) && Progress(s0, vm, e, pdeno, 0) && Framed(s0, m0, vm, mem, {})
      {
        DirWordReads(mem, vm, base, e, pdeno);
        DirInMemory(mem, vm, base, e);
        if !mem[pgdir][pdeno].perm.v {
          ProgressNoTable(s0, vm, e, pdeno);
        } else {
          FreeTable(s0, m0, e, pgdir, asid, pdeno);
        }
      }
    }

    /** The directory page and its window entry. */
    method FreeDir(ghost e: nat, pgdir: nat, asid: nat)
      requires Valid() && Owns(e, pgdir, asid) && Retirable(vm, e)
      requires pgdir < |vm.ref| && vm.ref[pgdir] > 0
      modifies `ref, `freeList, `tlb, `vm
      ensures Valid() && vm == Retire(old(vm), e) && Framed(old(vm), mem, vm, mem, {})
    {
      hide Inv, Refines, Lists, Retirable, Framed, TablesFrom;
      RetireStep(mem, vm, base, e);
      RemoveList(vm, Dir(e), freeList);
      ghost var next := Retire(vm, e);
      MemorySize(mem, vm, base);
      RetireTables(vm, e);
      FramedState(vm, mem, next, {});
      PageDecref(pgdir);
      TlbInvalidate(asid, PDX_UVPT, PDX_UVPT);
      vm := next;
    }

    // ----- TLB refill and user stores -----

    /** env_run, as far as memory goes: the switch flushes nothing, since entries are told apart by ASID. */
    method EnvRun(e: nat)
      requires ValidAll() && e in vm.asids
      modifies `curenv
      ensures ValidAll() && curenv == Some(e) && HitsOwn(vm, e)
      ensures RefillsKeepHitsFresh(vm) <==> GlobalsAgree(vm)
    {
      hide Inv, Refines, EnvsMatch, Lists, HitsOwn, RefillsKeepHitsFresh, GlobalsAgree;
      curenv := Some(e);
      OwnHitsFresh(vm, e);
      GlobalHitsFreshIff(vm);
    }

    /** _do_tlb_refill followed by tlbwr, which may overwrite any other entries (`evicted`). A page that is not mapped is
        allocated first, in the UVPT window too. The invariant survives exactly unless that page has become a table for
        kernel addresses. */
    method TlbRefill(va: nat, evicted: set<Key>) returns (r: Result<Entry>)
      requires ValidAll() && curenv.Some? && va < U32
      modifies `ref, `freeList, `mem, `tlb, `vm
      ensures ValidAll() <==> r.Err? || !Stray(va)
      ensures !Stray(va) ==> Refilled(old(vm), vm, old(curenv).value, PdxOf(va), PtxOf(va), evicted, r)
      ensures Framed(old(vm), old(mem), vm, mem, PageTaken(old(vm), old(curenv).value, PdxOf(va), old(freeList)))
      ensures r.Err? <==>
        Translate(old(vm), old(curenv).value, PdxOf(va), PtxOf(va)).None? && !CanAlloc(old(vm), old(freeList), old(curenv).value, va)
      ensures Translate(old(vm), old(curenv).value, PdxOf(va), PtxOf(va)).Some? ==> mem == old(mem)
      ensures Translate(old(vm), old(curenv).value, PdxOf(va), PtxOf(va)).None? && r.Ok? ==>
        r.value.frame < |mem| && mem[r.value.frame] == ZeroPage()
      ensures Stray(va) && r.Ok? ==>
        && r.value == Entry(Top(old(freeList)), PERM_VD) && old(freeList) != [] && freeList == old(freeList)[1..]
        && Leaked(old(vm), vm, ref, Top(old(freeList)))
    {
      hide Inv, Refines, Lists, EnvsMatch, Framed, Leaked, Walk, Stray;
      MemorySize(mem, vm, base);
      FramedSame(vm, mem);
      var e := curenv.value;
      LiveEnvFacts(envs, envFree, asidBitmap, born, birth, vm, e);
      var pgdir, asid := envs[e].pgdir, envs[e].asid;
      var pdx, ptx := PdxOf(va), PtxOf(va);
      ghost var taken := PageTaken(vm, e, pdx, freeList);
      FramedTrans(vm, mem, vm, mem, vm, mem, {}, {}, taken);
      StrayUnmapped(mem, vm, base, e, va);
      var pte := PageLookup(e, pgdir, pdx, ptx);
      while pte.None?
        invariant pte.Some? ==> !Stray(va)
        invariant ValidAll() && Owns(e, pgdir, asid) && pte == Translate(vm, e, pdx, ptx)
        invariant pte.None? ==> vm == old(vm) && mem == old(mem) && freeList == old(freeList)
        invariant Translate(old(vm), e, pdx, ptx).Some? ==> vm == old(vm) && mem == old(mem)
        invariant pte.Some? && Translate(old(vm), e, pdx, ptx).None? ==>
          && pte.value.perm == PERM_VD && pte.value.frame in old(vm).free
          && pte.value.frame < |mem| && mem[pte.value.frame] == ZeroPage()
        invariant Framed(old(vm), old(mem), vm, mem, taken)
        invariant pte.Some? && Translate(old(vm), e, pdx, ptx).None? ==> CanAlloc(old(vm), old(freeList), e, va)
        decreases if pte.None? then 1 else 0
      {
        var ok := PassiveAlloc(va, e, pgdir, asid);
        if !ok {
          return Err(Panic);
        }
        if Stray(va) { // the same lookup, in a directory that the invariant no longer describes
          pte := Walk(mem, pgdir, pdx, ptx);
          tlb := (tlb - evicted)[Key(asid, pdx, ptx) := pte.value];
          return Ok(pte.value);
        }
        pte := PageLookup(e, pgdir, pdx, ptx);
      }
      ghost var s, m := vm, mem;
      WriteTlb(e, asid, pdx, ptx, pte.value, evicted);
      FramedTrans(old(vm), old(mem), s, m, vm, mem, taken, {}, taken);
      r := Ok(pte.value);
    }

    /** tlbwr, which may overwrite any other entries. */
    method WriteTlb(ghost e: nat, asid: nat, pdx: nat, ptx: nat, pte: Entry, evicted: set<Key>)
      requires ValidAll() && e in vm.asids && vm.asids[e] == asid && Translate(vm, e, pdx, ptx) == Some(pte)
      modifies `tlb, `vm
      ensures ValidAll() && vm == Fill(old(vm), e, pdx, ptx, evicted) && Framed(old(vm), mem, vm, mem, {})
    {
      hide Inv, Refines, Lists, EnvsMatch, Framed, TablesFrom;
      ghost var s := vm;
      FillKeepsInv(vm, e, pdx, ptx, evicted);
      FillRefines(mem, vm, base, e, pdx, ptx, evicted);
      FillTables(vm, e, pdx, ptx, evicted);
      MemorySize(mem, vm, base);
      FramedState(vm, mem, Fill(vm, e, pdx, ptx, evicted), {});
      tlb := (tlb - evicted)[Key(asid, pdx, ptx) := pte];
      vm := Fill(vm, e, pdx, ptx, evicted);
      EnvsStay(envs, envFree, asidBitmap, born, birth, s, vm);
    }

    /** passive_alloc; false stands for a kernel panic. */
    method PassiveAlloc(va: nat, ghost e: nat, pgdir: nat, asid: nat) returns (ok: bool)
      requires ValidAll() && Owns(e, pgdir, asid) && curenv == Some(e) && va < U32
      requires Translate(vm, e, PdxOf(va), PtxOf(va)).None?
      modifies `ref, `freeList, `mem, `tlb, `vm
      ensures Owns(e, pgdir, asid)
      ensures ValidAll() <==> !ok || !Stray(va)
      ensures ok <==> CanAlloc(old(vm), old(freeList), e, va)
      ensures ok ==>
        && (!Stray(va) ==> Translate(vm, e, PdxOf(va), PtxOf(va)) == Some(Entry(Top(old(freeList)), PERM_VD)))
        && Top(old(freeList)) in old(vm).free
        && Top(old(freeList)) < |mem| && mem[Top(old(freeList))] == ZeroPage()
      ensures ok && Stray(va) ==>
        && CanWalk(mem, pgdir, PdxOf(va)) && Walk(mem, pgdir, PdxOf(va), PtxOf(va)) == Some(Entry(Top(old(freeList)), PERM_VD))
        && freeList == old(freeList)[1..] && Leaked(old(vm), vm, ref, Top(old(freeList))) && !Refines(mem, vm, base)
      ensures ok && UVPT <= va && !Stray(va) ==>
        Top(old(freeList)) < |old(vm).ref| && vm == WithTable(old(vm), e, PtxOf(va), Top(old(freeList)))
      ensures Framed(old(vm), old(mem), vm, mem, PageTaken(old(vm), e, PdxOf(va), old(freeList)))
    {
      hide Inv, Refines, Lists, EnvsMatch, Insertable, Framed, Leaked, Walk, CanWalk;
      MemorySize(mem, vm, base);
      FramedSame(vm, mem);
      FramedTrans(vm, mem, vm, mem, vm, mem, {}, {}, PageTaken(vm, e, PdxOf(va), freeList));
      if va < UTEMP || (USTACKTOP <= va < USTACKTOP + BY2PG) || (UENVS <= va < UPAGES) || (UPAGES <= va < UVPT) || va >= ULIM {
        return false;
      }
      if va >= UVPT { // page_insert finds the directory in the place of a page table
        PdxInWindow(va);
        assert PageTaken(vm, e, PdxOf(va), freeList) == if freeList == [] then {} else {Top(freeList)};
        ok := WindowAlloc(e, pgdir, asid, PtxOf(va));
        return;
      }
      ghost var s0, l := vm, freeList;
      var page := PageAlloc();
      if page.None? {
        TakeDirs(s0, 0);
        return false;
      }
      TakeDirs(s0, page.value);
      EnvsStay(envs, envFree, asidBitmap, born, birth, s0, vm);
      TakenInsertable(s0, page.value);
      ghost var s1, m1, top := vm, mem, Top(freeList);
      PdxBelowUtop(va);
      OrZero(page.value);
      var r := PageInsert(e, pgdir, asid, page.value, PdxOf(va), PtxOf(va), PermArg(0, NO_PERM.(d := true)));
      FramedTrans(s0, old(mem), s1, m1, vm, mem, {page.value}, TableTaken(s1, e, PdxOf(va), l[1..]),
                  PageTaken(s0, e, PdxOf(va), l));
      StaysZero(s0, l, e, PdxOf(va), m1, vm, mem);
      if r.Ok? {
        InsertRawChanges(s1, Leaf(e, PdxOf(va), PtxOf(va)), page.value, Word(page.value, PermArg(0, NO_PERM.(d := true))), top);
        InsertDirs(s1, vm, e, Leaf(e, PdxOf(va), PtxOf(va)));
        EnvsStay(envs, envFree, asidBitmap, born, birth, s1, vm);
      }
      return r.Ok?;
    }

    /** passive_alloc in the UVPT window: the directory word i is what page_insert takes for a table word, so the fresh
        page becomes page table i of the environment, with its count right. From word 512 on it is a table that nobody
        uses and env_free does not know. */
    method WindowAlloc(ghost e: nat, pgdir: nat, asid: nat, i: nat) returns (ok: bool)
      requires ValidAll() && Owns(e, pgdir, asid) && i < TABLE_SIZE && Translate(vm, e, PDX_UVPT, i).None?
      modifies `ref, `freeList, `mem, `tlb, `vm
      ensures Owns(e, pgdir, asid)
      ensures ok <==> old(freeList) != []
      ensures !ok ==> ValidAll() && vm == old(vm) && mem == old(mem)
      ensures ok ==>
        && Top(old(freeList)) in old(vm).free && Top(old(freeList)) < |old(vm).ref| && freeList == old(freeList)[1..]
        && Top(old(freeList)) < |mem| && mem[Top(old(freeList))] == ZeroPage()
      ensures ok && i <= PDX_UVPT ==> ValidAll() && i < PDX_UTOP && vm == WithTable(old(vm), e, i, Top(old(freeList)))
      ensures ok && i > PDX_UVPT ==>
        && !Refines(mem, vm, base) && Leaked(old(vm), vm, ref, Top(old(freeList)))
        && CanWalk(mem, pgdir, PDX_UVPT) && Walk(mem, pgdir, PDX_UVPT, i) == Some(Entry(Top(old(freeList)), PERM_VD))
      ensures Framed(old(vm), old(mem), vm, mem, if ok then {Top(old(freeList))} else {})
    {
      hide Inv, Refines, Lists, EnvsMatch, Framed;
      ghost var was := vm;
      MemorySize(mem, vm, base);
      FramedSame(vm, mem);
      WindowGap(mem, vm, base, e, i);
      NotCached(vm, e, PDX_UVPT, i);
      var page := PageAlloc();
      if page.None? {
        return false;
      }
      var p := page.value;
      TakeDirs(was, p);
      EnvsStay(envs, envFree, asidBitmap, born, birth, was, vm);
      ghost var m1, s1 := mem, vm;
      WindowPut(was, e, pgdir, asid, i, p);
      FramedTrans(was, old(mem), s1, m1, vm, mem, {p}, {p}, {p});
      return true;
    }

    /** The part of it after the page is taken. */
    method WindowPut(ghost was: State, ghost e: nat, pgdir: nat, asid: nat, i: nat, p: nat)
      requires ValidAll() && Inv(was) && p in was.free && vm == Take(was, p) && Owns(e, pgdir, asid) && i < TABLE_SIZE
      requires p < |mem| && mem[p] == ZeroPage() && Key(asid, PDX_UVPT, i) !in tlb
      requires (i < PDX_UTOP && Table(e, i) !in was.refs) || i > PDX_UVPT
      modifies `ref, `mem, `tlb, `vm
      ensures Owns(e, pgdir, asid) && p < |was.ref| && p < |mem| && mem[p] == ZeroPage()
      ensures i <= PDX_UVPT ==> ValidAll() && vm == WithTable(was, e, i, p)
      ensures i > PDX_UVPT ==>
        && !Refines(mem, vm, base) && Leaked(was, vm, ref, p)
        && CanWalk(mem, pgdir, PDX_UVPT) && Walk(mem, pgdir, PDX_UVPT, i) == Some(Entry(p, PERM_VD))
      ensures Framed(old(vm), old(mem), vm, mem, {p})
    {
      hide Inv, Refines, Lists, EnvsMatch, Framed;
      WindowWord(mem, was, base, e, i, p);
      WindowFrames(mem, was, vm, base, e, i, p);
      WindowNextFacts(was, e, i, p);
      hide WindowNext, Take, Link, WithTable, Translate, Walk;
      EnvsStay(envs, envFree, asidBitmap, born, birth, vm, WindowNext(vm, e, i, p));
      var table := mem[pgdir][PDX_UVPT].frame;
      TlbInvalidate(asid, PDX_UVPT, i);
      mem := mem[table := mem[table][i := Entry(p, PERM_VD)]];
      ref := ref[p := (ref[p] + 1) % COUNT_LIMIT];
      vm := WindowNext(vm, e, i, p);
    }

    /** A store by the running environment, anywhere below ULIM. The TLB answers with `hit`: an entry of its own ASID, or a
        global one of anybody, and if several match, any of them. The store lands in the page that the owner of the
        entry has mapped there, if that is writable. In the UVPT window that is a page table, and the tables survive exactly
        if the word is not changed in meaning. */
    method UserStore(pdx: nat, ptx: nat, word: nat, value: Entry, hit: Option<Key>) returns (ok: bool)
      requires ValidAll() && curenv.Some? && pdx <= PDX_UVPT && ptx < TABLE_SIZE && word < TABLE_SIZE
      requires Looked(vm, curenv.value, pdx, ptx, hit)
      modifies `mem
      ensures Stored(vm, old(mem), mem, hit, word, value, ok)
      ensures ok ==> AnswersFor(vm, curenv.value, Owner(vm, curenv.value, hit.value), hit.value)
      ensures ValidAll() <==> !ok || SafeStore(vm, Owner(vm, old(curenv).value, hit.value), pdx, ptx, word, value)
    {
      hide Inv, Refines, Lists, EnvsMatch, Owner;
      if hit.None? || !tlb[hit.value].perm.d {
        return false;
      }
      var f := tlb[hit.value].frame;
      ghost var owner := Owner(vm, curenv.value, hit.value);
      OwnerAnswers(vm, curenv.value, hit.value);
      StoreKeepsIff(mem, vm, base, owner, pdx, ptx, word, value);
      mem := mem[f := mem[f][word := value]];
      return true;
    }

    // ----- system calls -----

    /** sys_mem_alloc, for any perm; the invariant survives exactly when perm does not change the page number. */
    method SysMemAlloc(envid: nat, va: nat, arg: PermArg) returns (r: Result<()>)
      requires ValidAll() && curenv.Some?
      modifies `ref, `freeList, `mem, `tlb, `vm
      ensures Allocated(old(vm), vm, old(freeList), Target(envs, curenv, envid, va), va, arg, r) && vm.ref == ref && vm.tlb == tlb
      ensures r.Ok? ==> old(freeList) != [] && old(freeList)[0] < |mem| && mem[old(freeList)[0]] == ZeroPage()
      ensures AllocPlain(envs, curenv.value, envid, old(vm), vm, old(freeList), va, arg, r)
      ensures Target(envs, curenv, envid, va).Err? ==> mem == old(mem)
      ensures Stranger(envs, curenv.value, envid) ==> mem == old(mem)
      ensures AllocFramed(old(vm), old(mem), vm, mem, Target(envs, curenv, envid, va), PdxOf(va), old(freeList))
      ensures ValidAll() <==> r.Err? || Or(Top(old(freeList)), arg.hi) == Top(old(freeList))
    {
      hide Inv, Refines, Lists, EnvsMatch, Insertable, Framed, AllocPlain, MayActOn, Stranger;
      LiveEnvFacts(envs, envFree, asidBitmap, born, birth, vm, curenv.value);
      StrangerRefused(envs, curenv.value, envid, va);
      AllocatedPlainly(envs, curenv.value, envid, vm, freeList, va, arg);
      if IllegalVa(va) {
        return Err(Inval);
      }
      var env := Resolve(envs, curenv, envid, true);
      if env.Err? {
        return Err(env.error);
      }
      var e := env.value;
      ResolvedIsLive(envs, envFree, asidBitmap, born, birth, vm, curenv, envid, true);
      LiveEnvFacts(envs, envFree, asidBitmap, born, birth, vm, e);
      ghost var s0, l := vm, freeList;
      var page := PageAlloc();
      if page.None? {
        return Err(NoMem);
      }
      TakeDirs(s0, page.value);
      EnvsStay(envs, envFree, asidBitmap, born, birth, s0, vm);
      TakenInsertable(s0, page.value);
      PdxBelowUtop(va);
      ghost var s1, m1 := vm, mem;
      r := MapPage(e, page.value, va, arg);
      FramedTrans(s0, old(mem), s1, m1, vm, mem, {page.value}, TableTaken(s1, e, PdxOf(va), l[1..]),
                  PageTaken(s0, e, PdxOf(va), l));
      StaysZero(s0, l, e, PdxOf(va), m1, vm, mem);
    }

    /** page_insert into the address space of a resolved environment. */
    method MapPage(e: nat, pp: nat, va: nat, arg: PermArg) returns (r: Result<()>)
      requires ValidAll() && e in vm.asids && va < UTOP && PdxOf(va) < PDX_UTOP && Insertable(vm, pp)
      modifies `ref, `freeList, `mem, `tlb, `vm
      ensures ValidAll() <==> r.Err? || Sound(old(vm), Leaf(e, PdxOf(va), PtxOf(va)), pp, Word(pp, arg))
      ensures Mapped(old(vm), vm, old(freeList), e, pp, va, arg, r) && vm.ref == ref && vm.tlb == tlb
      ensures r.Ok? ==> AsAsked(Translate(vm, e, PdxOf(va), PtxOf(va)), pp, arg)
      ensures Framed(old(vm), old(mem), vm, mem, TableTaken(old(vm), e, PdxOf(va), old(freeList)))
    {
      hide Inv, Refines, Lists, EnvsMatch, Insertable, Framed;
      TopInRange(freeList, vm, pp);
      LiveEnvFacts(envs, envFree, asidBitmap, born, birth, vm, e);
      ghost var s, top := vm, Top(freeList);
      ghost var x := Leaf(e, PdxOf(va), PtxOf(va));
      r := PageInsert(e, envs[e].pgdir, envs[e].asid, pp, PdxOf(va), PtxOf(va), arg);
      if r.Ok? {
        InsertRawChanges(s, x, pp, Word(pp, arg), top);
        InsertDirs(s, vm, e, x);
        EnvsStay(envs, envFree, asidBitmap, born, birth, s, vm);
      }
    }

    /** sys_mem_map, for any perm; the invariant survives exactly when perm does not change the page number and the
        count of the source page can be raised. */
    method SysMemMap(srcid: nat, srcva: nat, dstid: nat, dstva: nat, arg: PermArg) returns (r: Result<()>)
      requires ValidAll() && curenv.Some?
      modifies `ref, `freeList, `mem, `tlb, `vm
      ensures Shared(old(vm), vm, old(freeList), Target(envs, curenv, srcid, srcva), srcva,
                     Target(envs, curenv, dstid, dstva), dstva, arg, r) && vm.ref == ref && vm.tlb == tlb
      ensures MapPlain(envs, curenv.value, srcid, srcva, dstid, dstva, old(vm), vm, arg, r)
      ensures Target(envs, curenv, dstid, dstva).Err? ==> mem == old(mem)
      ensures Stranger(envs, curenv.value, dstid) ==> mem == old(mem)
      ensures MapFramed(old(vm), old(mem), vm, mem, Target(envs, curenv, dstid, dstva), PdxOf(dstva), old(freeList))
      ensures ValidAll() <==>
        (r.Ok? ==> SharedSoundly(old(vm), Target(envs, curenv, srcid, srcva), srcva, Target(envs, curenv, dstid, dstva), dstva, arg))
    {
      hide Inv, Refines, Lists, EnvsMatch, Insertable, Framed, MapPlain, MayActOn, Stranger;
      LiveEnvFacts(envs, envFree, asidBitmap, born, birth, vm, curenv.value);
      StrangerRefused(envs, curenv.value, dstid, dstva);
      SharedPlainly(envs, curenv.value, srcid, srcva, dstid, dstva, vm, freeList, arg);
      MemorySize(mem, vm, base);
      FramedSame(vm, mem);
      ghost var target := Target(envs, curenv, dstid, dstva);
      if target.Ok? {
        FramedTrans(vm, mem, vm, mem, vm, mem, {}, {}, TableTaken(vm, target.value, PdxOf(dstva), freeList));
      }
      if IllegalVa(srcva) || IllegalVa(dstva) {
        return Err(Inval);
      }
      var src := Resolve(envs, curenv, srcid, true);
      if src.Err? {
        return Err(src.error);
      }
      var dst := Resolve(envs, curenv, dstid, true);
      if dst.Err? {
        return Err(dst.error);
      }
      ResolvedIsLive(envs, envFree, asidBitmap, born, birth, vm, curenv, srcid, true);
      ResolvedIsLive(envs, envFree, asidBitmap, born, birth, vm, curenv, dstid, true);
      LiveEnvFacts(envs, envFree, asidBitmap, born, birth, vm, src.value);
      PdxBelowUtop(srcva);
      PdxBelowUtop(dstva);
      var pte := PageLookup(src.value, envs[src.value].pgdir, PdxOf(srcva), PtxOf(srcva));
      if pte.None? {
        return Err(Inval);
      }
      LeafInsertable(vm, Leaf(src.value, PdxOf(srcva), PtxOf(srcva)));
      r := MapPage(dst.value, pte.value.frame, dstva, arg);
    }

    method SysMemUnmap(envid: nat, va: nat) returns (r: Result<()>)
      requires ValidAll() && curenv.Some?
      modifies `ref, `freeList, `mem, `tlb, `vm
      ensures ValidAll()
      ensures Unmapped(old(vm), vm, Target(envs, curenv, envid, va), va, r)
      ensures UnmapPlain(envs, curenv.value, envid, old(vm), vm, va, r)
      ensures Stranger(envs, curenv.value, envid) ==> mem == old(mem)
      ensures Framed(old(vm), old(mem), vm, mem, {})
    {
      hide Inv, Refines, Lists, EnvsMatch, Framed, UnmapPlain, MayActOn, Stranger;
      LiveEnvFacts(envs, envFree, asidBitmap, born, birth, vm, curenv.value);
      StrangerRefused(envs, curenv.value, envid, va);
      UnmappedPlainly(envs, curenv.value, envid, vm, va);
      MemorySize(mem, vm, base);
      FramedSame(vm, mem);
      if IllegalVa(va) {
        return Err(Inval);
      }
      var env := Resolve(envs, curenv, envid, true);
      if env.Err? {
        return Err(env.error);
      }
      var e := env.value;
      ResolvedIsLive(envs, envFree, asidBitmap, born, birth, vm, curenv, envid, true);
      LiveEnvFacts(envs, envFree, asidBitmap, born, birth, vm, e);
      PdxBelowUtop(va);
      ghost var s, x := vm, Leaf(e, PdxOf(va), PtxOf(va));
      PageRemove(e, envs[e].pgdir, envs[e].asid, PdxOf(va), PtxOf(va));
      RemoveChanges(s, x);
      InsertDirs(s, vm, e, x);
      EnvsStay(envs, envFree, asidBitmap, born, birth, s, vm);
      r := Ok(());
    }

    /** sys_exofork, as far as memory and names go: returns the child's slot. */
    method SysExofork() returns (r: Result<nat>)
      requires ValidAll() && curenv.Some?
      modifies this
      ensures ValidAll() && curenv == old(curenv)
      ensures r.Ok? ==>
        && r.value !in old(vm).asids && r.value < |envs|
        && envs[r.value].status == NotRunnable && envs[r.value].id == EnvId(old(idCount) + 1, r.value)
        && Get(vm.asids, r.value) == Some(envs[r.value].asid) && envs[r.value].asid !in old(vm).asids.Values
        && old(curenv).value < |old(envs)| && envs[r.value].parent == old(envs)[old(curenv).value].id
        && (forall k :: k in tlb && k.asid == envs[r.value].asid ==> !IsPrivate(k.pdx, k.ptx))
        && vm.asids == old(vm).asids[r.value := envs[r.value].asid]
      ensures r.Err? ==> r.error == if old(envFree) != [] && old(freeList) == [] then NoMem else NoFreeEnv
      ensures r.Err? ==> vm.asids == old(vm).asids
      ensures Framed(old(vm), old(mem), vm, mem, if old(freeList) == [] then {} else {old(freeList)[0]})
    {
      hide Inv, Refines, Lists, EnvsMatch, Framed;
      LiveEnvFacts(envs, envFree, asidBitmap, born, birth, vm, curenv.value);
      if envFree != [] {
        FreeEnvFacts(envs, envFree, asidBitmap, born, birth, vm);
      }
      var id := envs[curenv.value].id;
      r := EnvAlloc(id);
      if r.Ok? {
        StatusSet(envs, envFree, asidBitmap, born, birth, vm, r.value, NotRunnable);
        envs := envs[r.value := envs[r.value].(status := NotRunnable)];
      }
    }

    /** sys_env_destroy, as far as memory and names go. */
    method SysEnvDestroy(envid: nat) returns (r: Result<nat>)
      requires ValidAll() && curenv.Some?
      modifies this
      ensures ValidAll()
      ensures |old(envs)| == NENV && old(curenv).value < NENV && r == Resolve(old(envs), old(curenv), envid, true)
      ensures r.Err? ==> vm == old(vm) && envs == old(envs) && curenv == old(curenv) && mem == old(mem)
      ensures r.Err? <==> Stranger(old(envs), old(curenv).value, envid)
      ensures r.Ok? ==> MayActOn(old(envs), old(curenv).value, envid, r.value)
      ensures r.Ok? ==>
        && Released(old(vm), vm, r.value)
        && curenv == if old(curenv) == Some(r.value) then None else old(curenv)
      ensures Framed(old(vm), old(mem), vm, mem, {})
    {
      hide Inv, Refines, Lists, EnvsMatch, Kept, Framed;
      MemorySize(mem, vm, base);
      FramedSame(vm, mem);
      LiveEnvFacts(envs, envFree, asidBitmap, born, birth, vm, curenv.value);
      r := Resolve(envs, curenv, envid, true);
      ResolveIff(envs, curenv.value, envid, if r.Ok? then r.value else 0);
      hide MayActOn, Stranger;
      if r.Err? {
        return;
      }
      ResolvedIsLive(envs, envFree, asidBitmap, born, birth, vm, curenv, envid, true);
      EnvFree(r.value);
      if curenv == Some(r.value) {
        curenv := None;
      }
    }
  }

  /** Whatever page_insert does to the counts, the virtual page now is the page asked for with the bits asked for. */
  lemma InsertAsAsked(s: State, x: Site, pp: nat, arg: PermArg, t: nat)
    requires Inv(s) && Mappable(s, x) && Insertable(s, pp) && t < |s.ref|
    ensures AsAsked(Translate(InsertRaw(s, x, pp, Word(pp, arg), t), x.env, x.pdx, x.ptx), pp, arg)
  {
    InsertRawChanges(s, x, pp, Word(pp, arg), t);
    WordAsAsked(pp, arg);
    hide Inv, AsAsked, InsertRaw, Word;
  }

  lemma InsertCases(s: State, x: Site, p: nat, w: Entry, t: nat)
    requires Inv(s) && Mappable(s, x) && Insertable(s, p) && t < |s.ref|
    ensures |Remove(s, x).ref| == |s.ref| && (x !in s.refs ==> Remove(s, x) == s)
    ensures InsertRaw(s, x, p, w, t) ==
      if x in s.refs && s.refs[x].frame == p then RepermRaw(s, x, w)
      else LinkRaw(WithTable(Remove(s, x), x.env, x.pdx, t), x, p, w)
  {
  }

  /** Every TLB entry under the ASID of environment e is its own current translation. */
  ghost predicate HitsOwn(s: State, e: nat) {
    e in s.asids && forall pdx, ptx {:trigger Translate(s, e, pdx, ptx)} :: Key(s.asids[e], pdx, ptx) in s.tlb ==>
      Translate(s, e, pdx, ptx) == Some(s.tlb[Key(s.asids[e], pdx, ptx)])
  }

  lemma OwnHitsFresh(s: State, e: nat)
    requires Inv(s) && e in s.asids
    ensures HitsOwn(s, e)
  {
    hide Inv;
    forall pdx, ptx | Key(s.asids[e], pdx, ptx) in s.tlb
      ensures Translate(s, e, pdx, ptx) == Some(s.tlb[Key(s.asids[e], pdx, ptx)])
    {
      HitIsTranslation(s, e, pdx, ptx);
    }
  }

  /** When passive_alloc does not panic: outside the forbidden zones, with a page, and another for a missing table. */
  predicate CanAlloc(s: State, l: seq<nat>, e: nat, va: nat) {
    && !(va < UTEMP || USTACKTOP <= va < USTACKTOP + BY2PG || UTOP <= va < UVPT || va >= ULIM)
    && l != [] && (va >= UVPT || Table(e, PdxOf(va)) in s.refs || l[1..] != [])
  }

  /** The zones in numbers: nothing below UTEMP, nothing in the page above the stack, nothing from UENVS up to the window,
      nothing of the kernel's. */
  lemma ZonesRefused(s: State, l: seq<nat>, e: nat, va: nat)
    ensures CanAlloc(s, l, e, va) ==>
      && 0x3f_e000 <= va < 0x8000_0000
      && !(0x7f3f_e000 <= va < 0x7f3f_f000) && !(0x7f40_0000 <= va < 0x7fc0_0000) && |l| > 0
    ensures 0x3f_e000 <= va < 0x7f3f_e000 || 0x7f3f_f000 <= va < 0x7f40_0000 || 0x7fc0_0000 <= va < 0x8000_0000 ==>
      |l| > 1 ==> CanAlloc(s, l, e, va)
  {
  }

  /** A fresh page, and perhaps the next one for its table. */
  function PageTaken(s: State, e: nat, pdx: nat, l: seq<nat>): set<nat> {
    if l == [] then {} else {l[0]} + (if pdx < PDX_UTOP then TableTaken(s, e, pdx, l[1..]) else {})
  }

  /** sys_mem_alloc keeps every data page but the new one and the one for its table. */
  ghost predicate AllocFramed(s: State, m: Memory, t: State, m': Memory, target: Result<nat>, pdx: nat, l: seq<nat>) {
    target.Ok? ==> Framed(s, m, t, m', PageTaken(s, target.value, pdx, l))
  }

  /** sys_mem_map keeps every data page but the one for a missing table. */
  ghost predicate MapFramed(s: State, m: Memory, t: State, m': Memory, target: Result<nat>, pdx: nat, l: seq<nat>) {
    target.Ok? ==> Framed(s, m, t, m', TableTaken(s, target.value, pdx, l))
  }

  /** An address in the UVPT window whose page is a page table for kernel addresses. */
  predicate Stray(va: nat) {
    UVPT <= va < ULIM && PtxOf(va) > PDX_UVPT
  }

  /** Page p has left the free list and has the count 1, but no reference that the kernel knows names it. */
  ghost predicate Leaked(s0: State, s: State, ref: seq<nat>, p: nat) {
    && p in s0.free && p !in s.free && p < |ref| && ref[p] == 1 && s.refs == s0.refs
    && forall x :: x in s.refs ==> s.refs[x].frame != p
  }

  ghost predicate CanWalk(mem: Memory, pgdir: nat, pdx: nat) {
    Shaped(mem) && pgdir < |mem| && pdx < TABLE_SIZE && (mem[pgdir][pdx].perm.v ==> mem[pgdir][pdx].frame < |mem|)
  }

  /** What passive_alloc makes of the state when it has taken page p for the window page i. */
  ghost function WindowNext(s: State, e: nat, i: nat, p: nat): State
    requires p < |s.ref|
  {
    if i < PDX_UTOP then Link(s, Table(e, i), Entry(p, PERM_VD)) else s
  }

  lemma WindowNextFacts(was: State, e: nat, i: nat, p: nat)
    requires p < |was.ref| && was.ref[p] == 0 && forall x :: x in was.refs ==> was.refs[x].frame != p
    requires (i < PDX_UTOP && Table(e, i) !in was.refs) || i > PDX_UVPT
    ensures var t := WindowNext(Take(was, p), e, i, p);
      && t.asids == was.asids && t.free == Take(was, p).free && t.tlb == was.tlb && p !in t.free
      && (forall f :: Dir(f) in was.refs ==> Get(t.refs, Dir(f)) == Some(was.refs[Dir(f)]))
      && (i < PDX_UTOP ==> t == WithTable(was, e, i, p) && t.ref == was.ref[p := 1])
      && (i > PDX_UVPT ==> t == Take(was, p) && t.refs == was.refs)
    ensures Take(was, p).ref == was.ref && Take(was, p).tlb == was.tlb && Take(was, p).asids == was.asids && Take(was, p).refs == was.refs
  {
  }

  /** The window pages that may be missing. */
  lemma WindowGap(mem: Memory, s: State, base: nat, e: nat, i: nat)
    requires Inv(s) && Refines(mem, s, base) && e in s.asids && i < TABLE_SIZE && Translate(s, e, PDX_UVPT, i).None?
    ensures (i < PDX_UTOP && Table(e, i) !in s.refs) || i > PDX_UVPT
  {
    assert Dir(e) in s.refs;
  }

  lemma StrayUnmapped(mem: Memory, s: State, base: nat, e: nat, va: nat)
    requires Refines(mem, s, base)
    ensures Stray(va) ==> Translate(s, e, PdxOf(va), PtxOf(va)).None?
  {
    if Stray(va) { PdxInWindow(va); }
  }

  lemma NotCached(s: State, e: nat, pdx: nat, ptx: nat)
    requires Inv(s) && e in s.asids && Translate(s, e, pdx, ptx).None?
    ensures Key(s.asids[e], pdx, ptx) !in s.tlb
  {
  }

  lemma PdxInWindow(va: nat)
    requires UVPT <= va < ULIM
    ensures PdxOf(va) == PDX_UVPT && PtxOf(va) < TABLE_SIZE
  {
  }

  /** The word written, seen as a directory word: a page table for a user, or one that fits no address space. */
  lemma WindowWord(mem: Memory, was: State, base: nat, e: nat, i: nat, p: nat)
    requires Inv(was) && e in was.asids && p in was.free && i < TABLE_SIZE && p < |mem|
    requires (i < PDX_UTOP && Table(e, i) !in was.refs) || i > PDX_UVPT
    requires Refines(mem, Take(was, p), base) && mem[p] == ZeroPage()
    ensures Shaped(mem) && Dir(e) in was.refs && was.refs[Dir(e)].frame < |mem| && was.refs[Dir(e)].frame != p
    ensures p < |was.ref| && was.ref[p] == 0 && forall x :: x in was.refs ==> was.refs[x].frame != p
    ensures var d := was.refs[Dir(e)].frame;
      && mem[d][PDX_UVPT] == Entry(d, PERM_V)
      && var mem' := mem[d := mem[d][i := Entry(p, PERM_VD)]];
      && Shaped(mem') && Walk(mem', d, PDX_UVPT, i) == Some(Entry(p, PERM_VD))
      && (i < PDX_UTOP ==> Inv(WithTable(was, e, i, p)) && Refines(mem', WithTable(was, e, i, p), base))
      && (i > PDX_UVPT ==> !Refines(mem', Take(was, p), base))
  {
    assert Dir(e) in was.refs;
    NoHolders(was, p);
    var d := was.refs[Dir(e)].frame;
    assert DirMatches(mem, Take(was, p), base, e);
    if i < PDX_UTOP {
      NewTableWrite(mem, was, base, e, i, p);
    } else {
      var mem': Memory := mem[d := mem[d][i := Entry(p, PERM_VD)]];
      assert mem'[d][i].perm.v;
      assert Shaped(mem') && base < |mem'| ==> !DirMatches(mem', Take(was, p), base, e);
    }
  }

  lemma WindowFrames(mem: Memory, was: State, s: State, base: nat, e: nat, i: nat, p: nat)
    requires s == Take(was, p) && Refines(mem, s, base) && p < |s.ref| && Dir(e) in s.refs && s.refs[Dir(e)].frame < |mem| && i < TABLE_SIZE
    ensures var d := s.refs[Dir(e)].frame;
      Framed(s, mem, WindowNext(s, e, i, p), mem[d := mem[d][i := Entry(p, PERM_VD)]], {p})
  {
    var d := s.refs[Dir(e)].frame;
    if i < PDX_UTOP {
      NewTableFrames(mem, s, base, e, i, p);
    } else {
      TableIsNoData(s, Dir(e));
      FramedWrite(s, mem, s, d, mem[d][i := Entry(p, PERM_VD)], {p});
    }
  }

  /** The page just taken is still blank after a table was taken for it. */
  lemma StaysZero(s: State, l: seq<nat>, e: nat, pdx: nat, mem: Memory, t: State, mem': Memory)
    requires Inv(s) && Lists(l, s.free) && l != [] && l[0] < |mem| && mem[l[0]] == ZeroPage()
    requires Framed(Take(s, l[0]), mem, t, mem', TableTaken(Take(s, l[0]), e, pdx, l[1..]))
    ensures l[0] < |mem'| && mem'[l[0]] == ZeroPage()
  {
    assert l[0] in s.free;
    TakenIsData(s, l[0]);
    assert |l| > 1 ==> l[1] != l[0];
    assert KeptPage(Take(s, l[0]), mem, t, mem', l[0]);
  }

  lemma PinFrames(mem: Memory, s: State, base: nat, p: nat, words: seq<Entry>)
    requires Refines(mem, s, base) && p < |s.ref|
    ensures Framed(s, mem, Link(s, Pinned(p, 0), Entry(p, PERM_V)), mem[p := words], {p})
  {
    LinkTables(s, Pinned(p, 0), p, Entry(p, PERM_V));
    FramedWrite(s, mem, Link(s, Pinned(p, 0), Entry(p, PERM_V)), p, words, {p});
  }

  lemma ReadyFrames(mem: Memory, s: State, base: nat, e: nat, p: nat, a: nat)
    requires Inv(s) && Refines(mem, s, base) && ReadyDir(mem, s, base, p)
    ensures Framed(s, mem, Adopt(s, e, p, a), mem, {})
  {
    assert Placed(s, Pinned(p, 0), s.refs[Pinned(p, 0)]);
    AdoptFrames(mem, s, e, p, a);
  }

  /** The page that page_insert or pgdir_walk takes for a missing page table. */
  function TableTaken(s: State, e: nat, pdx: nat, l: seq<nat>): set<nat> {
    if Table(e, pdx) in s.refs || l == [] then {} else {l[0]}
  }

  lemma MemorySize(mem: Memory, s: State, base: nat)
    requires Refines(mem, s, base)
    ensures |mem| == |s.ref|
  {
  }

  lemma NewTableFrames(mem: Memory, s: State, base: nat, e: nat, pdx: nat, pp: nat)
    requires Refines(mem, s, base) && pp < |s.ref| && Dir(e) in s.refs && s.refs[Dir(e)].frame < |mem|
    requires pdx < |mem[s.refs[Dir(e)].frame]|
    ensures var d := s.refs[Dir(e)].frame;
      Framed(s, mem, Link(s, Table(e, pdx), Entry(pp, PERM_VD)), mem[d := mem[d][pdx := Entry(pp, PERM_VD)]], {pp})
  {
    var d := s.refs[Dir(e)].frame;
    LinkTables(s, Table(e, pdx), pp, Entry(pp, PERM_VD));
    TableIsNoData(s, Dir(e));
    FramedWrite(s, mem, Link(s, Table(e, pdx), Entry(pp, PERM_VD)), d, mem[d][pdx := Entry(pp, PERM_VD)], {pp});
  }

  lemma DirWordReads(mem: Memory, s: State, base: nat, e: nat, pdx: nat)
    requires Refines(mem, s, base) && pdx < PDX_UTOP && Dir(e) in s.refs
    ensures Reads(mem[s.refs[Dir(e)].frame][pdx], Get(s.refs, Table(e, pdx)))
  {
    assert DirMatches(mem, s, base, e);
  }

  lemma InvParts(s: State)
    requires Inv(s)
    ensures Counted(s) && Structured(s) && Exclusive(s)
  {
  }

  lemma NewTableWrite(mem: Memory, was: State, base: nat, e: nat, pdx: nat, pp: nat)
    requires Inv(was) && pdx < PDX_UTOP && e in was.asids && Table(e, pdx) !in was.refs && pp in was.free
    requires Refines(mem, Take(was, pp), base) && mem[pp] == ZeroPage()
    ensures pp < |was.ref| && Inv(WithTable(was, e, pdx, pp))
    ensures was.refs[Dir(e)].frame < |mem| && |mem[was.refs[Dir(e)].frame]| == TABLE_SIZE
    ensures var d := was.refs[Dir(e)].frame;
      Refines(mem[d := mem[d][pdx := Entry(pp, PERM_VD)]], WithTable(was, e, pdx, pp), base)
  {
    assert Dir(e) in was.refs;
    TakeKeepsInv(was, pp);
    WithTableKeepsInv(was, e, pdx, pp);
    NoHolders(was, pp);
    var s := Take(was, pp);
    InvParts(s);
    InvParts(Link(s, Table(e, pdx), Entry(pp, PERM_VD)));
    MemorySize(mem, s, base);
    DirInMemory(mem, s, base, e);
    hide Inv, Refines, Coherent, Exclusive, Structured, Accounted, Counted;
    DirAdd(mem, s, Link(s, Table(e, pdx), Entry(pp, PERM_VD)), base, Table(e, pdx), Entry(pp, PERM_VD));
  }

  lemma TopInRange(l: seq<nat>, s: State, p: nat)
    requires Inv(s) && Lists(l, s.free) && Insertable(s, p)
    ensures p < |s.ref| && Top(l) < |s.ref|
    ensures l != [] ==> Top(l) in s.free
  {
    if l != [] { PopList(l, s.free); }
  }

  lemma LeafWordReads(mem: Memory, s: State, base: nat, x: Site)
    requires Inv(s) && Refines(mem, s, base) && Mappable(s, x)
    ensures x in s.refs ==> Table(x.env, x.pdx) in s.refs
    ensures Table(x.env, x.pdx) in s.refs ==>
      var f := s.refs[Table(x.env, x.pdx)].frame;
      f < |mem| && |mem[f]| == TABLE_SIZE && Reads(mem[f][x.ptx], Get(s.refs, x))
  {
    assert x in s.refs ==> Placed(s, x, s.refs[x]);
    if Table(x.env, x.pdx) in s.refs {
      assert TableMatches(mem, s, x.env, x.pdx);
    }
  }

  /** Where page_lookup leaves the pte pointer for a mapped page. */
  lemma PteSlot(mem: Memory, s: State, base: nat, x: Site)
    requires Inv(s) && Refines(mem, s, base) && Mappable(s, x) && x in s.refs
    ensures Table(x.env, x.pdx) in s.refs && Dir(x.env) in s.refs
    ensures var d, f := s.refs[Dir(x.env)].frame, s.refs[Table(x.env, x.pdx)].frame;
      d < |mem| && |mem[d]| == TABLE_SIZE && mem[d][x.pdx].frame == f && f < |mem| && |mem[f]| == TABLE_SIZE
  {
    LeafWordReads(mem, s, base, x);
    DirWordReads(mem, s, base, x.env, x.pdx);
  }

  lemma LeafWriteStep(mem: Memory, s: State, t: State, base: nat, x: Site, w: Entry)
    requires Inv(s) && Inv(t) && Refines(mem, s, base) && Mappable(s, x) && Table(x.env, x.pdx) in s.refs
    requires |t.ref| == |s.ref| && t.shared == s.shared
    requires Reads(w, Get(t.refs, x)) && SameBut(s.refs, t.refs, x)
    ensures var f := s.refs[Table(x.env, x.pdx)].frame;
      f < |mem| && |mem[f]| == TABLE_SIZE && Refines(mem[f := mem[f][x.ptx := w]], t, base)
  {
    LeafWrite(mem, s, t, base, x, w);
  }

  lemma RemoveStep(mem: Memory, s: State, base: nat, x: Site)
    requires Inv(s) && Refines(mem, s, base) && Mappable(s, x) && x in s.refs
    ensures Table(x.env, x.pdx) in s.refs
    ensures s.refs[x].frame < |s.ref| && s.ref[s.refs[x].frame] > 0
    ensures Inv(Unlink(s, x))
    ensures var f := s.refs[Table(x.env, x.pdx)].frame;
      f < |mem| && |mem[f]| == TABLE_SIZE && Refines(mem[f := mem[f][x.ptx := ZERO_ENTRY]], Unlink(s, x), base)
  {
    hide Inv, Refines;
    LeafWordReads(mem, s, base, x);
    RemoveInRange(s, x);
    UnlinkKeepsInv(s, x);
    LeafWriteStep(mem, s, Unlink(s, x), base, x, ZERO_ENTRY);
  }

  lemma RemoveInRange(s: State, x: Site)
    requires Inv(s) && x in s.refs
    ensures s.refs[x].frame < |s.ref| && s.ref[s.refs[x].frame] > 0
  {
    CountPositive(s, x);
  }

  lemma RemoveList(s: State, x: Site, l: seq<nat>)
    requires Inv(s) && x in s.refs && !x.Pinned? && x.env in s.asids && Lists(l, s.free)
    ensures s.refs[x].frame < |s.ref| && s.ref[s.refs[x].frame] > 0
    ensures Lists(if s.ref[s.refs[x].frame] == 1 then [s.refs[x].frame] + l else l, Unlink(s, x).free)
  {
    CountPositive(s, x);
    if s.ref[s.refs[x].frame] == 1 { PushList(l, s.free, s.refs[x].frame); }
  }

  lemma RepermStep(mem: Memory, s: State, base: nat, x: Site, w: Entry)
    requires Inv(s) && Refines(mem, s, base) && Mappable(s, x) && x in s.refs && w.perm.v
    ensures Table(x.env, x.pdx) in s.refs
    ensures Inv(RepermRaw(s, x, w)) <==> w.frame == s.refs[x].frame
    ensures var f := s.refs[Table(x.env, x.pdx)].frame;
      && f < |mem| && |mem[f]| == TABLE_SIZE
      && (w.frame == s.refs[x].frame ==> Refines(mem[f := mem[f][x.ptx := w]], RepermRaw(s, x, w), base))
  {
    hide Inv, Refines;
    LeafWordReads(mem, s, base, x);
    RepermRawIff(s, x, w);
    if w.frame == s.refs[x].frame {
      LeafWriteStep(mem, s, RepermRaw(s, x, w), base, x, w);
    }
  }

  lemma InsertAfterRemove(s: State, x: Site, pp: nat)
    requires Inv(s) && Mappable(s, x) && x in s.refs && s.refs[x].frame != pp && Insertable(s, pp)
    ensures Insertable(Remove(s, x), pp)
    ensures pp < |s.ref| == |Remove(s, x).ref| && Remove(s, x).ref[pp] == s.ref[pp]
    ensures Remove(s, x).asids == s.asids && x !in Remove(s, x).refs
    ensures Table(x.env, x.pdx) in s.refs && Table(x.env, x.pdx) in Remove(s, x).refs
    ensures Dir(x.env) in s.refs && Get(Remove(s, x).refs, Dir(x.env)) == Some(s.refs[Dir(x.env)])
  {
    assert Placed(s, x, s.refs[x]);
  }

  lemma LinkStep(mem: Memory, was: State, s: State, base: nat, x: Site, pp: nat, w: Entry, top: nat)
    requires Mappable(was, x) && Insertable(was, pp) && top < |was.ref| && x !in was.refs && w.perm.v
    requires Table(x.env, x.pdx) !in was.refs ==> top in was.free
    requires s == WithTable(was, x.env, x.pdx, top)
    requires Inv(s) && Refines(mem, s, base)
    ensures pp < |was.ref| == |s.ref| && Table(x.env, x.pdx) in s.refs
    ensures Inv(LinkRaw(s, x, pp, w)) <==> Sound(was, x, pp, w)
    ensures var f := s.refs[Table(x.env, x.pdx)].frame;
      && f < |mem| && |mem[f]| == TABLE_SIZE
      && (Sound(was, x, pp, w) ==> Refines(mem[f := mem[f][x.ptx := w]], LinkRaw(s, x, pp, w), base))
  {
    TableCount(was, x.env, x.pdx, top, pp);
    hide Inv, Refines, Linkable;
    LinkableAfter(was, x, Entry(pp, w.perm), top);
    LinkRawIff(s, x, pp, w);
    hide Insertable;
    LeafWordReads(mem, s, base, x);
    if Sound(was, x, pp, w) {
      LinkWrite(mem, s, base, x, pp, w);
    }
  }

  lemma TableCount(s: State, e: nat, pdx: nat, t: nat, pp: nat)
    requires t < |s.ref| && Insertable(s, pp) && (Table(e, pdx) !in s.refs ==> t in s.free)
    ensures var u := WithTable(s, e, pdx, t);
      pp < |s.ref| == |u.ref| && u.ref[pp] == s.ref[pp] && Table(e, pdx) in u.refs && u.asids == s.asids
  {
  }

  lemma LinkWrite(mem: Memory, s: State, base: nat, x: Site, pp: nat, w: Entry)
    requires Inv(s) && Refines(mem, s, base) && Mappable(s, x) && Table(x.env, x.pdx) in s.refs
    requires pp < |s.ref| && w.perm.v && Inv(LinkRaw(s, x, pp, w))
    ensures var f := s.refs[Table(x.env, x.pdx)].frame;
      && f < |mem| && |mem[f]| == TABLE_SIZE
      && Refines(mem[f := mem[f][x.ptx := w]], LinkRaw(s, x, pp, w), base)
  {
    hide Inv, Refines;
    LeafWriteStep(mem, s, LinkRaw(s, x, pp, w), base, x, w);
  }

  lemma FreeEnvFacts(envs: seq<Env>, envFree: seq<nat>, bm: Bitmap.Words, born: seq<nat>, birth: map<nat, nat>, s: State)
    requires EnvsMatch(envs, envFree, bm, born, birth, s) && envFree != []
    ensures |envs| == NENV && envFree[0] < NENV && envFree[0] !in s.asids
    ensures Bitmap.Holds(bm, NASID) && AsidsMatch(bm, s)
  {
    assert envFree[0] in envFree;
  }

  lemma FreshAsid(bm: Bitmap.Words, s: State, a: nat)
    requires AsidsMatch(bm, s) && a < NASID && !Bitmap.Bit(bm, a)
    ensures a !in s.asids.Values
  {
  }

  lemma FullAsids(bm: Bitmap.Words, s: State)
    requires AsidsMatch(bm, s) && forall a: nat :: a < NASID ==> Bitmap.Bit(bm, a)
    ensures forall a: nat :: a < NASID ==> a in s.asids.Values
  {
  }

  lemma PinDirs(s: State, p: nat)
    requires p < |s.ref|
    ensures PinDir(s, p).asids == s.asids
    ensures forall e :: Dir(e) in s.refs ==> Get(PinDir(s, p).refs, Dir(e)) == Some(s.refs[Dir(e)])
  {
  }

  lemma DirInMemory(mem: Memory, s: State, base: nat, e: nat)
    requires Refines(mem, s, base) && Dir(e) in s.refs
    ensures s.refs[Dir(e)].frame < |mem| && |mem[s.refs[Dir(e)].frame]| == TABLE_SIZE
  {
  }

  lemma LiveEnvFacts(envs: seq<Env>, envFree: seq<nat>, bm: Bitmap.Words, born: seq<nat>, birth: map<nat, nat>,
                     s: State, e: nat)
    requires EnvsMatch(envs, envFree, bm, born, birth, s) && e in s.asids
    ensures |envs| == NENV && e < NENV && Dir(e) in s.refs && Bitmap.Holds(bm, NASID) && envs[e].asid < NASID
    ensures envs[e].asid == s.asids[e] && envs[e].pgdir == s.refs[Dir(e)].frame
  {
    assert s.asids[e] in s.asids.Values;
  }

  lemma DistinctAsids(s: State)
    requires Inv(s)
    ensures AsidsDistinct(s)
  {
  }

  lemma DropTableStep(mem: Memory, s0: State, s: State, base: nat, e: nat, i: nat)
    requires Inv(s) && Refines(mem, s, base) && Table(e, i) in s.refs && Progress(s0, s, e, i, TABLE_SIZE)
    ensures e in s.asids && s.refs[Table(e, i)].frame < |s.ref| && s.ref[s.refs[Table(e, i)].frame] > 0
    ensures Dir(e) in s.refs && s.refs[Dir(e)].frame < |mem| && i < PDX_UTOP < |mem[s.refs[Dir(e)].frame]|
    ensures Inv(Unlink(s, Table(e, i)))
    ensures Progress(s0, Unlink(s, Table(e, i)), e, i + 1, 0)
    ensures var d := s.refs[Dir(e)].frame;
      Refines(mem[d := mem[d][i := ZERO_ENTRY]], Unlink(s, Table(e, i)), base)
  {
    ProgressTable(s0, s, e, i);
    DirWriteStep(mem, s, base, e, i);
  }

  lemma DirWriteStep(mem: Memory, s: State, base: nat, e: nat, i: nat)
    requires Inv(s) && Refines(mem, s, base) && Unlinkable(s, Table(e, i))
    ensures e in s.asids && s.refs[Table(e, i)].frame < |s.ref| && s.ref[s.refs[Table(e, i)].frame] > 0
    ensures Dir(e) in s.refs && s.refs[Dir(e)].frame < |mem| && i < PDX_UTOP < |mem[s.refs[Dir(e)].frame]|
    ensures var d := s.refs[Dir(e)].frame;
      Refines(mem[d := mem[d][i := ZERO_ENTRY]], Unlink(s, Table(e, i)), base)
  {
    assert Placed(s, Table(e, i), s.refs[Table(e, i)]);
    UnlinkKeepsInv(s, Table(e, i));
    InvParts(s);
    InvParts(Unlink(s, Table(e, i)));
    DirInMemory(mem, s, base, e);
    DirDrop(mem, s, Unlink(s, Table(e, i)), base, Table(e, i));
  }

  lemma DirDrop(mem: Memory, s: State, t: State, base: nat, x: Site)
    requires Refines(mem, s, base) && Structured(s) && Exclusive(s) && Counted(t)
    requires x.Table? && x.pdx < PDX_UTOP && Dir(x.env) in s.refs && s.refs[Dir(x.env)].frame < |mem|
    requires x.pdx < |mem[s.refs[Dir(x.env)].frame]|
    requires t.refs == s.refs - {x} && |t.ref| == |s.ref| && t.shared == s.shared
    ensures var d := s.refs[Dir(x.env)].frame; Refines(mem[d := mem[d][x.pdx := ZERO_ENTRY]], t, base)
  {
    hide Refines, Structured, Exclusive, Counted;
    DirWrite(mem, s, t, base, x, ZERO_ENTRY);
  }

  lemma DirAdd(mem: Memory, s: State, t: State, base: nat, x: Site, w: Entry)
    requires Refines(mem, s, base) && Structured(s) && Exclusive(s) && Counted(t)
    requires x.Table? && x.pdx < PDX_UTOP && Dir(x.env) in s.refs && s.refs[Dir(x.env)].frame < |mem|
    requires x.pdx < |mem[s.refs[Dir(x.env)].frame]| && x !in s.refs && w.perm.v
    requires w.frame < |mem| && mem[w.frame] == ZeroPage() && w.frame != s.refs[Dir(x.env)].frame
    requires t.refs == s.refs[x := w] && |t.ref| == |s.ref| && t.shared == s.shared
    ensures var d := s.refs[Dir(x.env)].frame; Refines(mem[d := mem[d][x.pdx := w]], t, base)
  {
    hide Refines, Structured, Exclusive, Counted;
    DirWrite(mem, s, t, base, x, w);
  }

  lemma RetireStep(mem: Memory, s: State, base: nat, e: nat)
    requires Inv(s) && Refines(mem, s, base) && Retirable(s, e)
    ensures Dir(e) in s.refs && s.refs[Dir(e)].frame < |s.ref| && s.ref[s.refs[Dir(e)].frame] > 0
    ensures Inv(Retire(s, e)) && Refines(mem, Retire(s, e), base)
  {
    RetireKeepsInv(s, e);
    RetireRefines(mem, s, Retire(s, e), base, e);
  }

  // ----- virtual addresses -----

  const UTEMP: nat := 0x3f_e000
  const USTACKTOP: nat := 0x7f3f_e000
  const UTOP: nat := 0x7f40_0000
  const UENVS: nat := UTOP
  const UPAGES: nat := 0x7f80_0000
  const UVPT: nat := 0x7fc0_0000
  const ULIM: nat := 0x8000_0000

  function PdxOf(va: nat): nat { va / 0x40_0000 % 1024 }
  function PtxOf(va: nat): nat { va / 0x1000 % 1024 }

  lemma PdxBelowUtop(va: nat)
    requires va < UTOP
    ensures PdxOf(va) < PDX_UTOP
  {
  }

  /** Two addresses have the same directory and table index exactly if they lie in the same page. */
  lemma SamePageIff(va: nat, vb: nat)
    requires va < U32 && vb < U32
    ensures PdxOf(va) == PdxOf(vb) && PtxOf(va) == PtxOf(vb) <==> va / BY2PG == vb / BY2PG
    ensures va / BY2PG == PdxOf(va) * TABLE_SIZE + PtxOf(va)
    ensures PdxOf(va) < TABLE_SIZE && PtxOf(va) < TABLE_SIZE
  {
    assert va / 0x40_0000 == va / 0x1000 / 1024 && vb / 0x40_0000 == vb / 0x1000 / 1024;
  }

  predicate IllegalVa(va: nat) {
    va < UTEMP || va >= UTOP
  }

  lemma TakeDirs(s: State, p: nat)
    ensures Take(s, p).asids == s.asids
    ensures forall e :: Dir(e) in s.refs ==> Get(Take(s, p).refs, Dir(e)) == Some(s.refs[Dir(e)])
  {
  }

  lemma TakenInsertable(s: State, p: nat)
    requires Inv(s) && p in s.free
    ensures Insertable(Take(s, p), p) && p < |s.ref| && s.ref[p] == 0
  {
    NoHolders(s, p);
  }

  lemma InsertDirs(s: State, t: State, e: nat, x: Site)
    requires x.Leaf? && forall y :: y != x && y != Table(x.env, x.pdx) ==> Get(t.refs, y) == Get(s.refs, y)
    ensures forall f :: Dir(f) in s.refs ==> Get(t.refs, Dir(f)) == Some(s.refs[Dir(f)])
  {
  }

  lemma FillRefines(mem: Memory, s: State, base: nat, e: nat, pdx: nat, ptx: nat, evicted: set<Key>)
    requires Refines(mem, s, base) && e in s.asids && Translate(s, e, pdx, ptx).Some?
    ensures Refines(mem, Fill(s, e, pdx, ptx, evicted), base)
  {
    var t := Fill(s, e, pdx, ptx, evicted);
    assert TemplateMatches(mem, t, base);
    forall f | Dir(f) in t.refs ensures DirMatches(mem, t, base, f) {
      DirStays(mem, mem, s, t, base, f);
    }
    forall f, i: nat | Table(f, i) in t.refs ensures TableMatches(mem, t, f, i) {
      TableStays(mem, mem, s, t, f, i);
    }
  }

  /** What a TLB refill at a virtual page does: a mapped page is cached and nothing else happens; an
      unmapped one first gets a zeroed private page. */
  ghost predicate Refilled(s0: State, s: State, e: nat, pdx: nat, ptx: nat, evicted: set<Key>, r: Result<Entry>) {
    && e in s0.asids && e in s.asids
    && (Translate(s0, e, pdx, ptx).Some? ==>
          r == Ok(Translate(s0, e, pdx, ptx).value) && s == Fill(s0, e, pdx, ptx, evicted))
    && (r.Ok? ==>
          && Translate(s, e, pdx, ptx) == Some(r.value)
          && Get(s.tlb, Key(s.asids[e], pdx, ptx)) == Some(r.value)
          && (Translate(s0, e, pdx, ptx).None? ==> r.value.perm == PERM_VD && r.value.frame in s0.free))
  }

  /** A store lands in the page of the entry that the TLB answers with, or faults. */
  ghost predicate Stored(s: State, mem0: Memory, mem: Memory, hit: Option<Key>, word: nat, value: Entry, ok: bool) {
    && (hit.Some? ==> hit.value in s.tlb)
    && ok == (hit.Some? && s.tlb[hit.value].perm.d)
    && (!ok ==> mem == mem0)
    && (ok ==>
          && var f := s.tlb[hit.value].frame;
          && f < |mem0| && word < |mem0[f]| && mem == mem0[f := mem0[f][word := value]])
  }

  lemma HitIsTranslation(s: State, e: nat, pdx: nat, ptx: nat)
    requires Inv(s) && e in s.asids && Key(s.asids[e], pdx, ptx) in s.tlb
    ensures Translate(s, e, pdx, ptx) == Some(s.tlb[Key(s.asids[e], pdx, ptx)])
  {
  }

  lemma LeafIsData(s: State, x: Site)
    requires Exclusive(s) && Counted(s) && x in s.refs && x.Leaf?
    ensures DataPage(s, s.refs[x].frame)
  {
  }

  // ----- what the memory system calls promise -----

  /** The environment a call acts on, after the address check and envid2env with permission check. */
  function Target(envs: seq<Env>, curenv: Option<nat>, envid: nat, va: nat): Result<nat> {
    if IllegalVa(va) then Err(Inval)
    else if |envs| == NENV && (curenv.Some? ==> curenv.value < NENV) then Resolve(envs, curenv, envid, true)
    else Err(BadEnv)
  }

  ghost predicate Mapped(s0: State, s: State, l: seq<nat>, e: nat, pp: nat, va: nat, arg: PermArg, r: Result<()>) {
    var x := Leaf(e, PdxOf(va), PtxOf(va));
    && Inv(s0) && Mappable(s0, x) && Insertable(s0, pp) && Top(l) < |s0.ref|
    && (r.Err? <==> Table(e, PdxOf(va)) !in s0.refs && l == [])
    && (r.Err? ==> r == Err(NoMem) && s == s0)
    && (r.Ok? ==> s == InsertRaw(s0, x, pp, Word(pp, arg), Top(l)))
  }

  // The same in plain terms: whose page, which addresses, and which bits.

  /** The page of a virtual address. */
  function PageAt(s: State, e: nat, va: nat): Option<Entry> {
    Translate(s, e, va / 0x40_0000, va / 0x1000 % 1024)
  }

  /** sys_mem_alloc is refused outside the user's zone and for strangers, and then nothing happens; if it succeeds, the first
      free page is at va with the bits asked for. */
  ghost predicate AllocPlain(envs: seq<Env>, c: nat, envid: nat, s0: State, s: State, l: seq<nat>, va: nat, arg: PermArg,
                             r: Result<()>) {
    && (va < 0x3f_e000 || va >= 0x7f40_0000 ==> r == Err(Inval) && s == s0)
    && (Stranger(envs, c, envid) ==> r.Err? && s == s0)
    && (forall e: nat :: MayActOn(envs, c, envid, e) && r.Ok? ==> l != [] && AsAsked(PageAt(s, e, va), l[0], arg))
  }

  /** sys_mem_map likewise: what the source has at its address is what the target gets at its own. */
  ghost predicate MapPlain(envs: seq<Env>, c: nat, srcid: nat, srcva: nat, dstid: nat, dstva: nat, s0: State, s: State,
                           arg: PermArg, r: Result<()>) {
    && (srcva < 0x3f_e000 || srcva >= 0x7f40_0000 || dstva < 0x3f_e000 || dstva >= 0x7f40_0000 ==> r == Err(Inval) && s == s0)
    && (Stranger(envs, c, srcid) || Stranger(envs, c, dstid) ==> r.Err? && s == s0)
    && (forall a: nat, b: nat :: MayActOn(envs, c, srcid, a) && MayActOn(envs, c, dstid, b) && r.Ok? ==>
          PageAt(s0, a, srcva).Some? && AsAsked(PageAt(s, b, dstva), PageAt(s0, a, srcva).value.frame, arg))
  }

  /** sys_mem_unmap likewise: nothing is left at the address, and all else is as it was. */
  ghost predicate UnmapPlain(envs: seq<Env>, c: nat, envid: nat, s0: State, s: State, va: nat, r: Result<()>) {
    && (va < 0x3f_e000 || va >= 0x7f40_0000 ==> r == Err(Inval) && s == s0)
    && (Stranger(envs, c, envid) ==> r.Err? && s == s0)
    && (forall e: nat :: MayActOn(envs, c, envid, e) && 0x3f_e000 <= va < 0x7f40_0000 ==>
          && r.Ok? && PageAt(s, e, va) == None
          && forall y :: y != Leaf(e, va / 0x40_0000, va / 0x1000 % 1024) ==> Get(s.refs, y) == Get(s0.refs, y))
  }

  lemma TargetIff(envs: seq<Env>, c: nat, envid: nat, va: nat)
    requires |envs| == NENV && c < NENV
    ensures var t := Target(envs, Some(c), envid, va);
      && (forall e: nat :: MayActOn(envs, c, envid, e) ==> t == if va < 0x3f_e000 || va >= 0x7f40_0000 then Err(Inval) else Ok(e))
      && (t.Ok? ==> MayActOn(envs, c, envid, t.value))
      && (va < 0x3f_e000 || va >= 0x7f40_0000 ==> t == Err(Inval))
  {
    var r := Resolve(envs, Some(c), envid, true);
    ResolveIff(envs, c, envid, if r.Ok? then r.value else 0);
    forall e: nat | MayActOn(envs, c, envid, e) ensures r == Ok(e) { ResolveIff(envs, c, envid, e); }
  }

  lemma StrangerRefused(envs: seq<Env>, c: nat, envid: nat, va: nat)
    requires |envs| == NENV && c < NENV
    ensures Stranger(envs, c, envid) ==> Target(envs, Some(c), envid, va).Err?
  {
    TargetIff(envs, c, envid, va);
  }

  lemma SamePage(s: State, e: nat, va: nat)
    requires va < 0x7f40_0000
    ensures PageAt(s, e, va) == Translate(s, e, PdxOf(va), PtxOf(va)) && PdxOf(va) == va / 0x40_0000 < PDX_UTOP
  {
  }

  lemma MappedAsAsked(s0: State, s: State, l: seq<nat>, e: nat, pp: nat, va: nat, arg: PermArg, r: Result<()>)
    requires Mapped(s0, s, l, e, pp, va, arg, r)
    ensures r.Ok? ==> AsAsked(Translate(s, e, PdxOf(va), PtxOf(va)), pp, arg)
  {
    if r.Ok? { InsertAsAsked(s0, Leaf(e, PdxOf(va), PtxOf(va)), pp, arg, Top(l)); }
  }

  lemma AllocatedPlainly(envs: seq<Env>, c: nat, envid: nat, s0: State, l: seq<nat>, va: nat, arg: PermArg)
    requires |envs| == NENV && c < NENV
    ensures forall s, r {:trigger AllocPlain(envs, c, envid, s0, s, l, va, arg, r)} ::
      Allocated(s0, s, l, Target(envs, Some(c), envid, va), va, arg, r) ==> AllocPlain(envs, c, envid, s0, s, l, va, arg, r)
  {
    TargetIff(envs, c, envid, va);
    var target := Target(envs, Some(c), envid, va);
    hide Target, MayActOn, Mapped, AsAsked, PdxOf, PtxOf, Translate;
    forall s, r | Allocated(s0, s, l, target, va, arg, r) ensures AllocPlain(envs, c, envid, s0, s, l, va, arg, r) {
      if target.Ok? && l != [] {
        MappedAsAsked(Take(s0, l[0]), s, l[1..], target.value, l[0], va, arg, r);
        if va < 0x7f40_0000 { SamePage(s, target.value, va); }
      }
    }
  }

  lemma SharedPlainly(envs: seq<Env>, c: nat, srcid: nat, srcva: nat, dstid: nat, dstva: nat, s0: State, l: seq<nat>, arg: PermArg)
    requires |envs| == NENV && c < NENV
    ensures forall s, r {:trigger MapPlain(envs, c, srcid, srcva, dstid, dstva, s0, s, arg, r)} ::
      Shared(s0, s, l, Target(envs, Some(c), srcid, srcva), srcva, Target(envs, Some(c), dstid, dstva), dstva, arg, r) ==>
        MapPlain(envs, c, srcid, srcva, dstid, dstva, s0, s, arg, r)
  {
    TargetIff(envs, c, srcid, srcva);
    TargetIff(envs, c, dstid, dstva);
    var a, b := Target(envs, Some(c), srcid, srcva), Target(envs, Some(c), dstid, dstva);
    hide Target, MayActOn, Mapped, AsAsked, PdxOf, PtxOf, Translate;
    forall s, r | Shared(s0, s, l, a, srcva, b, dstva, arg, r)
      ensures MapPlain(envs, c, srcid, srcva, dstid, dstva, s0, s, arg, r)
    {
      if r.Ok? {
        SamePage(s0, a.value, srcva);
        SamePage(s, b.value, dstva);
        MappedAsAsked(s0, s, l, b.value, Translate(s0, a.value, PdxOf(srcva), PtxOf(srcva)).value.frame, dstva, arg, r);
      }
    }
  }

  lemma UnmappedPlainly(envs: seq<Env>, c: nat, envid: nat, s0: State, va: nat)
    requires |envs| == NENV && c < NENV
    ensures forall s, r {:trigger UnmapPlain(envs, c, envid, s0, s, va, r)} ::
      Unmapped(s0, s, Target(envs, Some(c), envid, va), va, r) ==> UnmapPlain(envs, c, envid, s0, s, va, r)
  {
    TargetIff(envs, c, envid, va);
    var target := Target(envs, Some(c), envid, va);
    hide Target, MayActOn;
    forall s, r | Unmapped(s0, s, target, va, r) ensures UnmapPlain(envs, c, envid, s0, s, va, r) {
      if target.Ok? {
        SamePage(s, target.value, va);
        var x := Leaf(target.value, PdxOf(va), PtxOf(va));
        RemoveChanges(s0, x);
        RemoveErases(s0, x);
      }
    }
  }

  lemma RemoveErases(s: State, x: Site)
    requires Inv(s) && x.Leaf?
    ensures Get(Remove(s, x).refs, x) == None
  {
  }

  /** sys_mem_alloc maps a zeroed page; if no page table can be had the new page is lost to `held`. */
  ghost predicate Allocated(s0: State, s: State, l: seq<nat>, target: Result<nat>, va: nat, arg: PermArg, r: Result<()>) {
    match target
    case Err(error) => r == Err(error) && s == s0
    case Ok(e) =>
      if l == [] then r == Err(NoMem) && s == s0
      else Mapped(Take(s0, l[0]), s, l[1..], e, l[0], va, arg, r)
  }

  /** sys_mem_map maps the page of the source address, or fails and changes nothing. */
  ghost predicate Shared(s0: State, s: State, l: seq<nat>, source: Result<nat>, srcva: nat, target: Result<nat>,
                         dstva: nat, arg: PermArg, r: Result<()>) {
    if IllegalVa(srcva) || IllegalVa(dstva) then r == Err(Inval) && s == s0
    else if source.Err? then r == Err(source.error) && s == s0
    else if target.Err? then r == Err(target.error) && s == s0
    else
      var en := Translate(s0, source.value, PdxOf(srcva), PtxOf(srcva));
      if en.None? then r == Err(Inval) && s == s0
      else Mapped(s0, s, l, target.value, en.value.frame, dstva, arg, r)
  }

  /** The word that sys_mem_map stores names the source page, and its count can be raised. */
  ghost predicate SharedSoundly(s: State, source: Result<nat>, srcva: nat, target: Result<nat>, dstva: nat, arg: PermArg) {
    && source.Ok? && target.Ok?
    && var en := Translate(s, source.value, PdxOf(srcva), PtxOf(srcva));
    && en.Some? && en.value.frame < |s.ref|
    && Sound(s, Leaf(target.value, PdxOf(dstva), PtxOf(dstva)), en.value.frame, Word(en.value.frame, arg))
  }

  ghost predicate Unmapped(s0: State, s: State, target: Result<nat>, va: nat, r: Result<()>) {
    match target
    case Err(error) => r == Err(error) && s == s0
    case Ok(e) => r == Ok(()) && Inv(s0) && s == Remove(s0, Leaf(e, PdxOf(va), PtxOf(va)))
  }

  lemma ResolvedIsLive(envs: seq<Env>, envFree: seq<nat>, bm: Bitmap.Words, born: seq<nat>, birth: map<nat, nat>,
                       s: State, curenv: Option<nat>, envid: nat, checkperm: bool)
    requires EnvsMatch(envs, envFree, bm, born, birth, s) && curenv.Some? && curenv.value in s.asids
    requires |envs| == NENV && curenv.value < NENV
    requires Resolve(envs, curenv, envid, checkperm).Ok?
    ensures Resolve(envs, curenv, envid, checkperm).value in s.asids
  {
  }

  lemma LeafInsertable(s: State, x: Site)
    requires Inv(s) && x in s.refs && x.Leaf?
    ensures Insertable(s, s.refs[x].frame)
  {
    LeafIsData(s, x);
    CountPositive(s, x);
  }

  lemma StatusSet(envs: seq<Env>, envFree: seq<nat>, bm: Bitmap.Words, born: seq<nat>, birth: map<nat, nat>,
                  s: State, e: nat, status: Status)
    requires EnvsMatch(envs, envFree, bm, born, birth, s) && e in s.asids
    ensures |envs| == NENV && e < NENV
    ensures EnvsMatch(envs[e := envs[e].(status := status)], envFree, bm, born, birth, s)
  {
    hide FreeMatch, AsidsMatch;
  }

  // ----- the first state -----

  /** Only boot reservations and the template hold references; the count of a page is their number. */
  ghost predicate BootState(s: State) {
    && (forall x :: x in s.refs ==> x.Pinned? && s.refs[x].frame == x.frame < |s.ref| && s.refs[x].perm.v)
    && (forall p :: 0 <= p < |s.ref| ==> s.ref[p] == |Holders(s.refs, p)|)
    && (forall p: nat :: p in s.free <==> p < |s.ref| && s.ref[p] == 0)
    && s.held == {} && s.asids == map[] && s.tlb == map[]
  }

  lemma BootInv(s: State)
    requires BootState(s)
    ensures Inv(s)
  {
  }

  lemma BootEnvs(envs: seq<Env>, envFree: seq<nat>, bm: Bitmap.Words, s: State)
    requires s.asids == map[] && envs == seq(NENV, _ => Env(0, 0, 0, 0, Free)) && envFree == seq(NENV, i => i)
    requires bm == seq(2, _ => seq(32, _ => false))
    ensures EnvsMatch(envs, envFree, bm, [], map[], s)
  {
    forall e: nat ensures e in envFree <==> e < NENV {
      if e < NENV { assert envFree[e] == e; }
    }
  }
}
