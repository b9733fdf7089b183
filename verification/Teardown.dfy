/** Taking an address space apart in the order of env_free, and setting a new one up. */
module Teardown {
  import opened Options
  import opened Mmu
  import opened Vm
  import opened PageTables

  /** References of `e` already dropped when the loops of env_free stand at (i, j). */
  predicate Gone(y: Site, e: nat, i: nat, j: nat) {
    match y
    case Leaf(f, pdx, ptx) => f == e && (pdx < i || (pdx == i && ptx < j))
    case Table(f, pdx) => f == e && pdx < i
    case _ => false
  }

  /** What env_free has done so far: exactly the references behind the loops are gone, and a page
      became free exactly when its count fell to 0. */
  ghost predicate Progress(s0: State, s: State, e: nat, i: nat, j: nat) {
    && (forall y :: y in s.refs <==> y in s0.refs && !Gone(y, e, i, j))
    && (forall y :: y in s.refs ==> s.refs[y] == s0.refs[y])
    && Kept(s0, s) && s.asids == s0.asids
  }

  ghost predicate Kept(s0: State, s: State) {
    && |s.ref| == |s0.ref| && s.shared == s0.shared && s.held == s0.held
    && (forall k :: k in s.tlb ==> k in s0.tlb && s.tlb[k] == s0.tlb[k])
    && (forall p :: 0 <= p < |s.ref| ==> s.ref[p] <= s0.ref[p])
    && (forall p: nat :: p in s.free <==> p in s0.free || (p < |s.ref| && s0.ref[p] > 0 && s.ref[p] == 0))
  }

  lemma KeptStart(s: State)
    ensures Kept(s, s)
  {
  }

  lemma KeptUnlink(s0: State, s: State, x: Site)
    requires Kept(s0, s) && x in s.refs && !x.Pinned? && x.env in s.asids
    requires s.refs[x].frame < |s.ref| && s.ref[s.refs[x].frame] > 0
    ensures Kept(s0, Unlink(s, x))
  {
  }

  lemma ProgressStart(s: State, e: nat)
    ensures Progress(s, s, e, 0, 0)
  {
    KeptStart(s);
  }

  lemma ProgressLeaf(s0: State, s: State, e: nat, i: nat, j: nat)
    requires Progress(s0, s, e, i, j) && Inv(s)
    ensures Progress(s0, Remove(s, Leaf(e, i, j)), e, i, j + 1)
    ensures Inv(Remove(s, Leaf(e, i, j)))
  {
    var x := Leaf(e, i, j);
    forall y ensures Gone(y, e, i, j + 1) <==> Gone(y, e, i, j) || y == x {
      if y.Leaf? { assert y == Leaf(y.env, y.pdx, y.ptx); }
    }
    if x in s.refs {
      UnlinkKeepsInv(s, x);
      KeptUnlink(s0, s, x);
    }
  }

  lemma ProgressTable(s0: State, s: State, e: nat, i: nat)
    requires Progress(s0, s, e, i, TABLE_SIZE) && Inv(s) && Table(e, i) in s.refs
    ensures e in s.asids && s.refs[Table(e, i)].frame < |s.ref| && s.ref[s.refs[Table(e, i)].frame] > 0
    ensures Unlinkable(s, Table(e, i))
    ensures Inv(Unlink(s, Table(e, i)))
    ensures Progress(s0, Unlink(s, Table(e, i)), e, i + 1, 0)
  {
    var x := Table(e, i);
    NoLeafBeyond(s, e, i);
    UnlinkKeepsInv(s, x);
    KeptUnlink(s0, s, x);
    forall y | y in s.refs ensures Gone(y, e, i + 1, 0) <==> y == x {
      assert !Gone(y, e, i, TABLE_SIZE);
      assert Placed(s, y, s.refs[y]);
    }
    forall y | y in s0.refs && y !in s.refs ensures Gone(y, e, i + 1, 0) {
      assert Gone(y, e, i, TABLE_SIZE);
    }
  }

  lemma NoLeafBeyond(s: State, e: nat, i: nat)
    requires Structured(s) && forall y :: y in s.refs ==> !Gone(y, e, i, TABLE_SIZE)
    ensures forall j :: Leaf(e, i, j) !in s.refs
  {
    forall j: nat ensures Leaf(e, i, j) !in s.refs {
      assert Leaf(e, i, j) in s.refs ==> Placed(s, Leaf(e, i, j), s.refs[Leaf(e, i, j)]);
    }
  }

  lemma ProgressNoTable(s0: State, s: State, e: nat, i: nat)
    requires Progress(s0, s, e, i, 0) && Inv(s) && Table(e, i) !in s.refs
    ensures Progress(s0, s, e, i + 1, 0)
  {
    forall y | y in s.refs ensures !Gone(y, e, i + 1, 0) {
      assert Placed(s, y, s.refs[y]);
    }
    forall y | y in s0.refs && y !in s.refs ensures Gone(y, e, i + 1, 0) {
      assert Gone(y, e, i, 0);
    }
  }

  /** env_free gives back exactly what the environment held: its references and nothing else go, each
      count drops by the number of them, a page is freed exactly when none is left, and no private
      TLB entry of its ASID remains. */
  ghost predicate Released(s0: State, s: State, e: nat) {
    && e in s0.asids && s.asids == s0.asids - {e}
    && (forall y :: y in s.refs <==> y in s0.refs && (y.Pinned? || y.env != e))
    && (forall y :: y in s.refs ==> s.refs[y] == s0.refs[y])
    && Kept(s0, s)
    && (forall k :: k in s.tlb && k.asid == s0.asids[e] ==> !IsPrivate(k.pdx, k.ptx))
  }

  lemma ProgressEnd(s0: State, s: State, e: nat)
    requires Progress(s0, s, e, PDX_UTOP, 0) && Inv(s0) && Inv(s) && e in s.asids
    ensures Retirable(s, e)
    ensures Dir(e) in s.refs && s.refs[Dir(e)].frame < |s.ref| && s.ref[s.refs[Dir(e)].frame] > 0
    ensures Inv(Retire(s, e))
    ensures Released(s0, Retire(s, e), e)
  {
    assert Retirable(s, e) by {
      forall i: nat ensures Table(e, i) !in s.refs {
        assert Table(e, i) in s.refs ==> Placed(s, Table(e, i), s.refs[Table(e, i)]);
      }
    }
    RetireKeepsInv(s, e);
    KeptUnlink(s0, s, Dir(e));
    var t := Retire(s, e);
    forall y | y in s0.refs ensures y in t.refs <==> y.Pinned? || y.env != e {
      assert Placed(s0, y, s0.refs[y]);
    }
  }

  /** The counts of a released environment's pages drop by exactly its own references. */
  lemma ReleasedCounts(s0: State, s: State, e: nat, p: nat)
    requires Inv(s0) && Inv(s) && Released(s0, s, e) && p < |s.ref|
    ensures s.ref[p] == s0.ref[p] - |set x | x in s0.refs && s0.refs[x].frame == p && !x.Pinned? && x.env == e|
  {
    var mine := set x | x in s0.refs && s0.refs[x].frame == p && !x.Pinned? && x.env == e;
    assert Holders(s.refs, p) == Holders(s0.refs, p) - mine;
  }

  /** Other address spaces are untouched by a release. */
  lemma ReleasedElsewhere(s0: State, s: State, e: nat, f: nat, pdx: nat, ptx: nat)
    requires Inv(s0) && Released(s0, s, e) && f != e
    ensures Translate(s, f, pdx, ptx) == Translate(s0, f, pdx, ptx)
  {
  }

  // ----- a new address space -----

  /** env_setup_vm: a page is taken and referenced, but belongs to no environment yet. */
  ghost function PinDir(s: State, p: nat): State
    requires p < |s.ref|
  {
    Link(Take(s, p), Pinned(p, 0), Entry(p, PERM_V))
  }

  /** Page `p` holds a finished directory that no environment uses yet. */
  ghost predicate ReadyDir(mem: Memory, s: State, base: nat, p: nat) {
    && Shaped(mem) && base < |mem| && p < |mem| && p != base
    && mem[p] == FreshDir(mem, base, p)
    && (forall i :: PDX_UTOP <= i < PDX_UVPT ==> mem[base][i].frame != p)
    && Pinned(p, 0) in s.refs
    && (forall n :: n != 0 ==> Pinned(p, n) !in s.refs)
  }

  lemma PinKeepsInv(s: State, p: nat)
    requires Inv(s) && p in s.free
    ensures p < |s.ref| && Inv(PinDir(s, p)) && Counted(PinDir(s, p))
    ensures forall n :: Pinned(p, n) !in s.refs
  {
    TakeKeepsInv(s, p);
    NoHolders(s, p);
    forall n: nat ensures Pinned(p, n) !in s.refs {
      assert Pinned(p, n) in s.refs ==> Placed(s, Pinned(p, n), s.refs[Pinned(p, n)]);
    }
    LinkKeepsInv(Take(s, p), Pinned(p, 0), Entry(p, PERM_V));
  }

  lemma PinRefines(mem: Memory, s: State, base: nat, p: nat)
    requires Inv(s) && p in s.free && Refines(mem, Take(s, p), base)
    ensures p < |s.ref|
    ensures Refines(mem, PinDir(s, p), base)
  {
    PinKeepsInv(s, p);
    hide Inv;
    PinAdded(mem, Take(s, p), PinDir(s, p), base, Pinned(p, 0));
  }

  lemma PinReady(mem: Memory, s: State, base: nat, p: nat)
    requires Inv(s) && p in s.free && Refines(mem, Take(s, p), base) && mem[p] == FreshDir(mem, base, p)
    ensures p < |s.ref| && ReadyDir(mem, PinDir(s, p), base, p)
  {
    PinKeepsInv(s, p);
    assert Pinned(base, 0) in s.refs;
    assert forall i :: PDX_UTOP <= i < PDX_UVPT ==> Pinned(mem[base][i].frame, 0) in s.refs;
  }

  lemma FreshDirStable(mem: Memory, base: nat, p: nat)
    requires Shaped(mem) && base < |mem| && p < |mem| && p != base
    ensures var mem' := mem[p := FreshDir(mem, base, p)];
      Shaped(mem') && FreshDir(mem', base, p) == FreshDir(mem, base, p)
  {
  }

  lemma SetupStep(mem: Memory, s: State, base: nat, p: nat)
    requires Inv(s) && p in s.free && Refines(mem, Take(s, p), base)
    ensures p < |s.ref| == |mem| && base < |mem| && Shaped(mem)
    ensures Inv(PinDir(s, p))
    ensures Refines(mem[p := FreshDir(mem, base, p)], PinDir(s, p), base)
    ensures ReadyDir(mem[p := FreshDir(mem, base, p)], PinDir(s, p), base, p)
  {
    PinKeepsInv(s, p);
    NotTemplate(mem, s, base, p);
    FreshDirStable(mem, base, p);
    TakenIsData(s, p);
    DataWrite(mem, Take(s, p), Take(s, p), base, p, FreshDir(mem, base, p));
    hide Inv, Refines;
    PinRefines(mem[p := FreshDir(mem, base, p)], s, base, p);
    PinReady(mem[p := FreshDir(mem, base, p)], s, base, p);
  }

  lemma NotTemplate(mem: Memory, s: State, base: nat, p: nat)
    requires Inv(s) && p in s.free && Refines(mem, Take(s, p), base)
    ensures p != base
  {
    PinKeepsInv(s, p);
  }

  lemma TakenIsData(s: State, p: nat)
    requires Inv(s) && p in s.free
    ensures DataPage(Take(s, p), p) && Structured(Take(s, p))
  {
    NoHolders(s, p);
    TakeKeepsInv(s, p);
  }

  lemma AdoptStep(mem: Memory, s: State, base: nat, e: nat, p: nat, a: nat)
    requires Inv(s) && Refines(mem, s, base) && ReadyDir(mem, s, base, p)
    requires e !in s.asids && a !in s.asids.Values
    ensures Inv(Adopt(s, e, p, a)) && Refines(mem, Adopt(s, e, p, a), base)
    ensures forall k :: k in s.tlb && k.asid == a ==> !IsPrivate(k.pdx, k.ptx)
  {
    AdoptKeepsInv(s, e, p, a);
    AdoptRefines(mem, s, base, e, p, a);
  }

  /** A new environment starts with nothing mapped below UTOP. */
  lemma AdoptedIsEmpty(s: State, e: nat, p: nat, a: nat, pdx: nat, ptx: nat)
    requires Inv(s) && e !in s.asids && pdx < PDX_UTOP
    ensures Translate(Adopt(s, e, p, a), e, pdx, ptx) == None
  {
    var x := Leaf(e, pdx, ptx);
    assert x in s.refs ==> Placed(s, x, s.refs[x]);
  }
}
