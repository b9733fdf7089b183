/** The vocabulary of the MMU: page table words and virtual pages. */
module Mmu {
  import opened Options

  /** The named bits in the low twelve bits of a page table word. */
  datatype Perm = Perm(g: bool, v: bool, d: bool, n: bool, cow: bool, dirty: bool, library: bool)

  /** A page table or page directory word: a physical page number and the permission bits. */
  datatype Entry = Entry(frame: nat, perm: Perm)

  const NO_PERM := Perm(false, false, false, false, false, false, false)
  const ZERO_ENTRY := Entry(0, NO_PERM)
  const PERM_V := NO_PERM.(v := true)
  const PERM_VD := NO_PERM.(v := true, d := true)

  /** UENVS and UPAGES are mapped for everybody, read-only. */
  const PERM_GV := NO_PERM.(g := true, v := true)

  /** The perm argument of a call, which is not masked: its low twelve bits, and what lies above them. */
  datatype PermArg = PermArg(hi: nat, low: Perm)

  /** Bitwise or. */
  function Or(a: nat, b: nat): nat {
    if a == 0 && b == 0 then 0 else 2 * Or(a / 2, b / 2) + if a % 2 == 1 || b % 2 == 1 then 1 else 0
  }

  /** The word that page_insert stores: page2pa(pp) | perm | PTE_V. */
  function Word(pp: nat, arg: PermArg): Entry {
    Entry(Or(pp, arg.hi), arg.low.(v := true))
  }

  lemma {:induction false} OrZero(a: nat)
    ensures Or(a, 0) == a
  {
    if a > 0 { OrZero(a / 2); }
  }

  /** An even number with its lowest bit set. */
  lemma OrOne(a: nat)
    requires a % 2 == 0
    ensures Or(a, 1) == a + 1
  {
    OrZero(a / 2);
  }

  /** Binary digit k of a number. */
  predicate BitAt(a: nat, k: nat) {
    if k == 0 then a % 2 == 1 else BitAt(a / 2, k - 1)
  }

  /** Or, digit by digit. */
  lemma {:induction false} OrBits(a: nat, b: nat, k: nat)
    ensures BitAt(Or(a, b), k) <==> BitAt(a, k) || BitAt(b, k)
    decreases k
  {
    if a == 0 && b == 0 {
      ZeroBits(k);
    } else if k > 0 {
      OrBits(a / 2, b / 2, k - 1);
      OrHalves(a, b);
    } else {
      OrHalves(a, b);
    }
  }

  lemma OrHalves(a: nat, b: nat)
    ensures Or(a, b) / 2 == Or(a / 2, b / 2)
    ensures Or(a, b) % 2 == 1 <==> a % 2 == 1 || b % 2 == 1
  {
    if a != 0 || b != 0 {
      var low := if a % 2 == 1 || b % 2 == 1 then 1 else 0;
      assert Or(a, b) == 2 * Or(a / 2, b / 2) + low;
      Doubled(Or(a / 2, b / 2), low);
    }
  }

  lemma Doubled(n: nat, low: nat)
    requires low < 2
    ensures (2 * n + low) / 2 == n && (2 * n + low) % 2 == low
  {
  }

  lemma {:induction false} ZeroBits(k: nat)
    ensures !BitAt(0, k)
  {
    if k > 0 { ZeroBits(k - 1); }
  }

  /** The entry is page p with the bits of the argument and PTE_V: the low bits as asked for, and the page number with every
      digit that p or the high part has. */
  ghost predicate AsAsked(en: Option<Entry>, p: nat, arg: PermArg) {
    && en.Some? && en.value.perm == arg.low.(v := true)
    && (forall k: nat {:trigger BitAt(en.value.frame, k)} :: BitAt(en.value.frame, k) <==> BitAt(p, k) || BitAt(arg.hi, k))
    && (arg.hi == 0 ==> en == Some(Entry(p, arg.low.(v := true))))
  }

  lemma WordAsAsked(p: nat, arg: PermArg)
    ensures AsAsked(Some(Word(p, arg)), p, arg)
  {
    forall k: nat ensures BitAt(Word(p, arg).frame, k) <==> BitAt(p, k) || BitAt(arg.hi, k) {
      OrBits(p, arg.hi, k);
    }
    if arg.hi == 0 { OrZero(p); }
  }

  /** Bytes in a page. */
  const BY2PG: nat := 0x1000
  /** Entries in one page table. */
  const TABLE_SIZE: nat := 1024
  /** PDX(UTOP): directory slots below it are private to an environment. */
  const PDX_UTOP: nat := 509
  /** PDX(UVPT): the directory slot that points back at the directory. */
  const PDX_UVPT: nat := 511
}

/** Address spaces of all environments as one finite map of references, with the
    reference counts, the free pages and the TLB that must agree with it. */
module Vm {
  import opened Options
  import opened Mmu

  /** A place that holds a counted reference to a physical page. */
  datatype Site =
    | Leaf(env: nat, pdx: nat, ptx: nat)
    | Table(env: nat, pdx: nat)
    | Dir(env: nat)
    | Pinned(frame: nat, n: nat)

  datatype Key = Key(asid: nat, pdx: nat, ptx: nat)

  /** `free` holds the pages of page_free_list, `held` the pages with count 0 that are on no list,
      `shared` the translations every environment has in common (UENVS, UPAGES and their window). */
  datatype State = State(
    ref: seq<nat>,
    free: set<nat>,
    held: set<nat>,
    refs: map<Site, Entry>,
    asids: map<nat, nat>,
    tlb: map<Key, Entry>,
    shared: map<(nat, nat), Entry>)

  ghost function Holders(refs: map<Site, Entry>, p: nat): set<Site> {
    set x | x in refs && refs[x].frame == p
  }

  // ----- the invariant -----

  /** pp_ref of every page is the number of places that refer to it. */
  ghost predicate Counted(s: State) {
    && (forall x :: x in s.refs ==> s.refs[x].frame < |s.ref|)
    && (forall p :: 0 <= p < |s.ref| ==> s.ref[p] == |Holders(s.refs, p)|)
  }

  /** Count 0 means free or held, never both, and nothing else is free or held. */
  ghost predicate Accounted(s: State) {
    && s.free !! s.held
    && (forall p :: p in s.free || p in s.held ==> p < |s.ref|)
    && (forall p :: 0 <= p < |s.ref| ==> (s.ref[p] == 0 <==> p in s.free || p in s.held))
  }

  /** Leaves hang off page tables, page tables off directories, directories off live environments. */
  ghost predicate Placed(s: State, x: Site, en: Entry) {
    && en.perm.v
    && match x
       case Leaf(e, i, j) => i < PDX_UTOP && j < TABLE_SIZE && Table(e, i) in s.refs && e in s.asids
       case Table(e, i) => i < PDX_UTOP && Dir(e) in s.refs && e in s.asids && en.perm == PERM_VD
       case Dir(e) => e in s.asids && en.perm == PERM_V
       case Pinned(p, _) => en.frame == p
  }

  ghost predicate Structured(s: State) {
    && (forall x :: x in s.refs ==> Placed(s, x, s.refs[x]))
    && (forall e :: e in s.asids ==> Dir(e) in s.refs)
  }

  /** A page used as a table or directory has no other use, and boot pages are never mapped by users. */
  ghost predicate Exclusive(s: State) {
    forall x, y :: x in s.refs && y in s.refs && x != y && s.refs[x].frame == s.refs[y].frame ==>
      (x.Leaf? && y.Leaf?) || (x.Pinned? && y.Pinned?)
  }

  predicate IsPrivate(pdx: nat, ptx: nat) {
    pdx < PDX_UTOP || (pdx == PDX_UVPT && (ptx < PDX_UTOP || ptx == PDX_UVPT))
  }

  /** The abstract two-level walk, self-map window included. */
  function Translate(s: State, e: nat, pdx: nat, ptx: nat): Option<Entry> {
    if pdx < PDX_UTOP then Get(s.refs, Leaf(e, pdx, ptx))
    else if pdx == PDX_UVPT && ptx < PDX_UTOP then Get(s.refs, Table(e, ptx))
    else if pdx == PDX_UVPT && ptx == PDX_UVPT then Get(s.refs, Dir(e))
    else Get(s.shared, (pdx, ptx))
  }

  ghost predicate AsidsDistinct(s: State) {
    forall e, f :: e in s.asids && f in s.asids && s.asids[e] == s.asids[f] ==> e == f
  }

  /** Every TLB entry is the translation that the owner of its ASID has now. */
  ghost predicate Coherent(s: State) {
    && (forall k :: k in s.tlb && IsPrivate(k.pdx, k.ptx) ==> k.asid in s.asids.Values)
    && (forall k, e :: k in s.tlb && IsPrivate(k.pdx, k.ptx) && e in s.asids && s.asids[e] == k.asid ==>
          Translate(s, e, k.pdx, k.ptx) == Some(s.tlb[k]))
    && (forall k :: k in s.tlb && !IsPrivate(k.pdx, k.ptx) ==>
          Get(s.shared, (k.pdx, k.ptx)) == Some(s.tlb[k]))
  }

  ghost predicate Inv(s: State) {
    && Counted(s)
    && Accounted(s)
    && Structured(s)
    && Exclusive(s)
    && AsidsDistinct(s)
    && Coherent(s)
  }

  // ----- primitive steps -----

  /** The TLB key whose translation a site determines. */
  function KeyOf(s: State, x: Site): Key
    requires !x.Pinned? && x.env in s.asids
  {
    var a := s.asids[x.env];
    match x
    case Leaf(_, i, j) => Key(a, i, j)
    case Table(_, i) => Key(a, PDX_UVPT, i)
    case Dir(_) => Key(a, PDX_UVPT, PDX_UVPT)
  }

  /** page_alloc: the page leaves the free list with count 0. */
  function Take(s: State, p: nat): State {
    s.(free := s.free - {p}, held := s.held + {p})
  }

  /** A new reference to a page. */
  function Link(s: State, x: Site, en: Entry): State
    requires en.frame < |s.ref|
  {
    s.(refs := s.refs[x := en],
       ref := s.ref[en.frame := s.ref[en.frame] + 1],
       held := s.held - {en.frame})
  }

  /** page_decref on the page a site refers to, the site erased and its TLB entry flushed. */
  function Unlink(s: State, x: Site): State
    requires x in s.refs && !x.Pinned? && x.env in s.asids
    requires s.refs[x].frame < |s.ref| && s.ref[s.refs[x].frame] > 0
  {
    var p := s.refs[x].frame;
    s.(refs := s.refs - {x},
       ref := s.ref[p := s.ref[p] - 1],
       free := if s.ref[p] == 1 then s.free + {p} else s.free,
       tlb := s.tlb - {KeyOf(s, x)})
  }

  /** A leaf keeps its page and changes its permission; its TLB entry is flushed. */
  function Reperm(s: State, x: Site, perm: Perm): State
    requires x in s.refs && x.Leaf? && x.env in s.asids
  {
    s.(refs := s.refs[x := Entry(s.refs[x].frame, perm)], tlb := s.tlb - {KeyOf(s, x)})
  }

  /** A TLB refill that may evict any other entries. */
  function Fill(s: State, e: nat, pdx: nat, ptx: nat, evicted: set<Key>): State
    requires e in s.asids && Translate(s, e, pdx, ptx).Some?
  {
    s.(tlb := (s.tlb - evicted)[Key(s.asids[e], pdx, ptx) := Translate(s, e, pdx, ptx).value])
  }

  /** A set-up directory becomes the address space of environment `e` under ASID `a`. */
  function Adopt(s: State, e: nat, p: nat, a: nat): State {
    s.(refs := (s.refs - {Pinned(p, 0)})[Dir(e) := Entry(p, PERM_V)], asids := s.asids[e := a])
  }

  /** The directory is given back, and the ASID with it. */
  function Retire(s: State, e: nat): State
    requires Dir(e) in s.refs && e in s.asids
    requires s.refs[Dir(e)].frame < |s.ref| && s.ref[s.refs[Dir(e)].frame] > 0
  {
    Unlink(s, Dir(e)).(asids := s.asids - {e})
  }

  // ----- what each primitive step keeps -----

  lemma CountPositive(s: State, x: Site)
    requires Counted(s) && x in s.refs
    ensures s.ref[s.refs[x].frame] > 0
  {
    assert x in Holders(s.refs, s.refs[x].frame);
  }

  lemma NoHolders(s: State, p: nat)
    requires Counted(s) && p < |s.ref| && s.ref[p] == 0
    ensures forall x :: x in s.refs ==> s.refs[x].frame != p
  {
    forall x | x in s.refs ensures s.refs[x].frame != p {
      if s.refs[x].frame == p { CountPositive(s, x); }
    }
  }

  lemma LinkCounts(s: State, x: Site, en: Entry)
    requires Counted(s) && x !in s.refs && en.frame < |s.ref|
    ensures Counted(Link(s, x, en))
  {
    var t := Link(s, x, en);
    forall p | 0 <= p < |t.ref| ensures t.ref[p] == |Holders(t.refs, p)| {
      if p == en.frame {
        assert Holders(t.refs, p) == Holders(s.refs, p) + {x};
      } else {
        assert Holders(t.refs, p) == Holders(s.refs, p);
      }
    }
  }

  lemma UnlinkCounts(s: State, x: Site)
    requires Counted(s) && x in s.refs && !x.Pinned? && x.env in s.asids
    requires s.ref[s.refs[x].frame] > 0
    ensures Counted(Unlink(s, x))
  {
    var t := Unlink(s, x);
    forall p | 0 <= p < |t.ref| ensures t.ref[p] == |Holders(t.refs, p)| {
      if p == s.refs[x].frame {
        assert Holders(t.refs, p) == Holders(s.refs, p) - {x};
        assert x in Holders(s.refs, p);
      } else {
        assert Holders(t.refs, p) == Holders(s.refs, p);
      }
    }
  }

  lemma TakeKeepsInv(s: State, p: nat)
    requires Inv(s) && p in s.free
    ensures Inv(Take(s, p))
  {
    var t := Take(s, p);
    assert forall q :: Holders(t.refs, q) == Holders(s.refs, q);
    assert Coherent(t) by { SameTranslations(s, t); }
  }

  lemma SameTranslations(s: State, t: State)
    requires s.refs == t.refs && s.shared == t.shared
    ensures forall e, i, j :: Translate(s, e, i, j) == Translate(t, e, i, j)
  {
  }

  /** When a new leaf, table or pinned reference may be made. */
  ghost predicate Linkable(s: State, x: Site, en: Entry) {
    && x !in s.refs && en.frame < |s.ref| && en.frame !in s.free
    && Placed(s, x, en)
    && match x
       case Leaf(_, _, _) => forall y :: y in s.refs && s.refs[y].frame == en.frame ==> y.Leaf?
       case Dir(_) => false
       case _ => s.ref[en.frame] == 0
  }

  lemma LinkExclusive(s: State, x: Site, en: Entry)
    requires Counted(s) && Exclusive(s) && Linkable(s, x, en)
    ensures Exclusive(Link(s, x, en))
  {
    if s.ref[en.frame] == 0 { NoHolders(s, en.frame); }
  }

  /** Changing the references keeps the TLB coherent when every translation still cached is unchanged. */
  lemma StillCoherent(s: State, t: State)
    requires Coherent(s) && t.asids == s.asids && t.shared == s.shared
    requires forall k :: k in t.tlb ==> k in s.tlb && t.tlb[k] == s.tlb[k]
    requires forall k, e ::
      k in t.tlb && IsPrivate(k.pdx, k.ptx) && e in s.asids && s.asids[e] == k.asid && Translate(s, e, k.pdx, k.ptx).Some? ==>
        Translate(t, e, k.pdx, k.ptx) == Translate(s, e, k.pdx, k.ptx)
    ensures Coherent(t)
  {
  }

  lemma LinkCoherent(s: State, x: Site, en: Entry)
    requires Coherent(s) && Linkable(s, x, en)
    ensures Coherent(Link(s, x, en))
  {
    StillCoherent(s, Link(s, x, en));
  }

  lemma LinkStructured(s: State, x: Site, en: Entry)
    requires Structured(s) && Linkable(s, x, en)
    ensures Structured(Link(s, x, en))
  {
  }

  lemma LinkAccounted(s: State, x: Site, en: Entry)
    requires Accounted(s) && Linkable(s, x, en)
    ensures Accounted(Link(s, x, en))
  {
  }

  lemma LinkKeepsInv(s: State, x: Site, en: Entry)
    requires Inv(s) && Linkable(s, x, en)
    ensures Inv(Link(s, x, en))
  {
    LinkCounts(s, x, en);
    LinkExclusive(s, x, en);
    LinkCoherent(s, x, en);
    LinkStructured(s, x, en);
    LinkAccounted(s, x, en);
  }

  /** When a reference may be dropped: leaves first, then tables. */
  ghost predicate Unlinkable(s: State, x: Site) {
    && x in s.refs
    && match x
       case Leaf(_, _, _) => true
       case Table(e, i) => forall j :: Leaf(e, i, j) !in s.refs
       case _ => false
  }

  /** What a TLB key still says after the entry of one site was flushed. */
  lemma OtherKeys(s: State, x: Site, k: Key, e: nat)
    requires !x.Pinned? && x.env in s.asids && AsidsDistinct(s)
    requires e in s.asids && s.asids[e] == k.asid && k != KeyOf(s, x)
    requires IsPrivate(k.pdx, k.ptx)
    ensures forall m: map<Site, Entry> :: (forall y :: y != x ==> Get(m, y) == Get(s.refs, y)) ==>
      Translate(s.(refs := m), e, k.pdx, k.ptx) == Translate(s, e, k.pdx, k.ptx)
  {
  }

  lemma UnlinkCoherent(s: State, x: Site)
    requires AsidsDistinct(s) && Coherent(s) && x in s.refs && !x.Pinned? && x.env in s.asids
    requires s.refs[x].frame < |s.ref| && s.ref[s.refs[x].frame] > 0
    ensures Coherent(Unlink(s, x))
  {
    var t := Unlink(s, x);
    forall k, e | k in t.tlb && IsPrivate(k.pdx, k.ptx) && e in s.asids && s.asids[e] == k.asid
      ensures Translate(t, e, k.pdx, k.ptx) == Translate(s, e, k.pdx, k.ptx)
    {
      OtherKeys(s, x, k, e);
      assert Translate(t, e, k.pdx, k.ptx) == Translate(s.(refs := t.refs), e, k.pdx, k.ptx);
    }
    StillCoherent(s, t);
  }

  lemma UnlinkKeepsInv(s: State, x: Site)
    requires Inv(s) && Unlinkable(s, x)
    ensures x.env in s.asids && s.ref[s.refs[x].frame] > 0
    ensures Inv(Unlink(s, x))
  {
    CountPositive(s, x);
    assert Placed(s, x, s.refs[x]);
    var t := Unlink(s, x);
    assert Counted(t) by { UnlinkCounts(s, x); }
    assert Coherent(t) by { UnlinkCoherent(s, x); }
    assert Structured(t) by {
      forall y | y in t.refs ensures Placed(t, y, t.refs[y]) {
        assert Placed(s, y, s.refs[y]);
      }
    }
  }

  lemma RepermCoherent(s: State, x: Site, perm: Perm)
    requires AsidsDistinct(s) && Coherent(s) && x in s.refs && x.Leaf? && x.env in s.asids
    ensures Coherent(Reperm(s, x, perm))
  {
    var t := Reperm(s, x, perm);
    forall k, e | k in t.tlb && IsPrivate(k.pdx, k.ptx) && e in s.asids && s.asids[e] == k.asid
      ensures Translate(t, e, k.pdx, k.ptx) == Translate(s, e, k.pdx, k.ptx)
    {
      OtherKeys(s, x, k, e);
      assert Translate(t, e, k.pdx, k.ptx) == Translate(s.(refs := t.refs), e, k.pdx, k.ptx);
    }
    StillCoherent(s, t);
  }

  lemma RepermCounts(s: State, x: Site, perm: Perm)
    requires Counted(s) && x in s.refs && x.Leaf? && x.env in s.asids
    ensures Counted(Reperm(s, x, perm))
  {
    var t := Reperm(s, x, perm);
    forall p | 0 <= p < |t.ref| ensures t.ref[p] == |Holders(t.refs, p)| {
      assert Holders(t.refs, p) == Holders(s.refs, p);
    }
  }

  lemma RepermStructured(s: State, x: Site, perm: Perm)
    requires Structured(s) && x in s.refs && x.Leaf? && x.env in s.asids && perm.v
    ensures Structured(Reperm(s, x, perm))
  {
    var t := Reperm(s, x, perm);
    forall y | y in t.refs ensures Placed(t, y, t.refs[y]) {
      assert Placed(s, y, s.refs[y]);
    }
  }

  lemma RepermExclusive(s: State, x: Site, perm: Perm)
    requires Exclusive(s) && x in s.refs && x.Leaf? && x.env in s.asids
    ensures Exclusive(Reperm(s, x, perm))
  {
  }

  lemma RepermKeepsInv(s: State, x: Site, perm: Perm)
    requires Inv(s) && x in s.refs && x.Leaf? && perm.v
    ensures x.env in s.asids
    ensures Inv(Reperm(s, x, perm))
  {
    assert Placed(s, x, s.refs[x]);
    RepermCoherent(s, x, perm);
    RepermCounts(s, x, perm);
    RepermStructured(s, x, perm);
    RepermExclusive(s, x, perm);
  }

  lemma FillKeepsInv(s: State, e: nat, pdx: nat, ptx: nat, evicted: set<Key>)
    requires Inv(s) && e in s.asids && Translate(s, e, pdx, ptx).Some?
    ensures Inv(Fill(s, e, pdx, ptx, evicted))
  {
    FillShape(s, e, pdx, ptx, evicted);
    FillCoherent(s, e, pdx, ptx, evicted);
  }

  lemma FillShape(s: State, e: nat, pdx: nat, ptx: nat, evicted: set<Key>)
    requires Counted(s) && Structured(s) && Exclusive(s) && e in s.asids && Translate(s, e, pdx, ptx).Some?
    ensures var t := Fill(s, e, pdx, ptx, evicted); Counted(t) && Structured(t) && Exclusive(t)
  {
    hide Translate;
    var t := Fill(s, e, pdx, ptx, evicted);
    forall y | y in t.refs ensures Placed(t, y, t.refs[y]) { assert Placed(s, y, s.refs[y]); }
  }

  lemma FillCoherent(s: State, e: nat, pdx: nat, ptx: nat, evicted: set<Key>)
    requires AsidsDistinct(s) && Coherent(s) && e in s.asids && Translate(s, e, pdx, ptx).Some?
    ensures Coherent(Fill(s, e, pdx, ptx, evicted))
  {
    SameTranslations(s, Fill(s, e, pdx, ptx, evicted));
    assert s.asids[e] in s.asids.Values;
  }

  ghost predicate Adoptable(s: State, e: nat, p: nat, a: nat) {
    && e !in s.asids && a !in s.asids.Values
    && Pinned(p, 0) in s.refs
    && (forall n :: n != 0 ==> Pinned(p, n) !in s.refs)
  }

  lemma AdoptCounts(s: State, e: nat, p: nat, a: nat)
    requires Counted(s) && Structured(s) && Adoptable(s, e, p, a)
    ensures Counted(Adopt(s, e, p, a))
  {
    var t := Adopt(s, e, p, a);
    assert Dir(e) in s.refs ==> Placed(s, Dir(e), s.refs[Dir(e)]);
    assert Placed(s, Pinned(p, 0), s.refs[Pinned(p, 0)]);
    forall q | 0 <= q < |t.ref| ensures t.ref[q] == |Holders(t.refs, q)| {
      if q == p {
        assert Holders(t.refs, q) == Holders(s.refs, q) - {Pinned(p, 0)} + {Dir(e)};
        assert Pinned(p, 0) in Holders(s.refs, q);
      } else {
        assert Holders(t.refs, q) == Holders(s.refs, q);
      }
    }
  }

  lemma AdoptStructured(s: State, e: nat, p: nat, a: nat)
    requires Structured(s) && Adoptable(s, e, p, a)
    ensures Structured(Adopt(s, e, p, a))
  {
    var t := Adopt(s, e, p, a);
    forall x | x in t.refs && x != Dir(e) ensures Placed(t, x, t.refs[x]) {
      assert Placed(s, x, s.refs[x]);
    }
  }

  lemma AdoptExclusive(s: State, e: nat, p: nat, a: nat)
    requires Structured(s) && Exclusive(s) && Adoptable(s, e, p, a)
    ensures Exclusive(Adopt(s, e, p, a))
  {
    var t := Adopt(s, e, p, a);
    forall x | x in t.refs && x != Dir(e)
      ensures x in s.refs && t.refs[x] == s.refs[x] && t.refs[x].frame != p
    {
      NotPinned(s, e, p, a, x);
    }
    hide Structured, Adoptable;
    forall x, y | x in t.refs && y in t.refs && x != y && t.refs[x].frame == t.refs[y].frame
      ensures (x.Leaf? && y.Leaf?) || (x.Pinned? && y.Pinned?)
    {
      assert x != Dir(e) && y != Dir(e);
    }
  }

  lemma NotPinned(s: State, e: nat, p: nat, a: nat, x: Site)
    requires Structured(s) && Exclusive(s) && Adoptable(s, e, p, a) && x in Adopt(s, e, p, a).refs && x != Dir(e)
    ensures x in s.refs && Adopt(s, e, p, a).refs[x] == s.refs[x] && s.refs[x].frame != p
  {
    assert Placed(s, Pinned(p, 0), s.refs[Pinned(p, 0)]);
    assert Placed(s, x, s.refs[x]);
  }

  lemma AdoptCoherent(s: State, e: nat, p: nat, a: nat)
    requires Structured(s) && Coherent(s) && Adoptable(s, e, p, a)
    ensures Coherent(Adopt(s, e, p, a))
    ensures forall k :: k in s.tlb && k.asid == a ==> !IsPrivate(k.pdx, k.ptx)
  {
    var t := Adopt(s, e, p, a);
    forall k, f | k in t.tlb && IsPrivate(k.pdx, k.ptx) && f in t.asids && t.asids[f] == k.asid
      ensures Translate(t, f, k.pdx, k.ptx) == Some(t.tlb[k])
    {
      assert f != e;
      assert Translate(s, f, k.pdx, k.ptx) == Some(s.tlb[k]);
    }
    forall k | k in t.tlb && IsPrivate(k.pdx, k.ptx) ensures k.asid in t.asids.Values {
      var f :| f in s.asids && s.asids[f] == k.asid;
      assert f in t.asids && t.asids[f] == k.asid;
    }
  }

  lemma AdoptKeepsInv(s: State, e: nat, p: nat, a: nat)
    requires Inv(s) && Adoptable(s, e, p, a)
    ensures Inv(Adopt(s, e, p, a))
    ensures forall k :: k in s.tlb && k.asid == a ==> !IsPrivate(k.pdx, k.ptx)
  {
    var t := Adopt(s, e, p, a);
    assert Counted(t) by { AdoptCounts(s, e, p, a); }
    AdoptStructured(s, e, p, a);
    AdoptExclusive(s, e, p, a);
    AdoptCoherent(s, e, p, a);
    assert AsidsDistinct(t) by {
      forall f | f in s.asids ensures s.asids[f] != a {
        assert s.asids[f] in s.asids.Values;
      }
    }
    assert Accounted(t);
  }

  ghost predicate Retirable(s: State, e: nat) {
    e in s.asids && (forall i :: Table(e, i) !in s.refs)
  }

  lemma RetireFlushed(s: State, e: nat, k: Key)
    requires Structured(s) && Coherent(s) && Retirable(s, e)
    requires k in s.tlb && IsPrivate(k.pdx, k.ptx) && k.asid == s.asids[e]
    ensures k == KeyOf(s, Dir(e))
  {
    assert Translate(s, e, k.pdx, k.ptx) == Some(s.tlb[k]);
    var x := Leaf(e, k.pdx, k.ptx);
    assert x in s.refs ==> Placed(s, x, s.refs[x]);
  }

  lemma RetireStructured(s: State, e: nat)
    requires Structured(s) && Retirable(s, e)
    ensures Structured(s.(refs := s.refs - {Dir(e)}, asids := s.asids - {e}))
  {
    var t := s.(refs := s.refs - {Dir(e)}, asids := s.asids - {e});
    forall y | y in t.refs ensures Placed(t, y, t.refs[y]) {
      assert Placed(s, y, s.refs[y]);
      if y.Leaf? { assert Placed(s, Table(y.env, y.pdx), s.refs[Table(y.env, y.pdx)]); }
    }
  }

  lemma RetireCoherent(s: State, e: nat)
    requires Structured(s) && Coherent(s) && AsidsDistinct(s) && Retirable(s, e)
    requires s.refs[Dir(e)].frame < |s.ref| && s.ref[s.refs[Dir(e)].frame] > 0
    ensures Coherent(Retire(s, e))
    ensures forall k :: k in Retire(s, e).tlb && k.asid == s.asids[e] ==> !IsPrivate(k.pdx, k.ptx)
  {
    assert Dir(e) in s.refs;
    hide Structured;
    var u := Unlink(s, Dir(e));
    var t := Retire(s, e);
    UnlinkCoherent(s, Dir(e));
    forall k | k in t.tlb && IsPrivate(k.pdx, k.ptx) ensures k.asid != s.asids[e] && k.asid in t.asids.Values {
      RetiredOwner(s, e, k);
    }
    SameTranslations(u, t);
  }

  lemma RetiredOwner(s: State, e: nat, k: Key)
    requires Structured(s) && Coherent(s) && Retirable(s, e)
    requires k in s.tlb && k != KeyOf(s, Dir(e)) && IsPrivate(k.pdx, k.ptx)
    ensures k.asid != s.asids[e] && k.asid in (s.asids - {e}).Values
  {
    if k.asid == s.asids[e] { RetireFlushed(s, e, k); }
    var f :| f in s.asids && s.asids[f] == k.asid;
    assert f in s.asids - {e} && (s.asids - {e})[f] == k.asid;
  }

  /** env_free: afterwards no TLB entry of the released ASID is left, so its next owner sees none. */
  lemma RetireKeepsInv(s: State, e: nat)
    requires Inv(s) && Retirable(s, e)
    ensures Dir(e) in s.refs && s.ref[s.refs[Dir(e)].frame] > 0
    ensures Inv(Retire(s, e))
    ensures forall k :: k in Retire(s, e).tlb && k.asid == s.asids[e] ==> !IsPrivate(k.pdx, k.ptx)
  {
    CountPositive(s, Dir(e));
    var t := Retire(s, e);
    UnlinkCounts(s, Dir(e));
    assert t.refs == Unlink(s, Dir(e)).refs;
    RetireCoherent(s, e);
    RetireStructured(s, e);
    hide Structured, Coherent, Counted;
  }

  // ----- page_remove and page_insert as steps on the whole state -----

  /** The address space of one environment below UTOP: a finite map from virtual page to entry. */
  ghost function Space(refs: map<Site, Entry>, e: nat): map<(nat, nat), Entry> {
    map x | x in refs && x.Leaf? && x.env == e :: (x.pdx, x.ptx) := refs[x]
  }

  lemma SpaceLookup(refs: map<Site, Entry>, e: nat, k: (nat, nat))
    ensures Get(Space(refs, e), k) == Get(refs, Leaf(e, k.0, k.1))
  {
    var x := Leaf(e, k.0, k.1);
    assert k == (x.pdx, x.ptx);
    if x in refs { assert k in Space(refs, e); }
  }

  /** Changing one leaf changes one key of one address space. */
  lemma SpaceAfter(refs: map<Site, Entry>, refs': map<Site, Entry>, e: nat, x: Site)
    requires x.Leaf?
    requires forall y: Site :: y.Leaf? && y != x ==> Get(refs', y) == Get(refs, y)
    ensures Space(refs', e) ==
      if e != x.env then Space(refs, e)
      else if x in refs' then Space(refs, e)[(x.pdx, x.ptx) := refs'[x]]
      else Space(refs, e) - {(x.pdx, x.ptx)}
  {
    hide Space;
    var m, m' := Space(refs, e), Space(refs', e);
    forall k: (nat, nat)
      ensures Get(m', k) == if Leaf(e, k.0, k.1) == x then Get(refs', x) else Get(m, k)
    {
      SpaceLookup(refs, e, k);
      SpaceLookup(refs', e, k);
    }
    if e != x.env {
      SameMap(m', m);
    } else if x in refs' {
      SameMap(m', m[(x.pdx, x.ptx) := refs'[x]]);
    } else {
      SameMap(m', m - {(x.pdx, x.ptx)});
    }
  }

  lemma SameMap(m: map<(nat, nat), Entry>, n: map<(nat, nat), Entry>)
    requires forall k: (nat, nat) :: Get(m, k) == Get(n, k)
    ensures m == n
  {
    forall k: (nat, nat) ensures k in m <==> k in n { assert Get(m, k) == Get(n, k); }
    forall k: (nat, nat) | k in m ensures m[k] == n[k] { assert Get(m, k) == Get(n, k); }
  }

  ghost predicate Mappable(s: State, x: Site) {
    x.Leaf? && x.env in s.asids && x.pdx < PDX_UTOP && x.ptx < TABLE_SIZE
  }

  /** A page that page_insert may map: allocated, and used by nothing but leaves. */
  ghost predicate Insertable(s: State, p: nat) {
    p < |s.ref| && p !in s.free && forall y :: y in s.refs && s.refs[y].frame == p ==> y.Leaf?
  }

  ghost function Remove(s: State, x: Site): State
    requires Inv(s) && x.Leaf?
  {
    if x in s.refs then UnlinkKeepsInv(s, x); Unlink(s, x) else s
  }

  /** `t` is the page taken for a missing page table. */
  ghost function WithTable(s: State, e: nat, i: nat, t: nat): State
    requires t < |s.ref|
  {
    if Table(e, i) in s.refs then s else Link(Take(s, t), Table(e, i), Entry(t, PERM_VD))
  }

  ghost function Insert(s: State, x: Site, p: nat, perm: Perm, t: nat): State
    requires Inv(s) && Mappable(s, x) && Insertable(s, p) && t < |s.ref|
  {
    if x in s.refs && s.refs[x].frame == p then Reperm(s, x, perm.(v := true))
    else Link(WithTable(Remove(s, x), x.env, x.pdx, t), x, Entry(p, perm.(v := true)))
  }

  /** page_remove deletes one key of one address space and nothing else. */
  lemma RemoveIsMapDelete(s: State, x: Site, e: nat)
    requires Inv(s) && x.Leaf?
    ensures Inv(Remove(s, x))
    ensures Space(Remove(s, x).refs, e) ==
      if e == x.env then Space(s.refs, e) - {(x.pdx, x.ptx)} else Space(s.refs, e)
  {
    if x in s.refs { UnlinkKeepsInv(s, x); }
    SpaceAfter(s.refs, Remove(s, x).refs, e, x);
  }

  lemma WithTableKeepsInv(s: State, e: nat, i: nat, t: nat)
    requires Inv(s) && e in s.asids && i < PDX_UTOP && t < |s.ref|
    requires Table(e, i) !in s.refs ==> t in s.free
    ensures Inv(WithTable(s, e, i, t))
    ensures Table(e, i) in WithTable(s, e, i, t).refs
  {
    if Table(e, i) !in s.refs {
      TakeKeepsInv(s, t);
      var u := Take(s, t);
      assert Linkable(u, Table(e, i), Entry(t, PERM_VD));
      LinkKeepsInv(u, Table(e, i), Entry(t, PERM_VD));
    }
  }

  /** page_insert changes one leaf and perhaps adds one page table. */
  lemma InsertChanges(s: State, x: Site, p: nat, perm: Perm, t: nat)
    requires Inv(s) && Mappable(s, x) && Insertable(s, p) && t < |s.ref|
    ensures var u := Insert(s, x, p, perm, t);
      && u.asids == s.asids && u.shared == s.shared && |u.ref| == |s.ref|
      && Get(u.refs, x) == Some(Entry(p, perm.(v := true)))
      && (forall y :: y != x && y != Table(x.env, x.pdx) ==> Get(u.refs, y) == Get(s.refs, y))
  {
    if x in s.refs && s.refs[x].frame == p {
    } else {
      RemoveChanges(s, x);
      LinkChanges(Remove(s, x), x, Entry(p, perm.(v := true)), t);
    }
  }

  lemma RemoveChanges(s: State, x: Site)
    requires Inv(s) && x.Leaf?
    ensures var u := Remove(s, x);
      && u.asids == s.asids && u.shared == s.shared && |u.ref| == |s.ref|
      && (forall y :: y != x ==> Get(u.refs, y) == Get(s.refs, y))
  {
  }

  lemma LinkChanges(s: State, x: Site, en: Entry, t: nat)
    requires x.Leaf? && en.frame < |s.ref| && t < |s.ref|
    ensures var u := Link(WithTable(s, x.env, x.pdx, t), x, en);
      && u.asids == s.asids && u.shared == s.shared && |u.ref| == |s.ref|
      && Get(u.refs, x) == Some(en)
      && (forall y :: y != x && y != Table(x.env, x.pdx) ==> Get(u.refs, y) == Get(s.refs, y))
  {
  }

  /** page_insert frees the page it replaces when that was its last reference, and takes at most a page table. */
  lemma InsertFrees(s: State, x: Site, p: nat, perm: Perm, t: nat)
    requires Inv(s) && Mappable(s, x) && Insertable(s, p) && t < |s.ref|
    requires Table(x.env, x.pdx) !in s.refs ==> t in s.free
    ensures var u := Insert(s, x, p, perm, t);
      && u.held == s.held - {p}
      && u.free == (if Table(x.env, x.pdx) in s.refs then s.free else s.free - {t}) +
                   (if x in s.refs && s.refs[x].frame != p && s.ref[s.refs[x].frame] == 1
                    then {s.refs[x].frame} else {})
  {
    hide Coherent, Exclusive;
    if x in s.refs {
      CountPositive(s, x);
      assert Placed(s, x, s.refs[x]);
      assert Table(x.env, x.pdx) in Remove(s, x).refs;
    } else {
      assert Remove(s, x) == s;
      assert Accounted(s);
    }
  }

  lemma InsertKeepsInv(s: State, x: Site, p: nat, perm: Perm, t: nat)
    requires Inv(s) && Mappable(s, x) && Insertable(s, p) && t < |s.ref|
    requires Table(x.env, x.pdx) !in s.refs ==> t in s.free
    ensures Inv(Insert(s, x, p, perm, t))
  {
    if x in s.refs && s.refs[x].frame == p {
      RepermKeepsInv(s, x, perm.(v := true));
    } else {
      InsertFreshKeepsInv(s, x, p, perm, t);
    }
  }

  lemma InsertFreshKeepsInv(s: State, x: Site, p: nat, perm: Perm, t: nat)
    requires Inv(s) && Mappable(s, x) && Insertable(s, p) && t < |s.ref|
    requires Table(x.env, x.pdx) !in s.refs ==> t in s.free
    requires x in s.refs ==> s.refs[x].frame != p
    ensures Inv(Link(WithTable(Remove(s, x), x.env, x.pdx, t), x, Entry(p, perm.(v := true))))
  {
    var s1 := Remove(s, x);
    RemoveIsMapDelete(s, x, x.env);
    assert Insertable(s1, p);
    assert Table(x.env, x.pdx) in s.refs <==> Table(x.env, x.pdx) in s1.refs;
    assert x in s.refs ==> Placed(s, x, s.refs[x]);
    WithTableKeepsInv(s1, x.env, x.pdx, t);
    var s2 := WithTable(s1, x.env, x.pdx, t);
    var en := Entry(p, perm.(v := true));
    assert Linkable(s2, x, en) by { LinkableAfter(s1, x, en, t); }
    LinkKeepsInv(s2, x, en);
  }

  lemma LinkableAfter(s: State, x: Site, en: Entry, t: nat)
    requires Mappable(s, x) && Insertable(s, en.frame) && t < |s.ref| && x !in s.refs && en.perm.v
    requires Table(x.env, x.pdx) !in s.refs ==> t in s.free
    ensures Linkable(WithTable(s, x.env, x.pdx, t), x, en)
  {
  }

  /** page_insert updates one key of one address space and nothing else. */
  lemma InsertIsMapUpdate(s: State, x: Site, p: nat, perm: Perm, t: nat, e: nat)
    requires Inv(s) && Mappable(s, x) && Insertable(s, p) && t < |s.ref|
    requires Table(x.env, x.pdx) !in s.refs ==> t in s.free
    ensures Space(Insert(s, x, p, perm, t).refs, e) ==
      if e == x.env then Space(s.refs, e)[(x.pdx, x.ptx) := Entry(p, perm.(v := true))] else Space(s.refs, e)
  {
    InsertChanges(s, x, p, perm, t);
    SpaceAfter(s.refs, Insert(s, x, p, perm, t).refs, e, x);
  }

  // ----- every run -----

  datatype Step =
    | TakePage(p: nat)
    | LinkSite(x: Site, en: Entry)
    | UnlinkSite(x: Site)
    | RepermSite(x: Site, perm: Perm)
    | Refill(e: nat, pdx: nat, ptx: nat, evicted: set<Key>)
    | AdoptSpace(e: nat, p: nat, a: nat)
    | RetireSpace(e: nat)

  ghost predicate Enabled(s: State, step: Step) {
    match step
    case TakePage(p) => p in s.free
    case LinkSite(x, en) => Linkable(s, x, en)
    case UnlinkSite(x) => Unlinkable(s, x)
    case RepermSite(x, perm) => x in s.refs && x.Leaf? && perm.v
    case Refill(e, i, j, _) => e in s.asids && Translate(s, e, i, j).Some?
    case AdoptSpace(e, p, a) => Adoptable(s, e, p, a)
    case RetireSpace(e) => Retirable(s, e)
  }

  ghost function Apply(s: State, step: Step): State
    requires Inv(s) && Enabled(s, step)
  {
    match step
    case TakePage(p) => Take(s, p)
    case LinkSite(x, en) => Link(s, x, en)
    case UnlinkSite(x) => UnlinkKeepsInv(s, x); Unlink(s, x)
    case RepermSite(x, perm) => RepermKeepsInv(s, x, perm); Reperm(s, x, perm)
    case Refill(e, i, j, evicted) => Fill(s, e, i, j, evicted)
    case AdoptSpace(e, p, a) => Adopt(s, e, p, a)
    case RetireSpace(e) => RetireKeepsInv(s, e); Retire(s, e)
  }

  lemma StepKeepsInv(s: State, step: Step)
    requires Inv(s) && Enabled(s, step)
    ensures Inv(Apply(s, step))
  {
    match step
    case TakePage(p) => TakeKeepsInv(s, p);
    case LinkSite(x, en) => LinkKeepsInv(s, x, en);
    case UnlinkSite(x) => UnlinkKeepsInv(s, x);
    case RepermSite(x, perm) => RepermKeepsInv(s, x, perm);
    case Refill(e, i, j, evicted) => FillKeepsInv(s, e, i, j, evicted);
    case AdoptSpace(e, p, a) => AdoptKeepsInv(s, e, p, a);
    case RetireSpace(e) => RetireKeepsInv(s, e);
  }

  /** `t` is reached from `s` by some interleaving of kernel steps. */
  ghost predicate Reaches(s: State, steps: seq<Step>, t: State)
    requires Inv(s)
    decreases |steps|
  {
    if steps == [] then s == t
    else Enabled(s, steps[0]) && (StepKeepsInv(s, steps[0]); Reaches(Apply(s, steps[0]), steps[1..], t))
  }

  /** In every reachable state the TLB agrees with the page tables, whatever ASIDs were reused on
      the way, and every count is the number of references. */
  lemma {:induction false} EveryRunKeepsInv(s: State, steps: seq<Step>, t: State)
    requires Inv(s) && Reaches(s, steps, t)
    ensures Inv(t)
    decreases |steps|
  {
    if steps != [] {
      StepKeepsInv(s, steps[0]);
      EveryRunKeepsInv(Apply(s, steps[0]), steps[1..], t);
    }
  }

  /** No stale translation: a TLB hit by a live environment is what a walk of its own tables gives. */
  lemma HitsAreFresh(s: State, steps: seq<Step>, t: State, e: nat, pdx: nat, ptx: nat)
    requires Inv(s) && Reaches(s, steps, t)
    requires e in t.asids && Key(t.asids[e], pdx, ptx) in t.tlb
    ensures Translate(t, e, pdx, ptx) == Some(t.tlb[Key(t.asids[e], pdx, ptx)])
  {
    EveryRunKeepsInv(s, steps, t);
  }

  // ----- global entries -----

  /** A TLB entry with PTE_G matches under every ASID; it is right if every live environment has that translation. */
  ghost predicate GlobalHitsFresh(s: State) {
    forall k, f {:trigger k in s.tlb, f in s.asids} ::
      k in s.tlb && IsPrivate(k.pdx, k.ptx) && s.tlb[k].perm.g && f in s.asids ==>
        Translate(s, f, k.pdx, k.ptx) == Some(s.tlb[k])
  }

  /** Whatever one environment maps as global, all map alike. */
  ghost predicate GlobalsAgree(s: State) {
    forall e, f, pdx, ptx {:trigger Translate(s, e, pdx, ptx), Translate(s, f, pdx, ptx)} ::
      e in s.asids && f in s.asids && IsPrivate(pdx, ptx)
      && Translate(s, e, pdx, ptx).Some? && Translate(s, e, pdx, ptx).value.perm.g ==>
        Translate(s, f, pdx, ptx) == Translate(s, e, pdx, ptx)
  }

  /** After any refill every entry that matches under every ASID is still right for everybody. */
  ghost predicate RefillsKeepHitsFresh(s: State) {
    forall e, pdx, ptx, evicted :: e in s.asids && Translate(s, e, pdx, ptx).Some? ==>
      GlobalHitsFresh(Fill(s, e, pdx, ptx, evicted))
  }

  /** The system calls let a user set PTE_G. With it, every hit after every possible refill is fresh if and only if
      the environments agree on all global pages; without any such page they do. */
  lemma GlobalHitsFreshIff(s: State)
    requires Inv(s)
    ensures RefillsKeepHitsFresh(s) <==> GlobalsAgree(s)
    ensures (forall e, pdx, ptx :: e in s.asids && IsPrivate(pdx, ptx) && Translate(s, e, pdx, ptx).Some? ==>
               !Translate(s, e, pdx, ptx).value.perm.g) ==> GlobalsAgree(s)
  {
    hide Counted, Accounted, Structured, Exclusive, Translate;
    if GlobalsAgree(s) {
      forall e, pdx, ptx, evicted | e in s.asids && Translate(s, e, pdx, ptx).Some?
        ensures GlobalHitsFresh(Fill(s, e, pdx, ptx, evicted))
      {
        AgreeingFill(s, e, pdx, ptx, evicted);
      }
    } else {
      var e, f, pdx, ptx :| e in s.asids && f in s.asids && IsPrivate(pdx, ptx)
        && Translate(s, e, pdx, ptx).Some? && Translate(s, e, pdx, ptx).value.perm.g
        && Translate(s, f, pdx, ptx) != Translate(s, e, pdx, ptx);
      var t := Fill(s, e, pdx, ptx, {});
      SameTranslations(s, t);
      assert Key(s.asids[e], pdx, ptx) in t.tlb && f in t.asids;
      assert !GlobalHitsFresh(t);
    }
  }

  lemma AgreeingFill(s: State, e: nat, pdx: nat, ptx: nat, evicted: set<Key>)
    requires Inv(s) && GlobalsAgree(s) && e in s.asids && Translate(s, e, pdx, ptx).Some?
    ensures GlobalHitsFresh(Fill(s, e, pdx, ptx, evicted))
  {
    var t := Fill(s, e, pdx, ptx, evicted);
    FillCoherent(s, e, pdx, ptx, evicted);
    SameTranslations(s, t);
    hide Counted, Accounted, Structured, Exclusive, Coherent, Translate;
    assert GlobalsAgree(t);
    AgreeingHits(t);
  }

  lemma AgreeingHits(t: State)
    requires Coherent(t) && GlobalsAgree(t)
    ensures GlobalHitsFresh(t)
  {
    hide Translate;
    forall k, f | k in t.tlb && IsPrivate(k.pdx, k.ptx) && t.tlb[k].perm.g && f in t.asids
      ensures Translate(t, f, k.pdx, k.ptx) == Some(t.tlb[k])
    {
      assert k.asid in t.asids.Values;
      var g :| g in t.asids && t.asids[g] == k.asid;
      assert Translate(t, g, k.pdx, k.ptx) == Some(t.tlb[k]);
    }
  }

  /** The TLB entry k answers for environment e: it has its ASID, or is global. */
  predicate Answers(s: State, e: nat, k: Key) {
    e in s.asids && k in s.tlb && (k.asid == s.asids[e] || s.tlb[k].perm.g)
  }

  /** What the TLB may answer environment e at a page: any entry that matches, or nothing if none does. */
  ghost predicate Looked(s: State, e: nat, pdx: nat, ptx: nat, hit: Option<Key>) {
    if hit.Some? then Answers(s, e, hit.value) && hit.value.pdx == pdx && hit.value.ptx == ptx
    else forall asid :: !Answers(s, e, Key(asid, pdx, ptx))
  }

  /** Whose page an answer is: that of the environment with the ASID of the entry, and anybody's if all share it. */
  ghost function Owner(s: State, e: nat, k: Key): nat
    requires Inv(s) && Answers(s, e, k)
  {
    if k.asid == s.asids[e] || !IsPrivate(k.pdx, k.ptx) then e
    else
      assert k.asid in s.asids.Values;
      var g :| g in s.asids && s.asids[g] == k.asid;
      g
  }

  /** Entry k is the translation that g has now; and g is another environment than e only for a global page below UTOP. */
  ghost predicate AnswersFor(s: State, e: nat, g: nat, k: Key) {
    && g in s.asids && k in s.tlb && Translate(s, g, k.pdx, k.ptx) == Some(s.tlb[k])
    && (g != e ==> s.asids[g] == k.asid && k.pdx < PDX_UTOP && s.tlb[k].perm.g)
  }

  lemma OwnerAnswers(s: State, e: nat, k: Key)
    requires Inv(s) && Answers(s, e, k)
    ensures AnswersFor(s, e, Owner(s, e, k), k)
  {
    hide Counted, Accounted, Exclusive;
    var g := Owner(s, e, k);
    if g != e {
      assert Translate(s, g, k.pdx, k.ptx) == Some(s.tlb[k]);
      assert Table(g, k.ptx) in s.refs ==> Placed(s, Table(g, k.ptx), s.refs[Table(g, k.ptx)]);
      assert Dir(g) in s.refs ==> Placed(s, Dir(g), s.refs[Dir(g)]);
    }
  }

  /** Whatever the TLB answers e at a page is e's own translation if and only if no other environment's global entry for
      that page, with a translation that e does not have, is in the TLB. */
  lemma AnswersOwnIff(s: State, e: nat, pdx: nat, ptx: nat)
    requires Inv(s) && e in s.asids
    ensures (forall k :: Looked(s, e, pdx, ptx, Some(k)) ==> Translate(s, e, pdx, ptx) == Some(s.tlb[k])) <==>
      forall g {:trigger s.asids[g]} :: g in s.asids && g != e && IsPrivate(pdx, ptx) && Key(s.asids[g], pdx, ptx) in s.tlb ==>
        !s.tlb[Key(s.asids[g], pdx, ptx)].perm.g || Translate(s, g, pdx, ptx) == Translate(s, e, pdx, ptx)
  {
    hide Counted, Accounted, Exclusive, Structured, Translate;
    if forall k :: Looked(s, e, pdx, ptx, Some(k)) ==> Translate(s, e, pdx, ptx) == Some(s.tlb[k]) {
      forall g | g in s.asids && g != e && IsPrivate(pdx, ptx) && Key(s.asids[g], pdx, ptx) in s.tlb
        ensures !s.tlb[Key(s.asids[g], pdx, ptx)].perm.g || Translate(s, g, pdx, ptx) == Translate(s, e, pdx, ptx)
      {
        var k := Key(s.asids[g], pdx, ptx);
        assert s.tlb[k].perm.g ==> Looked(s, e, pdx, ptx, Some(k));
        assert Translate(s, g, k.pdx, k.ptx) == Some(s.tlb[k]);
      }
    } else {
      var k :| Looked(s, e, pdx, ptx, Some(k)) && Translate(s, e, pdx, ptx) != Some(s.tlb[k]);
      OwnerAnswers(s, e, k);
      var g := Owner(s, e, k);
      assert s.asids[g] == k.asid && k == Key(s.asids[g], pdx, ptx);
      assert IsPrivate(pdx, ptx);
    }
  }

  /** Two environments; the first maps page 3, global, at directory slot 1. Pages 0 to 2 are the two directories and
      the page table. */
  ghost function OneGlobalPage(): State {
    State([1, 1, 1, 1], {}, {},
          map[Dir(0) := Entry(0, PERM_V), Dir(1) := Entry(1, PERM_V), Table(0, 1) := Entry(2, PERM_VD),
              Leaf(0, 1, 0) := Entry(3, PERM_GV)],
          map[0 := 0, 1 := 1], map[], map[])
  }

  lemma OneGlobalPageCounted()
    ensures Counted(OneGlobalPage()) && Accounted(OneGlobalPage())
  {
    var s := OneGlobalPage();
    assert Holders(s.refs, 0) == {Dir(0)} && Holders(s.refs, 1) == {Dir(1)};
    assert Holders(s.refs, 2) == {Table(0, 1)} && Holders(s.refs, 3) == {Leaf(0, 1, 0)};
  }

  lemma OneGlobalPageStructured()
    ensures Structured(OneGlobalPage())
  {
    var s := OneGlobalPage();
    forall x | x in s.refs ensures Placed(s, x, s.refs[x]) {
      assert x == Dir(0) || x == Dir(1) || x == Table(0, 1) || x == Leaf(0, 1, 0);
    }
  }

  lemma OneGlobalPageInv()
    ensures Inv(OneGlobalPage())
  {
    OneGlobalPageCounted();
    OneGlobalPageStructured();
    OneGlobalPageExclusive();
    hide Counted, Accounted, Structured, Exclusive;
  }

  lemma OneGlobalPageExclusive()
    ensures Exclusive(OneGlobalPage())
  {
    var s := OneGlobalPage();
    forall x | x in s.refs ensures x == Dir(0) || x == Dir(1) || x == Table(0, 1) || x == Leaf(0, 1, 0) {}
  }

  /** The bad case is real: after one refill by the first environment the second one, which has nothing mapped there,
      hits the first one's page. */
  lemma GlobalPageLeaks()
    ensures Inv(OneGlobalPage()) && !GlobalsAgree(OneGlobalPage())
    ensures var t := Fill(OneGlobalPage(), 0, 1, 0, {});
      && Inv(t) && !GlobalHitsFresh(t)
      && Get(t.tlb, Key(0, 1, 0)) == Some(Entry(3, PERM_GV)) && Translate(t, 1, 1, 0) == None
  {
    OneGlobalPageInv();
    var s := OneGlobalPage();
    assert Translate(s, 0, 1, 0) == Some(Entry(3, PERM_GV)) && Translate(s, 1, 1, 0) == None;
    FillKeepsInv(s, 0, 1, 0, {});
    var t := Fill(s, 0, 1, 0, {});
    assert Key(0, 1, 0) in t.tlb && 1 in t.asids;
  }

  /** Conservation: every page is in exactly one of free, held and referenced. */
  lemma PagesConserved(s: State, steps: seq<Step>, t: State)
    requires Inv(s) && Reaches(s, steps, t)
    ensures |t.free| + |t.held| + |Referenced(t)| == |s.ref|
    ensures t.free !! t.held && t.free + t.held !! Referenced(t)
  {
    hide Reaches;
    EveryRunKeepsInv(s, steps, t);
    SameSize(s, steps, t);
    PagesPartitioned(t);
  }

  lemma PagesPartitioned(t: State)
    requires Inv(t)
    ensures |t.free| + |t.held| + |Referenced(t)| == |t.ref|
    ensures t.free !! t.held && t.free + t.held !! Referenced(t)
  {
    ReferencedCounts(t);
    hide Counted, Structured, Exclusive, Coherent, Referenced;
    var rest := t.free + t.held;
    assert forall p: nat :: p in rest <==> p < |t.ref| && t.ref[p] == 0;
    Covering(|t.ref|, rest + Referenced(t));
  }

  lemma ReferencedCounts(s: State)
    requires Counted(s)
    ensures forall p :: p in Referenced(s) <==> 0 <= p < |s.ref| && s.ref[p] > 0
  {
    forall p | 0 <= p < |s.ref| ensures p in Referenced(s) <==> s.ref[p] > 0 {
      if s.ref[p] > 0 {
        var x :| x in Holders(s.refs, p);
        assert s.refs[x].frame == p;
      } else {
        NoHolders(s, p);
      }
    }
  }

  ghost function Referenced(s: State): set<nat> {
    set x | x in s.refs :: s.refs[x].frame
  }

  lemma {:induction false} SameSize(s: State, steps: seq<Step>, t: State)
    requires Inv(s) && Reaches(s, steps, t)
    ensures |t.ref| == |s.ref|
    decreases |steps|
  {
    if steps != [] {
      StepKeepsInv(s, steps[0]);
      SameSize(Apply(s, steps[0]), steps[1..], t);
    }
  }

  lemma {:induction false} Covering(n: nat, ps: set<nat>)
    requires forall p: nat :: p in ps <==> p < n
    ensures |ps| == n
  {
    if n > 0 {
      Covering(n - 1, ps - {n - 1});
    }
  }
}
