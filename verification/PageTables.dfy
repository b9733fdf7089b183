/** The two-level page tables as they lie in physical memory, and what they mean.

    `mem[f]` is the physical page `f` read as 1024 words. */
module PageTables {
  import opened Options
  import opened Mmu
  import opened Vm

  type Memory = seq<seq<Entry>>

  function ZeroPage(): (z: seq<Entry>)
    ensures |z| == TABLE_SIZE && forall j :: 0 <= j < TABLE_SIZE ==> z[j] == ZERO_ENTRY
  {
    seq(TABLE_SIZE, _ => ZERO_ENTRY)
  }

  ghost predicate Shaped(mem: Memory) {
    forall f :: 0 <= f < |mem| ==> |mem[f]| == TABLE_SIZE
  }

  /** va2pa and page_lookup: read the directory word, then the table word. */
  function Walk(mem: Memory, pgdir: nat, pdx: nat, ptx: nat): Option<Entry>
    requires Shaped(mem) && pgdir < |mem| && pdx < TABLE_SIZE && ptx < TABLE_SIZE
    requires mem[pgdir][pdx].perm.v ==> mem[pgdir][pdx].frame < |mem|
  {
    var pde := mem[pgdir][pdx];
    if !pde.perm.v then None
    else
      var pte := mem[pde.frame][ptx];
      if !pte.perm.v then None else Some(pte)
  }

  /** A word in memory stands for an optional entry. */
  ghost predicate Reads(w: Entry, o: Option<Entry>) {
    if w.perm.v then o == Some(w) else o == None
  }

  /** Directory `d` of environment `e`: its page tables, the template's slots, the self-map, nothing else. */
  ghost predicate DirMatches(mem: Memory, s: State, base: nat, e: nat)
    requires Shaped(mem) && base < |mem| && Dir(e) in s.refs && s.refs[Dir(e)].frame < |mem|
  {
    var d := s.refs[Dir(e)].frame;
    && (forall i :: 0 <= i < PDX_UTOP ==> Reads(mem[d][i], Get(s.refs, Table(e, i))))
    && (forall i :: PDX_UTOP <= i < PDX_UVPT ==> mem[d][i] == mem[base][i])
    && mem[d][PDX_UVPT] == Entry(d, PERM_V)
    && (forall i :: PDX_UVPT < i < TABLE_SIZE ==> !mem[d][i].perm.v)
  }

  ghost predicate TableMatches(mem: Memory, s: State, e: nat, i: nat)
    requires Shaped(mem) && Table(e, i) in s.refs && s.refs[Table(e, i)].frame < |mem|
  {
    forall j :: 0 <= j < TABLE_SIZE ==> Reads(mem[s.refs[Table(e, i)].frame][j], Get(s.refs, Leaf(e, i, j)))
  }

  /** The template directory holds the page tables of UENVS and UPAGES, on pinned pages. */
  ghost predicate TemplateMatches(mem: Memory, s: State, base: nat)
    requires Shaped(mem)
  {
    && base < |mem| && Pinned(base, 0) in s.refs
    && (forall i :: PDX_UTOP <= i < PDX_UVPT ==>
          && mem[base][i].perm == PERM_VD && mem[base][i].frame < |mem| && mem[base][i].frame != base
          && Pinned(mem[base][i].frame, 0) in s.refs
          && Get(s.shared, (PDX_UVPT, i)) == Some(mem[base][i]))
    && (forall i, j :: PDX_UTOP <= i < PDX_UVPT && 0 <= j < TABLE_SIZE ==>
          Reads(mem[mem[base][i].frame][j], Get(s.shared, (i, j))))
    && (forall i, j :: (i, j) in s.shared ==>
          && PDX_UTOP <= i <= PDX_UVPT && j < TABLE_SIZE
          && (i == PDX_UVPT ==> PDX_UTOP <= j < PDX_UVPT)
          && (i < PDX_UVPT ==> s.shared[(i, j)].perm == PERM_GV))
  }

  /** Physical memory holds exactly the references of `s`. */
  ghost predicate Refines(mem: Memory, s: State, base: nat) {
    && |mem| == |s.ref|
    && Shaped(mem)
    && Counted(s)
    && TemplateMatches(mem, s, base)
    && (forall e :: Dir(e) in s.refs ==> DirMatches(mem, s, base, e))
    && (forall e, i: nat :: Table(e, i) in s.refs ==> TableMatches(mem, s, e, i))
  }

  /** The words of page `f` mean nothing to the page tables: it is unreferenced or only mapped by users. */
  ghost predicate DataPage(s: State, f: nat) {
    f < |s.ref| && forall x :: x in s.refs && s.refs[x].frame == f ==> x.Leaf?
  }

  /** A walk of the real tables gives the abstract translation, in user space and in the UVPT window. */
  lemma WalkIsTranslate(mem: Memory, s: State, base: nat, e: nat, pdx: nat, ptx: nat)
    requires Inv(s) && Refines(mem, s, base) && e in s.asids && pdx < TABLE_SIZE && ptx < TABLE_SIZE
    ensures var d := s.refs[Dir(e)].frame;
      && (mem[d][pdx].perm.v ==> mem[d][pdx].frame < |mem|)
      && Walk(mem, d, pdx, ptx) == Translate(s, e, pdx, ptx)
  {
    var d := s.refs[Dir(e)].frame;
    assert DirMatches(mem, s, base, e);
    if pdx < PDX_UTOP {
      assert Reads(mem[d][pdx], Get(s.refs, Table(e, pdx)));
      if Table(e, pdx) in s.refs {
        assert TableMatches(mem, s, e, pdx);
        assert Reads(mem[s.refs[Table(e, pdx)].frame][ptx], Get(s.refs, Leaf(e, pdx, ptx)));
      } else {
        assert Leaf(e, pdx, ptx) in s.refs ==> Placed(s, Leaf(e, pdx, ptx), s.refs[Leaf(e, pdx, ptx)]);
      }
    } else if pdx < PDX_UVPT {
      assert Reads(mem[mem[base][pdx].frame][ptx], Get(s.shared, (pdx, ptx)));
    } else if pdx == PDX_UVPT {
      if ptx < PDX_UTOP {
        assert Reads(mem[d][ptx], Get(s.refs, Table(e, ptx)));
      } else if ptx == PDX_UVPT {
        assert Placed(s, Dir(e), s.refs[Dir(e)]);
      }
    }
  }

  /** Reading word j of the window page for table i, as vpt[(i << 10) | j] does, gives the leaf word itself. */
  lemma WindowReadsLeaf(mem: Memory, s: State, base: nat, e: nat, i: nat, j: nat)
    requires Inv(s) && Refines(mem, s, base) && e in s.asids && i < PDX_UTOP && j < TABLE_SIZE
    requires Table(e, i) in s.refs
    ensures Translate(s, e, PDX_UVPT, i).Some? && Translate(s, e, PDX_UVPT, i).value.frame < |mem|
    ensures Reads(mem[Translate(s, e, PDX_UVPT, i).value.frame][j], Get(s.refs, Leaf(e, i, j)))
  {
    assert TableMatches(mem, s, e, i);
  }

  // ----- writes to physical memory -----

  /** Two sets of references that differ at most in `x`. */
  ghost predicate SameBut(a: map<Site, Entry>, b: map<Site, Entry>, x: Site) {
    forall y :: y != x ==> (y in a <==> y in b) && (y in a ==> a[y] == b[y])
  }

  /** Two memories that differ at most in page `f`. */
  ghost predicate SamePagesBut(mem: Memory, mem': Memory, f: nat) {
    |mem'| == |mem| && forall g :: 0 <= g < |mem| && g != f ==> mem'[g] == mem[g]
  }

  /** Page `f` is used by `x` alone, or by no table, directory or boot page. */
  ghost predicate OnlyTableUse(s: State, f: nat, x: Site) {
    forall y :: y in s.refs && y != x && s.refs[y].frame == f ==> y.Leaf?
  }

  lemma TemplateStays(mem: Memory, mem': Memory, s: State, t: State, base: nat, f: nat, x: Site)
    requires Shaped(mem) && Shaped(mem') && SamePagesBut(mem, mem', f)
    requires TemplateMatches(mem, s, base) && Structured(s) && OnlyTableUse(s, f, x)
    requires t.shared == s.shared && !x.Pinned? && forall y :: y in s.refs && y.Pinned? ==> y in t.refs
    ensures TemplateMatches(mem', t, base)
    ensures base != f
  {
    assert Placed(s, Pinned(base, 0), s.refs[Pinned(base, 0)]);
    forall i | PDX_UTOP <= i < PDX_UVPT ensures mem[base][i].frame != f {
      var y := Pinned(mem[base][i].frame, 0);
      assert Placed(s, y, s.refs[y]);
    }
  }

  lemma DirStays(mem: Memory, mem': Memory, s: State, t: State, base: nat, e: nat)
    requires Shaped(mem) && Shaped(mem') && |mem'| == |mem| && base < |mem| && mem'[base] == mem[base]
    requires Dir(e) in s.refs && s.refs[Dir(e)].frame < |mem| && DirMatches(mem, s, base, e)
    requires Dir(e) in t.refs && t.refs[Dir(e)] == s.refs[Dir(e)]
    requires mem'[s.refs[Dir(e)].frame] == mem[s.refs[Dir(e)].frame]
    requires forall i: nat :: i < PDX_UTOP ==> Get(t.refs, Table(e, i)) == Get(s.refs, Table(e, i))
    ensures DirMatches(mem', t, base, e)
  {
  }

  lemma TableStays(mem: Memory, mem': Memory, s: State, t: State, e: nat, i: nat)
    requires Shaped(mem) && Shaped(mem') && |mem'| == |mem|
    requires Table(e, i) in s.refs && s.refs[Table(e, i)].frame < |mem| && TableMatches(mem, s, e, i)
    requires Table(e, i) in t.refs && t.refs[Table(e, i)] == s.refs[Table(e, i)]
    requires mem'[s.refs[Table(e, i)].frame] == mem[s.refs[Table(e, i)].frame]
    requires forall j: nat :: j < TABLE_SIZE ==> Get(t.refs, Leaf(e, i, j)) == Get(s.refs, Leaf(e, i, j))
    ensures TableMatches(mem', t, e, i)
  {
  }

  /** No table or directory shares its page with a data page, so writing data leaves all tables alone. */
  lemma DataWrite(mem: Memory, s: State, t: State, base: nat, f: nat, words: seq<Entry>)
    requires Refines(mem, s, base) && DataPage(s, f) && |words| == TABLE_SIZE && Structured(s)
    requires t.refs == s.refs && t.shared == s.shared && Counted(t) && |t.ref| == |s.ref|
    ensures Refines(mem[f := words], t, base)
  {
    var mem' := mem[f := words];
    TemplateStays(mem, mem', s, t, base, f, Leaf(0, 0, 0));
    forall e | Dir(e) in t.refs ensures DirMatches(mem', t, base, e) {
      DirStays(mem, mem', s, t, base, e);
    }
    forall e, i: nat | Table(e, i) in t.refs ensures TableMatches(mem', t, e, i) {
      TableStays(mem, mem', s, t, e, i);
    }
  }

  /** Every directory other than `own` is untouched by a write to page `f`. */
  lemma OtherDirsStay(mem: Memory, mem': Memory, s: State, t: State, base: nat, f: nat, own: Site, x: Site)
    requires Refines(mem, s, base) && Shaped(mem') && SamePagesBut(mem, mem', f) && base != f
    requires OnlyTableUse(s, f, own) && SameBut(s.refs, t.refs, x)
    requires x.Leaf? || (x.Table? && own == Dir(x.env))
    ensures forall e :: Dir(e) in t.refs && Dir(e) != own ==>
      Dir(e) in s.refs && t.refs[Dir(e)] == s.refs[Dir(e)] && DirMatches(mem', t, base, e)
  {
    forall e | Dir(e) in t.refs && Dir(e) != own
      ensures Dir(e) in s.refs && t.refs[Dir(e)] == s.refs[Dir(e)] && DirMatches(mem', t, base, e)
    {
      assert Dir(e) in s.refs && DirMatches(mem, s, base, e);
      forall i: nat ensures Get(t.refs, Table(e, i)) == Get(s.refs, Table(e, i)) {
        assert Table(e, i) != x;
      }
      DirStays(mem, mem', s, t, base, e);
    }
  }

  /** Every page table other than `own` is untouched by a write to page `f`. */
  lemma OtherTablesStay(mem: Memory, mem': Memory, s: State, t: State, base: nat, f: nat, own: Site, x: Site)
    requires Refines(mem, s, base) && Shaped(mem') && SamePagesBut(mem, mem', f)
    requires OnlyTableUse(s, f, own) && SameBut(s.refs, t.refs, x)
    requires x.Table? || (x.Leaf? && own == Table(x.env, x.pdx))
    ensures forall e, i: nat :: Table(e, i) in t.refs && Table(e, i) != own && Table(e, i) != x ==>
      Table(e, i) in s.refs && t.refs[Table(e, i)] == s.refs[Table(e, i)] && TableMatches(mem', t, e, i)
  {
    forall e, i: nat | Table(e, i) in t.refs && Table(e, i) != own && Table(e, i) != x
      ensures Table(e, i) in s.refs && t.refs[Table(e, i)] == s.refs[Table(e, i)] && TableMatches(mem', t, e, i)
    {
      assert Table(e, i) in s.refs && TableMatches(mem, s, e, i);
      forall j: nat ensures Get(t.refs, Leaf(e, i, j)) == Get(s.refs, Leaf(e, i, j)) {
        assert Leaf(e, i, j) != x;
      }
      TableStays(mem, mem', s, t, e, i);
    }
  }

  lemma OwnsItsPage(s: State, own: Site)
    requires Exclusive(s) && own in s.refs && !own.Leaf?
    ensures OnlyTableUse(s, s.refs[own].frame, own) || own.Pinned?
  {
  }

  lemma PinnedStay(a: map<Site, Entry>, b: map<Site, Entry>, x: Site)
    requires SameBut(a, b, x) && !x.Pinned?
    ensures forall y :: y in a && y.Pinned? ==> y in b
  {
  }

  /** Writing one word of a page table is changing one leaf. */
  lemma LeafWrite(mem: Memory, s: State, t: State, base: nat, x: Site, w: Entry)
    requires Refines(mem, s, base) && Structured(s) && Exclusive(s)
    requires x.Leaf? && x.ptx < TABLE_SIZE && Table(x.env, x.pdx) in s.refs
    requires |t.ref| == |s.ref| && t.shared == s.shared && Counted(t)
    requires Reads(w, Get(t.refs, x)) && SameBut(s.refs, t.refs, x)
    ensures var f := s.refs[Table(x.env, x.pdx)].frame;
      Refines(mem[f := mem[f][x.ptx := w]], t, base)
  {
    hide Structured, Exclusive, DirMatches, TemplateMatches;
    var own := Table(x.env, x.pdx);
    var f := s.refs[own].frame;
    var mem' := mem[f := mem[f][x.ptx := w]];
    OwnsItsPage(s, own);
    PinnedStay(s.refs, t.refs, x);
    TemplateStays(mem, mem', s, t, base, f, own);
    OtherDirsStay(mem, mem', s, t, base, f, own, x);
    OtherTablesStay(mem, mem', s, t, base, f, own, x);
    LeafWriteHere(mem, s, t, x, w);
  }

  lemma LeafWriteHere(mem: Memory, s: State, t: State, x: Site, w: Entry)
    requires x.Leaf? && x.ptx < TABLE_SIZE && Table(x.env, x.pdx) in s.refs
    requires Shaped(mem) && s.refs[Table(x.env, x.pdx)].frame < |mem| && TableMatches(mem, s, x.env, x.pdx)
    requires Reads(w, Get(t.refs, x)) && SameBut(s.refs, t.refs, x)
    ensures var f := s.refs[Table(x.env, x.pdx)].frame;
      TableMatches(mem[f := mem[f][x.ptx := w]], t, x.env, x.pdx)
  {
    var f := s.refs[Table(x.env, x.pdx)].frame;
    var row := mem[f][x.ptx := w];
    forall j | 0 <= j < TABLE_SIZE ensures Reads(row[j], Get(t.refs, Leaf(x.env, x.pdx, j))) {
      assert Reads(mem[f][j], Get(s.refs, Leaf(x.env, x.pdx, j)));
      assert Leaf(x.env, x.pdx, j) != x ==> Get(t.refs, Leaf(x.env, x.pdx, j)) == Get(s.refs, Leaf(x.env, x.pdx, j));
    }
  }

  /** Writing a directory word below UTOP is adding or dropping a page table. */
  lemma DirWrite(mem: Memory, s: State, t: State, base: nat, x: Site, w: Entry)
    requires Refines(mem, s, base) && Structured(s) && Exclusive(s)
    requires x.Table? && x.pdx < PDX_UTOP && Dir(x.env) in s.refs
    requires |t.ref| == |s.ref| && t.shared == s.shared && Counted(t)
    requires Reads(w, Get(t.refs, x)) && SameBut(s.refs, t.refs, x)
    requires w.perm.v ==> x !in s.refs && mem[w.frame] == ZeroPage() && w.frame != s.refs[Dir(x.env)].frame
    ensures var d := s.refs[Dir(x.env)].frame;
      Refines(mem[d := mem[d][x.pdx := w]], t, base)
  {
    hide Exclusive, Structured, TemplateMatches, TableMatches, DirMatches;
    var own := Dir(x.env);
    var d := s.refs[own].frame;
    var mem' := mem[d := mem[d][x.pdx := w]];
    OwnsItsPage(s, own);
    PinnedStay(s.refs, t.refs, x);
    TemplateStays(mem, mem', s, t, base, d, own);
    OtherDirsStay(mem, mem', s, t, base, d, own, x);
    OtherTablesStay(mem, mem', s, t, base, d, own, x);
    DirWriteHere(mem, s, t, base, x, w);
    if x in t.refs { NewTableIsEmpty(mem', s, t, x, w); }
  }

  lemma NewTableIsEmpty(mem: Memory, s: State, t: State, x: Site, w: Entry)
    requires Structured(s) && SameBut(s.refs, t.refs, x) && x.Table? && x !in s.refs
    requires Shaped(mem) && w.frame < |mem| && mem[w.frame] == ZeroPage() && Get(t.refs, x) == Some(w)
    ensures TableMatches(mem, t, x.env, x.pdx)
  {
    forall j: nat ensures Leaf(x.env, x.pdx, j) !in t.refs {
      var y := Leaf(x.env, x.pdx, j);
      assert y in s.refs ==> Placed(s, y, s.refs[y]);
    }
  }

  lemma DirWriteHere(mem: Memory, s: State, t: State, base: nat, x: Site, w: Entry)
    requires x.Table? && x.pdx < PDX_UTOP && Dir(x.env) in s.refs && s.refs[Dir(x.env)].frame < |mem|
    requires Shaped(mem) && base < |mem| && base != s.refs[Dir(x.env)].frame && DirMatches(mem, s, base, x.env)
    requires Reads(w, Get(t.refs, x)) && SameBut(s.refs, t.refs, x)
    ensures var d := s.refs[Dir(x.env)].frame;
      DirMatches(mem[d := mem[d][x.pdx := w]], t, base, x.env)
  {
    var d := s.refs[Dir(x.env)].frame;
    var row := mem[d][x.pdx := w];
    forall i | 0 <= i < PDX_UTOP ensures Reads(row[i], Get(t.refs, Table(x.env, i))) {
      assert Reads(mem[d][i], Get(s.refs, Table(x.env, i)));
      assert Table(x.env, i) != x ==> Get(t.refs, Table(x.env, i)) == Get(s.refs, Table(x.env, i));
    }
  }

  /** The directory that env_setup_vm builds: the template's slots and the self-map, nothing else. */
  function FreshDir(mem: Memory, base: nat, d: nat): (row: seq<Entry>)
    requires Shaped(mem) && base < |mem|
    ensures |row| == TABLE_SIZE
  {
    seq(TABLE_SIZE, i requires 0 <= i < TABLE_SIZE =>
      if PDX_UTOP <= i < PDX_UVPT then mem[base][i]
      else if i == PDX_UVPT then Entry(d, PERM_V)
      else ZERO_ENTRY)
  }

  /** A set-up directory page becomes the directory of a live environment with an empty address space. */
  lemma AdoptRefines(mem: Memory, s: State, base: nat, e: nat, p: nat, a: nat)
    requires Refines(mem, s, base) && Structured(s) && Adoptable(s, e, p, a) && p < |mem| && p != base
    requires mem[p] == FreshDir(mem, base, p)
    requires forall i :: PDX_UTOP <= i < PDX_UVPT ==> mem[base][i].frame != p
    requires Counted(Adopt(s, e, p, a))
    ensures Refines(mem, Adopt(s, e, p, a), base)
  {
    var t := Adopt(s, e, p, a);
    assert TemplateMatches(mem, t, base);
    AdoptDirs(mem, s, base, e, p, a);
    forall f, i: nat | Table(f, i) in t.refs ensures TableMatches(mem, t, f, i) {
      TableStays(mem, mem, s, t, f, i);
    }
  }

  lemma AdoptDirs(mem: Memory, s: State, base: nat, e: nat, p: nat, a: nat)
    requires Refines(mem, s, base) && Structured(s) && Adoptable(s, e, p, a) && p < |mem|
    requires mem[p] == FreshDir(mem, base, p)
    requires Counted(Adopt(s, e, p, a))
    ensures forall f :: Dir(f) in Adopt(s, e, p, a).refs ==> DirMatches(mem, Adopt(s, e, p, a), base, f)
  {
    var t := Adopt(s, e, p, a);
    forall f | Dir(f) in t.refs ensures DirMatches(mem, t, base, f) {
      if f == e {
        forall i: nat ensures Table(e, i) !in t.refs {
          assert Table(e, i) in s.refs ==> Placed(s, Table(e, i), s.refs[Table(e, i)]);
        }
      } else {
        DirStays(mem, mem, s, t, base, f);
      }
    }
  }

  /** Giving a directory page back leaves every other address space as it was. */
  lemma RetireRefines(mem: Memory, s: State, t: State, base: nat, e: nat)
    requires Refines(mem, s, base)
    requires t.refs == s.refs - {Dir(e)} && t.shared == s.shared && Counted(t) && |t.ref| == |s.ref|
    ensures Refines(mem, t, base)
  {
    assert TemplateMatches(mem, t, base);
    forall f | Dir(f) in t.refs ensures DirMatches(mem, t, base, f) {
      DirStays(mem, mem, s, t, base, f);
    }
    forall f, i: nat | Table(f, i) in t.refs ensures TableMatches(mem, t, f, i) {
      TableStays(mem, mem, s, t, f, i);
    }
  }

  /** A new boot or directory-to-be reference changes no table. */
  lemma PinAdded(mem: Memory, s: State, t: State, base: nat, x: Site)
    requires Refines(mem, s, base) && x.Pinned? && x !in s.refs && SameBut(s.refs, t.refs, x)
    requires t.shared == s.shared && Counted(t) && |t.ref| == |s.ref|
    ensures Refines(mem, t, base)
  {
    assert TemplateMatches(mem, t, base);
    forall e | Dir(e) in t.refs ensures DirMatches(mem, t, base, e) {
      assert Dir(e) in s.refs;
      DirStays(mem, mem, s, t, base, e);
    }
    forall e, i: nat | Table(e, i) in t.refs ensures TableMatches(mem, t, e, i) {
      assert Table(e, i) in s.refs;
      TableStays(mem, mem, s, t, e, i);
    }
  }
}
