/** The page tables that a user finds in its UVPT window, and what a store there does.

    The directory words are written with PTE_D, so the window pages of the page tables are writable; only the
    window page of the directory itself is not. */
module Window {
  import opened Options
  import opened Mmu
  import opened Vm
  import opened PageTables

  /** The window page of every page table is writable. */
  lemma WindowIsWritable(s: State, e: nat, i: nat)
    requires Inv(s) && Table(e, i) in s.refs
    ensures Translate(s, e, PDX_UVPT, i) == Some(s.refs[Table(e, i)]) && s.refs[Table(e, i)].perm.d
  {
    assert Placed(s, Table(e, i), s.refs[Table(e, i)]);
  }

  /** So are the window pages of the tables of UENVS and UPAGES, which all environments share. */
  lemma TemplateIsWritable(mem: Memory, s: State, base: nat, e: nat, i: nat)
    requires Refines(mem, s, base) && PDX_UTOP <= i < PDX_UVPT
    ensures Translate(s, e, PDX_UVPT, i).Some? && Translate(s, e, PDX_UVPT, i).value.perm.d
  {
    assert Get(s.shared, (PDX_UVPT, i)) == Some(mem[base][i]);
  }

  /** The directory itself and the pages of UENVS and UPAGES are read-only. */
  lemma WritableIsWhere(mem: Memory, s: State, base: nat, e: nat, pdx: nat, ptx: nat)
    requires Inv(s) && Refines(mem, s, base) && Translate(s, e, pdx, ptx).Some? && Translate(s, e, pdx, ptx).value.perm.d
    ensures pdx < PDX_UTOP || (pdx == PDX_UVPT && ptx < PDX_UVPT)
  {
    assert Dir(e) in s.refs ==> Placed(s, Dir(e), s.refs[Dir(e)]);
  }

  /** What the word under a writable window page stands for. */
  function Meaning(s: State, e: nat, i: nat, j: nat): Option<Entry> {
    if i < PDX_UTOP then Get(s.refs, Leaf(e, i, j)) else Get(s.shared, (i, j))
  }

  /** A store leaves all page tables as they are: it goes to a user page, or it writes what is there already. */
  predicate SafeStore(s: State, e: nat, pdx: nat, ptx: nat, word: nat, value: Entry) {
    pdx < PDX_UTOP || (if value.perm.v then Meaning(s, e, ptx, word) == Some(value) else Meaning(s, e, ptx, word) == None)
  }

  /** Memory after a store. */
  function Poke(mem: Memory, f: nat, word: nat, value: Entry): Memory
    requires f < |mem| && word < |mem[f]|
  {
    mem[f := mem[f][word := value]]
  }

  /** Exactly when a store through a writable page leaves the page tables what they are. */
  lemma StoreKeepsIff(mem: Memory, s: State, base: nat, e: nat, pdx: nat, ptx: nat, word: nat, value: Entry)
    requires Inv(s) && Refines(mem, s, base) && word < TABLE_SIZE
    requires Translate(s, e, pdx, ptx).Some? && Translate(s, e, pdx, ptx).value.perm.d
    ensures var f := Translate(s, e, pdx, ptx).value.frame;
      && f < |mem| && |mem[f]| == TABLE_SIZE
      && (Refines(Poke(mem, f, word, value), s, base) <==> SafeStore(s, e, pdx, ptx, word, value))
  {
    WritableIsWhere(mem, s, base, e, pdx, ptx);
    if pdx < PDX_UTOP {
      UserPageStore(mem, s, base, e, pdx, ptx, word, value);
    } else if ptx < PDX_UTOP {
      TableStore(mem, s, base, e, ptx, word, value);
    } else {
      TemplateStore(mem, s, base, ptx, word, value);
    }
  }

  lemma UserPageStore(mem: Memory, s: State, base: nat, e: nat, pdx: nat, ptx: nat, word: nat, value: Entry)
    requires Inv(s) && Refines(mem, s, base) && word < TABLE_SIZE && Leaf(e, pdx, ptx) in s.refs
    ensures var f := s.refs[Leaf(e, pdx, ptx)].frame;
      f < |mem| && |mem[f]| == TABLE_SIZE && Refines(mem[f := mem[f][word := value]], s, base)
  {
    var f := s.refs[Leaf(e, pdx, ptx)].frame;
    assert DataPage(s, f);
    hide DirMatches, TableMatches, TemplateMatches, Coherent, Accounted, Exclusive, DataPage;
    DataWrite(mem, s, s, base, f, mem[f][word := value]);
  }

  lemma TableStore(mem: Memory, s: State, base: nat, e: nat, i: nat, j: nat, value: Entry)
    requires Inv(s) && Refines(mem, s, base) && i < PDX_UTOP && j < TABLE_SIZE && Table(e, i) in s.refs
    ensures var f := s.refs[Table(e, i)].frame;
      && f < |mem| && |mem[f]| == TABLE_SIZE
      && (Refines(mem[f := mem[f][j := value]], s, base) <==> Reads(value, Get(s.refs, Leaf(e, i, j))))
  {
    var f := s.refs[Table(e, i)].frame;
    var mem' := mem[f := mem[f][j := value]];
    if Reads(value, Get(s.refs, Leaf(e, i, j))) {
      LeafWrite(mem, s, s, base, Leaf(e, i, j), value);
    } else {
      assert mem'[f][j] == value;
      assert Shaped(mem') ==> !TableMatches(mem', s, e, i);
    }
  }

  lemma TemplateStore(mem: Memory, s: State, base: nat, i: nat, j: nat, value: Entry)
    requires Inv(s) && Refines(mem, s, base) && PDX_UTOP <= i < PDX_UVPT && j < TABLE_SIZE
    ensures Get(s.shared, (PDX_UVPT, i)) == Some(mem[base][i])
    ensures var f := mem[base][i].frame;
      && f < |mem| && |mem[f]| == TABLE_SIZE
      && (Refines(mem[f := mem[f][j := value]], s, base) <==> Reads(value, Get(s.shared, (i, j))))
  {
    var f := mem[base][i].frame;
    var mem' := mem[f := mem[f][j := value]];
    assert Shaped(mem') && mem'[base] == mem[base];
    assert Reads(mem[f][j], Get(s.shared, (i, j)));
    if Reads(value, Get(s.shared, (i, j))) {
      TemplateWrite(mem, s, base, i, j, value);
    } else {
      assert mem'[mem'[base][i].frame][j] == value;
      assert !TemplateMatches(mem', s, base);
    }
  }

  lemma TemplateWrite(mem: Memory, s: State, base: nat, i: nat, j: nat, value: Entry)
    requires Inv(s) && Refines(mem, s, base) && PDX_UTOP <= i < PDX_UVPT && j < TABLE_SIZE
    requires Reads(value, Get(s.shared, (i, j)))
    ensures var f := mem[base][i].frame; Refines(mem[f := mem[f][j := value]], s, base)
  {
    var f := mem[base][i].frame;
    var mem' := mem[f := mem[f][j := value]];
    PinnedApart(s, f);
    assert Shaped(mem') && mem'[base] == mem[base];
    TemplateSame(mem, s, base, i, j, value);
    hide TemplateMatches, Inv;
    forall e | Dir(e) in s.refs ensures DirMatches(mem', s, base, e) {
      assert DirMatches(mem, s, base, e);
    }
    forall e, k: nat | Table(e, k) in s.refs ensures TableMatches(mem', s, e, k) {
      assert TableMatches(mem, s, e, k);
    }
  }

  /** A page pinned at boot is no table and no directory of an environment. */
  lemma PinnedApart(s: State, f: nat)
    requires Inv(s) && Pinned(f, 0) in s.refs
    ensures forall e: nat :: Dir(e) in s.refs ==> s.refs[Dir(e)].frame != f
    ensures forall e: nat, k: nat :: Table(e, k) in s.refs ==> s.refs[Table(e, k)].frame != f
  {
    assert Placed(s, Pinned(f, 0), s.refs[Pinned(f, 0)]);
    hide Counted, Accounted, Coherent;
  }

  lemma TemplateSame(mem: Memory, s: State, base: nat, i: nat, j: nat, value: Entry)
    requires Shaped(mem) && TemplateMatches(mem, s, base) && PDX_UTOP <= i < PDX_UVPT && j < TABLE_SIZE
    requires Reads(value, Get(s.shared, (i, j)))
    ensures var f := mem[base][i].frame;
      Shaped(mem[f := mem[f][j := value]]) && TemplateMatches(mem[f := mem[f][j := value]], s, base)
  {
    var f := mem[base][i].frame;
    var mem' := mem[f := mem[f][j := value]];
    assert Shaped(mem') && mem'[base] == mem[base];
    forall a, b | PDX_UTOP <= a < PDX_UVPT && 0 <= b < TABLE_SIZE
      ensures Reads(mem'[mem'[base][a].frame][b], Get(s.shared, (a, b)))
    {
      assert Reads(mem[mem[base][a].frame][b], Get(s.shared, (a, b))) && Reads(mem[f][j], Get(s.shared, (i, j)));
    }
  }

  /** A value that is not what the word stands for. */
  function Wrong(o: Option<Entry>): Entry {
    if o.Some? then ZERO_ENTRY else Entry(0, PERM_VD)
  }

  /** Through a writable page every store is harmless if and only if the page lies below UTOP; in the window the
      store of the wrong value at any word breaks the tables. */
  lemma StoresHarmlessIff(mem: Memory, s: State, base: nat, e: nat, pdx: nat, ptx: nat)
    requires Inv(s) && Refines(mem, s, base)
    requires Translate(s, e, pdx, ptx).Some? && Translate(s, e, pdx, ptx).value.perm.d
    ensures Translate(s, e, pdx, ptx).value.frame < |mem|
    ensures var f := Translate(s, e, pdx, ptx).value.frame;
      (forall word: nat, value :: word < |mem[f]| ==> Refines(Poke(mem, f, word, value), s, base)) <==> pdx < PDX_UTOP
  {
    var f := Translate(s, e, pdx, ptx).value.frame;
    StoreKeepsIff(mem, s, base, e, pdx, ptx, 0, ZERO_ENTRY);
    hide Inv, Refines, Translate;
    if pdx < PDX_UTOP {
      forall word: nat, value | word < |mem[f]| ensures Refines(Poke(mem, f, word, value), s, base) {
        StoreKeepsIff(mem, s, base, e, pdx, ptx, word, value);
      }
    } else {
      var value := Wrong(Meaning(s, e, ptx, 0));
      StoreKeepsIff(mem, s, base, e, pdx, ptx, 0, value);
      assert !Refines(Poke(mem, f, 0, value), s, base);
    }
  }

  /** What the wrong value is good for: environment e writes a page g of environment f into its own table i. A walk of its
      tables then gives it that page, writable, and what it stores there is what f finds in its page. */
  lemma PageStolen(mem: Memory, s: State, base: nat, e: nat, i: nat, j: nat, f: nat, a: nat, b: nat, word: nat, value: Entry)
    requires Inv(s) && Refines(mem, s, base) && Table(e, i) in s.refs && j < TABLE_SIZE && word < TABLE_SIZE
    requires f != e && Leaf(f, a, b) in s.refs
    ensures Dir(e) in s.refs && Dir(f) in s.refs && Shaped(mem) && i < TABLE_SIZE && a < TABLE_SIZE && b < TABLE_SIZE
    ensures var g, t, d := s.refs[Leaf(f, a, b)].frame, s.refs[Table(e, i)].frame, s.refs[Dir(e)].frame;
      && g < |mem| && t < |mem| && d < |mem|
      && var mem1 := Poke(mem, t, j, Entry(g, PERM_VD));
      && Shaped(mem1) && (mem1[d][i].perm.v ==> mem1[d][i].frame < |mem|) && Walk(mem1, d, i, j) == Some(Entry(g, PERM_VD))
    ensures var g, t, d := s.refs[Leaf(f, a, b)].frame, s.refs[Table(e, i)].frame, s.refs[Dir(f)].frame;
      && var mem2 := Poke(Poke(mem, t, j, Entry(g, PERM_VD)), g, word, value);
      && Shaped(mem2) && d < |mem| && (mem2[d][a].perm.v ==> mem2[d][a].frame < |mem|)
      && Walk(mem2, d, a, b) == Some(s.refs[Leaf(f, a, b)]) && mem2[g][word] == value
  {
    WalkedWords(mem, s, base, e, i);
    WalkedWords(mem, s, base, f, a);
    UserPageApart(s, f, a, b, e, i);
    UserPageApart(s, f, a, b, f, a);
    TableApart(s, e, i, f, a);
    assert TableMatches(mem, s, f, a);
    assert Reads(mem[s.refs[Table(f, a)].frame][b], Some(s.refs[Leaf(f, a, b)]));
    hide Inv, Refines, TableMatches;
  }

  lemma WalkedWords(mem: Memory, s: State, base: nat, e: nat, i: nat)
    requires Inv(s) && Refines(mem, s, base) && Table(e, i) in s.refs
    ensures Dir(e) in s.refs && i < PDX_UTOP && Shaped(mem) && s.refs[Dir(e)].frame < |mem| && s.refs[Table(e, i)].frame < |mem|
    ensures mem[s.refs[Dir(e)].frame][i] == s.refs[Table(e, i)] && s.refs[Table(e, i)].perm.v
  {
    assert Placed(s, Table(e, i), s.refs[Table(e, i)]) && Placed(s, Dir(e), s.refs[Dir(e)]);
    assert DirMatches(mem, s, base, e);
    assert Reads(mem[s.refs[Dir(e)].frame][i], Some(s.refs[Table(e, i)]));
  }

  /** A page that users map is no table and no directory. */
  lemma UserPageApart(s: State, f: nat, a: nat, b: nat, e: nat, i: nat)
    requires Inv(s) && Leaf(f, a, b) in s.refs && Table(e, i) in s.refs
    ensures Table(f, a) in s.refs && a < PDX_UTOP && b < TABLE_SIZE && s.refs[Leaf(f, a, b)].frame < |s.ref| && s.refs[Leaf(f, a, b)].perm.v
    ensures s.refs[Leaf(f, a, b)].frame != s.refs[Table(e, i)].frame
    ensures Dir(e) in s.refs && s.refs[Leaf(f, a, b)].frame != s.refs[Dir(e)].frame
  {
    assert Placed(s, Leaf(f, a, b), s.refs[Leaf(f, a, b)]) && Placed(s, Table(e, i), s.refs[Table(e, i)]);
  }

  lemma TableApart(s: State, e: nat, i: nat, f: nat, a: nat)
    requires Inv(s) && e != f && Table(e, i) in s.refs && Table(f, a) in s.refs
    ensures Dir(e) in s.refs && Dir(f) in s.refs && s.refs[Table(e, i)].frame != s.refs[Table(f, a)].frame
    ensures s.refs[Table(e, i)].frame != s.refs[Dir(e)].frame && s.refs[Table(e, i)].frame != s.refs[Dir(f)].frame
  {
    assert Placed(s, Table(e, i), s.refs[Table(e, i)]) && Placed(s, Table(f, a), s.refs[Table(f, a)]);
  }
}
