/** Loading one PT_LOAD segment page by page. */
module ElfLoader {
  import opened Mmu

  datatype Page = Page(bytes: seq<nat>, writable: bool)

  /** A PT_LOAD program header with its bytes in the file. */
  datatype Segment = Segment(vaddr: nat, memsz: nat, writable: bool, file: seq<nat>)

  function Min(a: nat, b: nat): nat {
    if a < b then a else b
  }

  /** A fresh page, all zeros, into which src is copied at the offset. */
  function Filled(offset: nat, src: seq<nat>): (bytes: seq<nat>)
    requires offset + |src| <= BY2PG
    ensures |bytes| == BY2PG
  {
    seq(BY2PG, i => if offset <= i < offset + |src| then src[i - offset] else 0)
  }

  function Offset(s: Segment): nat {
    s.vaddr % BY2PG
  }

  function First(s: Segment): nat {
    s.vaddr / BY2PG
  }

  /** Bytes the segment takes in memory; a file part longer than p_memsz is loaded as well. */
  function Extent(s: Segment): nat {
    if s.memsz < |s.file| then |s.file| else s.memsz
  }

  function Pages(s: Segment): nat {
    (Offset(s) + Extent(s) + BY2PG - 1) / BY2PG
  }

  /** The page the System V ABI asks for: the bytes of the file, then zeros. */
  function Wanted(s: Segment, p: nat): Page {
    Page(seq(BY2PG, i => var a := p * BY2PG + i; if s.vaddr <= a < s.vaddr + |s.file| then s.file[a - s.vaddr] else 0), s.writable)
  }

  /** The first n pages of the segment are as wanted and no other page changed. */
  ghost predicate Loaded(before: map<nat, Page>, after: map<nat, Page>, s: Segment, n: nat) {
    forall p: nat :: Loads(before, after, s, n, p)
  }

  ghost predicate Loads(before: map<nat, Page>, after: map<nat, Page>, s: Segment, n: nat, p: nat) {
    if First(s) <= p < First(s) + n then p in after && after[p] == Wanted(s, p)
    else (p in after <==> p in before) && (p in after ==> after[p] == before[p])
  }

  /** The file part ends inside the first, partial page and zeros are to follow. */
  predicate Clobbers(s: Segment) {
    Offset(s) != 0 && |s.file| < BY2PG - Offset(s) && |s.file| < s.memsz
  }

  function Range(from: nat, n: nat): (r: seq<nat>)
    ensures |r| == n && forall i :: 0 <= i < n ==> r[i] == from + i
  {
    seq(n, i requires 0 <= i < n => from + i)
  }

  lemma RangeMore(from: nat, n: nat)
    ensures Range(from, n) + [from + n] == Range(from, n + 1) && Range(from, 0) == []
  {
  }

  /** Pages that the zero-filling loop maps when it starts inside the first page. */
  function Blanks(s: Segment): nat
    requires Clobbers(s)
  {
    (s.memsz - |s.file| + BY2PG - 1) / BY2PG
  }

  /** Blank pages from the first one on, and no other page changed. */
  ghost predicate Blanked(before: map<nat, Page>, after: map<nat, Page>, s: Segment, n: nat) {
    forall p: nat :: Blanking(before, after, s, n, p)
  }

  ghost predicate Blanking(before: map<nat, Page>, after: map<nat, Page>, s: Segment, n: nat, p: nat) {
    if First(s) <= p < First(s) + n then p in after && after[p] == Page(Filled(0, []), s.writable)
    else (p in after <==> p in before) && (p in after ==> after[p] == before[p])
  }

  class Target {
    var pages: map<nat, Page>
    /** Calls of the mapper that will still succeed. */
    var budget: nat
    /** The pages mapped so far, in order. */
    ghost var log: seq<nat>

    constructor (pages: map<nat, Page>, budget: nat)
      ensures this.pages == pages && this.budget == budget && log == []
    {
      this.pages, this.budget, log := pages, budget, [];
    }

    /** load_icode_mapper: a fresh page replaces whatever was mapped at va. */
    method MapPage(va: nat, offset: nat, writable: bool, src: seq<nat>) returns (ok: bool)
      requires offset + |src| <= BY2PG
      modifies this
      ensures ok <==> old(budget) > 0
      ensures ok ==> pages == old(pages)[va / BY2PG := Page(Filled(offset, src), writable)]
      ensures ok ==> log == old(log) + [va / BY2PG] && budget == old(budget) - 1
    {
      if budget == 0 {
        return false;
      }
      pages := pages[va / BY2PG := Page(Filled(offset, src), writable)];
      log := log + [va / BY2PG];
      budget := budget - 1;
      return true;
    }

    /** elf_load_seg */
    method ElfLoadSeg(s: Segment) returns (ok: bool)
      requires log == []
      modifies this
      ensures ok <==> old(budget) >= if Clobbers(s) then 1 + Blanks(s) else Pages(s)
      ensures ok && !Clobbers(s) ==> Loaded(old(pages), pages, s, Pages(s)) && log == Range(First(s), Pages(s))
      ensures ok && Clobbers(s) ==> Blanked(old(pages), pages, s, Blanks(s)) && log == [First(s)] + Range(First(s), Blanks(s))
    {
      hide Loaded, Blanked, Wanted, Filled, At, Pages, Blanks, Range;
      LoadStarts(pages, s);
      var va, binSize, offset := s.vaddr, |s.file|, s.vaddr % BY2PG;
      ghost var c := 0;
      if offset != 0 {
        ok := MapPage(va, offset, s.writable, s.file[..Min(binSize, BY2PG - offset)]);
        if !ok {
          return;
        }
        FirstPage(s);
        OneMore(old(pages), old(pages), pages, s, 0);
        RangeMore(First(s), 0);
        c := 1;
      }
      var i := if offset != 0 then Min(binSize, BY2PG - offset) else 0;
      while i < binSize
        invariant At(s, i, c) && Loaded(old(pages), pages, s, c)
        invariant Clobbers(s) ==> i == binSize && c == 1
        invariant log == Range(First(s), c) && budget == old(budget) - c
        decreases binSize + BY2PG - i
      {
        FilePage(s, i, c);
        ghost var now := pages;
        ok := MapPage(va + i, 0, s.writable, s.file[i..i + Min(binSize - i, BY2PG)]);
        if !ok {
          return;
        }
        OneMore(old(pages), now, pages, s, c);
        RangeMore(First(s), c);
        c := c + 1;
        i := i + BY2PG;
      }
      ok := ZeroFill(s, i, old(pages), old(budget), c);
    }

    /** The second loop of elf_load_seg. */
    method ZeroFill(s: Segment, start: nat, ghost before: map<nat, Page>, ghost allowed: nat, ghost done: nat) returns (ok: bool)
      requires At(s, start, done) && Loaded(before, pages, s, done) && log == Range(First(s), done)
      requires start >= |s.file| && (Clobbers(s) ==> start == |s.file| && done == 1)
      requires budget == allowed - done
      modifies this
      ensures ok <==> allowed >= if Clobbers(s) then 1 + Blanks(s) else Pages(s)
      ensures ok && !Clobbers(s) ==> Loaded(before, pages, s, Pages(s)) && log == Range(First(s), Pages(s))
      ensures ok && Clobbers(s) ==> Blanked(before, pages, s, Blanks(s)) && log == [First(s)] + Range(First(s), Blanks(s))
    {
      hide Loaded, Blanked, Wanted, Filled, At, Pages, Blanks, Range;
      LoadStarts(before, s);
      RangeMore(First(s), 0);
      var va, binSize := s.vaddr, |s.file|;
      var i := start;
      ghost var c, z := done, 0;
      while i < s.memsz
        invariant i >= binSize
        invariant !Clobbers(s) ==> At(s, i, c) && Loaded(before, pages, s, c)
        invariant !Clobbers(s) ==> log == Range(First(s), c) && budget == allowed - c
        invariant Clobbers(s) ==> i == binSize + z * BY2PG && z <= Blanks(s)
        invariant Clobbers(s) ==> if z == 0 then Loaded(before, pages, s, 1) else Blanked(before, pages, s, z)
        invariant Clobbers(s) ==> log == [First(s)] + Range(First(s), z) && budget == allowed - 1 - z
        decreases s.memsz + BY2PG - i
      {
        ghost var now := pages;
        BlankPage(s, i, c, z);
        ok := MapPage(va + i, 0, s.writable, []);
        if !ok {
          return;
        }
        if Clobbers(s) {
          OneBlank(before, now, pages, s, z);
          RangeMore(First(s), z);
          assert [First(s)] + (Range(First(s), z) + [First(s) + z]) == log;
          z := z + 1;
        } else {
          OneMore(before, now, pages, s, c);
          RangeMore(First(s), c);
          c := c + 1;
        }
        i := i + BY2PG;
      }
      LoadEnds(s, i, c, z);
      return true;
    }
  }

  lemma LoadStarts(pages: map<nat, Page>, s: Segment)
    ensures Loaded(pages, pages, s, 0) && (Offset(s) == 0 ==> At(s, 0, 0))
    ensures Offset(s) != 0 ==> At(s, Min(|s.file|, BY2PG - Offset(s)), 1)
    ensures Clobbers(s) ==> 1 <= Blanks(s)
  {
  }

  lemma LoadEnds(s: Segment, i: nat, c: nat, z: nat)
    requires i >= |s.file| && i >= s.memsz
    ensures !Clobbers(s) && At(s, i, c) ==> c == Pages(s)
    ensures Clobbers(s) && i == |s.file| + z * BY2PG && z <= Blanks(s) ==> z == Blanks(s) >= 1
  {
  }

  /** After c pages, i is the start of the next page, or everything is done. */
  ghost predicate At(s: Segment, i: nat, c: nat) {
    && c <= Pages(s)
    && (Offset(s) + i == c * BY2PG || (Offset(s) != 0 && i == |s.file| && Offset(s) + i < BY2PG && c == 1))
  }

  lemma FirstPage(s: Segment)
    requires Offset(s) != 0
    ensures Pages(s) >= 1
    ensures Page(Filled(Offset(s), s.file[..Min(|s.file|, BY2PG - Offset(s))]), s.writable) == Wanted(s, First(s))
  {
    assert s.vaddr == First(s) * BY2PG + Offset(s);
    var x, y := Filled(Offset(s), s.file[..Min(|s.file|, BY2PG - Offset(s))]), Wanted(s, First(s)).bytes;
    forall i | 0 <= i < BY2PG ensures x[i] == y[i] {}
  }

  /** The page at va + i is the next one, and copying from the file makes it what is wanted. */
  lemma FilePage(s: Segment, i: nat, c: nat)
    requires At(s, i, c) && i < |s.file|
    ensures c < Pages(s) && (s.vaddr + i) / BY2PG == First(s) + c && !Clobbers(s) && At(s, i + BY2PG, c + 1)
    ensures Page(Filled(0, s.file[i..i + Min(|s.file| - i, BY2PG)]), s.writable) == Wanted(s, First(s) + c)
  {
    assert s.vaddr + i == (First(s) + c) * BY2PG;
    var x, y := Filled(0, s.file[i..i + Min(|s.file| - i, BY2PG)]), Wanted(s, First(s) + c).bytes;
    forall j | 0 <= j < BY2PG ensures x[j] == y[j] {}
  }

  /** Past the file part a blank page is what is wanted, unless the first page is hit again. */
  lemma BlankPage(s: Segment, i: nat, c: nat, z: nat)
    requires |s.file| <= i < s.memsz
    requires !Clobbers(s) ==> At(s, i, c)
    requires Clobbers(s) ==> i == |s.file| + z * BY2PG
    ensures Clobbers(s) ==> (s.vaddr + i) / BY2PG == First(s) + z && z < Blanks(s)
    ensures !Clobbers(s) ==> c < Pages(s) && (s.vaddr + i) / BY2PG == First(s) + c && At(s, i + BY2PG, c + 1)
    ensures !Clobbers(s) ==> Page(Filled(0, []), s.writable) == Wanted(s, First(s) + c)
  {
    assert s.vaddr == First(s) * BY2PG + Offset(s);
    if Clobbers(s) {
      assert s.vaddr + i == (First(s) + z) * BY2PG + (Offset(s) + |s.file|);
    } else {
      assert s.vaddr + i == (First(s) + c) * BY2PG;
      var x, y := Filled(0, []), Wanted(s, First(s) + c).bytes;
      forall j | 0 <= j < BY2PG ensures x[j] == y[j] {}
    }
  }

  lemma OneMore(before: map<nat, Page>, now: map<nat, Page>, after: map<nat, Page>, s: Segment, c: nat)
    requires Loaded(before, now, s, c) && after == now[First(s) + c := Wanted(s, First(s) + c)]
    ensures Loaded(before, after, s, c + 1)
  {
    var d := c + 1;
    forall p: nat ensures Loads(before, after, s, d, p) { assert Loads(before, now, s, c, p); }
  }

  lemma OneBlank(before: map<nat, Page>, now: map<nat, Page>, after: map<nat, Page>, s: Segment, z: nat)
    requires if z == 0 then Loaded(before, now, s, 1) else Blanked(before, now, s, z)
    requires after == now[First(s) + z := Page(Filled(0, []), s.writable)]
    ensures Blanked(before, after, s, z + 1)
  {
    var d := z + 1;
    forall p: nat ensures Blanking(before, after, s, d, p) {
      assert z == 0 ==> Loads(before, now, s, 1, p);
      assert z > 0 ==> Blanking(before, now, s, z, p);
    }
  }

  // ----- exactly when the image is right -----

  function Times(log: seq<nat>, p: nat): nat {
    multiset(log)[p]
  }

  lemma RangeTimes(from: nat, n: nat, p: nat)
    ensures Times(Range(from, n), p) == if from <= p < from + n then 1 else 0
  {
    if n > 0 {
      RangeTimes(from, n - 1, p);
      assert Range(from, n) == Range(from, n - 1) + [from + n - 1];
    }
  }

  /** Every page of the segment is mapped exactly once, and no other, unless the file part ends inside an
      unaligned first page with zeros to follow: then that page is mapped twice. */
  lemma MappedOnceIff(s: Segment, log: seq<nat>)
    requires log == if Clobbers(s) then [First(s)] + Range(First(s), Blanks(s)) else Range(First(s), Pages(s))
    ensures (forall p: nat :: Times(log, p) == if First(s) <= p < First(s) + Pages(s) then 1 else 0) <==> !Clobbers(s)
    ensures Clobbers(s) ==> Times(log, First(s)) == 2
  {
    if Clobbers(s) {
      RangeTimes(First(s), Blanks(s), First(s));
      assert Times(log, First(s)) == 2;
    } else {
      forall p: nat ensures Times(log, p) == if First(s) <= p < First(s) + Pages(s) then 1 else 0 {
        RangeTimes(First(s), Pages(s), p);
      }
    }
  }

  /** What is lost: nothing only if the file part was zeros anyway and the zero pages reach the end. */
  predicate Harmless(s: Segment) {
    && (forall k :: 0 <= k < |s.file| ==> s.file[k] == 0)
    && (s.memsz > |s.file| ==> Offset(s) + |s.file| + (s.memsz - |s.file| - 1) % BY2PG < BY2PG)
  }

  lemma SpareIff(s: Segment)
    requires Clobbers(s)
    ensures Blanks(s) <= Pages(s)
    ensures Blanks(s) == Pages(s) <==> Offset(s) + |s.file| + (s.memsz - |s.file| - 1) % BY2PG < BY2PG
  {
    var m, e := s.memsz - |s.file| - 1, Offset(s) + |s.file|;
    assert Blanks(s) == m / BY2PG + 1 && Pages(s) == (e + m) / BY2PG + 1;
    var q, r := m / BY2PG, m % BY2PG;
    assert m == q * BY2PG + r && e + m == q * BY2PG + (e + r);
  }

  /** Into pages that were not mapped before, the segment is loaded as the ABI asks exactly when the first
      page is not hit twice or hitting it twice does no harm. */
  lemma ImageIff(before: map<nat, Page>, after: map<nat, Page>, s: Segment)
    requires forall p :: First(s) <= p < First(s) + Pages(s) ==> p !in before
    requires if Clobbers(s) then Blanked(before, after, s, Blanks(s)) else Loaded(before, after, s, Pages(s))
    ensures Loaded(before, after, s, Pages(s)) <==> !Clobbers(s) || Harmless(s)
  {
    if Clobbers(s) {
      SpareIff(s);
      if Harmless(s) {
        forall p: nat ensures Loads(before, after, s, Pages(s), p) {
          assert Blanking(before, after, s, Blanks(s), p);
          BlankIsWanted(s, p);
        }
      } else if Blanks(s) < Pages(s) {
        var p := First(s) + Blanks(s);
        assert Blanking(before, after, s, Blanks(s), p);
        assert !Loads(before, after, s, Pages(s), p);
      } else {
        var k :| 0 <= k < |s.file| && s.file[k] != 0;
        LostByte(s, k);
        assert Blanking(before, after, s, Blanks(s), First(s));
        assert !Loads(before, after, s, Pages(s), First(s));
      }
    }
  }

  lemma BlankIsWanted(s: Segment, p: nat)
    requires forall k :: 0 <= k < |s.file| ==> s.file[k] == 0
    ensures Wanted(s, p) == Page(Filled(0, []), s.writable)
  {
    var x, y := Filled(0, []), Wanted(s, p).bytes;
    forall j | 0 <= j < BY2PG ensures x[j] == y[j] {}
  }

  lemma LostByte(s: Segment, k: nat)
    requires Clobbers(s) && k < |s.file| && s.file[k] != 0
    ensures Wanted(s, First(s)) != Page(Filled(0, []), s.writable)
  {
    assert s.vaddr == First(s) * BY2PG + Offset(s);
    assert Wanted(s, First(s)).bytes[Offset(s) + k] == s.file[k];
  }

  /** A loaded segment byte by byte. */
  lemma LoadedBytes(before: map<nat, Page>, after: map<nat, Page>, s: Segment, k: nat)
    requires Loaded(before, after, s, Pages(s)) && k < s.memsz
    ensures var a := s.vaddr + k;
      && a / BY2PG in after && |after[a / BY2PG].bytes| == BY2PG
      && after[a / BY2PG].bytes[a % BY2PG] == (if k < |s.file| then s.file[k] else 0)
      && after[a / BY2PG].writable == s.writable
  {
    var a := s.vaddr + k;
    assert s.vaddr == First(s) * BY2PG + Offset(s);
    assert a == a / BY2PG * BY2PG + a % BY2PG;
    assert a / BY2PG == First(s) + (Offset(s) + k) / BY2PG;
    assert (Offset(s) + k) / BY2PG < Pages(s);
    assert Loads(before, after, s, Pages(s), a / BY2PG);
  }

  /** Three bytes at offset 16 of a page, to be followed by one zero byte. */
  function ShortSegment(): Segment {
    Segment(0x400010, 4, true, [1, 2, 3])
  }

  /** The bad case is real: loading that segment loses its bytes. */
  method ShortSegmentLost() returns (t: Target)
    ensures 0x400 in t.pages && |t.pages[0x400].bytes| == BY2PG
    ensures t.pages[0x400].bytes[16] == 0 != ShortSegment().file[0]
  {
    var s := ShortSegment();
    t := new Target(map[], 2);
    assert Clobbers(s) && Blanks(s) == 1 && First(s) == 0x400;
    var ok := t.ElfLoadSeg(s);
    assert Blanking(map[], t.pages, s, 1, 0x400);
  }
}
