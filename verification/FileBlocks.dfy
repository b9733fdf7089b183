/** Which file slot owns which disk block: the bitmap, the direct slots and the indirect blocks. */
module Blocks {
  import opened Bitmap

  const NDIRECT: nat := 10
  const NINDIRECT: nat := 1024
  const BY2BLK: nat := 4096

  /** The block pointers and size of struct File; 0 means no block. */
  datatype File = File(direct: seq<nat>, indirect: nat, size: nat)

  /** A place that can own a block. */
  datatype Site = Slot(f: nat, k: nat) | Ind(f: nat)

  /** `words[b]` is disk block b as 32-bit words, in the cache if it is there and on disk otherwise;
      `cached` are the blocks in memory; a set bit in the bitmap means free. */
  datatype Fs = Fs(nblocks: nat, reserved: nat, bitmap: Words, words: seq<seq<nat>>, cached: set<nat>, files: seq<File>)

  predicate IsFree(fs: Fs, b: nat)
    requires Holds(fs.bitmap, fs.nblocks)
  {
    b < fs.nblocks && Bit(fs.bitmap, b)
  }

  ghost predicate Shape(fs: Fs) {
    && 3 <= fs.reserved <= fs.nblocks
    && Holds(fs.bitmap, fs.nblocks)
    && |fs.words| == fs.nblocks
    && (forall b :: 0 <= b < |fs.words| ==> |fs.words[b]| == NINDIRECT)
    && (forall f :: 0 <= f < |fs.files| ==> |fs.files[f].direct| == NDIRECT)
    && (forall f :: 0 <= f < |fs.files| ==> fs.files[f].indirect < fs.nblocks)
  }

  /** The block a site points at, 0 if none. */
  function Val(fs: Fs, x: Site): nat
    requires Shape(fs)
  {
    if x.f >= |fs.files| then 0
    else
      var file := fs.files[x.f];
      match x
      case Ind(_) => file.indirect
      case Slot(_, k) =>
        if k < NDIRECT then file.direct[k]
        else if k < NINDIRECT && file.indirect != 0 then fs.words[file.indirect][k]
        else 0
  }

  /** A block is used when it is reserved or owned; `own` names the owner, which points at it. */
  ghost predicate BlockOk(fs: Fs, own: map<nat, Site>, b: nat)
    requires Shape(fs)
  {
    && (b in own <==> fs.reserved <= b < fs.nblocks && !IsFree(fs, b))
    && (b < fs.reserved ==> !IsFree(fs, b))
    && (b in own ==> Val(fs, own[b]) == b)
  }

  /** A site that points at a block is that block's owner. */
  ghost predicate SiteOk(fs: Fs, own: map<nat, Site>, x: Site)
    requires Shape(fs)
  {
    Val(fs, x) != 0 ==>
      && Val(fs, x) in own && own[Val(fs, x)] == x
      && x.f < |fs.files|
  }

  /** Used blocks are the reserved ones and those owned by exactly one site. */
  ghost predicate Inv(fs: Fs, own: map<nat, Site>) {
    && Shape(fs)
    && (forall b: nat {:trigger BlockOk(fs, own, b)} :: BlockOk(fs, own, b))
    && (forall x {:trigger SiteOk(fs, own, x)} :: SiteOk(fs, own, x))
  }

  /** Pointing a site at a block: a direct slot, a word of the indirect block, or the indirect pointer. */
  function Point(fs: Fs, x: Site, b: nat): Fs
    requires Shape(fs) && x.f < |fs.files|
    requires x.Slot? ==> x.k < NINDIRECT && (x.k >= NDIRECT ==> fs.files[x.f].indirect != 0)
  {
    var file := fs.files[x.f];
    match x
    case Ind(f) => fs.(files := fs.files[f := file.(indirect := b)])
    case Slot(f, k) =>
      if k < NDIRECT then fs.(files := fs.files[f := file.(direct := file.direct[k := b])])
      else
        var row: seq<nat> := fs.words[file.indirect][k := b];
        fs.(words := fs.words[file.indirect := row])
  }

  function Mark(fs: Fs, b: nat, free: bool): Fs
    requires Shape(fs) && b < fs.nblocks
  {
    fs.(bitmap := Put(fs.bitmap, b, free))
  }

  /** The block map_block makes available: a page of zeros, unless the block is still in the cache. */
  function MapBlock(fs: Fs, b: nat): Fs
    requires Shape(fs) && b < fs.nblocks
  {
    if b in fs.cached then fs
    else fs.(words := fs.words[b := seq(NINDIRECT, _ => 0)], cached := fs.cached + {b})
  }

  ghost predicate ReadsZero(fs: Fs, b: nat)
    requires Shape(fs) && b < fs.nblocks
  {
    forall k :: NDIRECT <= k < NINDIRECT ==> fs.words[b][k] == 0
  }

  // ----- steps -----

  /** Equal sizes and bitmap, and equal values everywhere, keep the invariant. */
  lemma SameKeeps(fs: Fs, t: Fs, own: map<nat, Site>)
    requires Inv(fs, own) && Shape(t)
    requires t.nblocks == fs.nblocks && t.reserved == fs.reserved && t.bitmap == fs.bitmap
    requires |t.files| == |fs.files| && forall f :: 0 <= f < |t.files| ==> t.files[f].size == fs.files[f].size
    requires forall x {:trigger Val(t, x)} :: Val(t, x) == Val(fs, x)
    ensures Inv(t, own)
  {
    forall b: nat ensures BlockOk(t, own, b) { assert BlockOk(fs, own, b); }
    forall x ensures SiteOk(t, own, x) { assert SiteOk(fs, own, x); }
  }

  /** Distinct files have distinct indirect blocks, and a slot's block is nobody's indirect block. */
  lemma IndirectsDiffer(fs: Fs, own: map<nat, Site>, f: nat, g: nat)
    requires Inv(fs, own) && f < |fs.files| && g < |fs.files| && fs.files[f].indirect == fs.files[g].indirect != 0
    ensures f == g
  {
    assert SiteOk(fs, own, Ind(f)) && SiteOk(fs, own, Ind(g));
  }

  lemma MapBlockKeeps(fs: Fs, own: map<nat, Site>, b: nat)
    requires Inv(fs, own) && IsFree(fs, b)
    ensures Inv(MapBlock(fs, b), own)
    ensures forall x {:trigger Val(MapBlock(fs, b), x)} :: Val(MapBlock(fs, b), x) == Val(fs, x)
  {
    var t := MapBlock(fs, b);
    forall x ensures Val(t, x) == Val(fs, x) {
      assert BlockOk(fs, own, b);
      if x.f < |fs.files| { assert SiteOk(fs, own, Ind(x.f)); }
    }
    SameKeeps(fs, t, own);
  }

  /** Writing file data into an owned data block moves no block. */
  lemma DataWriteKeeps(fs: Fs, own: map<nat, Site>, b: nat, row: seq<nat>)
    requires Inv(fs, own) && b in own && own[b].Slot? && |row| == NINDIRECT
    ensures b < fs.nblocks && Inv(fs.(words := fs.words[b := row]), own)
  {
    assert BlockOk(fs, own, b);
    var t := fs.(words := fs.words[b := row]);
    forall x ensures Val(t, x) == Val(fs, x) {
      if x.f < |fs.files| { assert SiteOk(fs, own, Ind(x.f)); }
    }
    SameKeeps(fs, t, own);
  }

  /** What pointing a slot somewhere does to every site. */
  lemma PointSlot(fs: Fs, own: map<nat, Site>, f: nat, k: nat, b: nat)
    requires Inv(fs, own) && f < |fs.files| && k < NINDIRECT && (k >= NDIRECT ==> fs.files[f].indirect != 0)
    ensures Shape(Point(fs, Slot(f, k), b))
    ensures forall y {:trigger Val(Point(fs, Slot(f, k), b), y)} ::
      Val(Point(fs, Slot(f, k), b), y) == if y == Slot(f, k) then b else Val(fs, y)
  {
    var t := Point(fs, Slot(f, k), b);
    forall y ensures Val(t, y) == if y == Slot(f, k) then b else Val(fs, y) {
      if y.Slot? {
        assert y == Slot(y.f, y.k);
        if y.f < |fs.files| && k >= NDIRECT && fs.files[y.f].indirect == fs.files[f].indirect {
          IndirectsDiffer(fs, own, f, y.f);
        }
      }
    }
  }

  /** Owning one block more, or one less. */
  lemma Retarget(fs: Fs, t: Fs, own: map<nat, Site>, x: Site, b: nat, give: bool)
    requires Inv(fs, own) && Shape(t) && fs.reserved <= b < fs.nblocks && x.f < |fs.files|
    requires t.nblocks == fs.nblocks && t.reserved == fs.reserved
    requires |t.files| == |fs.files| && forall f :: 0 <= f < |t.files| ==> t.files[f].size == fs.files[f].size
    requires forall c: nat :: c < fs.nblocks ==> (IsFree(t, c) <==> if c == b then !give else IsFree(fs, c))
    requires forall y {:trigger Val(t, y)} :: Val(t, y) == if y == x then (if give then b else 0) else Val(fs, y)
    requires if give then Val(fs, x) == 0 && IsFree(fs, b) else Val(fs, x) == b
    ensures Inv(t, if give then own[b := x] else own - {b})
  {
    var own' := if give then own[b := x] else own - {b};
    assert BlockOk(fs, own, b) && SiteOk(fs, own, x);
    forall c: nat ensures BlockOk(t, own', c) {
      assert BlockOk(fs, own, c);
    }
    forall y ensures SiteOk(t, own', y) {
      assert SiteOk(fs, own, y);
      assert Val(fs, y) != 0 ==> BlockOk(fs, own, Val(fs, y));
    }
  }

  /** A free block given to an empty slot. */
  lemma GiveSlot(fs: Fs, own: map<nat, Site>, f: nat, k: nat, b: nat)
    requires Inv(fs, own) && f < |fs.files| && k < NINDIRECT && (k >= NDIRECT ==> fs.files[f].indirect != 0)
    requires IsFree(fs, b) && Val(fs, Slot(f, k)) == 0
    ensures b < fs.nblocks && Shape(Mark(fs, b, false))
    ensures Inv(Point(Mark(fs, b, false), Slot(f, k), b), own[b := Slot(f, k)])
    ensures forall y {:trigger Val(Point(Mark(fs, b, false), Slot(f, k), b), y)} ::
      Val(Point(Mark(fs, b, false), Slot(f, k), b), y) == if y == Slot(f, k) then b else Val(fs, y)
  {
    var t := Point(fs, Slot(f, k), b);
    PointSlot(fs, own, f, k, b);
    PutBit(fs.bitmap, fs.nblocks, b, false);
    var u := Mark(t, b, false);
    assert u == Point(Mark(fs, b, false), Slot(f, k), b);
    SameVals(t, u);
    assert BlockOk(fs, own, b);
    Retarget(fs, u, own, Slot(f, k), b, true);
  }

  lemma SameVals(t: Fs, u: Fs)
    requires Shape(t) && Shape(u) && t.files == u.files && t.words == u.words
    ensures forall x {:trigger Val(u, x)} :: Val(u, x) == Val(t, x)
  {
  }

  /** A block taken back from its slot. */
  lemma TakeSlot(fs: Fs, own: map<nat, Site>, f: nat, k: nat)
    requires Inv(fs, own) && f < |fs.files| && k < NINDIRECT && Val(fs, Slot(f, k)) != 0
    ensures var b := Val(fs, Slot(f, k));
      && b < fs.nblocks && fs.reserved <= b && b in own
      && (k >= NDIRECT ==> fs.files[f].indirect != 0)
      && Shape(Mark(fs, b, true))
      && Inv(Point(Mark(fs, b, true), Slot(f, k), 0), own - {b})
      && (forall y {:trigger Val(Point(Mark(fs, b, true), Slot(f, k), 0), y)} ::
            Val(Point(Mark(fs, b, true), Slot(f, k), 0), y) == if y == Slot(f, k) then 0 else Val(fs, y))
  {
    var b := Val(fs, Slot(f, k));
    assert SiteOk(fs, own, Slot(f, k)) && BlockOk(fs, own, b);
    var t := Point(fs, Slot(f, k), 0);
    PointSlot(fs, own, f, k, 0);
    PutBit(fs.bitmap, fs.nblocks, b, true);
    var u := Mark(t, b, true);
    assert u == Point(Mark(fs, b, true), Slot(f, k), 0);
    SameVals(t, u);
    Retarget(fs, u, own, Slot(f, k), b, false);
  }

  lemma PointInd(fs: Fs, f: nat, b: nat)
    requires Shape(fs) && f < |fs.files| && b < fs.nblocks
    requires forall k :: NDIRECT <= k < NINDIRECT ==> Val(fs, Slot(f, k)) == 0
    requires b != 0 ==> ReadsZero(fs, b)
    ensures Shape(Point(fs, Ind(f), b))
    ensures forall y {:trigger Val(Point(fs, Ind(f), b), y)} ::
      Val(Point(fs, Ind(f), b), y) == if y == Ind(f) then b else Val(fs, y)
  {
    var t := Point(fs, Ind(f), b);
    forall y ensures Val(t, y) == if y == Ind(f) then b else Val(fs, y) {
      if y.Slot? && y.f == f { assert y == Slot(f, y.k); }
    }
  }

  /** A free block that reads as zeros given to a file as its indirect block. */
  lemma GiveInd(fs: Fs, own: map<nat, Site>, f: nat, b: nat)
    requires Inv(fs, own) && f < |fs.files| && fs.files[f].indirect == 0 && IsFree(fs, b) && ReadsZero(fs, b)
    ensures b < fs.nblocks && Shape(Mark(fs, b, false))
    ensures Inv(Point(Mark(fs, b, false), Ind(f), b), own[b := Ind(f)])
    ensures forall y {:trigger Val(Point(Mark(fs, b, false), Ind(f), b), y)} ::
      Val(Point(Mark(fs, b, false), Ind(f), b), y) == if y == Ind(f) then b else Val(fs, y)
  {
    var t := Point(fs, Ind(f), b);
    PointInd(fs, f, b);
    PutBit(fs.bitmap, fs.nblocks, b, false);
    var u := Mark(t, b, false);
    assert u == Point(Mark(fs, b, false), Ind(f), b);
    SameVals(t, u);
    assert BlockOk(fs, own, b);
    Retarget(fs, u, own, Ind(f), b, true);
  }

  /** The indirect block taken back once no slot in it is set. */
  lemma TakeInd(fs: Fs, own: map<nat, Site>, f: nat)
    requires Inv(fs, own) && f < |fs.files| && fs.files[f].indirect != 0
    requires forall k :: NDIRECT <= k < NINDIRECT ==> Val(fs, Slot(f, k)) == 0
    ensures var b := fs.files[f].indirect;
      && b < fs.nblocks && fs.reserved <= b && b in own
      && Shape(Mark(fs, b, true))
      && Inv(Point(Mark(fs, b, true), Ind(f), 0), own - {b})
      && (forall y {:trigger Val(Point(Mark(fs, b, true), Ind(f), 0), y)} ::
            Val(Point(Mark(fs, b, true), Ind(f), 0), y) == if y == Ind(f) then 0 else Val(fs, y))
  {
    var b := fs.files[f].indirect;
    assert Val(fs, Ind(f)) == b;
    assert SiteOk(fs, own, Ind(f)) && BlockOk(fs, own, b);
    var t := Point(fs, Ind(f), 0);
    PointInd(fs, f, 0);
    PutBit(fs.bitmap, fs.nblocks, b, true);
    var u := Mark(t, b, true);
    assert u == Point(Mark(fs, b, true), Ind(f), 0);
    SameVals(t, u);
    Retarget(fs, u, own, Ind(f), b, false);
  }

  /** file_block_walk hands out a recycled block as indirect block without clearing it. That keeps every
      block singly owned exactly when the block, as map_block leaves it, reads as zeros. */
  lemma GiveIndIff(fs: Fs, own: map<nat, Site>, f: nat, b: nat)
    requires Inv(fs, own) && f < |fs.files| && fs.files[f].indirect == 0 && IsFree(fs, b)
    ensures b < fs.nblocks && Shape(Mark(fs, b, false)) && Shape(MapBlock(Mark(fs, b, false), b))
    ensures (exists own' :: Inv(Point(MapBlock(Mark(fs, b, false), b), Ind(f), b), own')) <==>
      (b !in fs.cached || ReadsZero(fs, b))
  {
    MapBlockKeeps(fs, own, b);
    var m := MapBlock(fs, b);
    PutBit(fs.bitmap, fs.nblocks, b, false);
    var t := Point(MapBlock(Mark(fs, b, false), b), Ind(f), b);
    assert t == Point(Mark(m, b, false), Ind(f), b);
    assert BlockOk(fs, own, b);
    if b !in fs.cached || ReadsZero(fs, b) {
      GiveInd(m, own, f, b);
      assert Inv(t, own[b := Ind(f)]);
    } else {
      var k :| NDIRECT <= k < NINDIRECT && fs.words[b][k] != 0;
      forall own' ensures !Inv(t, own') {
        GarbageSlot(fs, own, t, own', f, b, k);
      }
    }
  }

  lemma GarbageSlot(fs: Fs, own: map<nat, Site>, t: Fs, own': map<nat, Site>, f: nat, b: nat, k: nat)
    requires Inv(fs, own) && f < |fs.files| && fs.files[f].indirect == 0 && IsFree(fs, b) && 0 < b
    requires NDIRECT <= k < NINDIRECT && fs.words[b][k] != 0
    requires t == Point(Mark(fs, b, false), Ind(f), b)
    ensures !Inv(t, own')
  {
    PutBit(fs.bitmap, fs.nblocks, b, false);
    var v := fs.words[b][k];
    assert Shape(t);
    assert Val(t, Slot(f, k)) == v && Val(t, Ind(f)) == b;
    if v in own && v != b {
      assert BlockOk(fs, own, v);
      var y := own[v];
      assert y != Slot(f, k) && y != Ind(f);
      assert Val(t, y) == v;
      assert SiteOk(t, own', y) && SiteOk(t, own', Slot(f, k)) ==> false;
    } else if v == b {
      assert SiteOk(t, own', Ind(f)) && SiteOk(t, own', Slot(f, k)) ==> false;
    } else {
      assert BlockOk(fs, own, v);
      assert BlockOk(t, own', v) && SiteOk(t, own', Slot(f, k)) ==> false;
    }
  }
}

/** The file server's block functions, on its bitmap, files and cached blocks. */
module FileServer {
  import opened Options
  import opened Bitmap
  import opened Blocks

  function BlocksFor(size: nat): nat {
    if size == 0 then 0 else size / BY2BLK + 1
  }

  /** What the next free block has to look like for a new indirect block to start out empty. */
  ghost predicate CleanNext(fs: Fs) {
    Shape(fs) && forall b: nat {:trigger NextFree(fs, b)} :: NextFree(fs, b) && b in fs.cached ==> ReadsZero(fs, b)
  }

  /** The call makes an indirect block: one is missing and asked for, and a block and its page can be had. */
  ghost predicate Makes(fs: Fs, f: nat, k: nat, alloc: bool, memOk: bool)
    requires Shape(fs) && f < |fs.files|
  {
    alloc && NDIRECT <= k < NINDIRECT && fs.files[f].indirect == 0 && CanHave(fs, memOk)
  }

  /** alloc_block finds a block, and a page for it. */
  ghost predicate CanHave(fs: Fs, memOk: bool)
    requires Shape(fs)
  {
    !Full(fs) && (memOk || forall b: nat :: NextFree(fs, b) ==> b in fs.cached)
  }

  /** The block that alloc_block_num finds after the next one. */
  ghost predicate SecondFree(fs: Fs, c: nat)
    requires Shape(fs)
  {
    exists b: nat :: NextFree(fs, b) && b < c && IsFree(fs, c) && forall d: nat :: b < d < c ==> !IsFree(fs, d)
  }

  /** Once the indirect block is taken, the second free block is the next one. */
  lemma SecondIsNext(s: Fs, t: Fs, f: nat, memOk: bool)
    requires Shape(s) && Shape(t) && f < |s.files| == |t.files| && GaveIndirect(s, t, f)
    ensures CanHave(t, memOk) <==> exists c: nat :: SecondFree(s, c) && (memOk || c in s.cached)
    ensures Full(t) <==> !exists c: nat :: SecondFree(s, c)
  {
    var b := t.files[f].indirect;
    assert forall d: nat {:trigger IsFree(t, d)} :: IsFree(t, d) <==> d != b && IsFree(s, d) by { PutBit(s.bitmap, s.nblocks, b, false); }
    assert t.cached == s.cached + {b};
    forall c: nat ensures NextFree(t, c) <==> SecondFree(s, c) {
      if NextFree(t, c) {
        assert IsFree(t, c) && c != b && b < c;
        assert forall d: nat {:trigger IsFree(s, d)} :: b < d < c && IsFree(s, d) ==> IsFree(t, d);
      }
      if SecondFree(s, c) {
        var a: nat :| NextFree(s, a) && a < c && IsFree(s, c) && forall d: nat :: a < d < c ==> !IsFree(s, d);
        assert IsFree(s, b) && a == b;
        assert forall d: nat {:trigger IsFree(t, d)} :: 3 <= d < c && IsFree(t, d) ==> IsFree(s, d) && d > b;
      }
    }
    if !Full(t) {
      var c := FirstFree(t, 3);
      assert SecondFree(s, c);
    }
  }

  lemma FirstFree(fs: Fs, from: nat) returns (b: nat)
    requires Shape(fs) && 3 <= from && !Full(fs) && forall c: nat :: 3 <= c < from ==> !IsFree(fs, c)
    ensures NextFree(fs, b)
    decreases fs.nblocks - from
  {
    if from < fs.nblocks && !IsFree(fs, from) {
      b := FirstFree(fs, from + 1);
    } else {
      b := from;
    }
  }

  /** The next free block has become the indirect block of file f. */
  ghost predicate GaveIndirect(s: Fs, t: Fs, f: nat)
    requires Shape(s) && f < |s.files| == |t.files|
  {
    var b := t.files[f].indirect;
    && NextFree(s, b) && b < s.nblocks && Shape(Mark(s, b, false)) && Shape(MapBlock(Mark(s, b, false), b))
    && t == Point(MapBlock(Mark(s, b, false), b), Ind(f), b)
  }

  /** An old word in the new indirect block goes on claiming what it claims when slot k is filled. */
  lemma StaleStays(s: Fs, own: map<nat, Site>, t: Fs, f: nat, k: nat, b: nat)
    requires Inv(s, own) && f < |s.files| == |t.files| && s.files[f].indirect == 0 && GaveIndirect(s, t, f) && !CleanNext(s)
    requires Shape(t) && k < NINDIRECT && Val(t, Slot(f, k)) == 0 && IsFree(t, b) && t.files[f].indirect != 0
    requires Shape(Mark(t, b, false)) && Shape(MapBlock(Mark(t, b, false), b))
    ensures !Inv(Point(MapBlock(Mark(t, b, false), b), Slot(f, k), b), own[t.files[f].indirect := Ind(f)][b := Slot(f, k)])
  {
    var i := t.files[f].indirect;
    var c: nat :| NextFree(s, c) && c in s.cached && !ReadsZero(s, c);
    assert c == i;
    var j :| NDIRECT <= j < NINDIRECT && s.words[i][j] != 0;
    var v := s.words[i][j];
    PutBit(s.bitmap, s.nblocks, i, false);
    assert b != i;
    var u := Point(MapBlock(Mark(t, b, false), b), Slot(f, k), b);
    var own' := own[i := Ind(f)][b := Slot(f, k)];
    assert j != k;
    assert BlockOk(s, own, v) && Val(s, Slot(f, j)) == 0;
    assert Shape(u) ==> Val(u, Slot(f, j)) == v && !SiteOk(u, own', Slot(f, j));
  }

  /** No slot from n on is set beyond the block that holds the end of the file. */
  ghost predicate Covered(fs: Fs, f: nat, n: nat)
    requires Shape(fs) && f < |fs.files|
  {
    forall k: nat {:trigger Val(fs, Slot(f, k))} :: k >= n && k > fs.files[f].size / BY2BLK ==> Val(fs, Slot(f, k)) == 0
  }

  /** No block is left from 3 on. */
  ghost predicate Full(fs: Fs)
    requires Shape(fs)
  {
    forall b: nat :: 3 <= b ==> !IsFree(fs, b)
  }

  /** The block that alloc_block_num finds. */
  ghost predicate NextFree(fs: Fs, b: nat)
    requires Shape(fs)
  {
    3 <= b && IsFree(fs, b) && forall c: nat :: 3 <= c < b ==> !IsFree(fs, c)
  }

  /** What blocks contain is the same but in the indirect block of file f. */
  ghost predicate WordsKept(s: Fs, t: Fs, f: nat) {
    && t.cached == s.cached && |t.words| == |s.words| && |t.files| == |s.files|
    && (f < |s.files| ==> forall b :: 0 <= b < |s.words| && b != s.files[f].indirect ==> t.words[b] == s.words[b])
  }

  class Server {
    var fs: Fs
    ghost var own: map<nat, Site>

    constructor (fs: Fs, ghost own: map<nat, Site>)
      requires Inv(fs, own)
      ensures this.fs == fs && this.own == own
    {
      this.fs, this.own := fs, own;
    }

    method FreeBlock(b: nat)
      requires Shape(fs)
      modifies `fs
      ensures fs == if b == 0 || b >= old(fs).nblocks then old(fs) else Mark(old(fs), b, true)
    {
      if b == 0 || b >= fs.nblocks {
        return;
      }
      fs := Mark(fs, b, true);
    }

    /** alloc_block_num: the first free block from 3 on. */
    method AllocBlockNum() returns (r: Result<nat>)
      requires Shape(fs)
      modifies `fs
      ensures r.Err? ==> r.error == NoDisk && fs == old(fs) && forall b: nat :: 3 <= b ==> !IsFree(fs, b)
      ensures r.Ok? ==>
        && 3 <= r.value < old(fs).nblocks && IsFree(old(fs), r.value)
        && (forall b: nat :: 3 <= b < r.value ==> !IsFree(old(fs), b))
        && fs == Mark(old(fs), r.value, false)
    {
      var blockno := 3;
      while blockno < fs.nblocks
        invariant 3 <= blockno <= fs.nblocks && fs == old(fs)
        invariant forall b: nat :: 3 <= b < blockno ==> !IsFree(fs, b)
      {
        if Bit(fs.bitmap, blockno) {
          fs := Mark(fs, blockno, false);
          return Ok(blockno);
        }
        blockno := blockno + 1;
      }
      return Err(NoDisk);
    }

    /** alloc_block; `memOk` says whether a page can be had for a block that is not cached. */
    method AllocBlock(memOk: bool) returns (r: Result<nat>)
      requires Shape(fs)
      modifies `fs
      ensures r.Err? ==> fs == old(fs) && r.error == if Full(old(fs)) then NoDisk else NoMem
      ensures r.Err? <==> Full(old(fs)) || (!memOk && exists b: nat :: NextFree(old(fs), b) && b !in old(fs).cached)
      ensures r.Ok? ==>
        && NextFree(old(fs), r.value) && r.value < old(fs).nblocks
        && Shape(Mark(old(fs), r.value, false))
        && fs == MapBlock(Mark(old(fs), r.value, false), r.value)
    {
      r := AllocBlockNum();
      if r.Err? {
        return;
      }
      var b := r.value;
      assert NextFree(old(fs), b);
      PutBit(old(fs).bitmap, old(fs).nblocks, b, false);
      if b !in fs.cached && !memOk {
        FreeBlock(b);
        PutBack(old(fs).bitmap, old(fs).nblocks, b);
        return Err(NoMem);
      }
      fs := MapBlock(fs, b);
    }

    /** file_block_walk: makes sure that slot k of file f exists. Ownership survives exactly when a new indirect block,
        if one is made, reads as zeros. */
    method FileBlockWalk(f: nat, k: nat, alloc: bool, memOk: bool) returns (r: Result<()>)
      requires Inv(fs, own) && f < |fs.files|
      modifies this
      ensures Shape(fs) && Same(old(fs), fs)
      ensures Inv(fs, own) <==> (Makes(old(fs), f, k, alloc, memOk) ==> CleanNext(old(fs)))
      ensures Makes(old(fs), f, k, alloc, memOk) ==> r.Ok? && GaveIndirect(old(fs), fs, f) && own == old(own)[fs.files[f].indirect := Ind(f)]
      ensures !Makes(old(fs), f, k, alloc, memOk) ==> fs == old(fs) && own == old(own)
      ensures k >= NINDIRECT ==> r == Err(Inval)
      ensures NDIRECT <= k < NINDIRECT && old(fs).files[f].indirect == 0 && !alloc ==> r == Err(NotFound)
      ensures r.Err? ==> fs == old(fs) && own == old(own)
      ensures alloc && NDIRECT <= k < NINDIRECT && old(fs).files[f].indirect == 0 && r.Err? ==>
        r == Err(if Full(old(fs)) then NoDisk else NoMem)
      ensures r.Ok? ==> k < NINDIRECT && (k >= NDIRECT ==> fs.files[f].indirect != 0)
      ensures k < NDIRECT || old(fs).files[f].indirect != 0 ==> fs == old(fs) && own == old(own)
      ensures k < NINDIRECT && (k < NDIRECT || old(fs).files[f].indirect != 0) ==> r == Ok(())
      ensures Inv(fs, own) ==> forall y {:trigger Val(fs, y)} :: y != Ind(f) ==> Val(fs, y) == Val(old(fs), y)
    {
      if k >= NINDIRECT {
        return Err(Inval);
      }
      if k >= NDIRECT && fs.files[f].indirect == 0 {
        if !alloc {
          return Err(NotFound);
        }
        r := MakeIndirect(f, memOk);
        if r.Ok? {
          NewIndirect(old(fs), old(own), f, fs.files[f].indirect);
        }
        return;
      }
      return Ok(());
    }

    /** The part of file_block_walk that makes the indirect block. The block is not cleared: only map_block
        fills it with zeros, and only if it is not cached. */
    method MakeIndirect(f: nat, memOk: bool) returns (r: Result<()>)
      requires Shape(fs) && f < |fs.files|
      modifies this
      ensures r.Err? ==> fs == old(fs) && own == old(own)
      ensures r.Err? ==> r.error == if Full(old(fs)) then NoDisk else NoMem
      ensures r.Err? <==> Full(old(fs)) || (!memOk && exists b: nat :: NextFree(old(fs), b) && b !in old(fs).cached)
      ensures r.Ok? ==>
        && f < |fs.files|
        && var b := fs.files[f].indirect;
        && NextFree(old(fs), b) && b < old(fs).nblocks
        && Shape(Mark(old(fs), b, false)) && Shape(MapBlock(Mark(old(fs), b, false), b))
        && fs == Point(MapBlock(Mark(old(fs), b, false), b), Ind(f), b) && own == old(own)[b := Ind(f)]
    {
      var block := AllocBlock(memOk);
      if block.Err? {
        return Err(block.error);
      }
      fs := Point(fs, Ind(f), block.value);
      own := own[block.value := Ind(f)];
      return Ok(());
    }

    /** file_map_block: the block of slot k, allocated on demand when `alloc` is set. Ownership survives exactly when an
        indirect block that has to be made starts out empty, and then the other clauses say what the call does. */
    method FileMapBlock(f: nat, k: nat, alloc: bool, memOk: bool, memOk2: bool) returns (r: Result<nat>)
      requires Inv(fs, own) && f < |fs.files|
      modifies this
      ensures Shape(fs) && Same(old(fs), fs)
      ensures Inv(fs, own) <==> (Makes(old(fs), f, k, alloc, memOk) ==> CleanNext(old(fs)))
      ensures r.Ok? ==> r.value != 0 && r.value == Val(fs, Slot(f, k))
      ensures Val(old(fs), Slot(f, k)) != 0 ==> r == Ok(Val(old(fs), Slot(f, k))) && fs == old(fs)
      ensures k >= NINDIRECT ==> r == Err(Inval)
      ensures !alloc ==> fs == old(fs) && own == old(own)
      ensures !alloc && k < NINDIRECT && Val(fs, Slot(f, k)) == 0 ==> r == Err(NotFound)
      ensures Inv(fs, own) && r.Ok? && Val(old(fs), Slot(f, k)) == 0 ==>
        IsFree(old(fs), r.value) && r.value in own && own[r.value] == Slot(f, k)
      ensures Inv(fs, own) ==> forall y {:trigger Val(fs, y)} :: y != Ind(f) && y != Slot(f, k) ==> Val(fs, y) == Val(old(fs), y)
      ensures alloc && k < NINDIRECT && Val(old(fs), Slot(f, k)) == 0 && (k < NDIRECT || old(fs).files[f].indirect != 0) ==>
        && (r.Ok? <==> CanHave(old(fs), memOk2))
        && (r.Err? ==> r.error == if Full(old(fs)) then NoDisk else NoMem)
      ensures alloc && NDIRECT <= k < NINDIRECT && old(fs).files[f].indirect == 0 && !CanHave(old(fs), memOk) ==>
        r == Err(if Full(old(fs)) then NoDisk else NoMem) && fs == old(fs)
      ensures Makes(old(fs), f, k, alloc, memOk) && CleanNext(old(fs)) ==>
        && (r.Ok? <==> exists c: nat :: SecondFree(old(fs), c) && (memOk2 || c in old(fs).cached))
        && (r.Err? ==> r.error == if exists c: nat :: SecondFree(old(fs), c) then NoMem else NoDisk)
      ensures k < NDIRECT && r.Ok? && Val(old(fs), Slot(f, k)) == 0 ==>
        && r.value < old(fs).nblocks && Shape(Mark(old(fs), r.value, false)) && Shape(MapBlock(Mark(old(fs), r.value, false), r.value))
        && fs == Point(MapBlock(Mark(old(fs), r.value, false), r.value), Slot(f, k), r.value)
        && own == old(own)[r.value := Slot(f, k)]
    {
      hide CleanNext, GaveIndirect, Full, NextFree, BlockOk, SiteOk;
      var walk := FileBlockWalk(f, k, alloc, memOk);
      if walk.Err? {
        return Err(walk.error);
      }
      if Val(fs, Slot(f, k)) == 0 {
        if !alloc {
          return Err(NotFound);
        }
        ghost var before, ownBefore := fs, own;
        if Makes(old(fs), f, k, alloc, memOk) { SecondIsNext(old(fs), fs, f, memOk2); }
        r := FillSlot(f, k, memOk2);
        if r.Ok? {
          if Inv(before, ownBefore) {
            NewlyFree(old(fs), old(own), before, ownBefore, r.value, f);
          } else {
            StaleStays(old(fs), old(own), before, f, k, r.value);
          }
        }
        return;
      }
      return Ok(Val(fs, Slot(f, k)));
    }

    /** The part of file_map_block that gives an empty slot its block. */
    method FillSlot(f: nat, k: nat, memOk: bool) returns (r: Result<nat>)
      requires Shape(fs) && f < |fs.files| && k < NINDIRECT && (k >= NDIRECT ==> fs.files[f].indirect != 0)
      requires Val(fs, Slot(f, k)) == 0
      modifies this
      ensures Shape(fs) && Same(old(fs), fs)
      ensures r.Err? ==> fs == old(fs) && own == old(own)
      ensures r.Err? <==> !CanHave(old(fs), memOk)
      ensures r.Err? ==> r.error == if Full(old(fs)) then NoDisk else NoMem
      ensures r.Ok? ==>
        && IsFree(old(fs), r.value) && r.value != 0
        && Shape(Mark(old(fs), r.value, false)) && Shape(MapBlock(Mark(old(fs), r.value, false), r.value))
        && fs == Point(MapBlock(Mark(old(fs), r.value, false), r.value), Slot(f, k), r.value)
        && own == old(own)[r.value := Slot(f, k)] && Val(fs, Slot(f, k)) == r.value
      ensures Inv(old(fs), old(own)) ==>
        && Inv(fs, own)
        && (r.Ok? ==> forall y {:trigger Val(fs, y)} :: Val(fs, y) == if y == Slot(f, k) then r.value else Val(old(fs), y))
    {
      r := AllocBlock(memOk);
      if r.Err? {
        return;
      }
      if Inv(old(fs), own) {
        NewSlot(old(fs), own, f, k, r.value);
      }
      fs := Point(fs, Slot(f, k), r.value);
      own := own[r.value := Slot(f, k)];
    }

    /** file_clear_block: slot k is emptied and its block freed; an unset slot is fine. */
    method FileClearBlock(f: nat, k: nat) returns (r: Result<()>)
      requires Inv(fs, own) && f < |fs.files|
      modifies this
      ensures Inv(fs, own) && Same(old(fs), fs)
      ensures forall y {:trigger Val(fs, y)} :: Val(fs, y) == if y == Slot(f, k) then 0 else Val(old(fs), y)
      ensures own == old(own) - {Val(old(fs), Slot(f, k))}
      ensures r == if k >= NINDIRECT then Err(Inval)
                   else if k >= NDIRECT && old(fs).files[f].indirect == 0 then Err(NotFound) else Ok(())
      ensures WordsKept(old(fs), fs, f) && fs.files[f].indirect == old(fs).files[f].indirect
    {
      assert BlockOk(fs, own, 0);
      var walk := FileBlockWalk(f, k, false, true);
      if walk.Err? {
        return walk;
      }
      var b := Val(fs, Slot(f, k));
      if b != 0 {
        TakeSlot(fs, own, f, k);
        FreeBlock(b);
        fs := Point(fs, Slot(f, k), 0);
        own := own - {b};
      }
      return Ok(());
    }

    /** file_truncate. It frees exactly the slots from the new number of blocks on, and the indirect block if the rest
        fits the direct slots, if and only if no slot past the end of the file is set. */
    method FileTruncate(f: nat, newsize: nat)
      requires Inv(fs, own) && f < |fs.files|
      modifies this
      ensures Covered(old(fs), f, BlocksFor(newsize)) <==>
        Inv(fs, own) && Truncated(old(fs), old(own), fs, own, f, BlocksFor(newsize))
      ensures NothingPast(old(fs), f, newsize) <==> Inv(fs, own) && CutTo(old(fs), fs, f, newsize)
      ensures |fs.files| == |old(fs).files| && fs.files[f].size == newsize
      ensures WordsKept(old(fs), fs, f)
    {
      hide Inv, Shape, Truncated, Cutting, Covered, CutTo, NothingPast;
      InvShape(fs, own);
      ghost var s0, own0 := fs, own;
      var oldBlocks := fs.files[f].size / BY2BLK + 1;
      var newBlocks := BlocksFor(newsize);
      CuttingStart(fs, own, f, newBlocks);
      var bno := newBlocks;
      while bno < oldBlocks
        invariant newBlocks <= bno <= oldBlocks || (bno == newBlocks && oldBlocks <= newBlocks)
        invariant Inv(fs, own) && Cutting(s0, own0, fs, own, f, newBlocks, bno) && |fs.files| == |s0.files|
        invariant fs.files[f].size == s0.files[f].size
        invariant WordsKept(s0, fs, f) && fs.files[f].indirect == s0.files[f].indirect
      {
        ghost var t, ownT := fs, own;
        var r := FileClearBlock(f, bno);
        InvShape(t, ownT);
        InvShape(fs, own);
        CutOne(s0, own0, t, ownT, fs, own, f, newBlocks, bno);
        bno := bno + 1;
      }
      ghost var t, ownT := fs, own;
      InvShape(t, ownT);
      if newBlocks <= NDIRECT {
        DropIndirect(f);
      }
      fs := fs.(files := fs.files[f := fs.files[f].(size := newsize)]);
      TruncateIff(s0, own0, t, ownT, fs, own, f, newBlocks, bno, newsize);
      CutToIff(s0, own0, fs, own, f, newsize);
    }

    /** The end of file_truncate for a file that fits its direct slots. */
    method DropIndirect(f: nat)
      requires Shape(fs) && f < |fs.files|
      modifies this
      ensures fs == Dropped(old(fs), f) && own == old(own) - {old(fs).files[f].indirect}
      ensures |fs.files| == |old(fs).files| && fs.cached == old(fs).cached && fs.words == old(fs).words
    {
      var b := fs.files[f].indirect;
      if b != 0 {
        FreeBlock(b);
        MarkShape(old(fs), b);
        fs := Point(fs, Ind(f), 0);
      }
      own := own - {b};
    }

    /** file_set_size */
    method FileSetSize(f: nat, newsize: nat)
      requires Inv(fs, own) && f < |fs.files|
      modifies this
      ensures old(fs).files[f].size > newsize ==>
        (Covered(old(fs), f, BlocksFor(newsize)) <==>
           Inv(fs, own) && Truncated(old(fs), old(own), fs, own, f, BlocksFor(newsize)))
      ensures old(fs).files[f].size > newsize ==>
        (NothingPast(old(fs), f, newsize) <==> Inv(fs, own) && CutTo(old(fs), fs, f, newsize))
      ensures old(fs).files[f].size <= newsize ==>
        && Inv(fs, own) && own == old(own)
        && fs == old(fs).(files := old(fs).files[f := old(fs).files[f].(size := newsize)])
      ensures |fs.files| == |old(fs).files| && fs.files[f].size == newsize
    {
      hide Inv, Shape, Truncated, Covered, CutTo, NothingPast;
      if fs.files[f].size > newsize {
        FileTruncate(f, newsize);
        assert fs.files[f := fs.files[f].(size := newsize)] == fs.files;
      } else {
        Grow(fs, own, f, newsize);
      }
      fs := fs.(files := fs.files[f := fs.files[f].(size := newsize)]);
    }
  }

  /** The sites that truncating file f to n blocks empties. */
  predicate CutOff(x: Site, f: nat, n: nat) {
    x.f == f && if x.Slot? then x.k >= n else n <= NDIRECT
  }

  /** Exactly the cut-off sites are emptied, and exactly their blocks are freed. */
  ghost predicate Truncated(s: Fs, own: map<nat, Site>, t: Fs, own': map<nat, Site>, f: nat, n: nat) {
    && Shape(s) && Shape(t) && t.nblocks == s.nblocks && t.reserved == s.reserved
    && (forall y {:trigger Val(t, y)} :: Val(t, y) == if CutOff(y, f, n) then 0 else Val(s, y))
    && (forall b :: b in own' <==> b in own && !CutOff(own[b], f, n))
    && (forall b :: b in own' ==> own'[b] == own[b])
  }

  // The same in bytes.

  /** No slot is set past the end of the file, old or new, whichever is later. */
  ghost predicate NothingPast(s: Fs, f: nat, newsize: nat) {
    && Shape(s) && f < |s.files|
    && forall k: nat {:trigger Val(s, Slot(f, k))} ::
         k > s.files[f].size / BY2BLK && (newsize == 0 || k > newsize / BY2BLK) ==> Val(s, Slot(f, k)) == 0
  }

  /** File f has kept the block of every byte below newsize and nothing else: the slots after the one of the last byte are empty
      and their blocks free, no indirect block is left unless it is needed, and no other file has changed. */
  ghost predicate CutTo(s: Fs, t: Fs, f: nat, newsize: nat) {
    && Shape(s) && Shape(t) && t.nblocks == s.nblocks && t.reserved == s.reserved
    && (forall off: nat {:trigger off / BY2BLK} :: off < newsize ==> Val(t, Slot(f, off / BY2BLK)) == Val(s, Slot(f, off / BY2BLK)))
    && (forall k: nat {:trigger Val(t, Slot(f, k))} ::
          Val(t, Slot(f, k)) == if newsize > 0 && k <= newsize / 4096 then Val(s, Slot(f, k)) else 0)
    && (forall k: nat {:trigger Val(s, Slot(f, k))} ::
          Val(s, Slot(f, k)) != 0 && (newsize == 0 || k > newsize / 4096) ==> IsFree(t, Val(s, Slot(f, k))))
    && Val(t, Ind(f)) == (if newsize / 4096 >= 10 then Val(s, Ind(f)) else 0)
    && (forall y: Site {:trigger Val(t, y)} :: y.f != f ==> Val(t, y) == Val(s, y))
  }

  lemma CutToIff(s: Fs, own: map<nat, Site>, t: Fs, own': map<nat, Site>, f: nat, newsize: nat)
    requires Inv(s, own) && f < |s.files|
    requires Covered(s, f, BlocksFor(newsize)) <==> Inv(t, own') && Truncated(s, own, t, own', f, BlocksFor(newsize))
    ensures NothingPast(s, f, newsize) <==> Inv(t, own') && CutTo(s, t, f, newsize)
  {
    NothingPastIs(s, f, newsize);
    if Covered(s, f, BlocksFor(newsize)) {
      CutValues(s, own, t, own', f, newsize);
      CutBlocksFree(s, own, t, own', f, newsize);
    } else if Inv(t, own') && CutTo(s, t, f, newsize) {
      CutToTruncated(s, own, t, own', f, newsize);
      assert false;
    }
  }

  /** Who owns what is settled by what the sites point at. */
  lemma CutToTruncated(s: Fs, own: map<nat, Site>, t: Fs, own': map<nat, Site>, f: nat, newsize: nat)
    requires Inv(s, own) && Inv(t, own') && CutTo(s, t, f, newsize)
    ensures Truncated(s, own, t, own', f, BlocksFor(newsize))
  {
    var n := BlocksFor(newsize);
    forall y ensures Val(t, y) == if CutOff(y, f, n) then 0 else Val(s, y) {
      if y.f == f && y.Slot? { assert y == Slot(f, y.k); }
      if y.f == f && y.Ind? { assert y == Ind(f); }
    }
    hide CutTo;
    forall b: nat ensures b in own' <==> b in own && !CutOff(own[b], f, n)
      ensures b in own' ==> b in own && own'[b] == own[b]
    {
      assert BlockOk(s, own, b) && BlockOk(t, own', b);
      if b in own' { assert SiteOk(s, own, own'[b]) && SiteOk(t, own', own'[b]); }
      if b in own { assert SiteOk(s, own, own[b]) && SiteOk(t, own', own[b]); }
    }
  }

  lemma NothingPastIs(s: Fs, f: nat, newsize: nat)
    requires Shape(s) && f < |s.files|
    ensures NothingPast(s, f, newsize) <==> Covered(s, f, BlocksFor(newsize))
  {
  }

  lemma CutValues(s: Fs, own: map<nat, Site>, t: Fs, own': map<nat, Site>, f: nat, newsize: nat)
    requires Truncated(s, own, t, own', f, BlocksFor(newsize))
    ensures forall off: nat {:trigger off / BY2BLK} :: off < newsize ==> Val(t, Slot(f, off / BY2BLK)) == Val(s, Slot(f, off / BY2BLK))
    ensures forall k: nat {:trigger Val(t, Slot(f, k))} ::
      Val(t, Slot(f, k)) == if newsize > 0 && k <= newsize / 4096 then Val(s, Slot(f, k)) else 0
    ensures Val(t, Ind(f)) == (if newsize / 4096 >= 10 then Val(s, Ind(f)) else 0)
    ensures forall y: Site {:trigger Val(t, y)} :: y.f != f ==> Val(t, y) == Val(s, y)
  {
    forall off: nat | off < newsize ensures Val(t, Slot(f, off / BY2BLK)) == Val(s, Slot(f, off / BY2BLK)) {
      assert off / BY2BLK <= newsize / BY2BLK;
    }
  }

  lemma CutBlocksFree(s: Fs, own: map<nat, Site>, t: Fs, own': map<nat, Site>, f: nat, newsize: nat)
    requires Inv(s, own) && Inv(t, own') && Truncated(s, own, t, own', f, BlocksFor(newsize))
    ensures forall k: nat {:trigger Val(s, Slot(f, k))} ::
      Val(s, Slot(f, k)) != 0 && (newsize == 0 || k > newsize / 4096) ==> IsFree(t, Val(s, Slot(f, k)))
  {
    forall k: nat | Val(s, Slot(f, k)) != 0 && (newsize == 0 || k > newsize / 4096) ensures IsFree(t, Val(s, Slot(f, k))) {
      var b := Val(s, Slot(f, k));
      assert SiteOk(s, own, Slot(f, k)) && BlockOk(s, own, b) && BlockOk(t, own', b);
    }
  }

  /** Half way: slots n up to m are emptied. */
  ghost predicate Cutting(s: Fs, own: map<nat, Site>, t: Fs, own': map<nat, Site>, f: nat, n: nat, m: nat) {
    && Shape(s) && Shape(t) && Same(s, t)
    && (forall y {:trigger Val(t, y)} ::
          Val(t, y) == if y.Slot? && y.f == f && n <= y.k < m then 0 else Val(s, y))
    && (forall b :: b in own' <==> b in own && !(own[b].Slot? && own[b].f == f && n <= own[b].k < m))
    && (forall b :: b in own' ==> own'[b] == own[b])
  }

  lemma CutOne(s: Fs, own: map<nat, Site>, t: Fs, own': map<nat, Site>, u: Fs, own'': map<nat, Site>, f: nat, n: nat, m: nat)
    requires Inv(s, own) && Inv(t, own') && Cutting(s, own, t, own', f, n, m) && n <= m
    requires Shape(u) && Same(t, u)
    requires forall y {:trigger Val(u, y)} :: Val(u, y) == if y == Slot(f, m) then 0 else Val(t, y)
    requires own'' == own' - {Val(t, Slot(f, m))}
    ensures Cutting(s, own, u, own'', f, n, m + 1)
  {
    forall y ensures Val(u, y) == if y.Slot? && y.f == f && n <= y.k < m + 1 then 0 else Val(s, y) {
      if y.Slot? { assert y == Slot(y.f, y.k); }
    }
    assert SiteOk(t, own', Slot(f, m));
    assert BlockOk(t, own', 0);
    forall b | b in own' ensures b in own'' <==> !(own[b].Slot? && own[b].f == f && own[b].k == m) {
      assert BlockOk(t, own', b);
      if own[b].Slot? { assert own[b] == Slot(own[b].f, own[b].k); }
    }
  }

  /** Past the old end nothing was set, so cutting up to it cuts everything off. */
  lemma CutAll(s: Fs, own: map<nat, Site>, t: Fs, own': map<nat, Site>, f: nat, n: nat, m: nat, y: Site)
    requires Inv(s, own) && Cutting(s, own, t, own', f, n, m) && f < |s.files| && Covered(s, f, n)
    requires s.files[f].size / BY2BLK < m || m <= n
    requires m <= n ==> s.files[f].size / BY2BLK < n
    ensures y.Slot? && y.f == f && y.k >= n ==> Val(t, y) == 0
  {
    if y.Slot? && y.f == f { assert y == Slot(f, y.k); }
  }

  lemma CutOwn(s: Fs, own: map<nat, Site>, t: Fs, own': map<nat, Site>, f: nat, n: nat, m: nat, b: nat)
    requires Inv(s, own) && Cutting(s, own, t, own', f, n, m) && f < |s.files| && Covered(s, f, n)
    requires s.files[f].size / BY2BLK < m || m <= n
    requires m <= n ==> s.files[f].size / BY2BLK < n
    ensures b in own' <==> b in own && !(own[b].Slot? && own[b].f == f && own[b].k >= n)
  {
    assert BlockOk(s, own, b) && BlockOk(s, own, 0);
    if b in own && own[b].Slot? && own[b].f == f { assert own[b] == Slot(f, own[b].k); }
  }

  /** Sizes do not change. */
  ghost predicate Same(s: Fs, t: Fs) {
    && t.nblocks == s.nblocks && t.reserved == s.reserved && |t.files| == |s.files|
    && forall f :: 0 <= f < |t.files| ==> t.files[f].size == s.files[f].size
  }

  /** Freeing a block just taken restores the bitmap. */
  lemma PutBack(bm: Words, n: nat, b: nat)
    requires Holds(bm, n) && b < n && Bit(bm, b)
    ensures Holds(Put(bm, b, false), n) && Put(Put(bm, b, false), b, true) == bm
  {
    PutBit(bm, n, b, false);
    var row := bm[b / 32];
    assert row[b % 32 := false][b % 32 := true] == row;
    assert bm[b / 32 := row] == bm;
  }

  lemma NewIndirect(fs: Fs, own: map<nat, Site>, f: nat, b: nat)
    requires Inv(fs, own) && f < |fs.files| && fs.files[f].indirect == 0 && NextFree(fs, b)
    ensures Shape(Mark(fs, b, false)) && Shape(MapBlock(Mark(fs, b, false), b))
    ensures var t := Point(MapBlock(Mark(fs, b, false), b), Ind(f), b);
      && Shape(t) && Same(fs, t) && (Inv(t, own[b := Ind(f)]) <==> CleanNext(fs))
      && (CleanNext(fs) ==> forall y {:trigger Val(t, y)} :: y != Ind(f) ==> Val(t, y) == Val(fs, y))
  {
    PutBit(fs.bitmap, fs.nblocks, b, false);
    if b in fs.cached && !ReadsZero(fs, b) {
      GiveIndIff(fs, own, f, b);
    } else {
      assert CleanNext(fs);
      CleanIndirect(fs, own, f, b);
    }
  }

  lemma CleanIndirect(fs: Fs, own: map<nat, Site>, f: nat, b: nat)
    requires Inv(fs, own) && f < |fs.files| && fs.files[f].indirect == 0 && IsFree(fs, b) && 0 < b
    requires b in fs.cached ==> ReadsZero(fs, b)
    ensures Shape(Mark(fs, b, false)) && Shape(MapBlock(Mark(fs, b, false), b))
    ensures var t := Point(MapBlock(Mark(fs, b, false), b), Ind(f), b);
      && Inv(t, own[b := Ind(f)]) && forall y {:trigger Val(t, y)} :: y != Ind(f) ==> Val(t, y) == Val(fs, y)
  {
    MapBlockKeeps(fs, own, b);
    var m := MapBlock(fs, b);
    PutBit(fs.bitmap, fs.nblocks, b, false);
    var t := Point(MapBlock(Mark(fs, b, false), b), Ind(f), b);
    assert t == Point(Mark(m, b, false), Ind(f), b);
    GiveInd(m, own, f, b);
  }

  lemma NewSlot(fs: Fs, own: map<nat, Site>, f: nat, k: nat, b: nat)
    requires Inv(fs, own) && f < |fs.files| && k < NINDIRECT && (k >= NDIRECT ==> fs.files[f].indirect != 0)
    requires IsFree(fs, b) && 0 < b && Val(fs, Slot(f, k)) == 0
    ensures Shape(Mark(fs, b, false)) && Shape(MapBlock(Mark(fs, b, false), b))
    ensures var t := Point(MapBlock(Mark(fs, b, false), b), Slot(f, k), b);
      && Inv(t, own[b := Slot(f, k)]) && Same(fs, t)
      && forall y {:trigger Val(t, y)} :: Val(t, y) == if y == Slot(f, k) then b else Val(fs, y)
  {
    MapBlockKeeps(fs, own, b);
    var m := MapBlock(fs, b);
    PutBit(fs.bitmap, fs.nblocks, b, false);
    var t := Point(MapBlock(Mark(fs, b, false), b), Slot(f, k), b);
    assert t == Point(Mark(m, b, false), Slot(f, k), b);
    GiveSlot(m, own, f, k, b);
  }

  /** Giving a file its indirect block makes no other block free. */
  lemma NewlyFree(s: Fs, own: map<nat, Site>, t: Fs, own': map<nat, Site>, b: nat, f: nat)
    requires Inv(s, own) && Inv(t, own') && Same(s, t) && IsFree(t, b)
    requires forall y {:trigger Val(t, y)} :: y != Ind(f) ==> Val(t, y) == Val(s, y)
    requires Val(s, Ind(f)) == 0 || Val(t, Ind(f)) == Val(s, Ind(f))
    ensures IsFree(s, b)
  {
    assert BlockOk(s, own, b) && BlockOk(t, own', b);
    assert b in own ==> Val(t, own[b]) == b;
    assert b in own ==> SiteOk(t, own', own[b]);
  }

  lemma InvShape(fs: Fs, own: map<nat, Site>)
    requires Inv(fs, own)
    ensures Shape(fs)
  {
  }

  lemma CuttingStart(fs: Fs, own: map<nat, Site>, f: nat, n: nat)
    requires Inv(fs, own)
    ensures Cutting(fs, own, fs, own, f, n, n)
  {
  }

  /** Slots from n on are emptied, and nothing else changed. */
  ghost predicate CutDone(s: Fs, own: map<nat, Site>, t: Fs, own': map<nat, Site>, f: nat, n: nat) {
    && Shape(s) && Shape(t) && Same(s, t)
    && (forall y {:trigger Val(t, y)} :: Val(t, y) == if y.Slot? && y.f == f && y.k >= n then 0 else Val(s, y))
    && (forall b :: b in own' <==> b in own && !(own[b].Slot? && own[b].f == f && own[b].k >= n))
    && (forall b :: b in own' ==> own'[b] == own[b])
  }

  lemma CutEnough(s: Fs, own: map<nat, Site>, t: Fs, own': map<nat, Site>, f: nat, n: nat, m: nat)
    requires Inv(s, own) && Cutting(s, own, t, own', f, n, m) && f < |s.files| && Covered(s, f, n)
    requires s.files[f].size / BY2BLK < m || m <= n
    requires m <= n ==> s.files[f].size / BY2BLK < n
    ensures CutDone(s, own, t, own', f, n)
  {
    forall y ensures Val(t, y) == if y.Slot? && y.f == f && y.k >= n then 0 else Val(s, y) {
      CutAll(s, own, t, own', f, n, m, y);
    }
    forall b: nat ensures b in own' <==> b in own && !(own[b].Slot? && own[b].f == f && own[b].k >= n) {
      CutOwn(s, own, t, own', f, n, m, b);
    }
  }

  lemma CutIsTruncated(s: Fs, own: map<nat, Site>, t: Fs, own': map<nat, Site>, f: nat, n: nat)
    requires CutDone(s, own, t, own', f, n) && n > NDIRECT
    ensures Truncated(s, own, t, own', f, n)
  {
  }

  /** The indirect block is freed and forgotten, whatever it still says. */
  function Dropped(t: Fs, f: nat): Fs
    requires Shape(t) && f < |t.files|
  {
    var b := t.files[f].indirect;
    if b == 0 then t else MarkShape(t, b); Point(Mark(t, b, true), Ind(f), 0)
  }

  lemma MarkShape(t: Fs, b: nat)
    requires Shape(t) && b < t.nblocks
    ensures Shape(Mark(t, b, true))
  {
    PutBit(t.bitmap, t.nblocks, b, true);
  }

  function Resized(t: Fs, f: nat, size: nat): Fs
    requires f < |t.files|
  {
    t.(files := t.files[f := t.files[f].(size := size)])
  }

  /** Sizes are not part of who owns what. */
  lemma Resize(t: Fs, own: map<nat, Site>, f: nat, size: nat)
    requires Shape(t) && f < |t.files|
    ensures Shape(Resized(t, f, size)) && (Inv(Resized(t, f, size), own) <==> Inv(t, own))
    ensures forall y {:trigger Val(Resized(t, f, size), y)} :: Val(Resized(t, f, size), y) == Val(t, y)
  {
    var u := Resized(t, f, size);
    assert Shape(u);
    forall y ensures Val(u, y) == Val(t, y) {}
    if Inv(t, own) {
      forall b: nat ensures BlockOk(u, own, b) { assert BlockOk(t, own, b); }
      forall y ensures SiteOk(u, own, y) { assert SiteOk(t, own, y); }
    }
    if Inv(u, own) {
      forall b: nat ensures BlockOk(t, own, b) { assert BlockOk(u, own, b); }
      forall y ensures SiteOk(t, own, y) { assert SiteOk(u, own, y); }
    }
  }

  /** Dropping the indirect block after everything in it was cleared. */
  lemma DroppedTruncated(s: Fs, own: map<nat, Site>, t: Fs, own': map<nat, Site>, f: nat, n: nat)
    requires Inv(s, own) && Inv(t, own') && CutDone(s, own, t, own', f, n) && f < |t.files| && n <= NDIRECT
    ensures var u, own'' := Dropped(t, f), own' - {t.files[f].indirect};
      Inv(u, own'') && Truncated(s, own, u, own'', f, n)
  {
    var b := t.files[f].indirect;
    assert Val(t, Ind(f)) == b;
    assert BlockOk(t, own', 0);
    if b != 0 {
      TakeInd(t, own', f);
    } else {
      assert own' - {b} == own';
    }
    forall c | c in own ensures c in own' - {b} <==> !CutOff(own[c], f, n) {
      assert BlockOk(s, own, c) && BlockOk(s, own, 0) && SiteOk(s, own, Ind(f));
      if own[c].Ind? { assert own[c] == Ind(own[c].f); }
    }
  }

  /** A block past the end of the file is not freed: either its slot still names it, or nothing does. */
  lemma Leaked(s: Fs, own: map<nat, Site>, t: Fs, own': map<nat, Site>, f: nat, n: nat, m: nat, k: nat)
    requires Inv(s, own) && Inv(t, own') && Cutting(s, own, t, own', f, n, m) && f < |s.files| == |t.files|
    requires k >= n && k >= m && Val(s, Slot(f, k)) != 0
    ensures n > NDIRECT ==> !Truncated(s, own, t, own', f, n)
    ensures var u, own'' := Dropped(t, f), own' - {t.files[f].indirect};
      n <= NDIRECT ==> !(Inv(u, own'') && Truncated(s, own, u, own'', f, n))
  {
    var c := Val(s, Slot(f, k));
    assert Val(t, Slot(f, k)) == c && CutOff(Slot(f, k), f, n);
    assert SiteOk(t, own', Slot(f, k)) && SiteOk(t, own', Ind(f));
    if n <= NDIRECT {
      var u, own'' := Dropped(t, f), own' - {t.files[f].indirect};
      assert Val(t, Ind(f)) == t.files[f].indirect;
      assert c in own'' && own''[c] == Slot(f, k);
      assert Shape(u) && k < NDIRECT ==> Val(u, Slot(f, k)) == c;
      assert Inv(u, own'') ==> BlockOk(u, own'', c);
      assert Truncated(s, own, u, own'', f, n) ==> Val(u, Slot(f, k)) == 0;
    }
  }

  /** Exactly when file_truncate frees all it should. */
  lemma TruncateIff(s: Fs, own: map<nat, Site>, t: Fs, own': map<nat, Site>, u: Fs, own'': map<nat, Site>,
                    f: nat, n: nat, m: nat, size: nat)
    requires Inv(s, own) && Inv(t, own') && Cutting(s, own, t, own', f, n, m) && f < |s.files| == |t.files|
    requires s.files[f].size / BY2BLK < m || m <= n
    requires m <= n ==> s.files[f].size / BY2BLK < n
    requires m <= n || m == s.files[f].size / BY2BLK + 1
    requires u == Resized(if n <= NDIRECT then Dropped(t, f) else t, f, size)
    requires own'' == if n <= NDIRECT then own' - {t.files[f].indirect} else own'
    ensures Covered(s, f, n) <==> Inv(u, own'') && Truncated(s, own, u, own'', f, n)
  {
    var v := if n <= NDIRECT then Dropped(t, f) else t;
    DroppedShape(t, f);
    Resize(v, own'', f, size);
    ResizedTruncated(s, own, v, own'', f, n, size);
    if Covered(s, f, n) {
      CutEnough(s, own, t, own', f, n, m);
      if n <= NDIRECT { DroppedTruncated(s, own, t, own', f, n); } else { CutIsTruncated(s, own, t, own', f, n); }
    } else {
      var k: nat :| k >= n && k > s.files[f].size / BY2BLK && Val(s, Slot(f, k)) != 0;
      hide Truncated, Cutting;
      Leaked(s, own, t, own', f, n, m, k);
    }
  }

  lemma DroppedShape(t: Fs, f: nat)
    requires Shape(t) && f < |t.files|
    ensures Shape(Dropped(t, f)) && |Dropped(t, f).files| == |t.files|
  {
    if t.files[f].indirect != 0 { MarkShape(t, t.files[f].indirect); }
  }

  lemma ResizedTruncated(s: Fs, own: map<nat, Site>, t: Fs, own': map<nat, Site>, f: nat, n: nat, size: nat)
    requires Shape(t) && f < |t.files|
    ensures Truncated(s, own, Resized(t, f, size), own', f, n) <==> Truncated(s, own, t, own', f, n)
  {
    var u := Resized(t, f, size);
    assert Shape(u);
    forall y ensures Val(u, y) == Val(t, y) {}
  }

  lemma Grow(t: Fs, own: map<nat, Site>, f: nat, size: nat)
    requires Inv(t, own) && f < |t.files| && t.files[f].size <= size
    ensures Inv(t.(files := t.files[f := t.files[f].(size := size)]), own)
  {
    var u := t.(files := t.files[f := t.files[f].(size := size)]);
    assert Shape(u);
    forall y ensures Val(u, y) == Val(t, y) {}
    forall b: nat ensures BlockOk(u, own, b) { assert BlockOk(t, own, b); }
    forall y ensures SiteOk(u, own, y) { assert SiteOk(t, own, y); }
  }

  // ----- the stale block, reached by calls -----

  /** Four blocks, of which block 3 is free, and one empty file. */
  function SmallDisk(): Fs {
    Fs(4, 3, [seq(32, i => i == 3)], seq(4, _ => seq(NINDIRECT, _ => 0)), {}, [File(seq(NDIRECT, _ => 0), 0, 0)])
  }

  lemma SmallDiskInv()
    ensures Inv(SmallDisk(), map[]) && NextFree(SmallDisk(), 3) && !Full(SmallDisk())
    ensures Val(SmallDisk(), Slot(0, 0)) == 0
  {
    var fs := SmallDisk();
    assert Shape(fs);
    forall x ensures Val(fs, x) == 0 {}
    forall x ensures SiteOk(fs, map[], x) {}
    forall b: nat ensures BlockOk(fs, map[], b) {}
    assert IsFree(fs, 3);
  }

  /** A block that holds the number 1 where slot 10 would be. */
  function OneAtTen(): seq<nat> {
    seq(NINDIRECT, i => if i == 10 then 1 else 0)
  }

  /** A file gets block 3, writes to it and gives it back; the block stays cached. */
  method WriteAndTruncate() returns (s: Server)
    ensures fresh(s) && Inv(s.fs, s.own) && |s.fs.files| == 1 && s.fs.files[0].indirect == 0
    ensures s.fs.nblocks == 4 && s.fs.reserved == 3 && NextFree(s.fs, 3) && 3 in s.fs.cached && s.fs.words[3] == OneAtTen()
  {
    SmallDiskInv();
    s := new Server(SmallDisk(), map[]);
    var r := s.FileMapBlock(0, 0, true, true, true);
    assert r == Ok(3);
    DataWriteKeeps(s.fs, s.own, 3, OneAtTen());
    s.fs := s.fs.(words := s.fs.words[3 := OneAtTen()]);
    ghost var s1, own1 := s.fs, s.own;
    assert s1.files[0].indirect == 0 && s1.cached == {3} && own1 == map[3 := Slot(0, 0)];
    s.FileTruncate(0, 0);
    GivenBack(s1, own1, s.fs, s.own);
  }

  lemma GivenBack(s: Fs, own: map<nat, Site>, t: Fs, own': map<nat, Site>)
    requires Inv(t, own') && Truncated(s, own, t, own', 0, 0) && s.nblocks == 4 && s.files != [] && |t.files| == 1
    requires own == map[3 := Slot(0, 0)] && s.reserved == 3
    ensures NextFree(t, 3) && t.files[0].indirect == 0
  {
    assert 3 !in own';
    assert BlockOk(t, own', 3);
    assert Val(t, Ind(0)) == 0;
  }

  /** The bad case is real: making that block the indirect block of the file leaves slot 10 claiming the super
      block, and no ownership of blocks is consistent any more. */
  method StaleIndirectBlock() returns (s: Server)
    ensures fresh(s) && Shape(s.fs) && Val(s.fs, Slot(0, 10)) == 1
    ensures !exists own :: Inv(s.fs, own)
  {
    s := WriteAndTruncate();
    ghost var s0, own0 := s.fs, s.own;
    GiveIndIff(s0, own0, 0, 3);
    var r := s.MakeIndirect(0, true);
    assert s.fs.files[0].indirect == 3;
    assert !ReadsZero(s0, 3) by { assert s0.words[3][10] == 1; }
  }

  /** The bad case is real: block 5 of an empty file is mapped, and truncating the file to nothing does not free it. */
  method BlockPastEndStays() returns (s: Server, ghost before: Fs, ghost owned: map<nat, Site>)
    ensures fresh(s) && Inv(before, owned) && |before.files| == 1 && before.files[0].size == 0
    ensures Val(before, Slot(0, 5)) != 0 && |s.fs.files| == 1 && s.fs.files[0].size == 0
    ensures !(Inv(s.fs, s.own) && Truncated(before, owned, s.fs, s.own, 0, 0))
  {
    SmallDiskInv();
    s := new Server(SmallDisk(), map[]);
    assert Val(s.fs, Slot(0, 5)) == 0;
    var r := s.FileMapBlock(0, 5, true, true, true);
    before, owned := s.fs, s.own;
    assert Val(before, Slot(0, 5)) != 0;
    s.FileTruncate(0, 0);
  }
}
