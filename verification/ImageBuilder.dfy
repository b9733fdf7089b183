/** The disk image builder, and that the file server finds everything it put there.

    File records are numbered in the order of their creation, 0 being the root; a directory block lists
    the records that lie in it. */
module ImageBuilder {
  import opened Options
  import opened Bitmap
  import opened Blocks
  import FileServer

  const NBLOCK: nat := 1024
  const FILE2BLK: nat := 16
  /** Words in the one bitmap block. */
  const BMWORDS: nat := 1024

  /** What is written: a file as its blocks, the last one filled up with zeros, a symbolic link as its one
      block, a directory as its entries. */
  datatype Tree =
    | FileTree(size: nat, data: seq<seq<nat>>)
    | LinkTree(size: nat, row: seq<nat>)
    | DirTree(children: seq<Tree>)

  predicate WellFormed(t: Tree) {
    match t
    case FileTree(size, data) =>
      |data| == (size + BY2BLK - 1) / BY2BLK && forall i :: 0 <= i < |data| ==> |data[i]| == NINDIRECT
    case LinkTree(_, row) => |row| == NINDIRECT
    case DirTree(children) => forall i :: 0 <= i < |children| ==> WellFormed(children[i])
  }

  /** File records a tree takes. */
  function Count(t: Tree): (n: nat)
    ensures n >= 1
  {
    match t
    case DirTree(children) => 1 + CountTo(children, |children|)
    case _ => 1
  }

  function CountTo(ts: seq<Tree>, i: nat): nat
    requires i <= |ts|
    decreases ts, 0, i
  {
    if i == 0 then 0 else CountTo(ts, i - 1) + Count(ts[i - 1])
  }

  /** Blocks create_file takes in a directory of m entries: a new directory block after every 16, and the
      index block with the eleventh. */
  function EntryCost(m: nat): nat {
    if m % FILE2BLK != 0 then 0 else if m / FILE2BLK == NDIRECT then 2 else 1
  }

  /** Blocks a tree takes below its own entry. */
  function Cost(t: Tree): nat {
    match t
    case FileTree(_, data) => DataCost(|data|)
    case LinkTree(_, _) => 1
    case DirTree(children) => CostTo(children, |children|)
  }

  function DataCost(n: nat): nat {
    if n > NDIRECT then n + 1 else n
  }

  function CostTo(ts: seq<Tree>, i: nat): nat
    requires i <= |ts|
    decreases ts, 0, i
  {
    if i == 0 then 0 else CostTo(ts, i - 1) + EntryCost(i - 1) + Cost(ts[i - 1])
  }

  /** The record number of child i of directory f: a subtree's records are consecutive. */
  function Child(ts: seq<Tree>, f: nat, i: nat): nat
    requires i <= |ts|
  {
    f + 1 + CountTo(ts, i)
  }

  /** The bitmap that flush_bitmap leaves: block i is free exactly when n <= i < NBLOCK. */
  function Flushed(n: nat): (bm: Words)
    ensures Holds(bm, NBLOCK)
  {
    seq(BMWORDS, w => seq(32, i => n <= 32 * w + i < NBLOCK))
  }

  /** Block i is marked free exactly when it is not below n. */
  ghost predicate FreeFrom(bm: Words, i: nat, n: nat) {
    Holds(bm, i + 1) && (Bit(bm, i) <==> n <= i)
  }

  lemma FlushedBit(n: nat, b: nat)
    requires b < 32 * BMWORDS
    ensures Holds(Flushed(n), b + 1) && Bit(Flushed(n), b) == (n <= b < NBLOCK)
  {
    assert 32 * (b / 32) + b % 32 == b;
  }

  lemma SameBits(x: Words, y: Words)
    requires |x| == |y| && Holds(x, 32 * |x|) && Holds(y, 32 * |y|)
    requires forall i: nat :: i < 32 * |x| ==> Bit(x, i) == Bit(y, i)
    ensures x == y
  {
    forall w | 0 <= w < |x| ensures x[w] == y[w] {
      forall i | 0 <= i < 32 ensures x[w][i] == y[w][i] {
        var k := 32 * w + i;
        assert k / 32 == w && k % 32 == i;
        assert Bit(x, k) == Bit(y, k);
      }
    }
  }

  /** Taking the next block is clearing its bit. */
  lemma FlushedNext(n: nat)
    requires n < NBLOCK
    ensures Put(Flushed(n), n, false) == Flushed(n + 1)
  {
    var x, y := Put(Flushed(n), n, false), Flushed(n + 1);
    PutBit(Flushed(n), 32 * BMWORDS, n, false);
    forall i: nat | i < 32 * BMWORDS ensures Bit(x, i) == Bit(y, i) {
      FlushedBit(n, i);
      FlushedBit(n + 1, i);
    }
    SameBits(x, y);
  }

  lemma FlushedTwo(n: nat)
    requires n + 1 < NBLOCK
    ensures Holds(Put(Flushed(n), n + 1, false), NBLOCK)
    ensures Put(Put(Flushed(n), n + 1, false), n, false) == Flushed(n + 2)
  {
    PutBit(Flushed(n), 32 * BMWORDS, n + 1, false);
    PutBit(Put(Flushed(n), n + 1, false), 32 * BMWORDS, n, false);
    var x, y := Put(Put(Flushed(n), n + 1, false), n, false), Flushed(n + 2);
    forall i: nat | i < 32 * BMWORDS ensures Bit(x, i) == Bit(y, i) {
      FlushedBit(n, i);
      FlushedBit(n + 2, i);
    }
    SameBits(x, y);
  }

  /** The disk while it is being built: `words[b]` is a data or index block, `recs[b]` the file records in
      directory block b. */
  datatype Img = Img(nextbno: nat, words: seq<seq<nat>>, files: seq<File>, recs: seq<seq<nat>>)

  function Zeros(): (row: seq<nat>)
    ensures |row| == NINDIRECT && forall k :: 0 <= k < |row| ==> row[k] == 0
  {
    seq(NINDIRECT, _ => 0)
  }

  function EmptyFile(): (f: File)
    ensures |f.direct| == NDIRECT && f.indirect == 0 && forall k :: 0 <= k < NDIRECT ==> f.direct[k] == 0
  {
    File(seq(NDIRECT, _ => 0), 0, 0)
  }

  /** The image as the file server will read it. */
  function View(img: Img): Fs {
    Fs(NBLOCK, 3, Flushed(img.nextbno), img.words, {}, img.files)
  }

  /** Every used block is reserved or owned by exactly one slot or index pointer, no slot past the end of a file is
      set, and blocks not handed out are blank. */
  ghost predicate Built(img: Img, own: map<nat, Site>) {
    && 3 <= img.nextbno <= NBLOCK && |img.recs| == NBLOCK
    && Inv(View(img), own)
    && (forall f: nat {:trigger FileServer.Covered(View(img), f, 0)} :: f < |img.files| ==> FileServer.Covered(View(img), f, 0))
    && (forall b :: img.nextbno <= b < NBLOCK ==> img.words[b] == Zeros())
    && (forall b :: img.nextbno <= b < NBLOCK ==> img.recs[b] == [])
  }

  /** Exactly slots 0 to n of file f are set. */
  ghost predicate Linked(img: Img, f: nat, n: nat) {
    && Shape(View(img)) && f < |img.files| && n + 3 <= img.nextbno
    && (forall k: nat {:trigger Val(View(img), Slot(f, k))} :: Val(View(img), Slot(f, k)) != 0 <==> k < n)
    && (img.files[f].indirect != 0 <==> n > NDIRECT)
  }

  /** Slot k of file f holds this data. */
  ghost predicate Stored(img: Img, f: nat, k: nat, row: seq<nat>) {
    && Shape(View(img)) && |img.recs| == NBLOCK
    && 0 < Val(View(img), Slot(f, k)) < NBLOCK && img.words[Val(View(img), Slot(f, k))] == row
  }

  /** Block k of directory d holds these records. */
  ghost predicate Listed(img: Img, d: nat, k: nat, recs: seq<nat>) {
    && Shape(View(img)) && |img.recs| == NBLOCK
    && 0 < Val(View(img), Slot(d, k)) < NBLOCK && img.recs[Val(View(img), Slot(d, k))] == recs
  }

  /** The records that fall into directory block k. */
  function Page(es: seq<nat>, k: nat): seq<nat> {
    if |es| <= FILE2BLK * k then []
    else if |es| <= FILE2BLK * k + FILE2BLK then es[FILE2BLK * k..]
    else es[FILE2BLK * k..FILE2BLK * k + FILE2BLK]
  }

  function Pages(m: nat): nat {
    (m + FILE2BLK - 1) / FILE2BLK
  }

  /** Directory d lists exactly the records es, in order. */
  ghost predicate Lists(img: Img, d: nat, es: seq<nat>) {
    && Linked(img, d, Pages(|es|)) && img.files[d].size == BY2BLK * Pages(|es|)
    && forall k: nat {:trigger Listed(img, d, k, Page(es, k))} :: k < Pages(|es|) ==> Listed(img, d, k, Page(es, k))
  }

  /** File f holds the first n blocks of data. */
  ghost predicate Contains(img: Img, f: nat, data: seq<seq<nat>>, n: nat) {
    && n <= |data| && Linked(img, f, n)
    && forall k: nat {:trigger Stored(img, f, k, data[k])} :: k < n ==> Stored(img, f, k, data[k])
  }

  /** The tree can be read back from record f. */
  ghost predicate Represents(img: Img, f: nat, t: Tree)
    decreases t
  {
    match t
    case FileTree(size, data) => Contains(img, f, data, |data|) && img.files[f].size == size
    case LinkTree(size, row) => Contains(img, f, [row], 1) && img.files[f].size == size
    case DirTree(children) =>
      && Lists(img, f, seq(|children|, i requires 0 <= i < |children| => Child(children, f, i)))
      && forall i {:trigger children[i]} :: 0 <= i < |children| ==> Represents(img, Child(children, f, i), children[i])
  }

  /** Only record d and new records change, and no link is lost. */
  ghost predicate Kept(img: Img, own: map<nat, Site>, out: Img, own': map<nat, Site>, d: nat) {
    && |img.recs| == NBLOCK == |out.recs| && |img.words| == NBLOCK == |out.words|
    && img.nextbno <= out.nextbno && |img.files| <= |out.files|
    && (forall f :: 0 <= f < |img.files| && f != d ==> out.files[f] == img.files[f])
    && (forall b :: b in own ==> b in own' && own'[b] == own[b])
    && (forall b :: b in own && b < NBLOCK && own[b].f != d ==> out.words[b] == img.words[b] && out.recs[b] == img.recs[b])
  }

  lemma KeptTrans(a: Img, ownA: map<nat, Site>, b: Img, ownB: map<nat, Site>, c: Img, ownC: map<nat, Site>, d: nat, e: nat)
    requires Built(a, ownA) && Kept(a, ownA, b, ownB, d) && Kept(b, ownB, c, ownC, e)
    requires d == e || e >= |a.files|
    ensures Kept(a, ownA, c, ownC, d)
  {
    forall x | x in ownA && x < NBLOCK && ownA[x].f != d
      ensures c.words[x] == a.words[x] && c.recs[x] == a.recs[x]
    {
      assert BlockOk(View(a), ownA, x) && BlockOk(View(a), ownA, 0);
      assert SiteOk(View(a), ownA, ownA[x]);
    }
  }

  /** Slots of other files still name the same blocks, with the same contents. */
  lemma ValKept(img: Img, own: map<nat, Site>, out: Img, own': map<nat, Site>, d: nat, f: nat, k: nat)
    requires Built(img, own) && Built(out, own') && Kept(img, own, out, own', d) && f != d && f < |img.files|
    ensures var b := Val(View(img), Slot(f, k));
      && Val(View(out), Slot(f, k)) == b
      && (b != 0 ==> b < NBLOCK && out.words[b] == img.words[b] && out.recs[b] == img.recs[b])
  {
    var v := View(img);
    assert SiteOk(v, own, Ind(f)) && SiteOk(v, own, Slot(f, k));
    assert Val(v, Ind(f)) == img.files[f].indirect;
    assert BlockOk(v, own, Val(v, Slot(f, k)));
    assert BlockOk(v, own, Val(v, Ind(f)));
  }

  lemma LinkedKept(img: Img, own: map<nat, Site>, out: Img, own': map<nat, Site>, d: nat, f: nat, n: nat)
    requires Built(img, own) && Built(out, own') && Kept(img, own, out, own', d) && f != d && Linked(img, f, n)
    ensures Linked(out, f, n)
  {
    forall k: nat ensures Val(View(out), Slot(f, k)) != 0 <==> k < n {
      ValKept(img, own, out, own', d, f, k);
    }
  }

  lemma ListsKept(img: Img, own: map<nat, Site>, out: Img, own': map<nat, Site>, d: nat, f: nat, es: seq<nat>)
    requires Built(img, own) && Built(out, own') && Kept(img, own, out, own', d) && f != d && Lists(img, f, es)
    ensures Lists(out, f, es)
  {
    LinkedKept(img, own, out, own', d, f, Pages(|es|));
    forall k: nat | k < Pages(|es|) ensures Listed(out, f, k, Page(es, k)) {
      assert Listed(img, f, k, Page(es, k));
      ValKept(img, own, out, own', d, f, k);
    }
  }

  lemma ContainsKept(img: Img, own: map<nat, Site>, out: Img, own': map<nat, Site>, d: nat, f: nat, data: seq<seq<nat>>, n: nat)
    requires Built(img, own) && Built(out, own') && Kept(img, own, out, own', d) && f != d && Contains(img, f, data, n)
    ensures Contains(out, f, data, n)
  {
    LinkedKept(img, own, out, own', d, f, n);
    forall k: nat | k < n ensures Stored(out, f, k, data[k]) {
      assert Stored(img, f, k, data[k]);
      ValKept(img, own, out, own', d, f, k);
    }
  }

  lemma CountMonotone(ts: seq<Tree>, i: nat, j: nat)
    requires i <= j <= |ts|
    ensures CountTo(ts, i) <= CountTo(ts, j)
    decreases j
  {
    if i < j { CountMonotone(ts, i, j - 1); }
  }

  /** What has been written stays readable while other directories grow. */
  lemma {:induction false} RepresentsKept(img: Img, own: map<nat, Site>, out: Img, own': map<nat, Site>, d: nat, f: nat, t: Tree)
    requires Built(img, own) && Built(out, own') && Kept(img, own, out, own', d)
    requires Represents(img, f, t) && (d < f || f + Count(t) <= d)
    ensures Represents(out, f, t)
    decreases t
  {
    hide Built, Kept, Lists, Contains;
    match t
    case FileTree(size, data) => ContainsKept(img, own, out, own', d, f, data, |data|); SizeKept(img, own, out, own', d, f, data, |data|);
    case LinkTree(size, row) => ContainsKept(img, own, out, own', d, f, [row], 1); SizeKept(img, own, out, own', d, f, [row], 1);
    case DirTree(children) =>
      ListsKept(img, own, out, own', d, f, seq(|children|, i requires 0 <= i < |children| => Child(children, f, i)));
      forall i | 0 <= i < |children| ensures Represents(out, Child(children, f, i), children[i]) {
        CountMonotone(children, i + 1, |children|);
        RepresentsKept(img, own, out, own', d, Child(children, f, i), children[i]);
      }
  }

  lemma SizeKept(img: Img, own: map<nat, Site>, out: Img, own': map<nat, Site>, d: nat, f: nat, data: seq<seq<nat>>, n: nat)
    requires Kept(img, own, out, own', d) && f != d && Contains(img, f, data, n)
    ensures f < |out.files| && f < |img.files| && out.files[f] == img.files[f]
  {
  }

  // ----- linking one block -----

  /** What save_block_link does: slot n of file f names block b; the eleventh link takes an index block. */
  function Saved(img: Img, f: nat, n: nat, b: nat): Img
    requires Shape(View(img)) && f < |img.files| && n < NINDIRECT
    requires n >= NDIRECT && img.files[f].indirect == 0 ==> img.nextbno < NBLOCK
  {
    var file := img.files[f];
    if n < NDIRECT then img.(files := img.files[f := file.(direct := file.direct[n := b])])
    else
      var x := if file.indirect == 0 then img.nextbno else file.indirect;
      var row: seq<nat> := img.words[x][n := b];
      var words := img.words[x := row];
      if file.indirect == 0 then img.(nextbno := x + 1, files := img.files[f := file.(indirect := x)], words := words)
      else img.(words := words)
  }

  /** The state in which the block has been handed out but not linked. */
  function Handed(img: Img, row: seq<nat>, recs: seq<nat>): (out: Img)
    requires img.nextbno < NBLOCK == |img.words| == |img.recs|
  {
    img.(nextbno := img.nextbno + 1, words := img.words[img.nextbno := row], recs := img.recs[img.nextbno := recs])
  }

  function OwnAfter(img: Img, own: map<nat, Site>, f: nat, n: nat): map<nat, Site> {
    if n == NDIRECT then own[img.nextbno + 1 := Ind(f)][img.nextbno := Slot(f, n)]
    else own[img.nextbno := Slot(f, n)]
  }

  /** Writing into a free block changes no slot. */
  lemma FreeWrite(fs: Fs, own: map<nat, Site>, b: nat, row: seq<nat>)
    requires Inv(fs, own) && IsFree(fs, b) && |row| == NINDIRECT
    ensures b < fs.nblocks && Inv(fs.(words := fs.words[b := row]), own)
    ensures forall x {:trigger Val(fs.(words := fs.words[b := row]), x)} :: Val(fs.(words := fs.words[b := row]), x) == Val(fs, x)
  {
    var t := fs.(words := fs.words[b := row]);
    assert Shape(t);
    forall x ensures Val(t, x) == Val(fs, x) {
      assert BlockOk(fs, own, b);
      if x.f < |fs.files| { assert SiteOk(fs, own, Ind(x.f)); }
    }
    SameKeeps(fs, t, own);
  }

  /** A link for which no index block has to be made. */
  lemma LinkPlain(img: Img, own: map<nat, Site>, f: nat, n: nat, row: seq<nat>, recs: seq<nat>)
    requires Built(img, own) && Linked(img, f, n) && |row| == NINDIRECT && n <= img.files[f].size / BY2BLK
    requires img.nextbno < NBLOCK && n != NDIRECT
    ensures Shape(View(Handed(img, row, recs)))
    ensures var out := Saved(Handed(img, row, recs), f, n, img.nextbno);
      && Inv(View(out), own[img.nextbno := Slot(f, n)])
      && (forall y {:trigger Val(View(out), y)} :: Val(View(out), y) == if y == Slot(f, n) then img.nextbno else Val(View(img), y))
  {
    hide Flushed;
    var v, b := View(img), img.nextbno;
    FlushedBit(b, b);
    FreeWrite(v, own, b, row);
    var v1 := v.(words := v.words[b := row]);
    assert Val(v1, Slot(f, n)) == Val(v, Slot(f, n)) == 0;
    GiveSlot(v1, own, f, n, b);
    FlushedNext(b);
    assert Point(Mark(v1, b, false), Slot(f, n), b) == View(Saved(Handed(img, row, recs), f, n, b));
  }

  /** The link for which the index block is made. */
  lemma LinkIndex(img: Img, own: map<nat, Site>, f: nat, row: seq<nat>, recs: seq<nat>)
    requires Built(img, own) && Linked(img, f, NDIRECT) && |row| == NINDIRECT && NDIRECT <= img.files[f].size / BY2BLK
    requires img.nextbno + 1 < NBLOCK
    ensures Shape(View(Handed(img, row, recs)))
    ensures var out := Saved(Handed(img, row, recs), f, NDIRECT, img.nextbno);
      && Inv(View(out), own[img.nextbno + 1 := Ind(f)][img.nextbno := Slot(f, NDIRECT)])
      && (forall y {:trigger Val(View(out), y)} :: Val(View(out), y) ==
            if y == Slot(f, NDIRECT) then img.nextbno else if y == Ind(f) then img.nextbno + 1 else Val(View(img), y))
  {
    hide Flushed;
    var v, b := View(img), img.nextbno;
    FlushedBit(b, b);
    FlushedBit(b, b + 1);
    GiveInd(v, own, f, b + 1);
    var v1 := Point(Mark(v, b + 1, false), Ind(f), b + 1);
    var own1 := own[b + 1 := Ind(f)];
    PutBit(v.bitmap, NBLOCK, b + 1, false);
    FreeWrite(v1, own1, b, row);
    var v2 := v1.(words := v1.words[b := row]);
    assert Val(v2, Slot(f, NDIRECT)) == Val(v1, Slot(f, NDIRECT)) == Val(v, Slot(f, NDIRECT)) == 0;
    GiveSlot(v2, own1, f, NDIRECT, b);
    FlushedTwo(b);
    var file := img.files[f].(indirect := b + 1);
    assert View(Saved(Handed(img, row, recs), f, NDIRECT, b)) == Point(Mark(v2, b, false), Slot(f, NDIRECT), b);
  }

  /** Every block a site names has been handed out. */
  lemma UsedBelow(img: Img, own: map<nat, Site>, x: Site)
    requires Built(img, own)
    ensures Val(View(img), x) < img.nextbno
  {
    var b := Val(View(img), x);
    assert SiteOk(View(img), own, x) && BlockOk(View(img), own, b);
    if b != 0 { FlushedBit(img.nextbno, b); }
  }

  /** Handing out a block and linking it keeps every block singly owned. */
  lemma LinkKeeps(img: Img, own: map<nat, Site>, f: nat, n: nat, row: seq<nat>, recs: seq<nat>)
    requires Built(img, own) && Linked(img, f, n) && |row| == NINDIRECT && n <= img.files[f].size / BY2BLK
    requires img.nextbno + (if n == NDIRECT then 2 else 1) <= NBLOCK
    ensures Shape(View(Handed(img, row, recs)))
    ensures var out, own' := Saved(Handed(img, row, recs), f, n, img.nextbno), OwnAfter(img, own, f, n);
      && Built(out, own')
      && Linked(out, f, n + 1) && Val(View(out), Slot(f, n)) == img.nextbno
      && (forall k: nat {:trigger Val(View(out), Slot(f, k))} :: k < n ==> Val(View(out), Slot(f, k)) == Val(View(img), Slot(f, k)))
      && (forall k: nat {:trigger Val(View(img), Slot(f, k))} :: k < n ==> 0 < Val(View(img), Slot(f, k)) < img.nextbno)
  {
    hide Flushed;
    if n == NDIRECT { LinkIndex(img, own, f, row, recs); } else { LinkPlain(img, own, f, n, row, recs); }
    var out := Saved(Handed(img, row, recs), f, n, img.nextbno);
    forall k: nat ensures Val(View(out), Slot(f, k)) != 0 <==> k < n + 1 {
      assert Val(View(img), Slot(f, k)) != 0 <==> k < n;
    }
    forall k: nat | k < n ensures 0 < Val(View(img), Slot(f, k)) < img.nextbno {
      UsedBelow(img, own, Slot(f, k));
    }
    assert Val(View(out), Ind(f)) == out.files[f].indirect && Val(View(img), Ind(f)) == img.files[f].indirect;
    UsedBelow(img, own, Ind(f));
    forall g: nat | g < |out.files| ensures FileServer.Covered(View(out), g, 0) {
      assert FileServer.Covered(View(img), g, 0);
      StillCovered(View(img), View(out), g);
    }
  }

  /** Slots set anew within the file, and a file that has grown, leave no slot past the end. */
  lemma StillCovered(s: Fs, t: Fs, g: nat)
    requires Shape(s) && Shape(t) && g < |s.files| && g < |t.files| && FileServer.Covered(s, g, 0)
    requires s.files[g].size <= t.files[g].size
    requires forall k: nat {:trigger Val(t, Slot(g, k))} ::
      Val(t, Slot(g, k)) == Val(s, Slot(g, k)) || k <= s.files[g].size / BY2BLK
    ensures FileServer.Covered(t, g, 0)
  {
    forall k: nat | k > t.files[g].size / BY2BLK ensures Val(t, Slot(g, k)) == 0 {
      assert s.files[g].size / BY2BLK <= t.files[g].size / BY2BLK;
      assert k > s.files[g].size / BY2BLK ==> Val(s, Slot(g, k)) == 0;
    }
  }

  /** What next_block followed by save_block_link achieves for slot n of file f. */
  ghost predicate Extended(img: Img, own: map<nat, Site>, out: Img, own': map<nat, Site>, f: nat, n: nat, row: seq<nat>, recs: seq<nat>) {
    && Built(out, own') && Kept(img, own, out, own', f) && Linked(out, f, n + 1) && Linked(img, f, n)
    && out.nextbno == img.nextbno + (if n == NDIRECT then 2 else 1)
    && |out.files| == |img.files| && out.files[f].size == img.files[f].size
    && Stored(out, f, n, row) && Listed(out, f, n, recs)
    && Val(View(out), Slot(f, n)) == img.nextbno
    && (forall k: nat {:trigger Val(View(out), Slot(f, k))} :: k < n ==>
          && Val(View(out), Slot(f, k)) == Val(View(img), Slot(f, k)) < NBLOCK
          && |img.recs| == NBLOCK
          && out.words[Val(View(img), Slot(f, k))] == img.words[Val(View(img), Slot(f, k))]
          && out.recs[Val(View(img), Slot(f, k))] == img.recs[Val(View(img), Slot(f, k))])
  }

  lemma LinkExtends(img: Img, own: map<nat, Site>, f: nat, n: nat, row: seq<nat>, recs: seq<nat>)
    requires Built(img, own) && Linked(img, f, n) && |row| == NINDIRECT && n <= img.files[f].size / BY2BLK
    requires img.nextbno + (if n == NDIRECT then 2 else 1) <= NBLOCK
    ensures Shape(View(Handed(img, row, recs)))
    ensures Extended(img, own, Saved(Handed(img, row, recs), f, n, img.nextbno), OwnAfter(img, own, f, n), f, n, row, recs)
  {
    hide Flushed;
    LinkKeeps(img, own, f, n, row, recs);
    var out, own' := Saved(Handed(img, row, recs), f, n, img.nextbno), OwnAfter(img, own, f, n);
    UsedBelow(img, own, Ind(f));
    assert SiteOk(View(img), own, Ind(f));
    forall b | b in own ensures b < img.nextbno {
      OwnedBelow(img, own, b);
    }
    forall k: nat | k < n ensures
      && Val(View(out), Slot(f, k)) == Val(View(img), Slot(f, k)) < NBLOCK
      && out.words[Val(View(img), Slot(f, k))] == img.words[Val(View(img), Slot(f, k))]
      && out.recs[Val(View(img), Slot(f, k))] == img.recs[Val(View(img), Slot(f, k))]
    {
      assert Val(View(img), Slot(f, k)) != 0;
      assert SiteOk(View(img), own, Slot(f, k));
    }
  }

  lemma OwnedBelow(img: Img, own: map<nat, Site>, b: nat)
    requires Built(img, own) && b in own
    ensures b < img.nextbno && own[b].f < |img.files|
  {
    assert BlockOk(View(img), own, b) && BlockOk(View(img), own, 0);
    UsedBelow(img, own, own[b]);
    assert SiteOk(View(img), own, own[b]);
  }

  // ----- a new record -----

  /** create_file puts a fresh record into directory block b. */
  function Recorded(img: Img, b: nat): Img
    requires b < |img.recs|
  {
    img.(recs := img.recs[b := img.recs[b] + [|img.files|]], files := img.files + [EmptyFile()])
  }

  lemma RecordedKeeps(img: Img, own: map<nat, Site>, b: nat)
    requires Built(img, own) && b < img.nextbno
    ensures Built(Recorded(img, b), own)
    ensures forall x {:trigger Val(View(Recorded(img, b)), x)} :: Val(View(Recorded(img, b)), x) == Val(View(img), x)
  {
    var out := Recorded(img, b);
    hide Flushed;
    assert Shape(View(out));
    forall x ensures Val(View(out), x) == Val(View(img), x) {}
    forall c: nat ensures BlockOk(View(out), own, c) { assert BlockOk(View(img), own, c); }
    forall x ensures SiteOk(View(out), own, x) { assert SiteOk(View(img), own, x); }
    forall g: nat | g < |out.files| ensures FileServer.Covered(View(out), g, 0) {
      if g < |img.files| {
        assert FileServer.Covered(View(img), g, 0);
        StillCovered(View(img), View(out), g);
      }
    }
  }

  /** make_link_block's `f_size += BY2BLK`. */
  function Grown(img: Img, d: nat): Img
    requires d < |img.files|
  {
    img.(files := img.files[d := img.files[d].(size := img.files[d].size + BY2BLK)])
  }

  lemma GrownKeeps(img: Img, own: map<nat, Site>, d: nat)
    requires Built(img, own) && d < |img.files|
    ensures Built(Grown(img, d), own)
    ensures forall x {:trigger Val(View(Grown(img, d)), x)} :: Val(View(Grown(img, d)), x) == Val(View(img), x)
  {
    hide Flushed;
    FileServer.Grow(View(img), own, d, img.files[d].size + BY2BLK);
    var out := Grown(img, d);
    forall x ensures Val(View(out), x) == Val(View(img), x) {}
    forall g: nat | g < |out.files| ensures FileServer.Covered(View(out), g, 0) {
      assert FileServer.Covered(View(img), g, 0);
      StillCovered(View(img), View(out), g);
    }
  }

  lemma PageOfMore(es: seq<nat>, x: nat, k: nat)
    ensures k != |es| / FILE2BLK ==> Page(es + [x], k) == Page(es, k)
    ensures k == |es| / FILE2BLK ==> Page(es + [x], k) == Page(es, k) + [x]
  {
  }

  /** The directory lists one record more, and nothing else changed. */
  ghost predicate Created(img: Img, own: map<nat, Site>, out: Img, own': map<nat, Site>, d: nat, es: seq<nat>) {
    && Built(out, own') && Kept(img, own, out, own', d) && d < |img.files|
    && Lists(out, d, es + [|img.files|])
    && |out.files| == |img.files| + 1 && out.files[|img.files|] == EmptyFile()
    && out.nextbno == img.nextbno + EntryCost(|es|)
  }

  /** The last block still has room. */
  lemma CreateInPlace(img: Img, own: map<nat, Site>, d: nat, es: seq<nat>, b: nat)
    requires Built(img, own) && Lists(img, d, es) && |es| % FILE2BLK != 0
    requires b == Val(View(img), Slot(d, |es| / FILE2BLK))
    ensures b < NBLOCK && Created(img, own, Recorded(img, b), own, d, es)
  {
    hide Flushed, Inv;
    var n := |es| / FILE2BLK;
    UsedBelow(img, own, Slot(d, n));
    var out, es' := Recorded(img, b), es + [|img.files|];
    RecordedKeeps(img, own, b);
    assert Pages(|es|) == n + 1 == Pages(|es'|);
    assert Shape(View(out));
    forall k: nat | k < n + 1 ensures Listed(out, d, k, Page(es', k)) {
      assert Val(View(out), Slot(d, k)) == Val(View(img), Slot(d, k));
      ListedInPlace(img, own, d, es, out, k);
    }
    forall k: nat ensures Val(View(out), Slot(d, k)) != 0 <==> k < n + 1 {
      assert Val(View(img), Slot(d, k)) != 0 <==> k < n + 1;
    }
    assert Linked(out, d, n + 1);
    forall c | c in own && c < NBLOCK && own[c].f != d ensures out.words[c] == img.words[c] && out.recs[c] == img.recs[c] {
      OwnerOf(img, own, Slot(d, n));
    }
  }

  lemma ListedInPlace(img: Img, own: map<nat, Site>, d: nat, es: seq<nat>, out: Img, k: nat)
    requires Built(img, own) && Lists(img, d, es) && |es| % FILE2BLK != 0 && k <= |es| / FILE2BLK
    requires Shape(View(out)) && Val(View(out), Slot(d, k)) == Val(View(img), Slot(d, k))
    requires var b := Val(View(img), Slot(d, |es| / FILE2BLK));
      b < |img.recs| && out.recs == img.recs[b := img.recs[b] + [|img.files|]]
    ensures Listed(out, d, k, Page(es + [|img.files|], k))
  {
    hide Flushed, Inv;
    var n := |es| / FILE2BLK;
    assert Pages(|es|) == n + 1;
    assert Listed(img, d, k, Page(es, k));
    PageOfMore(es, |img.files|, k);
    if k != n { SlotsDiffer(img, own, d, k, n); }
  }

  lemma OwnerOf(img: Img, own: map<nat, Site>, x: Site)
    requires Built(img, own) && Val(View(img), x) != 0
    ensures Val(View(img), x) in own && own[Val(View(img), x)] == x
  {
    assert SiteOk(View(img), own, x);
  }

  lemma SlotsDiffer(img: Img, own: map<nat, Site>, d: nat, k: nat, n: nat)
    requires Built(img, own) && k != n && Val(View(img), Slot(d, k)) != 0
    ensures Val(View(img), Slot(d, k)) != Val(View(img), Slot(d, n))
  {
    if Val(View(img), Slot(d, k)) == Val(View(img), Slot(d, n)) {
      OwnerOf(img, own, Slot(d, k));
      OwnerOf(img, own, Slot(d, n));
    }
  }

  lemma ListedInNew(img: Img, own: map<nat, Site>, mid: Img, own': map<nat, Site>, d: nat, es: seq<nat>, out: Img, k: nat)
    requires Built(img, own) && Lists(img, d, es) && |es| % FILE2BLK == 0 && k <= |es| / FILE2BLK
    requires Extended(img, own, mid, own', d, |es| / FILE2BLK, Zeros(), [])
    requires Shape(View(out)) && Val(View(out), Slot(d, k)) == Val(View(mid), Slot(d, k))
    requires img.nextbno < |mid.recs| && out.recs == mid.recs[img.nextbno := mid.recs[img.nextbno] + [|img.files|]]
    ensures Listed(out, d, k, Page(es + [|img.files|], k))
  {
    hide Flushed, Inv;
    assert Pages(|es|) == |es| / FILE2BLK;
    PageOfMore(es, |img.files|, k);
    if k < |es| / FILE2BLK {
      assert Listed(img, d, k, Page(es, k));
      UsedBelow(img, own, Slot(d, k));
    }
  }

  /** A new directory block is linked first; `mid` is the state after save_block_link. */
  lemma CreateInNew(img: Img, own: map<nat, Site>, mid: Img, own': map<nat, Site>, d: nat, es: seq<nat>)
    requires Built(img, own) && Lists(img, d, es) && |es| % FILE2BLK == 0
    requires Extended(img, own, mid, own', d, |es| / FILE2BLK, Zeros(), [])
    ensures img.nextbno < |mid.recs| && Created(img, own, Recorded(Grown(mid, d), img.nextbno), own', d, es)
  {
    hide Flushed, Inv;
    var n := |es| / FILE2BLK;
    assert Pages(|es|) == n && Pages(|es| + 1) == n + 1;
    GrownKeeps(mid, own', d);
    var g := Grown(mid, d);
    RecordedKeeps(g, own', img.nextbno);
    var out, es' := Recorded(g, img.nextbno), es + [|img.files|];
    assert Shape(View(out));
    forall k: nat | k < n + 1 ensures Listed(out, d, k, Page(es', k)) {
      assert Val(View(out), Slot(d, k)) == Val(View(mid), Slot(d, k));
      ListedInNew(img, own, mid, own', d, es, out, k);
    }
    forall k: nat ensures Val(View(out), Slot(d, k)) != 0 <==> k < n + 1 {
      assert Val(View(mid), Slot(d, k)) != 0 <==> k < n + 1;
    }
    assert Linked(out, d, n + 1);
    forall c | c in own && c < NBLOCK && own[c].f != d ensures out.words[c] == img.words[c] && out.recs[c] == img.recs[c] {
      OwnedBelow(img, own, c);
    }
  }

  // ----- the builder -----

  class Builder {
    var img: Img
    var bitmap: Words
    ghost var own: map<nat, Site>

    /** init_disk: the boot block, the super block and one bitmap block are taken, the root is empty. */
    constructor ()
      ensures Built(img, own) && own == map[] && bitmap == Flushed(0)
      ensures img.nextbno == 3 && |img.files| == 1 && Lists(img, 0, [])
    {
      var diff := NBLOCK / 8;
      bitmap := seq(BMWORDS, w => seq(32, _ => 4 * w < diff));
      img := Img(3, seq(NBLOCK, _ => Zeros()), [EmptyFile()], seq(NBLOCK, _ => []));
      own := map[];
      new;
      Blank(img);
      FullBitmap(bitmap);
    }

    method NextBlock() returns (bno: nat)
      requires img.nextbno < NBLOCK
      modifies `img
      ensures bno == old(img).nextbno && img == old(img).(nextbno := bno + 1)
    {
      bno := img.nextbno;
      img := img.(nextbno := bno + 1);
    }

    method SaveBlockLink(f: nat, nblk: nat, bno: nat) returns (fits: bool)
      requires Shape(View(img)) && f < |img.files|
      modifies `img
      ensures fits <==> nblk < NINDIRECT && (nblk >= NDIRECT && old(img).files[f].indirect == 0 ==> old(img).nextbno < NBLOCK)
      ensures fits ==> img == Saved(old(img), f, nblk, bno)
    {
      hide Flushed;
      if nblk >= NINDIRECT {
        return false;
      }
      var file := img.files[f];
      if nblk < NDIRECT {
        img := img.(files := img.files[f := file.(direct := file.direct[nblk := bno])]);
      } else {
        if file.indirect == 0 {
          if img.nextbno >= NBLOCK {
            return false;
          }
          var index := NextBlock();
          file := file.(indirect := index);
          img := img.(files := img.files[f := file]);
        }
        var row: seq<nat> := img.words[file.indirect][nblk := bno];
        img := img.(words := img.words[file.indirect := row]);
      }
      return true;
    }

    /** `save_block_link(f, n, next_block(type))` after the block has been filled. */
    method Append(f: nat, n: nat, row: seq<nat>) returns (fits: bool, bno: nat)
      requires Built(img, own) && Linked(img, f, n) && |row| == NINDIRECT && n <= img.files[f].size / BY2BLK
      modifies `img, `own
      ensures fits <==> old(img).nextbno + (if n == NDIRECT then 2 else 1) <= NBLOCK
      ensures fits ==> bno == old(img).nextbno && Extended(old(img), old(own), img, own, f, n, row, [])
    {
      hide Flushed, Extended;
      bno := img.nextbno;
      if bno >= NBLOCK {
        return false, bno;
      }
      ghost var before := img;
      assert img.recs[bno := []] == img.recs;
      img := img.(words := img.words[bno := row]);
      bno := NextBlock();
      assert img == Handed(before, row, []);
      fits := SaveBlockLink(f, n, bno);
      if fits {
        LinkExtends(before, own, f, n, row, []);
        own := OwnAfter(before, own, f, n);
      }
    }

    /** make_link_block, for a directory whose n blocks are full. */
    method MakeLinkBlock(d: nat, n: nat) returns (fits: bool, bno: nat)
      requires Built(img, own) && Linked(img, d, n) && n == img.files[d].size / BY2BLK
      modifies `img, `own
      ensures fits <==> old(img).nextbno + (if n == NDIRECT then 2 else 1) <= NBLOCK
      ensures fits ==> bno == old(img).nextbno && exists mid ::
        Extended(old(img), old(own), mid, own, d, n, Zeros(), []) && d < |mid.files| && img == Grown(mid, d)
    {
      hide Built, Extended;
      fits, bno := Append(d, n, Zeros());
      if fits {
        ExtendedFile(old(img), old(own), img, own, d, n, Zeros(), []);
        img := img.(files := img.files[d := img.files[d].(size := img.files[d].size + BY2BLK)]);
      }
    }

    /** create_file: the first unused record of the last block, or the first of a new block. */
    method CreateFile(d: nat, ghost es: seq<nat>) returns (fits: bool, f: nat)
      requires Built(img, own) && Lists(img, d, es)
      modifies `img, `own
      ensures fits <==> old(img).nextbno + EntryCost(|es|) <= NBLOCK
      ensures fits ==> f == |old(img).files| && Created(old(img), old(own), img, own, d, es)
    {
      hide Built, Extended, Created, Flushed, Inv;
      var nblk := img.files[d].size / BY2BLK;
      assert nblk == Pages(|es|);
      f := |img.files|;
      var found, bno := FindUnused(d, es);
      if found {
        CreateInPlace(img, own, d, es, bno);
        Below(img, own);
        img := img.(recs := img.recs[bno := img.recs[bno] + [f]], files := img.files + [EmptyFile()]);
        return true, f;
      }
      hide Lists, Linked;
      fits, bno := MakeLinkBlock(d, nblk);
      if fits {
        ghost var mid :| Extended(old(img), old(own), mid, own, d, nblk, Zeros(), []) && d < |mid.files| && img == Grown(mid, d);
        CreateInNew(old(img), old(own), mid, own, d, es);
        ExtendedFile(old(img), old(own), mid, own, d, nblk, Zeros(), []);
        img := img.(recs := img.recs[bno := img.recs[bno] + [f]], files := img.files + [EmptyFile()]);
      }
    }

    /** The search of create_file, which looks at the last block of the directory in every round. */
    method FindUnused(d: nat, ghost es: seq<nat>) returns (found: bool, bno: nat)
      requires Built(img, own) && Lists(img, d, es)
      ensures found <==> |es| % FILE2BLK != 0
      ensures found ==> bno == Val(View(img), Slot(d, |es| / FILE2BLK))
    {
      assert d < |img.files| && Pages(|es|) == img.files[d].size / BY2BLK;
      if es != [] { LastBlock(img, d, es); }
      hide Built, Flushed, Inv, Lists, Linked, Listed, Shape, Val;
      var nblk := img.files[d].size / BY2BLK;
      var i := 0;
      bno := 0;
      while i < nblk
        invariant 0 <= i <= nblk
        invariant i > 0 ==> |es| % FILE2BLK == 0
      {
        bno := if nblk <= NDIRECT then img.files[d].direct[nblk - 1] else img.words[img.files[d].indirect][nblk - 1];
        var j := 0;
        while j < FILE2BLK
          invariant 0 <= j <= FILE2BLK && j <= |Page(es, nblk - 1)|
        {
          if j >= |img.recs[bno]| {
            LastPage(es);
            return true, bno;
          }
          j := j + 1;
        }
        FullPage(es);
        i := i + 1;
      }
      return false, bno;
    }

    /** write_file */
    method WriteFile(d: nat, ghost es: seq<nat>, size: nat, data: seq<seq<nat>>) returns (fits: bool)
      requires Built(img, own) && Lists(img, d, es) && WellFormed(FileTree(size, data))
      modifies `img, `own
      ensures fits <==> old(img).nextbno + EntryCost(|es|) + Cost(FileTree(size, data)) <= NBLOCK
      ensures fits ==> Written(old(img), old(own), img, own, d, es, FileTree(size, data))
    {
      hide Built, Extended, Created, Flushed, Inv, Contains, Started, Kept, Lists, Written;
      var f;
      fits, f := CreateFile(d, es);
      if !fits {
        return;
      }
      StartFile(old(img), old(own), img, own, d, es, size);
      img := img.(files := img.files[f := img.files[f].(size := size)]);
      ghost var start, ownStart := img, own;
      StartedFile(old(img), old(own), start, ownStart, d, es, size, data);
      var iblk := 0;
      while iblk < |data|
        invariant 0 <= iblk <= |data|
        invariant Built(img, own) && Contains(img, f, data, iblk) && Kept(start, ownStart, img, own, f)
        invariant |img.files| == |start.files| && img.files[f].size == size
        invariant img.nextbno == start.nextbno + DataCost(iblk) && img.nextbno <= NBLOCK
      {
        ghost var now, ownNow := img, own;
        ContainsLinked(img, f, data, iblk);
        var bno;
        fits, bno := Append(f, iblk, data[iblk]);
        if !fits {
          DataCostMonotone(iblk + 1, |data|);
          return;
        }
        ContainsMore(start, ownStart, now, ownNow, img, own, f, data, iblk);
        iblk := iblk + 1;
      }
      Finish(old(img), old(own), start, ownStart, img, own, d, es, size, FileTree(size, data));
    }

    /** write_symlink */
    method WriteSymlink(d: nat, ghost es: seq<nat>, size: nat, row: seq<nat>) returns (fits: bool)
      requires Built(img, own) && Lists(img, d, es) && WellFormed(LinkTree(size, row))
      modifies `img, `own
      ensures fits <==> old(img).nextbno + EntryCost(|es|) + 1 <= NBLOCK
      ensures fits ==> Written(old(img), old(own), img, own, d, es, LinkTree(size, row))
    {
      hide Built, Extended, Created, Flushed, Inv, Contains, Started, Kept, Lists, Written;
      var f, bno;
      fits, f := CreateFile(d, es);
      if !fits {
        return;
      }
      StartFile(old(img), old(own), img, own, d, es, size);
      img := img.(files := img.files[f := img.files[f].(size := size)]);
      ghost var start, ownStart := img, own;
      StartedFile(old(img), old(own), start, ownStart, d, es, size, [row]);
      ContainsLinked(img, f, [row], 0);
      fits, bno := Append(f, 0, row);
      if fits {
        ContainsMore(start, ownStart, start, ownStart, img, own, f, [row], 0);
        Finish(old(img), old(own), start, ownStart, img, own, d, es, size, LinkTree(size, row));
      }
    }

    /** write_directory, its entries taken one after the other. */
    method WriteDirectory(d: nat, ghost es: seq<nat>, children: seq<Tree>) returns (fits: bool)
      requires Built(img, own) && Lists(img, d, es) && WellFormed(DirTree(children))
      modifies `img, `own
      ensures fits <==> old(img).nextbno + EntryCost(|es|) + Cost(DirTree(children)) <= NBLOCK
      ensures fits ==> Written(old(img), old(own), img, own, d, es, DirTree(children))
      decreases children
    {
      hide Built, Created, Flushed, Inv, Started, Kept, Lists, Written, Filling;
      var f;
      fits, f := CreateFile(d, es);
      if !fits {
        return;
      }
      StartFile(old(img), old(own), img, own, d, es, 0);
      img := img.(files := img.files[f := img.files[f].(size := 0)]);
      ghost var start, ownStart := img, own;
      FillingStart(old(img), old(own), start, ownStart, d, es, children);
      var i := 0;
      while i < |children|
        invariant 0 <= i <= |children| && Filling(start, ownStart, img, own, f, children, i)
      {
        ghost var now, ownNow := img, own;
        FillingReady(start, ownStart, img, own, f, children, i);
        fits := WriteTree(f, Nums(children, f, i), children[i]);
        if !fits {
          CostMonotone(children, i + 1, |children|);
          return;
        }
        FillingMore(start, ownStart, now, ownNow, img, own, f, children, i);
        i := i + 1;
      }
      fits := true;
      FillingDone(start, ownStart, img, own, f, children);
      Finish(old(img), old(own), start, ownStart, img, own, d, es, 0, DirTree(children));
    }

    /** The choice by kind of entry, in write_directory and in main. */
    method WriteTree(d: nat, ghost es: seq<nat>, t: Tree) returns (fits: bool)
      requires Built(img, own) && Lists(img, d, es) && WellFormed(t)
      modifies `img, `own
      ensures fits <==> old(img).nextbno + EntryCost(|es|) + Cost(t) <= NBLOCK
      ensures fits ==> Written(old(img), old(own), img, own, d, es, t)
      decreases t
    {
      hide Built, Flushed, Inv, Lists, Written;
      match t
      case DirTree(children) => fits := WriteDirectory(d, es, children);
      case LinkTree(size, row) => fits := WriteSymlink(d, es, size, row);
      case FileTree(size, data) => fits := WriteFile(d, es, size, data);
    }

    /** flush_bitmap */
    method FlushBitmap()
      requires Built(img, own) && bitmap == Flushed(0)
      modifies `bitmap
      ensures bitmap == View(img).bitmap
      ensures forall i: nat :: i < NBLOCK ==> FreeFrom(bitmap, i, img.nextbno)
    {
      hide Inv, Flushed;
      var i := 0;
      while i < img.nextbno
        invariant 0 <= i <= img.nextbno <= NBLOCK && bitmap == Flushed(i)
      {
        FlushedNext(i);
        bitmap := Put(bitmap, i, false);
        i := i + 1;
      }
      forall b: nat | b < NBLOCK ensures FreeFrom(bitmap, b, img.nextbno) {
        FlushedBit(img.nextbno, b);
      }
    }
  }

  lemma ExtendedFile(img: Img, own: map<nat, Site>, out: Img, own': map<nat, Site>, f: nat, n: nat, row: seq<nat>, recs: seq<nat>)
    requires Extended(img, own, out, own', f, n, row, recs)
    ensures f < |out.files| == |img.files|
  {
  }

  lemma Below(img: Img, own: map<nat, Site>)
    requires Built(img, own)
    ensures img.nextbno <= NBLOCK == |img.recs|
  {
  }

  /** How create_file reads the number of the last directory block. */
  lemma LastBlock(img: Img, d: nat, es: seq<nat>)
    requires Lists(img, d, es) && es != []
    ensures var n := Pages(|es|);
      && n > 0 && d < |img.files| && |img.files[d].direct| == NDIRECT
      && (n > NDIRECT ==> img.files[d].indirect < |img.words| && n - 1 < |img.words[img.files[d].indirect]|)
      && var b := if n <= NDIRECT then img.files[d].direct[n - 1] else img.words[img.files[d].indirect][n - 1];
      && Shape(View(img)) && b == Val(View(img), Slot(d, n - 1)) && b < |img.recs| && img.recs[b] == Page(es, n - 1)
  {
    hide Flushed;
    assert Listed(img, d, Pages(|es|) - 1, Page(es, Pages(|es|) - 1));
    assert Val(View(img), Slot(d, Pages(|es|) - 1)) != 0;
  }

  lemma LastPage(es: seq<nat>)
    requires |es| > 0 && |Page(es, Pages(|es|) - 1)| < FILE2BLK
    ensures |es| % FILE2BLK != 0 && Pages(|es|) - 1 == |es| / FILE2BLK
  {
  }

  lemma FullPage(es: seq<nat>)
    requires |es| > 0 && |Page(es, Pages(|es|) - 1)| >= FILE2BLK
    ensures |es| % FILE2BLK == 0
  {
  }

  lemma DataCostMonotone(i: nat, j: nat)
    requires i <= j
    ensures DataCost(i) <= DataCost(j)
  {
  }

  /** The directory lists the new subtree, which can be read back from its record. */
  ghost predicate Written(img: Img, own: map<nat, Site>, out: Img, own': map<nat, Site>, d: nat, es: seq<nat>, t: Tree) {
    && Built(out, own') && Kept(img, own, out, own', d)
    && Lists(out, d, es + [|img.files|])
    && Represents(out, |img.files|, t)
    && |out.files| == |img.files| + Count(t)
    && out.nextbno == img.nextbno + EntryCost(|es|) + Cost(t)
  }

  lemma ContainsLinked(img: Img, f: nat, data: seq<seq<nat>>, n: nat)
    requires Contains(img, f, data, n)
    ensures Linked(img, f, n)
  {
  }

  /** The new record f is listed and has its size, but no block yet. */
  ghost predicate Started(img: Img, own: map<nat, Site>, out: Img, own': map<nat, Site>, d: nat, es: seq<nat>, size: nat) {
    && Built(out, own') && Kept(img, own, out, own', d) && d < |img.files|
    && Lists(out, d, es + [|img.files|])
    && |out.files| == |img.files| + 1 && out.files[|img.files|].size == size
    && Linked(out, |img.files|, 0)
    && out.nextbno == img.nextbno + EntryCost(|es|)
  }

  lemma StartFile(img: Img, own: map<nat, Site>, mid: Img, own': map<nat, Site>, d: nat, es: seq<nat>, size: nat)
    requires Created(img, own, mid, own', d, es)
    ensures |mid.files| == |img.files| + 1
    ensures Started(img, own, mid.(files := mid.files[|img.files| := mid.files[|img.files|].(size := size)]), own', d, es, size)
  {
    hide Flushed;
    var f := |img.files|;
    var out := mid.(files := mid.files[f := mid.files[f].(size := size)]);
    FileServer.Grow(View(mid), own', f, size);
    forall g: nat | g < |out.files| ensures FileServer.Covered(View(out), g, 0) {
      assert FileServer.Covered(View(mid), g, 0);
      if g != f { StillCovered(View(mid), View(out), g); }
    }
    assert Built(out, own');
    assert Kept(mid, own', out, own', f);
    ListsKept(mid, own', out, own', f, d, es + [f]);
  }

  lemma StartedFile(img: Img, own: map<nat, Site>, out: Img, own': map<nat, Site>, d: nat, es: seq<nat>, size: nat, data: seq<seq<nat>>)
    requires Started(img, own, out, own', d, es, size)
    ensures Built(out, own') && Contains(out, |img.files|, data, 0) && Kept(out, own', out, own', |img.files|)
    ensures |out.files| == |img.files| + 1 && out.files[|img.files|].size == size
    ensures out.nextbno == img.nextbno + EntryCost(|es|) <= NBLOCK
  {
  }

  /** One more block of the file is in place. */
  lemma ContainsMore(start: Img, ownStart: map<nat, Site>, img: Img, own: map<nat, Site>, out: Img, own': map<nat, Site>, f: nat, data: seq<seq<nat>>, n: nat)
    requires Built(start, ownStart) && Kept(start, ownStart, img, own, f) && Contains(img, f, data, n) && n < |data|
    requires Extended(img, own, out, own', f, n, data[n], [])
    ensures Built(out, own') && Contains(out, f, data, n + 1) && Kept(start, ownStart, out, own', f)
    ensures |out.files| == |img.files| && f < |out.files| && out.files[f].size == img.files[f].size
    ensures out.nextbno == img.nextbno + (if n == NDIRECT then 2 else 1) <= NBLOCK
  {
    hide Flushed, Inv;
    KeptTrans(start, ownStart, img, own, out, own', f, f);
    forall k: nat | k < n + 1 ensures Stored(out, f, k, data[k]) {
      if k < n { assert Stored(img, f, k, data[k]); }
    }
  }

  /** Filling the new record leaves the directory and everything before it alone. */
  lemma Finish(img: Img, own: map<nat, Site>, start: Img, ownStart: map<nat, Site>, out: Img, own': map<nat, Site>, d: nat, es: seq<nat>, size: nat, t: Tree)
    requires Built(img, own) && Started(img, own, start, ownStart, d, es, size)
    requires Built(out, own') && Kept(start, ownStart, out, own', |img.files|) && Represents(out, |img.files|, t)
    requires |out.files| == |img.files| + Count(t) && out.nextbno == start.nextbno + Cost(t)
    ensures Written(img, own, out, own', d, es, t)
  {
    hide Flushed, Inv, Represents;
    KeptTrans(img, own, start, ownStart, out, own', d, |img.files|);
    ListsKept(start, ownStart, out, own', |img.files|, d, es + [|img.files|]);
  }

  // ----- filling a directory -----

  function Nums(ts: seq<Tree>, f: nat, n: nat): seq<nat>
    requires n <= |ts|
  {
    seq(n, i requires 0 <= i < n => Child(ts, f, i))
  }

  lemma CostMonotone(ts: seq<Tree>, i: nat, j: nat)
    requires i <= j <= |ts|
    ensures CostTo(ts, i) <= CostTo(ts, j)
    decreases j
  {
    if i < j { CostMonotone(ts, i, j - 1); }
  }

  /** The first i entries of directory f are written. */
  ghost predicate Filling(start: Img, ownStart: map<nat, Site>, img: Img, own: map<nat, Site>, f: nat, ts: seq<Tree>, i: nat)
    requires i <= |ts|
  {
    && Built(start, ownStart) && Built(img, own) && Kept(start, ownStart, img, own, f) && f + 1 == |start.files|
    && Lists(img, f, Nums(ts, f, i))
    && |img.files| == Child(ts, f, i)
    && img.nextbno == start.nextbno + CostTo(ts, i)
    && forall j {:trigger ts[j]} :: 0 <= j < i ==> Represents(img, Child(ts, f, j), ts[j])
  }

  lemma FillingStart(img: Img, own: map<nat, Site>, start: Img, ownStart: map<nat, Site>, d: nat, es: seq<nat>, ts: seq<Tree>)
    requires Started(img, own, start, ownStart, d, es, 0)
    ensures Filling(start, ownStart, start, ownStart, |img.files|, ts, 0)
    ensures start.nextbno == img.nextbno + EntryCost(|es|)
  {
    hide Flushed, Inv;
  }

  lemma FillingReady(start: Img, ownStart: map<nat, Site>, img: Img, own: map<nat, Site>, f: nat, ts: seq<Tree>, i: nat)
    requires i <= |ts| && Filling(start, ownStart, img, own, f, ts, i)
    ensures Built(img, own) && Lists(img, f, Nums(ts, f, i)) && img.nextbno == start.nextbno + CostTo(ts, i) <= NBLOCK
  {
  }

  lemma FillingMore(start: Img, ownStart: map<nat, Site>, img: Img, own: map<nat, Site>, out: Img, own': map<nat, Site>, f: nat, ts: seq<Tree>, i: nat)
    requires i < |ts| && Filling(start, ownStart, img, own, f, ts, i)
    requires Written(img, own, out, own', f, Nums(ts, f, i), ts[i])
    ensures Filling(start, ownStart, out, own', f, ts, i + 1)
  {
    hide Built, Kept, Lists, Represents;
    assert Nums(ts, f, i) + [Child(ts, f, i)] == Nums(ts, f, i + 1);
    KeptTrans(start, ownStart, img, own, out, own', f, f);
    forall j | 0 <= j < i + 1 ensures Represents(out, Child(ts, f, j), ts[j]) {
      if j < i { RepresentsKept(img, own, out, own', f, Child(ts, f, j), ts[j]); }
    }
  }

  lemma FillingDone(start: Img, ownStart: map<nat, Site>, img: Img, own: map<nat, Site>, f: nat, ts: seq<Tree>)
    requires Filling(start, ownStart, img, own, f, ts, |ts|)
    ensures Built(img, own) && Kept(start, ownStart, img, own, f) && Represents(img, f, DirTree(ts))
    ensures |img.files| == f + Count(DirTree(ts)) && img.nextbno == start.nextbno + Cost(DirTree(ts)) <= NBLOCK
  {
    hide Kept, Lists;
    assert Nums(ts, f, |ts|) == seq(|ts|, i requires 0 <= i < |ts| => Child(ts, f, i));
  }

  // ----- the whole image -----

  /** main: every argument is written below the root, then the bitmap is flushed. */
  method Format(trees: seq<Tree>) returns (fits: bool, b: Builder)
    requires WellFormed(DirTree(trees))
    ensures fits <==> 3 + Cost(DirTree(trees)) <= NBLOCK
    ensures fits ==>
      && Built(b.img, b.own) && Represents(b.img, 0, DirTree(trees))
      && b.img.nextbno == 3 + Cost(DirTree(trees))
      && b.bitmap == View(b.img).bitmap
      && forall i: nat :: i < NBLOCK ==> FreeFrom(b.bitmap, i, b.img.nextbno)
  {
    hide Built, Flushed, Inv, Kept, Lists, Written, Filling;
    b := new Builder();
    ghost var start, ownStart := b.img, b.own;
    FormatStart(start, ownStart, trees);
    var i := 0;
    while i < |trees|
      invariant 0 <= i <= |trees| && Filling(start, ownStart, b.img, b.own, 0, trees, i) && b.bitmap == Flushed(0)
    {
      ghost var now, ownNow := b.img, b.own;
      FillingReady(start, ownStart, b.img, b.own, 0, trees, i);
      fits := b.WriteTree(0, Nums(trees, 0, i), trees[i]);
      if !fits {
        CostMonotone(trees, i + 1, |trees|);
        return;
      }
      FillingMore(start, ownStart, now, ownNow, b.img, b.own, 0, trees, i);
      i := i + 1;
    }
    fits := true;
    FillingDone(start, ownStart, b.img, b.own, 0, trees);
    b.FlushBitmap();
  }

  lemma FormatStart(start: Img, own: map<nat, Site>, ts: seq<Tree>)
    requires Built(start, own) && Lists(start, 0, []) && |start.files| == 1
    ensures Filling(start, own, start, own, 0, ts, 0)
  {
  }

  /** The file server's file_map_block, without allocation, finds for every index the block that
      save_block_link stored, and nothing past the last one. */
  method MapStored(img: Img, ghost own: map<nat, Site>, f: nat, k: nat, ghost n: nat) returns (r: Result<nat>)
    requires Built(img, own) && Linked(img, f, n)
    ensures k < n ==> r.Ok? && r.value < |img.words| && forall row {:trigger Stored(img, f, k, row)} :: Stored(img, f, k, row) ==> img.words[r.value] == row
    ensures k < n ==> r.value in own && own[r.value] == Slot(f, k)
    ensures n <= k < NINDIRECT ==> r == Err(NotFound)
    ensures k >= NINDIRECT ==> r == Err(Inval)
  {
    hide Flushed, Inv;
    var server := new FileServer.Server(View(img), own);
    assert Val(View(img), Slot(f, k)) != 0 <==> k < n;
    if k < n {
      UsedBelow(img, own, Slot(f, k));
      OwnerOf(img, own, Slot(f, k));
    }
    r := server.FileMapBlock(f, k, false, true, true);
  }

  lemma Blank(img: Img)
    requires img == Img(3, seq(NBLOCK, _ => Zeros()), [EmptyFile()], seq(NBLOCK, _ => []))
    ensures Built(img, map[]) && Lists(img, 0, [])
  {
    var v := View(img);
    assert Shape(v);
    forall x ensures Val(v, x) == 0 {}
    forall x ensures SiteOk(v, map[], x) {}
    forall b: nat ensures BlockOk(v, map[], b) {
      if b < NBLOCK { FlushedBit(3, b); }
    }
  }

  lemma FullBitmap(bm: Words)
    requires bm == seq(BMWORDS, w => seq(32, _ => 4 * w < NBLOCK / 8))
    ensures bm == Flushed(0)
  {
    forall w | 0 <= w < BMWORDS ensures bm[w] == Flushed(0)[w] {
      forall i | 0 <= i < 32 ensures bm[w][i] == Flushed(0)[w][i] {}
    }
  }
}
