/** What the memory calls leave alone: the words of every page that is not a page table or directory. */
module Frames {
  import opened Mmu
  import opened Vm
  import opened PageTables
  import opened Words

  /** A data page keeps its words and stays a data page. */
  ghost predicate KeptPage(s: State, mem: Memory, t: State, mem': Memory, f: nat) {
    DataPage(s, f) ==> f < |mem| && f < |mem'| && mem'[f] == mem[f] && DataPage(t, f)
  }

  /** Every data page but those in `taken` is kept. */
  ghost predicate Framed(s: State, mem: Memory, t: State, mem': Memory, taken: set<nat>) {
    |mem'| == |mem| && forall f: nat {:trigger KeptPage(s, mem, t, mem', f)} :: f !in taken ==> KeptPage(s, mem, t, mem', f)
  }

  lemma FramedSame(s: State, mem: Memory)
    requires |mem| == |s.ref|
    ensures Framed(s, mem, s, mem, {})
  {
  }

  lemma FramedTrans(s: State, m: Memory, t: State, m': Memory, u: State, m'': Memory,
                     taken: set<nat>, more: set<nat>, all: set<nat>)
    requires Framed(s, m, t, m', taken) && Framed(t, m', u, m'', more) && taken <= all && more <= all
    ensures Framed(s, m, u, m'', all)
  {
    forall f: nat | f !in all ensures KeptPage(s, m, u, m'', f) {
      assert KeptPage(s, m, t, m', f) && KeptPage(t, m', u, m'', f);
    }
  }

  /** Every table and directory of `t` was one of `s` on the same page, or lies on a taken page. */
  ghost predicate TablesFrom(s: State, t: State, taken: set<nat>) {
    && |t.ref| == |s.ref|
    && forall x :: x in t.refs && !x.Leaf? ==>
         t.refs[x].frame in taken || (x in s.refs && s.refs[x].frame == t.refs[x].frame)
  }

  lemma FramedState(s: State, mem: Memory, t: State, taken: set<nat>)
    requires |mem| == |s.ref| && TablesFrom(s, t, taken)
    ensures Framed(s, mem, t, mem, taken)
  {
    forall f: nat | f !in taken ensures KeptPage(s, mem, t, mem, f) {}
  }

  lemma FramedWrite(s: State, mem: Memory, t: State, g: nat, words: seq<Entry>, taken: set<nat>)
    requires |mem| == |s.ref| && TablesFrom(s, t, taken) && g < |mem| && (g in taken || !DataPage(s, g))
    ensures Framed(s, mem, t, mem[g := words], taken)
  {
    forall f: nat | f !in taken ensures KeptPage(s, mem, t, mem[g := words], f) {}
  }

  /** Tables and directories are not data pages. */
  lemma TableIsNoData(s: State, x: Site)
    requires x in s.refs && !x.Leaf?
    ensures !DataPage(s, s.refs[x].frame)
  {
  }

  /** Writing one word of a page table for a state with the same tables. */
  lemma TableWriteFrames(s: State, mem: Memory, t: State, own: Site, j: nat, w: Entry)
    requires |mem| == |s.ref| && TablesFrom(s, t, {}) && own in s.refs && !own.Leaf?
    requires s.refs[own].frame < |mem| && j < |mem[s.refs[own].frame]|
    ensures Framed(s, mem, t, mem[s.refs[own].frame := mem[s.refs[own].frame][j := w]], {})
  {
    TableIsNoData(s, own);
    FramedWrite(s, mem, t, s.refs[own].frame, mem[s.refs[own].frame][j := w], {});
  }

  lemma TakeTables(s: State, p: nat)
    ensures TablesFrom(s, Take(s, p), {})
  {
  }

  lemma LinkTables(s: State, x: Site, pp: nat, w: Entry)
    requires pp < |s.ref|
    ensures TablesFrom(s, LinkRaw(s, x, pp, w), if x.Leaf? then {} else {w.frame})
    ensures w.frame == pp ==> TablesFrom(s, Link(s, x, w), if x.Leaf? then {} else {w.frame})
  {
  }

  lemma UnlinkTables(s: State, x: Site)
    requires x in s.refs && !x.Pinned? && x.env in s.asids && s.refs[x].frame < |s.ref| && s.ref[s.refs[x].frame] > 0
    ensures TablesFrom(s, Unlink(s, x), {})
  {
  }

  lemma RepermTables(s: State, x: Site, w: Entry)
    requires x in s.refs && x.Leaf? && x.env in s.asids
    ensures TablesFrom(s, RepermRaw(s, x, w), {})
  {
  }

  /** A directory that is finished and pinned is no data page any more, so adopting it changes no data page. */
  lemma AdoptFrames(mem: Memory, s: State, e: nat, p: nat, a: nat)
    requires |mem| == |s.ref| && Pinned(p, 0) in s.refs && s.refs[Pinned(p, 0)].frame == p
    ensures Framed(s, mem, Adopt(s, e, p, a), mem, {})
  {
    forall f: nat ensures KeptPage(s, mem, Adopt(s, e, p, a), mem, f) {}
  }

  lemma RetireTables(s: State, e: nat)
    requires Dir(e) in s.refs && e in s.asids && s.refs[Dir(e)].frame < |s.ref| && s.ref[s.refs[Dir(e)].frame] > 0
    ensures TablesFrom(s, Retire(s, e), {})
  {
  }

  lemma FillTables(s: State, e: nat, pdx: nat, ptx: nat, evicted: set<Key>)
    requires e in s.asids && Translate(s, e, pdx, ptx).Some?
    ensures TablesFrom(s, Fill(s, e, pdx, ptx, evicted), {})
  {
  }
}
