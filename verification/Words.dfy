/** The word that page_insert really stores, and the 16-bit count: exactly when they keep the invariant. */
module Words {
  import opened Options
  import opened Mmu
  import opened Vm

  /** pp_ref is a u_short. */
  const COUNT_LIMIT: nat := 0x1_0000

  /** The end of page_insert: the word goes into the leaf, and the count of pp is raised. */
  function LinkRaw(s: State, x: Site, pp: nat, w: Entry): State
    requires pp < |s.ref|
  {
    s.(refs := s.refs[x := w], ref := s.ref[pp := (s.ref[pp] + 1) % COUNT_LIMIT], held := s.held - {pp})
  }

  /** The branch of page_insert for a page that is mapped there already. */
  function RepermRaw(s: State, x: Site, w: Entry): State
    requires x in s.refs && x.Leaf? && x.env in s.asids
  {
    s.(refs := s.refs[x := w], tlb := s.tlb - {KeyOf(s, x)})
  }

  /** Counts are still right exactly when the word names the page whose count was raised and the count has not
      wrapped. */
  lemma LinkRawIff(s: State, x: Site, pp: nat, w: Entry)
    requires Inv(s) && Linkable(s, x, Entry(pp, w.perm))
    ensures pp < |s.ref|
    ensures Inv(LinkRaw(s, x, pp, w)) <==> w.frame == pp && s.ref[pp] + 1 < COUNT_LIMIT
    ensures w.frame == pp && s.ref[pp] + 1 < COUNT_LIMIT ==> LinkRaw(s, x, pp, w) == Link(s, x, Entry(pp, w.perm))
  {
    assert pp < |s.ref| && x !in s.refs;
    InvCounts(s);
    hide Inv, Linkable;
    InvCounts(LinkRaw(s, x, pp, w));
    if w.frame == pp && s.ref[pp] + 1 < COUNT_LIMIT {
      LinkRawIsLink(s, x, pp, w);
      LinkKeepsInv(s, x, w);
    } else {
      LinkRawMiscounts(s, x, pp, w);
    }
  }

  lemma InvCounts(s: State)
    ensures Inv(s) ==> Counted(s)
  {
  }

  lemma LinkRawIsLink(s: State, x: Site, pp: nat, w: Entry)
    requires pp < |s.ref| && w.frame == pp && s.ref[pp] + 1 < COUNT_LIMIT
    ensures LinkRaw(s, x, pp, w) == Link(s, x, Entry(pp, w.perm))
  {
  }

  lemma LinkRawMiscounts(s: State, x: Site, pp: nat, w: Entry)
    requires Counted(s) && x !in s.refs && pp < |s.ref| && !(w.frame == pp && s.ref[pp] + 1 < COUNT_LIMIT)
    ensures !Counted(LinkRaw(s, x, pp, w))
  {
    var t := LinkRaw(s, x, pp, w);
    if w.frame == pp {
      assert Holders(t.refs, pp) == Holders(s.refs, pp) + {x};
    } else {
      assert Holders(t.refs, pp) == Holders(s.refs, pp);
    }
  }

  lemma RepermRawIff(s: State, x: Site, w: Entry)
    requires Inv(s) && x in s.refs && x.Leaf? && w.perm.v
    ensures x.env in s.asids
    ensures Inv(RepermRaw(s, x, w)) <==> w.frame == s.refs[x].frame
    ensures w.frame == s.refs[x].frame ==> RepermRaw(s, x, w) == Reperm(s, x, w.perm)
  {
    assert Placed(s, x, s.refs[x]);
    var t := RepermRaw(s, x, w);
    if w.frame == s.refs[x].frame {
      RepermKeepsInv(s, x, w.perm);
    } else {
      assert x in Holders(s.refs, s.refs[x].frame);
      assert Holders(t.refs, s.refs[x].frame) == Holders(s.refs, s.refs[x].frame) - {x};
      assert !Counted(t);
    }
  }

  /** page_insert with the word it really stores. */
  ghost function InsertRaw(s: State, x: Site, pp: nat, w: Entry, t: nat): State
    requires Inv(s) && Mappable(s, x) && Insertable(s, pp) && t < |s.ref|
  {
    if x in s.refs && s.refs[x].frame == pp then RepermRaw(s, x, w)
    else LinkRaw(WithTable(Remove(s, x), x.env, x.pdx, t), x, pp, w)
  }

  /** The word names the page, and its count, if it is to be raised, can be. */
  predicate Sound(s: State, x: Site, pp: nat, w: Entry)
    requires pp < |s.ref|
  {
    w.frame == pp && ((x in s.refs && s.refs[x].frame == pp) || s.ref[pp] + 1 < COUNT_LIMIT)
  }

  /** page_insert keeps the counts, and with them the whole invariant, if and only if the word names the page and
      the count does not wrap; then it is the abstract insert. */
  lemma InsertRawIff(s: State, x: Site, pp: nat, w: Entry, t: nat)
    requires Inv(s) && Mappable(s, x) && Insertable(s, pp) && t < |s.ref| && w.perm.v
    requires Table(x.env, x.pdx) !in s.refs ==> t in s.free
    ensures Inv(InsertRaw(s, x, pp, w, t)) <==> Sound(s, x, pp, w)
    ensures Sound(s, x, pp, w) ==> InsertRaw(s, x, pp, w, t) == Insert(s, x, pp, w.perm, t)
  {
    if x in s.refs && s.refs[x].frame == pp {
      RepermRawIff(s, x, w);
    } else {
      RawReady(s, x, pp, w, t);
      hide Inv;
      LinkRawIff(WithTable(Remove(s, x), x.env, x.pdx, t), x, pp, w);
    }
  }

  lemma RawReady(s: State, x: Site, pp: nat, w: Entry, t: nat)
    requires Inv(s) && Mappable(s, x) && Insertable(s, pp) && t < |s.ref| && w.perm.v
    requires Table(x.env, x.pdx) !in s.refs ==> t in s.free
    requires !(x in s.refs && s.refs[x].frame == pp)
    ensures var u := WithTable(Remove(s, x), x.env, x.pdx, t);
      && Inv(u) && Linkable(u, x, Entry(pp, w.perm)) && u.ref[pp] == s.ref[pp]
  {
    if x in s.refs {
      UnlinkKeepsInv(s, x);
      assert Placed(s, x, s.refs[x]);
    }
    var r := Remove(s, x);
    assert r.ref[pp] == s.ref[pp] && Insertable(r, pp);
    WithTableKeepsInv(r, x.env, x.pdx, t);
    LinkableAfter(r, x, Entry(pp, w.perm), t);
  }

  /** page_insert changes one leaf and perhaps adds one page table, whatever word it stores. */
  lemma InsertRawChanges(s: State, x: Site, pp: nat, w: Entry, t: nat)
    requires Inv(s) && Mappable(s, x) && Insertable(s, pp) && t < |s.ref|
    ensures var u := InsertRaw(s, x, pp, w, t);
      && u.asids == s.asids && u.shared == s.shared && |u.ref| == |s.ref|
      && Get(u.refs, x) == Some(w)
      && (forall y :: y != x && y != Table(x.env, x.pdx) ==> Get(u.refs, y) == Get(s.refs, y))
  {
    RemoveChanges(s, x);
    hide Inv, Remove;
  }

  // ----- the bad cases are real -----

  /** perm 0x1000 on an even page pp maps the page after it. If that one is free, the next page_decref finds a
      count of 0. */
  lemma HighBitMiscounts(s: State, x: Site, pp: nat, low: Perm, t: nat)
    requires Inv(s) && Mappable(s, x) && Insertable(s, pp) && t < |s.ref|
    requires Table(x.env, x.pdx) in s.refs && pp % 2 == 0 && pp + 1 in s.free && x !in s.refs
    ensures var u := InsertRaw(s, x, pp, Word(pp, PermArg(1, low)), t);
      && !Inv(u) && Get(u.refs, x) == Some(Entry(pp + 1, low.(v := true))) && pp + 1 < |u.ref| && u.ref[pp + 1] == 0
  {
    OrOne(pp);
    InsertRawIff(s, x, pp, Word(pp, PermArg(1, low)), t);
    assert pp + 1 < |s.ref| && s.ref[pp + 1] == 0;
  }

  /** Leaf number k of an environment, counted from directory slot i on. */
  function NthLeaf(e: nat, i: nat, k: nat): Site {
    Leaf(e, i + k / TABLE_SIZE, k % TABLE_SIZE)
  }

  lemma LeavesDiffer(e: nat, i: nat, k: nat, m: nat)
    requires NthLeaf(e, i, k) == NthLeaf(e, i, m)
    ensures k == m
  {
    assert k == k / TABLE_SIZE * TABLE_SIZE + k % TABLE_SIZE && m == m / TABLE_SIZE * TABLE_SIZE + m % TABLE_SIZE;
  }

  /** One page mapped n times, at n leaves. */
  function MapSteps(e: nat, i: nat, pp: nat, n: nat): seq<Step> {
    seq(n, k requires 0 <= k < n => LinkSite(NthLeaf(e, i, k), Entry(pp, PERM_V)))
  }

  /** An environment with empty page tables for n leaves from directory slot i on, and a fresh page. */
  ghost predicate Roomy(s: State, e: nat, i: nat, pp: nat, n: nat) {
    && e in s.asids && Insertable(s, pp) && i + n / TABLE_SIZE < PDX_UTOP
    && forall k: nat {:trigger NthLeaf(e, i, k)} :: k < n ==>
         Table(e, i + k / TABLE_SIZE) in s.refs && NthLeaf(e, i, k) !in s.refs
  }

  lemma {:induction false} ReachesAppend(s: State, steps: seq<Step>, t: State, step: Step)
    requires Inv(s) && Reaches(s, steps, t) && Inv(t) && Enabled(t, step)
    ensures Reaches(s, steps + [step], Apply(t, step))
    decreases |steps|
  {
    hide Inv, Enabled, Apply;
    if steps == [] {
      StepKeepsInv(t, step);
      assert ([step])[1..] == [] && steps + [step] == [step];
      assert Reaches(Apply(t, step), [], Apply(t, step));
    } else {
      StepKeepsInv(s, steps[0]);
      ReachesAppend(Apply(s, steps[0]), steps[1..], t, step);
      assert (steps + [step])[1..] == steps[1..] + [step];
    }
  }

  /** The state after n mappings: the count is n, and the leaves from n on are still empty. */
  ghost predicate MappedTimes(s: State, t: State, e: nat, i: nat, pp: nat, n: nat) {
    && t.asids == s.asids && pp < |s.ref| == |t.ref| && t.ref[pp] == s.ref[pp] + n
    && Insertable(t, pp)
    && (forall x :: x in s.refs ==> x in t.refs)
    && (forall k: nat {:trigger NthLeaf(e, i, k)} :: n <= k && NthLeaf(e, i, k) !in s.refs ==> NthLeaf(e, i, k) !in t.refs)
  }

  lemma {:induction false} MapManyTimes(s: State, e: nat, i: nat, pp: nat, m: nat, n: nat) returns (t: State)
    requires Inv(s) && Roomy(s, e, i, pp, m) && n <= m
    ensures Inv(t) && Reaches(s, MapSteps(e, i, pp, n), t) && MappedTimes(s, t, e, i, pp, n)
    decreases n
  {
    hide Inv, Reaches, Enabled, Apply, Roomy, MappedTimes, NthLeaf;
    if n == 0 {
      t := s;
      MappedNever(s, e, i, pp, m);
    } else {
      var u := MapManyTimes(s, e, i, pp, m, n - 1);
      var step := LinkSite(NthLeaf(e, i, n - 1), Entry(pp, PERM_V));
      MapOnce(s, u, e, i, pp, m, n - 1);
      t := Apply(u, step);
      ReachesAppend(s, MapSteps(e, i, pp, n - 1), u, step);
      assert MapSteps(e, i, pp, n) == MapSteps(e, i, pp, n - 1) + [step];
      StepKeepsInv(u, step);
    }
  }

  lemma MappedNever(s: State, e: nat, i: nat, pp: nat, m: nat)
    requires Inv(s) && Roomy(s, e, i, pp, m)
    ensures Reaches(s, MapSteps(e, i, pp, 0), s) && MappedTimes(s, s, e, i, pp, 0)
  {
    hide Inv;
  }

  lemma MapOnce(s: State, u: State, e: nat, i: nat, pp: nat, m: nat, n: nat)
    requires Inv(s) && Roomy(s, e, i, pp, m) && n < m && Inv(u) && MappedTimes(s, u, e, i, pp, n)
    ensures var step := LinkSite(NthLeaf(e, i, n), Entry(pp, PERM_V));
      Enabled(u, step) && MappedTimes(s, Apply(u, step), e, i, pp, n + 1)
  {
    var x := NthLeaf(e, i, n);
    assert n / TABLE_SIZE <= m / TABLE_SIZE;
    assert x !in u.refs && Table(e, i + n / TABLE_SIZE) in u.refs;
    assert Linkable(u, x, Entry(pp, PERM_V));
    var t := Link(u, x, Entry(pp, PERM_V));
    forall k: nat | n + 1 <= k && NthLeaf(e, i, k) !in s.refs ensures NthLeaf(e, i, k) !in t.refs {
      if NthLeaf(e, i, k) == x { LeavesDiffer(e, i, k, n); }
    }
  }

  /** A fresh page mapped 65535 times has a right count; mapped once more, its count is 0 while 65536 leaves name it,
      and the next page_decref fails its assert. */
  lemma CountWraps(s: State, e: nat, i: nat, pp: nat, n: nat) returns (t: State)
    requires Inv(s) && n + 1 == COUNT_LIMIT && Roomy(s, e, i, pp, n + 1) && s.ref[pp] == 0
    ensures Inv(t) && Reaches(s, MapSteps(e, i, pp, n), t) && pp < |t.ref| && t.ref[pp] == n
    ensures var u := LinkRaw(t, NthLeaf(e, i, n), pp, Entry(pp, PERM_V)); u.ref[pp] == 0 && !Inv(u)
  {
    hide Inv, Reaches, NthLeaf, MapSteps, Enabled, Apply;
    t := MapManyTimes(s, e, i, pp, n + 1, n);
    MapOnce(s, t, e, i, pp, n + 1, n);
    EnabledLink(t, NthLeaf(e, i, n), Entry(pp, PERM_V));
    LinkRawIff(t, NthLeaf(e, i, n), pp, Entry(pp, PERM_V));
  }

  lemma EnabledLink(t: State, x: Site, en: Entry)
    requires Enabled(t, LinkSite(x, en))
    ensures Linkable(t, x, en)
  {
  }
}
