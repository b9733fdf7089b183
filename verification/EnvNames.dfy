/** Environment ids: how they are made, and what they resolve to. */
module EnvNames {
  import opened Options

  const NENV: nat := 1024
  const NASID: nat := 64
  const U32: nat := 0x1_0000_0000
  /** Calls of mkenvid after which the first id would come round again. */
  const ID_PERIOD: nat := 0x20_0000

  datatype Status = Free | Runnable | NotRunnable

  datatype Env = Env(id: nat, asid: nat, pgdir: nat, parent: nat, status: Status)

  /** mkenvid on its k-th call, for slot e. */
  function EnvId(k: nat, e: nat): nat {
    (k * 2048) % U32 + e
  }

  /** ENVX */
  function EnvX(id: nat): nat {
    id % NENV
  }

  lemma SlotOfSum(q: nat, e: nat)
    requires e < NENV
    ensures EnvX(1024 * q + e) == e
  {
  }

  lemma NoWrap(k: nat)
    requires k < ID_PERIOD
    ensures (k * 2048) % U32 == 2048 * k
  {
    assert 0 <= k * 2048 < U32;
  }

  lemma EnvIdValue(k: nat, e: nat)
    requires e < NENV && k < ID_PERIOD
    ensures EnvId(k, e) == 2048 * k + e
    ensures EnvX(2048 * k + e) == e
  {
    NoWrap(k);
    SlotOfSum(2 * k, e);
  }

  /** Ids are distinct, and name their slot, until the counter has wrapped once. */
  lemma EnvIdsDistinct(k: nat, e: nat, k': nat, e': nat)
    requires e < NENV && e' < NENV && k < ID_PERIOD && k' < ID_PERIOD
    ensures EnvId(k, e) == EnvId(k', e') <==> k == k' && e == e'
    ensures EnvX(EnvId(k, e)) == e
    ensures 0 < k ==> 0 < EnvId(k, e) < U32
  {
    EnvIdValue(k, e);
    EnvIdValue(k', e');
  }

  /** Ids repeat with the period, so only the call number within the period counts. */
  lemma EnvIdPeriodic(k: nat, e: nat)
    ensures EnvId(k, e) == EnvId(k % ID_PERIOD, e)
  {
    assert k == k / ID_PERIOD * ID_PERIOD + k % ID_PERIOD;
    assert k * 2048 == k / ID_PERIOD * U32 + k % ID_PERIOD * 2048;
  }

  /** Exactly when two allocations get the same id: same slot, and call numbers a multiple of the period apart. */
  lemma EnvIdsEqualIff(k: nat, e: nat, k': nat, e': nat)
    requires e < NENV && e' < NENV
    ensures EnvId(k, e) == EnvId(k', e') <==> e == e' && k % ID_PERIOD == k' % ID_PERIOD
    ensures EnvX(EnvId(k, e)) == e
    ensures EnvId(k, e) == 0 <==> e == 0 && k % ID_PERIOD == 0
  {
    EnvIdPeriodic(k, e);
    EnvIdPeriodic(k', e');
    EnvIdsDistinct(k % ID_PERIOD, e, k' % ID_PERIOD, e');
    EnvIdsDistinct(k % ID_PERIOD, e, 0, 0);
    assert EnvId(0, 0) == 0;
  }

  /** envid2env */
  function Resolve(envs: seq<Env>, curenv: Option<nat>, envid: nat, checkperm: bool): Result<nat>
    requires |envs| == NENV && (curenv.Some? ==> curenv.value < NENV)
  {
    if envid == 0 then
      if curenv.Some? then Ok(curenv.value) else Err(BadEnv)
    else
      var e := EnvX(envid);
      if envs[e].status == Free || envs[e].id != envid then Err(BadEnv)
      else if checkperm && (curenv.None? ||
        (envs[e].parent != envs[curenv.value].id && envs[e].id != envs[curenv.value].id)) then Err(BadEnv)
      else Ok(e)
  }

  /** The environment e that caller c means by envid is c itself or one that c has made. */
  ghost predicate MayActOn(envs: seq<Env>, c: nat, envid: nat, e: nat) {
    && c < |envs| && e < |envs|
    && (if envid == 0 then e == c else e == envid % 1024 && envs[e].status != Free && envs[e].id == envid)
    && (e == c || envs[e].id == envs[c].id || envs[e].parent == envs[c].id)
  }

  /** The id means no environment that the caller may act on. */
  ghost predicate Stranger(envs: seq<Env>, c: nat, envid: nat) {
    forall e: nat :: !MayActOn(envs, c, envid, e)
  }

  /** With the permission check an id resolves exactly to an environment that the caller may act on. */
  lemma ResolveIff(envs: seq<Env>, c: nat, envid: nat, e: nat)
    requires |envs| == NENV && c < NENV
    ensures Resolve(envs, Some(c), envid, true) == Ok(e) <==> MayActOn(envs, c, envid, e)
    ensures Resolve(envs, Some(c), envid, true).Err? <==> Stranger(envs, c, envid)
  {
    var r := Resolve(envs, Some(c), envid, true);
    if r.Ok? {
      assert MayActOn(envs, c, envid, r.value);
    }
  }

  /** The check refuses everybody's id but the caller's own and those of its children, and nothing else. */
  lemma PermissionIff(envs: seq<Env>, c: nat, envid: nat)
    requires |envs| == NENV && c < NENV && envid != 0
    ensures var e, free := EnvX(envid), Resolve(envs, Some(c), envid, false);
      && (free.Ok? ==> free == Ok(e))
      && Resolve(envs, Some(c), envid, true) ==
           if free.Ok? && envs[e].id != envs[c].id && envs[e].parent != envs[c].id then Err(BadEnv) else free
  {
  }

  /** `born[k]` is the slot of the (k+1)-th call of mkenvid; `birth[e]` the index of the call that
      named the present occupant of slot e. */
  ghost predicate Named(envs: seq<Env>, born: seq<nat>, birth: map<nat, nat>) {
    && |envs| == NENV
    && (forall k :: 0 <= k < |born| ==> born[k] < NENV)
    && (forall e :: e in birth ==>
          && e < NENV && birth[e] < |born| && born[birth[e]] == e
          && envs[e].id == EnvId(birth[e] + 1, e))
    && (forall e :: 0 <= e < NENV && envs[e].status != Free ==> e in birth)
  }

  /** Exactly what an id that was handed out resolves to, however many allocations there have been: the present
      occupant of its slot, if that was named a multiple of the period away. */
  lemma ResolvesIff(envs: seq<Env>, born: seq<nat>, birth: map<nat, nat>, curenv: Option<nat>, k: nat)
    requires Named(envs, born, birth) && (curenv.Some? ==> curenv.value < NENV) && k < |born|
    requires EnvId(k + 1, born[k]) != 0
    ensures var e := born[k];
      Resolve(envs, curenv, EnvId(k + 1, e), false) ==
        if envs[e].status != Free && e in birth && (birth[e] + 1) % ID_PERIOD == (k + 1) % ID_PERIOD then Ok(e)
        else Err(BadEnv)
  {
    var e := born[k];
    EnvIdsEqualIff(k + 1, e, k + 1, e);
    if envs[e].status != Free {
      EnvIdsEqualIff(k + 1, e, birth[e] + 1, e);
    }
  }

  /** Below one period an id resolves only to the allocation that received it, never to a later occupant of
      the slot. */
  lemma ResolvesOnlyItsOwn(envs: seq<Env>, born: seq<nat>, birth: map<nat, nat>, curenv: Option<nat>,
                           k: nat, checkperm: bool)
    requires Named(envs, born, birth) && (curenv.Some? ==> curenv.value < NENV)
    requires k < |born| && |born| < ID_PERIOD
    ensures var r := Resolve(envs, curenv, EnvId(k + 1, born[k]), checkperm);
      r.Ok? ==> r.value == born[k] && r.value in birth && birth[r.value] == k
  {
    var e := born[k];
    EnvIdsDistinct(k + 1, e, k + 1, e);
    if envs[e].status != Free {
      EnvIdsDistinct(k + 1, e, birth[e] + 1, e);
    }
  }

  /** Slot 0 occupied for the (ID_PERIOD + 1)-th time. */
  function Reused(): seq<Env> {
    seq(NENV, i => if i == 0 then Env(EnvId(ID_PERIOD + 1, 0), 0, 0, 0, Runnable) else Env(0, 0, 0, 0, Free))
  }

  /** The bad case is real: the id of the first allocation resolves to a later occupant of its slot. */
  lemma StaleIdResolves()
    ensures Named(Reused(), seq(ID_PERIOD + 1, _ => 0), map[0 := ID_PERIOD])
    ensures Resolve(Reused(), None, EnvId(1, 0), false) == Ok(0)
  {
    var born: seq<nat> := seq(ID_PERIOD + 1, _ => 0);
    EnvIdsEqualIff(1, 0, ID_PERIOD + 1, 0);
    ResolvesIff(Reused(), born, map[0 := ID_PERIOD], None, 0);
  }

  /** And every other non-zero id is refused. */
  lemma UnknownIdsRefused(envs: seq<Env>, born: seq<nat>, birth: map<nat, nat>, curenv: Option<nat>,
                          envid: nat, checkperm: bool)
    requires Named(envs, born, birth) && (curenv.Some? ==> curenv.value < NENV)
    requires envid != 0
    requires forall k :: 0 <= k < |born| ==> envid != EnvId(k + 1, born[k])
    ensures Resolve(envs, curenv, envid, checkperm) == Err(BadEnv)
  {
    var e := EnvX(envid);
    if envs[e].status != Free {
      assert envs[e].id == EnvId(birth[e] + 1, born[birth[e]]);
    }
  }
}
