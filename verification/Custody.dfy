/** The seam between the live wallet, the aggregate changeset kept beside it, and the row. */
module Custody {
  import opened Wrappers
  import opened Primitives
  import opened ChangeSets

  type VaultId = nat

  /** A cached wallet: what it knows, what it staged since the last take, and the aggregate. */
  datatype Live = Live(graph: WalletGraph, stage: ChangeSet, aggregate: ChangeSet)

  /** One federation: its persisted changeset and its cached wallet. */
  datatype Vault = Vault(row: Option<ChangeSet>, cached: Option<Live>)

  /** Only the RPC emitter seeds a birthday; the other backends scan by script. */
  datatype Backend = Rpc(count: nat, hash: BlockHash) | Nodeless

  datatype SyncOutcome =
    | Forward(delta: ChangeSet)
    | Rebuilt(full: ChangeSet)
    | Failed(partial: ChangeSet)

  /** A transaction of the canonical listing, with the owned value it spends. */
  datatype Listed = Listed(txid: Txid, confirmed: bool, sent: nat)

  datatype Event =
    | LoadOrInit(backend: Backend, initial: ChangeSet)
    | Sync(outcome: SyncOutcome)
    | RevealAddresses(count: nat)
    | BuildSpend(delta: ChangeSet, built: bool)
    | BuildDrain(built: bool)
    | PreviewDrain(built: bool)
    | Resweep(listing: seq<Listed>, built: bool)
    | EvictCache
    | Rescan(full: ChangeSet)

  /** The checkpoint at the node's tip, for a wallet that tracked nothing yet. */
  function Birthday(backend: Backend, w: WalletGraph, brandNew: bool): ChangeSet {
    if backend.Rpc? && (brandNew || AtGenesis(w)) && backend.count > 0
    then NOTHING.(blocks := map[backend.count := Some(backend.hash)])
    else NOTHING
  }

  function Staging(live: Live, d: ChangeSet): Live {
    live.(graph := Apply(live.graph, d), stage := Merge(live.stage, d))
  }

  /** Take what is staged, merge it into the aggregate and write the row; or nothing at all. */
  function Persist(row: Option<ChangeSet>, live: Live): Vault {
    if live.stage == NOTHING then Vault(row, Some(live))
    else
      var aggregate := Merge(live.aggregate, live.stage);
      Vault(Some(aggregate), Some(live.(stage := NOTHING, aggregate := aggregate)))
  }

  function LoadStep(v: Vault, backend: Backend, initial: ChangeSet): Vault {
    if v.cached.Some? then v
    else
      var brandNew := v.row.None?;
      var aggregate := if brandNew then NOTHING else v.row.value;
      var loaded := if brandNew then Live(Apply(BLANK, initial), initial, aggregate)
                    else Live(Reload(aggregate), NOTHING, aggregate);
      var seed := Birthday(backend, loaded.graph, brandNew);
      Persist(v.row, Staging(loaded, seed))
  }

  /** After a sync the wallet knows what it knew and what was answered, or after a rebuild exactly the
      answer. */
  predicate TakesUp(before: WalletGraph, outcome: SyncOutcome, after: WalletGraph) {
    match outcome
    case Forward(delta) => TakesIn(before, delta, after)
    case Failed(partial) => TakesIn(before, partial, after)
    case Rebuilt(full) => LoadsAs(full, after)
  }

  function Answered(before: WalletGraph, outcome: SyncOutcome): WalletGraph {
    match outcome
    case Forward(delta) => Apply(before, delta)
    case Failed(partial) => Apply(before, partial)
    case Rebuilt(full) => Reload(full)
  }

  lemma AnswerTakenUp(before: WalletGraph, outcome: SyncOutcome)
    ensures TakesUp(before, outcome, Answered(before, outcome))
  {
    match outcome
    case Forward(delta) => ApplyTakesIn(before, delta);
    case Failed(partial) => ApplyTakesIn(before, partial);
    case Rebuilt(full) => ReloadLoadsAs(full);
  }

  function SyncStep(row: Option<ChangeSet>, live: Live, outcome: SyncOutcome): Vault {
    match outcome
    case Forward(delta) => Persist(row, Staging(live, delta))
    case Rebuilt(full) => Vault(Some(full), Some(Live(Reload(full), NOTHING, full)))
    case Failed(partial) => Vault(row, Some(Staging(live, partial)))
  }

  predicate IsStranded(x: Listed) {
    !x.confirmed && x.sent > 0
  }

  /** Position `k` is the first stranded one. */
  predicate FirstAt(listing: seq<Listed>, k: nat) {
    k < |listing| && IsStranded(listing[k]) && forall j :: 0 <= j < k ==> !IsStranded(listing[j])
  }

  /** The first canonical unconfirmed transaction that spends the wallet's own coins. */
  function Stranded(listing: seq<Listed>): (t: Option<Txid>)
    ensures t.None? ==> forall j :: 0 <= j < |listing| ==> !IsStranded(listing[j])
    ensures t.Some? ==> exists k: nat :: FirstAt(listing, k) && listing[k].txid == t.value
  {
    if listing == [] then None
    else if IsStranded(listing[0]) then
      assert FirstAt(listing, 0);
      Some(listing[0].txid)
    else
      var t := Stranded(listing[1..]);
      assert t.None? ==> forall j :: 0 < j < |listing| ==> listing[j] == listing[1..][j - 1];
      assert t.Some? ==> exists k: nat :: FirstAt(listing, k) && listing[k].txid == t.value by {
        if t.Some? {
          var k: nat :| FirstAt(listing[1..], k) && listing[1..][k].txid == t.value;
          assert FirstAt(listing, k + 1);
        }
      }
      t
  }

  /** Evicts the stranded sweep, drops everything staged, and drains; only a built re-sweep
      gets its wallet dropped from the cache. */
  function ResweepStep(row: Option<ChangeSet>, live: Live, listing: seq<Listed>, built: bool): Vault {
    match Stranded(listing)
    case None => Vault(row, Some(live))
    case Some(t) =>
      if built then Vault(row, None)
      else Vault(row, Some(live.(graph := Apply(live.graph, Eviction(t)), stage := NOTHING)))
  }

  function Step(v: Vault, e: Event): Vault {
    match e
    case LoadOrInit(backend, initial) => LoadStep(v, backend, initial)
    case EvictCache => v.(cached := None)
    case Rescan(full) => Vault(Some(full), None)
    case _ =>
      if v.cached.None? then v
      else
        var live := v.cached.value;
        match e
        case Sync(outcome) => SyncStep(v.row, live, outcome)
        case RevealAddresses(count) =>
          if count == 0 then v else Persist(v.row, Staging(live, RevealDelta(live.graph, count)))
        case BuildSpend(delta, built) =>
          if built then Persist(v.row, Staging(live, delta)) else Vault(v.row, Some(Staging(live, delta)))
        case BuildDrain(built) => if built then Persist(v.row, live) else v
        case PreviewDrain(built) =>
          if built then Vault(v.row, Some(live.(stage := NOTHING))) else v
        case Resweep(listing, built) => ResweepStep(v.row, live, listing, built)
        case _ => v
  }

  function Run(v: Vault, es: seq<Event>): Vault
    decreases |es|
  {
    if es == [] then v else Run(Step(v, es[0]), es[1..])
  }

  /** The table column the changesets live in. A federation without a row is unknown. */
  class Pool {
    var rows: map<VaultId, Option<ChangeSet>>

    method UpdateFederationChangeset(id: VaultId, changes: ChangeSet)
      requires id in rows
      modifies this
      ensures rows == old(rows)[id := Some(changes)]
    {
      rows := rows[id := Some(changes)];
    }
  }

  class FederationWallet {
    const id: VaultId
    const pool: Pool
    var inner: WalletGraph
    var stage: ChangeSet
    var aggregate: ChangeSet

    constructor (id: VaultId, pool: Pool, inner: WalletGraph, aggregate: ChangeSet)
      ensures this.id == id && this.pool == pool
      ensures View() == Live(inner, NOTHING, aggregate)
    {
      this.id, this.pool, this.inner, this.stage, this.aggregate := id, pool, inner, NOTHING, aggregate;
    }

    function View(): Live
      reads this
    {
      Live(inner, stage, aggregate)
    }

    ghost predicate Known()
      reads pool
    {
      id in pool.rows
    }

    /** This federation's row, and no other, is as `v` says. */
    twostate predicate Becomes(v: Vault)
      reads this, pool
    {
      && Known()
      && Vault(pool.rows[id], Some(View())) == v
      && pool.rows == old(pool.rows)[id := v.row]
    }

    method TakeStaged() returns (delta: Option<ChangeSet>)
      modifies this
      ensures delta == if old(stage) == NOTHING then None else Some(old(stage))
      ensures View() == old(View()).(stage := NOTHING)
    {
      delta := if stage == NOTHING then None else Some(stage);
      stage := NOTHING;
    }

    method PersistDelta(delta: Option<ChangeSet>)
      requires Known()
      modifies this, pool
      ensures delta.None? ==> View() == old(View()) && pool.rows == old(pool.rows)
      ensures delta.Some? ==>
        && View() == old(View()).(aggregate := Merge(old(aggregate), delta.value))
        && pool.rows == old(pool.rows)[id := Some(Merge(old(aggregate), delta.value))]
    {
      if delta.Some? {
        aggregate := Merge(aggregate, delta.value);
        pool.UpdateFederationChangeset(id, aggregate);
      }
    }

    /** What the wallet library does on any change: update the graph and stage the difference. */
    method Change(d: ChangeSet)
      modifies this
      ensures View() == Staging(old(View()), d)
    {
      inner, stage := Apply(inner, d), Merge(stage, d);
    }

    method Sync(outcome: SyncOutcome) returns (ok: bool)
      requires Known()
      requires outcome.Rebuilt? ==> IsComplete(outcome.full)
      modifies this, pool
      ensures Becomes(Step(Vault(old(pool.rows)[id], Some(old(View()))), Event.Sync(outcome)))
      ensures ok <==> !outcome.Failed?
      ensures TakesUp(old(inner), outcome, inner)
      ensures outcome.Rebuilt? ==> pool.rows[id] == Some(outcome.full)
      ensures outcome.Failed? ==> pool.rows == old(pool.rows)
    {
      AnswerTakenUp(inner, outcome);
      match outcome
      case Failed(partial) =>
        Change(partial);
        ok := false;
      case Rebuilt(full) =>
        inner, stage := Reload(full), full;
        var delta := TakeStaged();
        if delta.Some? {
          aggregate := delta.value;
          pool.UpdateFederationChangeset(id, aggregate);
        }
        ok := true;
      case Forward(change) =>
        Change(change);
        var delta := TakeStaged();
        PersistDelta(delta);
        ok := true;
    }

    method RevealAddresses(count: nat)
      requires Known()
      modifies this, pool
      ensures Becomes(Step(Vault(old(pool.rows)[id], Some(old(View()))), Event.RevealAddresses(count)))
    {
      if count == 0 {
        return;
      }
      Change(RevealDelta(inner, count));
      var delta := TakeStaged();
      PersistDelta(delta);
    }

    /** `change` is the change address the builder may have revealed, even when it then fails. */
    method BuildProposal(change: ChangeSet, built: bool)
      requires Known()
      modifies this, pool
      ensures Becomes(Step(Vault(old(pool.rows)[id], Some(old(View()))), BuildSpend(change, built)))
    {
      Change(change);
      if !built {
        return;
      }
      var delta := TakeStaged();
      PersistDelta(delta);
    }

    method BuildMigrationTx(built: bool)
      requires Known()
      modifies this, pool
      ensures Becomes(Step(Vault(old(pool.rows)[id], Some(old(View()))), BuildDrain(built)))
    {
      if !built {
        return;
      }
      var delta := TakeStaged();
      PersistDelta(delta);
    }

    method ComputeDrainAmount(built: bool)
      requires Known()
      modifies this
      ensures Becomes(Step(Vault(old(pool.rows)[id], Some(old(View()))), PreviewDrain(built)))
    {
      if built {
        var _ := TakeStaged();
      }
    }

    method LocateStranded(listing: seq<Listed>) returns (t: Option<Txid>)
      ensures t == Stranded(listing)
    {
      for i := 0 to |listing|
        invariant Stranded(listing) == Stranded(listing[i..])
      {
        if !listing[i].confirmed && listing[i].sent > 0 {
          return Some(listing[i].txid);
        }
      }
      t := None;
    }

    /** Returns the sweep to replace. The caller must drop this wallet from the cache. */
    method BuildMigrationResweep(listing: seq<Listed>, built: bool) returns (replaced: Option<Txid>)
      modifies this
      ensures match Stranded(listing)
              case None => replaced.None? && View() == old(View())
              case Some(t) =>
                && replaced == (if built then Some(t) else None)
                && View() == old(View()).(graph := Apply(old(inner), Eviction(t)), stage := NOTHING)
    {
      var stranded := LocateStranded(listing);
      if stranded.None? {
        return None;
      }
      Change(Eviction(stranded.value));
      var _ := TakeStaged();
      if !built {
        return None;
      }
      var _ := TakeStaged();
      replaced := stranded;
    }
  }

  class WalletManager {
    const pool: Pool
    var cache: map<VaultId, FederationWallet>

    constructor (pool: Pool)
      ensures this.pool == pool && cache == map[]
    {
      this.pool := pool;
      cache := map[];
    }

    ghost predicate Valid()
      reads this, cache.Values
    {
      && (forall i :: i in cache ==> cache[i].id == i && cache[i].pool == pool)
    }

    function View(id: VaultId): Vault
      requires id in pool.rows
      reads this, pool, cache.Values
    {
      Vault(pool.rows[id], if id in cache then Some(cache[id].View()) else None)
    }

    /** What loading builds from a row: the wallet, its aggregate, and whether to write the row. */
    method Load(persisted: Option<ChangeSet>, backend: Backend, initial: ChangeSet)
      returns (inner: WalletGraph, aggregate: ChangeSet, dirty: bool)
      ensures Vault(if dirty then Some(aggregate) else persisted, Some(Live(inner, NOTHING, aggregate)))
              == LoadStep(Vault(persisted, None), backend, initial)
    {
      var brandNew := persisted.None?;
      aggregate := if brandNew then NOTHING else persisted.value;
      inner := if brandNew then Apply(BLANK, initial) else Reload(aggregate);
      var staged := if brandNew then initial else NOTHING;
      if backend.Rpc? && (brandNew || AtGenesis(inner)) && backend.count > 0 {
        var seed := NOTHING.(blocks := map[backend.count := Some(backend.hash)]);
        inner, staged := Apply(inner, seed), Merge(staged, seed);
      } else {
        NothingIsNeutral(staged, inner);
      }
      dirty := staged != NOTHING;
      if dirty {
        aggregate := Merge(aggregate, staged);
      }
    }

    /** Persists what a load changed and caches the wallet. */
    method Admit(id: VaultId, inner: WalletGraph, aggregate: ChangeSet, dirty: bool) returns (fw: FederationWallet)
      requires Valid() && id in pool.rows && id !in cache
      modifies this, pool
      ensures Valid() && cache == old(cache)[id := fw] && fw.View() == Live(inner, NOTHING, aggregate)
      ensures pool.rows == if dirty then old(pool.rows)[id := Some(aggregate)] else old(pool.rows)
    {
      if dirty {
        pool.UpdateFederationChangeset(id, aggregate);
      }
      fw := new FederationWallet(id, pool, inner, aggregate);
      cache := cache[id := fw];
    }

    /** Cached wallets are handed out as they are; a missing one is loaded, seeded, persisted. */
    method LoadOrInit(id: VaultId, backend: Backend, initial: ChangeSet) returns (r: Option<FederationWallet>)
      requires Valid() && IsComplete(initial)
      modifies this, pool
      ensures Valid()
      ensures id !in old(pool.rows) && id !in old(cache) ==> r.None? && cache == old(cache) && pool.rows == old(pool.rows)
      ensures id in old(pool.rows) ==>
        && r.Some? && id in cache && r.value == cache[id] && cache == old(cache)[id := r.value]
        && id in pool.rows && View(id) == Step(old(View(id)), Event.LoadOrInit(backend, initial))
        && pool.rows == old(pool.rows)[id := pool.rows[id]]
      ensures forall i :: i in old(cache) ==> i in cache && cache[i] == old(cache[i])
    {
      if id in cache {
        return Some(cache[id]);
      }
      if id !in pool.rows {
        return None;
      }
      var inner, aggregate, dirty := Load(pool.rows[id], backend, initial);
      var fw := Admit(id, inner, aggregate, dirty);
      r := Some(fw);
    }

    method EvictCache(id: VaultId)
      requires Valid()
      modifies this
      ensures Valid()
      ensures cache == old(cache) - {id}
      ensures id in pool.rows ==> View(id) == Step(old(View(id)), Event.EvictCache)
    {
      cache := cache - {id};
    }

    /** Overwrites the row with a scan from the descriptor alone and drops the cached wallet. */
    method Rescan(id: VaultId, full: ChangeSet) returns (ok: bool)
      requires Valid() && IsComplete(full)
      modifies this, pool
      ensures Valid()
      ensures ok <==> id in old(pool.rows)
      ensures !ok ==> cache == old(cache) && pool.rows == old(pool.rows)
      ensures ok ==>
        && cache == old(cache) - {id} && pool.rows == old(pool.rows)[id := Some(full)]
        && View(id) == Step(old(View(id)), Event.Rescan(full))
    {
      if id !in pool.rows {
        return false;
      }
      var delta := if full == NOTHING then None else Some(full);
      if delta.Some? {
        pool.UpdateFederationChangeset(id, delta.value);
      }
      cache := cache - {id};
      ok := true;
    }

    /** The re-sweep handler's use of the wallets: the cache is dropped only on success. */
    method ResweepAndEvict(id: VaultId, listing: seq<Listed>, built: bool) returns (replaced: Option<Txid>)
      requires Valid() && id in cache && id in pool.rows
      modifies this, cache[id]
      ensures Valid() && View(id) == Step(old(View(id)), Event.Resweep(listing, built))
      ensures replaced == if built then Stranded(listing) else None
      ensures cache - {id} == old(cache) - {id}
    {
      replaced := cache[id].BuildMigrationResweep(listing, built);
      if replaced.None? {
        return;
      }
      EvictCache(id);
    }
  }
}
