/** The request handlers over the tables. Each one performs exactly the table change of its
    event, or refuses and changes nothing. */
module Handlers {
  import opened Wrappers
  import opened Psbts
  import opened Schema
  import opened Transitions
  import opened Steps
  import opened Database

  class App {
    const db: Tables

    constructor (db: Tables)
      ensures this.db == db
    {
      this.db := db;
    }

    // ----- migrations -----

    /** `load_active_current` and `ensure_no_inflight`. */
    method GuardMigration(base: VersionId) returns (r: Result<(), AppError>)
      ensures r.Ok? <==> MayMigrate(db.View(), base)
      ensures r.Err? ==> r.error == if base in db.versions then BadRequest else NotFound
    {
      if base !in db.versions {
        return Err(NotFound);
      }
      if db.versions[base].status != Active {
        return Err(BadRequest);
      }
      var inflight := db.InflightMigrationForLineage(db.versions[base].lineage);
      r := if inflight.Some? then Err(BadRequest) else Ok(());
    }

    /** Single-chain vault: the sweep is built before anything is stored; `draft` is the wallet's
        answer, none if it cannot build one. */
    method MigratePost(base: VersionId, mid: MigrationId, vid: VersionId, pid: ProposalId, draft: Option<BuiltTx>)
      returns (r: Result<ProposalId, AppError>)
      modifies db
      ensures draft.Some? ==> db.View() == Step(old(db.View()), Migrate(base, mid, vid, pid, draft.value))
      ensures draft.None? ==> db.View() == old(db.View())
      ensures base !in old(db.versions) ==> r == Err(NotFound)
      ensures base in old(db.versions) && !MayMigrate(old(db.View()), base) ==> r == Err(BadRequest)
      ensures MayMigrate(old(db.View()), base) && draft.None? ==> r == Err(Wallet)
      ensures MayMigrate(old(db.View()), base) && draft.Some? ==>
        match OpenMigration(old(db.View()), base, mid, vid)
        case Err(e) => r == Err(Storage(e))
        case Ok(begun) =>
          match OpenSweep(begun, Built(pid, draft.value), base, mid, vid)
          case Err(e) => r == Err(e)
          case Ok(_) => r == Ok(pid)
    {
      var guard := GuardMigration(base);
      if guard.Err? {
        return Err(guard.error);
      }
      if draft.None? {
        return Err(Wallet);
      }
      var row := db.versions[base];
      var created := db.CreatePending(mid, vid, row.lineage, base, row.index + 1);
      if created.Err? {
        return Err(Storage(created.error));
      }
      var inserted := db.Insert(pid, base, MigrationSweep, Some(mid), Some(vid), draft.value);
      r := if inserted.Ok? then Ok(pid) else Err(Storage(inserted.error));
    }

    /** Inserts the sweep of one chain of a dual-chain migration, if that chain holds funds. */
    method OpenChainSweep(plan: SweepPlan, base: VersionId, mid: MigrationId, vid: VersionId)
      returns (r: Result<Option<ProposalId>, AppError>)
      modifies db
      ensures match OpenSweep(old(db.View()), plan, base, mid, vid)
              case Ok(d) => r == Ok(if plan.Built? then Some(plan.pid) else None) && db.View() == d
              case Err(e) => r == Err(e) && db.View() == old(db.View())
    {
      match plan
      case Unfunded => r := Ok(None);
      case BuildFailed => r := Err(Wallet);
      case Built(pid, draft) =>
        var inserted := db.Insert(pid, base, MigrationSweep, Some(mid), Some(vid), draft);
        r := if inserted.Ok? then Ok(Some(pid)) else Err(Storage(inserted.error));
    }

    /** Dual-chain vault: one migration, a sweep per funded chain, or an immediate bump. */
    method MigrateDualPost(base: VersionId, mid: MigrationId, vid: VersionId, ele: SweepPlan, btc: SweepPlan,
                           wantsElements: bool) returns (r: Result<Option<ProposalId>, AppError>)
      modifies db
      ensures BumpFits(old(db.View()), base, mid, vid) ==>
        db.View() == Step(old(db.View()), MigrateDual(base, mid, vid, ele, btc))
      ensures base !in old(db.versions) ==> r == Err(NotFound)
      ensures base in old(db.versions) && !MayMigrate(old(db.View()), base) ==> r == Err(BadRequest)
      ensures MayMigrate(old(db.View()), base) ==>
        match OpenMigration(old(db.View()), base, mid, vid)
        case Err(e) => r == Err(Storage(e))
        case Ok(begun) => DualAnswer(begun, base, mid, vid, ele, btc, wantsElements, r)
    {
      var guard := GuardMigration(base);
      if guard.Err? {
        return Err(guard.error);
      }
      var row := db.versions[base];
      var created := db.CreatePending(mid, vid, row.lineage, base, row.index + 1);
      if created.Err? {
        return Err(Storage(created.error));
      }
      var eleProposal, btcProposal := None, None;
      var opening := OpenChainSweep(ele, base, mid, vid);
      if opening.Err? {
        return Err(opening.error);
      }
      eleProposal := opening.value;
      opening := OpenChainSweep(btc, base, mid, vid);
      if opening.Err? {
        return Err(opening.error);
      }
      btcProposal := opening.value;
      if eleProposal.None? && btcProposal.None? {
        var enacted := db.EnactTransition(vid, base, mid);
        return if enacted.Ok? then Ok(None) else Err(Storage(enacted.error));
      }
      var first := if wantsElements
        then (if eleProposal.Some? then eleProposal else btcProposal)
        else (if btcProposal.Some? then btcProposal else eleProposal);
      r := Ok(first);
    }

    method CancelPost(mid: MigrationId)
      modifies db
      ensures db.View() == Step(old(db.View()), CancelMigrationOf(mid))
    {
      db.CancelMigrationRow(mid);
    }

    /** Sweeps a version that is not the active one forward to the lineage's current version.
        `liquid` is the source's kind, which this build refuses; `draft` is the wallet's answer. */
    method RelayPost(source: VersionId, liquid: bool, pid: ProposalId, draft: Option<BuiltTx>)
      returns (r: Result<VersionId, AppError>)
      modifies db
      ensures r.Ok? ==> !liquid && MayRelay(old(db.View()), source, r.value) && draft.Some?
      ensures r.Ok? ==> db.View() == Step(old(db.View()), ProposeRelay(source, r.value, pid, draft.value))
      ensures r.Err? ==> db.View() == old(db.View())
      ensures r == Err(NotFound) <==> source !in old(db.versions)
      ensures r == Err(BadRequest) <==>
        source in old(db.versions) && (liquid || forall c :: !MayRelay(old(db.View()), source, c))
      ensures r == Err(Wallet) <==>
        !liquid && draft.None? && exists c :: MayRelay(old(db.View()), source, c)
      ensures r.Err? && r.error.Storage? ==> r == Err(Storage(PrimaryKey)) && pid in old(db.proposals)
    {
      if source !in db.versions {
        return Err(NotFound);
      }
      if db.versions[source].status == Active || liquid {
        return Err(BadRequest);
      }
      var current := db.CurrentVersionForLineage(db.versions[source].lineage);
      if current.None? {
        return Err(BadRequest);
      }
      assert MayRelay(old(db.View()), source, current.value);
      if draft.None? {
        return Err(Wallet);
      }
      var inserted := db.Insert(pid, source, Relay, None, current, draft.value);
      r := if inserted.Ok? then Ok(current.value) else Err(Storage(inserted.error));
    }

    /** Re-sweeps a version a reorg reverted, under the enacted migration it re-completes.
        `liquid` is the source's kind, which this build refuses; `draft` is the wallet's answer,
        none also if it finds no stranded sweep. */
    method ResweepPost(source: VersionId, liquid: bool, pid: ProposalId, draft: Option<BuiltTx>)
      returns (r: Result<(MigrationId, VersionId), AppError>)
      modifies db
      ensures r.Ok? ==> !liquid && MayResweep(old(db.View()), source, r.value.0, r.value.1) && draft.Some?
      ensures r.Ok? ==>
        db.View() == Step(old(db.View()), ProposeResweep(source, r.value.0, r.value.1, pid, draft.value))
      ensures r.Err? ==> db.View() == old(db.View())
      ensures r == Err(NotFound) <==> source !in old(db.versions)
      ensures r == Err(BadRequest) <==>
        source in old(db.versions) && (liquid || forall m, c :: !MayResweep(old(db.View()), source, m, c))
      ensures r == Err(Wallet) <==>
        !liquid && draft.None? && exists m, c :: MayResweep(old(db.View()), source, m, c)
      ensures r.Err? && r.error.Storage? ==> r == Err(Storage(PrimaryKey)) && pid in old(db.proposals)
    {
      if source !in db.versions {
        return Err(NotFound);
      }
      if db.versions[source].sweepStatus != SweepPending || liquid {
        return Err(BadRequest);
      }
      var mid := db.EnactedMigrationForBase(source);
      if mid.None? {
        return Err(BadRequest);
      }
      var current := db.CurrentVersionForLineage(db.versions[source].lineage);
      if current.None? {
        return Err(BadRequest);
      }
      assert MayResweep(old(db.View()), source, mid.value, current.value);
      if draft.None? {
        return Err(Wallet);
      }
      var inserted := db.Insert(pid, source, Resweep, mid, current, draft.value);
      r := if inserted.Ok? then Ok((mid.value, current.value)) else Err(Storage(inserted.error));
    }

    // ----- proposals -----

    method RequireStatusIn(pid: ProposalId, allowed: set<ProposalStatus>) returns (ok: bool)
      ensures ok <==> StatusIn(db.View(), pid, allowed)
    {
      ok := pid in db.proposals && db.proposals[pid].status in allowed;
    }

    /** `require_status_in` on a loaded proposal; a missing one is not found. */
    method LoadProposalIn(pid: ProposalId, allowed: set<ProposalStatus>) returns (r: Result<ProposalRow, AppError>)
      ensures pid !in db.proposals ==> r == Err(NotFound)
      ensures pid in db.proposals && !StatusIn(db.View(), pid, allowed) ==> r == Err(BadRequest)
      ensures StatusIn(db.View(), pid, allowed) ==> r == Ok(db.proposals[pid])
    {
      if pid !in db.proposals {
        return Err(NotFound);
      }
      var ok := RequireStatusIn(pid, allowed);
      r := if ok then Ok(db.proposals[pid]) else Err(BadRequest);
    }

    /** Merges a cosigner's partial PSBT; reports whether the proposal is now fully signed. */
    method SubmitPartialPsbt(pid: ProposalId, signer: SignerId, partial: Psbt, extracted: Option<RawTx>)
      returns (r: Result<bool, AppError>)
      modifies db
      ensures db.View() == Step(old(db.View()), SubmitPartial(pid, signer, partial, extracted))
      ensures SubmitAnswer(old(db.View()), pid, signer, partial, extracted, r)
      ensures r.Ok? && r.value ==> StatusIn(db.View(), pid, {Finalized})
    {
      var loaded := LoadProposalIn(pid, {Open, Signing});
      if loaded.Err? {
        return Err(loaded.error);
      }
      var proposal := loaded.value;
      var merged := Combine(proposal.psbt, partial);
      if merged.Err? {
        return Err(Wallet);
      }
      var full := FullySigned(proposal.policy, merged.value);
      var inserted := db.InsertSignature(pid, signer, partial);
      if !inserted {
        return Ok(proposal.status == Finalized);
      }
      db.UpdateProposalPsbt(pid, merged.value, if full then Finalized else Signing);
      if full {
        if extracted.None? {
          return Err(Wallet);
        }
        db.FinalizeProposal(pid, extracted.value.hex, extracted.value.txid);
      }
      r := Ok(full);
    }

    /** A Jade hands in a signed PSBT, which is the contribution; a Trezor hands in signatures,
        which are injected into a copy of the canonical PSBT. What is missing is refused. */
    method SubmitSignature(pid: ProposalId, signer: SignerId, device: Device, extracted: Option<RawTx>)
      returns (r: Result<bool, AppError>, ghost partial: Option<Psbt>)
      modifies db
      ensures partial.Some? <==>
        StatusIn(old(db.View()), pid, {Open, Signing}) && Contributes(old(db.proposals)[pid].psbt, device)
      ensures partial.Some? ==>
        && db.View() == Step(old(db.View()), SubmitPartial(pid, signer, partial.value, extracted))
        && SubmitAnswer(old(db.View()), pid, signer, partial.value, extracted, r)
        && (device.Jade? ==> partial == device.signed)
        && (device.Trezor? ==> OnlyOwnKeys(old(db.proposals)[pid].psbt, device.fingerprint, partial.value))
      ensures partial.None? ==> r.Err? && db.View() == old(db.View())
    {
      partial := None;
      var loaded := LoadProposalIn(pid, {Open, Signing});
      if loaded.Err? {
        return Err(loaded.error), partial;
      }
      var contribution: Psbt;
      match device {
        case Jade(signed) =>
          if signed.None? {
            return Err(BadRequest), partial;
          }
          contribution := signed.value;
        case Trezor(fp, sigs) =>
          if sigs.None? {
            return Err(BadRequest), partial;
          }
          var injected := InjectTrezorSignatures(loaded.value.psbt, fp, sigs.value);
          if injected.Err? {
            return Err(Wallet), partial;
          }
          contribution := injected.value;
      }
      partial := Some(contribution);
      r := SubmitPartialPsbt(pid, signer, contribution, extracted);
    }

    method CancelProposalPost(pid: ProposalId) returns (r: Result<(), AppError>)
      modifies db
      ensures db.View() == Step(old(db.View()), CancelProposal(pid))
      ensures r.Ok? <==> StatusIn(old(db.View()), pid, {Open, Signing, Finalized})
      ensures r.Err? ==> r.error == if pid in old(db.proposals) then BadRequest else NotFound
    {
      var loaded := LoadProposalIn(pid, {Open, Signing, Finalized});
      if loaded.Err? {
        return Err(loaded.error);
      }
      db.CancelProposalRow(pid);
      r := Ok(());
    }

    /** Pushes a finalized proposal, then settles the version rows it owes. */
    method BroadcastPost(pid: ProposalId, accepted: Option<string>) returns (r: Result<string, AppError>)
      modifies db
      ensures OwedFlipFits(old(db.View()), pid) ==>
        db.View() == Step(old(db.View()), BroadcastProposal(pid, accepted))
      ensures !OwedFlipFits(old(db.View()), pid) && Pushed(old(db.View()), pid, accepted) ==>
        r == Err(Storage(SecondActive)) && db.View() == MarkBroadcast(old(db.View()), pid, accepted.value)
      ensures OwedFlipFits(old(db.View()), pid) ==> (r.Ok? <==> Pushed(old(db.View()), pid, accepted))
      ensures r.Ok? ==> Some(r.value) == accepted && StatusIn(db.View(), pid, {Broadcast})
      ensures !Pushed(old(db.View()), pid, accepted) ==> r.Err? && db.View() == old(db.View())
    {
      var loaded := LoadProposalIn(pid, {Finalized});
      if loaded.Err? {
        return Err(loaded.error);
      }
      if loaded.value.finalizedTx.None? {
        return Err(BadRequest);
      }
      if accepted.None? {
        return Err(Wallet);
      }
      var txid := accepted.value;
      db.MarkProposalBroadcast(pid, txid);
      var enact := db.MigrationEnactmentForProposal(pid);
      if enact.Some? {
        var row := db.migrations[enact.value];
        var enacted := db.EnactTransition(row.target.value, row.base, enact.value);
        if enacted.Err? {
          return Err(Storage(enacted.error));
        }
        db.SetComplete(row.base, txid);
      }
      var recompletion := db.ResweepRecompletionForProposal(pid);
      if recompletion.Some? {
        db.SetComplete(recompletion.value, txid);
      }
      r := Ok(txid);
    }
  }

  // ----- what the handlers answer -----

  /** What a cosigner's device hands in; the browser may leave it out. */
  datatype Device =
    | Jade(signed: Option<Psbt>)
    | Trezor(fingerprint: Fingerprint, sigs: Option<seq<TrezorSig>>)

  /** The submission amounts to a partial PSBT. */
  predicate Contributes(base: Psbt, device: Device) {
    match device
    case Jade(signed) => signed.Some?
    case Trezor(fp, sigs) => sigs.Some? && Injectable(base, fp, sigs.value)
  }

  /** Whatever `partial` signs beyond `base`, it signs with keys of the device. */
  ghost predicate OnlyOwnKeys(base: Psbt, fp: Fingerprint, partial: Psbt) {
    forall e :: e in SigSet(partial) - SigSet(base) ==>
      e.0 < |base.inputs| && e.1 in base.inputs[e.0].origins && base.inputs[e.0].origins[e.1].fingerprint == fp
  }

  /** The answer to a submission: refused, unmergeable, ignored as a repetition, or accepted. */
  predicate SubmitAnswer(db: Db, pid: ProposalId, signer: SignerId, partial: Psbt, extracted: Option<RawTx>,
                         r: Result<bool, AppError>)
  {
    if pid !in db.proposals then r == Err(NotFound)
    else if !StatusIn(db, pid, {Open, Signing}) then r == Err(BadRequest)
    else if db.proposals[pid].psbt.tx != partial.tx then r == Err(Wallet)
    else if (pid, signer) in db.signatures then r == Ok(false)
    else
      var full := FullySigned(db.proposals[pid].policy, Combine(db.proposals[pid].psbt, partial).value);
      r == if full && extracted.None? then Err(Wallet) else Ok(full)
  }

  /** The first sweep that fails decides the error; otherwise the wanted chain's sweep comes first. */
  predicate DualAnswer(begun: Db, base: VersionId, mid: MigrationId, vid: VersionId, ele: SweepPlan, btc: SweepPlan,
                       wantsElements: bool, r: Result<Option<ProposalId>, AppError>)
  {
    match OpenSweep(begun, ele, base, mid, vid)
    case Err(e) => r == Err(e)
    case Ok(one) =>
      match OpenSweep(one, btc, base, mid, vid)
      case Err(e) => r == Err(e)
      case Ok(_) =>
        if ele.Unfunded? && btc.Unfunded? then
          r == if FlipFits(begun.versions, vid, base) then Ok(None) else Err(Storage(SecondActive))
        else if wantsElements then r == Ok(if ele.Built? then Some(ele.pid) else Some(btc.pid))
        else r == Ok(if btc.Built? then Some(btc.pid) else Some(ele.pid))
  }
}
