/** The signing protocol over whole runs: the canonical PSBT is the union of the archive, and a
    finalized proposal met its threshold. */
module SigningTheorems {
  import opened Wrappers
  import opened Psbts
  import opened Schema
  import opened Transitions
  import opened Steps
  import opened LineageRuns
  import opened LineageTheorems

  // ----- the canonical PSBT is the union of the archive -----

  /** Some archived contribution to `pid` signs input `e.0` with key `e.1`. */
  ghost predicate Contributed(db: Db, pid: ProposalId, e: (nat, Pubkey)) {
    exists k :: k in db.signatures && k.0 == pid && e in SigSet(db.signatures[k])
  }

  ghost predicate CanonicalIsUnion(db: Db, pid: ProposalId)
    requires pid in db.proposals
  {
    forall e :: e in SigSet(db.proposals[pid].psbt) <==> Contributed(db, pid, e)
  }

  ghost predicate SigningInv(db: Db) {
    && (forall k :: k in db.signatures ==> k.0 in db.proposals)
    && (forall pid {:trigger CanonicalIsUnion(db, pid)} :: pid in db.proposals ==> CanonicalIsUnion(db, pid))
    && (forall pid :: pid in db.proposals && db.proposals[pid].status in {Finalized, Broadcast} ==>
          FullySigned(db.proposals[pid].policy, db.proposals[pid].psbt))
  }

  /** Events other than submissions keep the archive and every PSBT, and add only unsigned ones. */
  ghost predicate SameSignatures(db: Db, d: Db) {
    && d.signatures == db.signatures
    && (forall p :: p in db.proposals ==>
          (&& p in d.proposals
           && d.proposals[p].psbt == db.proposals[p].psbt
           && d.proposals[p].policy == db.proposals[p].policy
           && (d.proposals[p].status in {Finalized, Broadcast} ==> db.proposals[p].status in {Finalized, Broadcast})))
    && (forall p :: p in d.proposals && p !in db.proposals ==>
          SigSet(d.proposals[p].psbt) == {} && d.proposals[p].status !in {Finalized, Broadcast})
  }

  lemma SameSignaturesTrans(a: Db, b: Db, c: Db)
    requires SameSignatures(a, b) && SameSignatures(b, c)
    ensures SameSignatures(a, c)
  {
  }

  lemma OpenSweepSameSignatures(db: Db, plan: SweepPlan, base: VersionId, mid: MigrationId, vid: VersionId)
    ensures OpenSweep(db, plan, base, mid, vid).Ok? ==>
      SameSignatures(db, OpenSweep(db, plan, base, mid, vid).value)
  {
  }

  lemma MigrateSameSignatures(db: Db, base: VersionId, mid: MigrationId, vid: VersionId, plan: SweepPlan)
    ensures SameSignatures(db, MigrateStep(db, base, mid, vid, plan))
  {
    if MayMigrate(db, base) && OpenMigration(db, base, mid, vid).Ok? {
      var d := OpenMigration(db, base, mid, vid).value;
      assert SameSignatures(db, d);
      OpenSweepSameSignatures(d, plan, base, mid, vid);
      SameSignaturesTrans(db, d, MigrateStep(db, base, mid, vid, plan));
    }
  }

  lemma MigrateDualSameSignatures(db: Db, base: VersionId, mid: MigrationId, vid: VersionId,
                                  ele: SweepPlan, btc: SweepPlan)
    ensures SameSignatures(db, MigrateDualStep(db, base, mid, vid, ele, btc))
  {
    if MayMigrate(db, base) && OpenMigration(db, base, mid, vid).Ok? {
      var d := OpenMigration(db, base, mid, vid).value;
      var first := OpenSweep(d, ele, base, mid, vid);
      OpenSweepSameSignatures(d, ele, base, mid, vid);
      if first.Ok? {
        var both := OpenSweep(first.value, btc, base, mid, vid);
        OpenSweepSameSignatures(first.value, btc, base, mid, vid);
        SameSignaturesTrans(db, d, first.value);
        if both.Ok? { SameSignaturesTrans(db, first.value, both.value); }
      }
    }
  }

  lemma BroadcastSameSignatures(db: Db, pid: ProposalId, accepted: Option<string>)
    ensures SameSignatures(db, BroadcastStep(db, pid, accepted))
  {
    if Pushed(db, pid, accepted) {
      BroadcastEffect(db, pid, accepted);
      var settled := Settled(db, pid, accepted.value);
      assert SameSignatures(settled, MarkBroadcast(settled, pid, accepted.value));
    }
  }

  lemma ProposeSameSignatures(db: Db, pid: ProposalId, version: VersionId, kind: ProposalKind,
                              migration: Option<MigrationId>, payee: Option<VersionId>, draft: BuiltTx)
    ensures SameSignatures(db, ProposeStep(db, pid, version, kind, migration, payee, draft))
  {
  }

  lemma WithdrawSameSignatures(db: Db, pid: ProposalId)
    ensures SameSignatures(db, CancelProposalStep(db, pid))
  {
  }

  lemma CancelSameSignatures(db: Db, mid: MigrationId)
    ensures SameSignatures(db, CancelMigration(db, mid))
  {
  }

  lemma OthersKeepSignatures(db: Db, e: Event)
    requires !e.SubmitPartial?
    ensures SameSignatures(db, Step(db, e))
  {
    match e
    case Migrate(base, mid, vid, pid, draft) => MigrateSameSignatures(db, base, mid, vid, Built(pid, draft));
    case MigrateDual(base, mid, vid, ele, btc) => MigrateDualSameSignatures(db, base, mid, vid, ele, btc);
    case BroadcastProposal(pid, accepted) => BroadcastSameSignatures(db, pid, accepted);
    case ProposeSend(version, pid, draft) => ProposeSameSignatures(db, pid, version, Send, None, None, draft);
    case ProposeRelay(source, current, pid, draft) =>
      ProposeSameSignatures(db, pid, source, Relay, None, Some(current), draft);
    case ProposeResweep(source, mid, current, pid, draft) =>
      ProposeSameSignatures(db, pid, source, ProposalKind.Resweep, Some(mid), Some(current), draft);
    case CancelProposal(pid) => WithdrawSameSignatures(db, pid);
    case CancelMigrationOf(mid) => CancelSameSignatures(db, mid);
    case _ =>
  }

  lemma SameSignaturesKeeps(db: Db, d: Db)
    requires SigningInv(db) && SameSignatures(db, d)
    ensures SigningInv(d)
  {
    forall pid | pid in d.proposals ensures CanonicalIsUnion(d, pid) {
      if pid in db.proposals {
        assert CanonicalIsUnion(db, pid);
        assert forall e :: Contributed(d, pid, e) <==> Contributed(db, pid, e);
      }
    }
  }

  /** One more archived partial adds its signatures to its own proposal. */
  lemma ArchivedOne(db: Db, d: Db, pid: ProposalId, signer: SignerId, partial: Psbt, q: ProposalId, e: (nat, Pubkey))
    requires (pid, signer) !in db.signatures && d.signatures == db.signatures[(pid, signer) := partial]
    ensures Contributed(d, q, e) <==> Contributed(db, q, e) || (q == pid && e in SigSet(partial))
  {
    if k :| k in db.signatures && k.0 == q && e in SigSet(db.signatures[k]) {
      assert d.signatures[k] == db.signatures[k];
    }
    if q == pid && e in SigSet(partial) {
      assert e in SigSet(d.signatures[(pid, signer)]);
    }
  }

  lemma SubmitKeepsSigning(db: Db, pid: ProposalId, signer: SignerId, partial: Psbt, extracted: Option<RawTx>)
    requires SigningInv(db)
    ensures SigningInv(SubmitStep(db, pid, signer, partial, extracted))
  {
    var d := SubmitStep(db, pid, signer, partial, extracted);
    if d != db {
      CombineUnion(db.proposals[pid].psbt, partial);
      forall q | q in d.proposals ensures CanonicalIsUnion(d, q) {
        assert CanonicalIsUnion(db, q);
        forall e ensures e in SigSet(d.proposals[q].psbt) <==> Contributed(d, q, e) {
          ArchivedOne(db, d, pid, signer, partial, q, e);
        }
      }
    }
  }

  lemma {:induction false} SigningHolds(events: seq<Event>)
    ensures SigningInv(Run(EMPTY, events))
    decreases |events|
  {
    if events != [] {
      var init, e := events[..|events| - 1], events[|events| - 1];
      SigningHolds(init);
      match e
      case SubmitPartial(pid, signer, partial, extracted) =>
        SubmitKeepsSigning(Run(EMPTY, init), pid, signer, partial, extracted);
      case _ =>
        OthersKeepSignatures(Run(EMPTY, init), e);
        SameSignaturesKeeps(Run(EMPTY, init), Run(EMPTY, events));
    }
  }

  /** In every reachable state the signatures of the canonical PSBT are exactly those of the
      archived partials, and nothing reaches the network below its threshold. */
  lemma CanonicalPsbtIsArchiveUnion(events: seq<Event>, pid: ProposalId)
    requires pid in Run(EMPTY, events).proposals
    ensures var db := Run(EMPTY, events); var p := db.proposals[pid];
      && (forall e :: e in SigSet(p.psbt) <==> Contributed(db, pid, e))
      && (p.status in {Finalized, Broadcast} ==> FullySigned(p.policy, p.psbt))
  {
    SigningHolds(events);
    assert CanonicalIsUnion(Run(EMPTY, events), pid);
  }

  /** A signer's second submission changes nothing, in any state and with any content. */
  lemma ResubmissionChangesNothing(before: seq<Event>, between: seq<Event>, pid: ProposalId, signer: SignerId,
                                   partial: Psbt, extracted: Option<RawTx>)
    requires (pid, signer) in Run(EMPTY, before).signatures
    ensures var db := Run(Run(EMPTY, before), between);
      SubmitStep(db, pid, signer, partial, extracted) == db
  {
    ArchiveGrows(Run(EMPTY, before), between);
  }

  lemma {:induction false} ArchiveGrows(db: Db, events: seq<Event>)
    ensures forall k :: k in db.signatures ==>
      k in Run(db, events).signatures && Run(db, events).signatures[k] == db.signatures[k]
    decreases |events|
  {
    if events != [] {
      var init, e := events[..|events| - 1], events[|events| - 1];
      ArchiveGrows(db, init);
      if !e.SubmitPartial? { OthersKeepSignatures(Run(db, init), e); }
    }
  }

  /** A broadcast or withdrawn proposal is final: neither its row nor its archive ever changes. */
  lemma TerminalProposalsFreeze(before: seq<Event>, after: seq<Event>, pid: ProposalId)
    requires pid in Run(EMPTY, before).proposals && Terminal(Run(EMPTY, before).proposals[pid].status)
    ensures var db := Run(EMPTY, before); var later := Run(db, after);
      && pid in later.proposals && later.proposals[pid] == db.proposals[pid]
      && (forall s :: (pid, s) in later.signatures <==> (pid, s) in db.signatures)
  {
    ReachableInv(before);
    RunAdvances(Run(EMPTY, before), after);
    TerminalArchive(before, after, pid);
    ArchiveGrows(Run(EMPTY, before), after);
  }

  lemma {:induction false} TerminalArchive(before: seq<Event>, after: seq<Event>, pid: ProposalId)
    requires pid in Run(EMPTY, before).proposals && Terminal(Run(EMPTY, before).proposals[pid].status)
    ensures forall s :: (pid, s) in Run(Run(EMPTY, before), after).signatures ==> (pid, s) in Run(EMPTY, before).signatures
    decreases |after|
  {
    if after != [] {
      var init, e := after[..|after| - 1], after[|after| - 1];
      TerminalArchive(before, init, pid);
      ReachableInv(before);
      RunAdvances(Run(EMPTY, before), init);
      if !e.SubmitPartial? { OthersKeepSignatures(Run(Run(EMPTY, before), init), e); }
    }
  }

  // ----- arrival order -----

  /** Two histories that archived the same contributions to a proposal hold the same canonical
      signatures, whatever the order they arrived in. */
  lemma ArchiveDecidesSignatures(events: seq<Event>, events': seq<Event>, pid: ProposalId, pid': ProposalId)
    requires var db, db' := Run(EMPTY, events), Run(EMPTY, events');
      pid in db.proposals && pid' in db'.proposals
      && (forall s :: (pid, s) in db.signatures <==> (pid', s) in db'.signatures)
      && (forall s :: (pid, s) in db.signatures ==>
            SigSet(db.signatures[(pid, s)]) == SigSet(db'.signatures[(pid', s)]))
    ensures SigSet(Run(EMPTY, events).proposals[pid].psbt) == SigSet(Run(EMPTY, events').proposals[pid'].psbt)
  {
    var db, db' := Run(EMPTY, events), Run(EMPTY, events');
    SigningHolds(events);
    SigningHolds(events');
    assert CanonicalIsUnion(db, pid) && CanonicalIsUnion(db', pid');
    forall e ensures Contributed(db, pid, e) <==> Contributed(db', pid', e) {
      if k :| k in db.signatures && k.0 == pid && e in SigSet(db.signatures[k]) {
        assert k == (pid, k.1) && e in SigSet(db'.signatures[(pid', k.1)]);
      }
      if k :| k in db'.signatures && k.0 == pid' && e in SigSet(db'.signatures[k]) {
        assert k == (pid', k.1) && e in SigSet(db.signatures[(pid, k.1)]);
      }
    }
  }

  /** A contribution the proposal would take: right state, right transaction, new signer. */
  predicate Acceptable(db: Db, pid: ProposalId, s: SignerId, partial: Psbt) {
    StatusIn(db, pid, {Open, Signing}) && db.proposals[pid].psbt.tx == partial.tx && (pid, s) !in db.signatures
  }

  /** The contribution alone reaches the threshold. */
  predicate Completes(db: Db, pid: ProposalId, partial: Psbt)
    requires pid in db.proposals && db.proposals[pid].psbt.tx == partial.tx
  {
    FullySigned(db.proposals[pid].policy, Combine(db.proposals[pid].psbt, partial).value)
  }

  lemma SubmitEffect(db: Db, pid: ProposalId, s: SignerId, partial: Psbt, extracted: Option<RawTx>)
    requires Acceptable(db, pid, s, partial)
    ensures var d := SubmitStep(db, pid, s, partial, extracted);
      && pid in d.proposals
      && d.proposals[pid].policy == db.proposals[pid].policy
      && d.proposals[pid].psbt.tx == db.proposals[pid].psbt.tx
      && SigSet(d.proposals[pid].psbt) == SigSet(db.proposals[pid].psbt) + SigSet(partial)
      && d.signatures == db.signatures[(pid, s) := partial]
      && d.proposals[pid].status == (if Completes(db, pid, partial) then Finalized else Signing)
  {
    CombineUnion(db.proposals[pid].psbt, partial);
  }

  /** A further submission counts unless the proposal is already complete. */
  lemma SecondArrival(d: Db, pid: ProposalId, t: SignerId, b: Psbt, y: Option<RawTx>)
    requires pid in d.proposals && d.proposals[pid].status in {Finalized, Signing}
    requires d.proposals[pid].psbt.tx == b.tx && (pid, t) !in d.signatures
    ensures var after := SubmitStep(d, pid, t, b, y);
      && pid in after.proposals
      && SigSet(after.proposals[pid].psbt) ==
         SigSet(d.proposals[pid].psbt) + (if d.proposals[pid].status == Finalized then {} else SigSet(b))
  {
    if d.proposals[pid].status == Signing { SubmitEffect(d, pid, t, b, y); }
  }

  /** What two submissions in this order leave: the second counts unless the first completed. */
  lemma TwoArrivals(db: Db, pid: ProposalId, s: SignerId, a: Psbt, t: SignerId, b: Psbt,
                    x: Option<RawTx>, y: Option<RawTx>)
    requires s != t && Acceptable(db, pid, s, a) && Acceptable(db, pid, t, b)
    ensures var ab := SubmitStep(SubmitStep(db, pid, s, a, x), pid, t, b, y);
      && pid in ab.proposals
      && SigSet(ab.proposals[pid].psbt) ==
         SigSet(db.proposals[pid].psbt) + SigSet(a) + (if Completes(db, pid, a) then {} else SigSet(b))
  {
    SubmitEffect(db, pid, s, a, x);
    SecondArrival(SubmitStep(db, pid, s, a, x), pid, t, b, y);
  }

  /** Two submissions, each acceptable first: the merged signatures are independent of the
      order exactly when neither one, by completing the proposal, shuts out something new in
      the other. */
  lemma TwoArrivalsCommuteIff(db: Db, pid: ProposalId, s: SignerId, a: Psbt, t: SignerId, b: Psbt,
                              x: Option<RawTx>, y: Option<RawTx>)
    requires s != t && Acceptable(db, pid, s, a) && Acceptable(db, pid, t, b)
    ensures pid in SubmitStep(SubmitStep(db, pid, s, a, x), pid, t, b, y).proposals
    ensures pid in SubmitStep(SubmitStep(db, pid, t, b, y), pid, s, a, x).proposals
    ensures SigSet(SubmitStep(SubmitStep(db, pid, s, a, x), pid, t, b, y).proposals[pid].psbt)
            == SigSet(SubmitStep(SubmitStep(db, pid, t, b, y), pid, s, a, x).proposals[pid].psbt)
      <==>
      (&& (Completes(db, pid, a) ==> SigSet(b) <= SigSet(db.proposals[pid].psbt) + SigSet(a))
       && (Completes(db, pid, b) ==> SigSet(a) <= SigSet(db.proposals[pid].psbt) + SigSet(b)))
  {
    TwoArrivals(db, pid, s, a, t, b, x, y);
    TwoArrivals(db, pid, t, b, s, a, y, x);
    UnionsAgreeIff(SigSet(db.proposals[pid].psbt), SigSet(a), SigSet(b), Completes(db, pid, a), Completes(db, pid, b));
  }

  lemma UnionsAgreeIff<T>(base: set<T>, a: set<T>, b: set<T>, p: bool, q: bool)
    ensures base + a + (if p then {} else b) == base + b + (if q then {} else a) <==>
      ((p ==> b <= base + a) && (q ==> a <= base + b))
  {
    var ab, ba := base + a + (if p then {} else b), base + b + (if q then {} else a);
    assert ab == ba ==> b <= ab && a <= ba;
  }

  // ----- threshold counting -----

  /** The accepted partial adds, on top of the canonical PSBT, only keys of its own signer. */
  ghost predicate AddsOwnKeysOnly(db: Db, e: Event, fp: SignerId -> Fingerprint) {
    e.SubmitPartial? && e.pid in db.proposals ==>
      forall x :: x in SigSet(e.partial) - SigSet(db.proposals[e.pid].psbt) ==>
        OwnedBy(db.proposals[e.pid].policy, x, fp(e.signer))
  }

  /** If `x` names a descriptor key at all, it is the key of the device `f`. */
  predicate OwnedBy(policy: SpendPolicy, x: (nat, Pubkey), f: Fingerprint) {
    x.0 < |policy.keys| && x.1 in policy.keys[x.0] ==> policy.keys[x.0][x.1] == f
  }

  /** Some archived signer of `pid` owns this signature. */
  ghost predicate OwnerArchived(db: Db, pid: ProposalId, x: (nat, Pubkey), fp: SignerId -> Fingerprint)
    requires pid in db.proposals
  {
    exists s :: (pid, s) in db.signatures && OwnedBy(db.proposals[pid].policy, x, fp(s))
  }

  ghost predicate OwnersArchived(db: Db, fp: SignerId -> Fingerprint) {
    forall pid, x :: pid in db.proposals && x in SigSet(db.proposals[pid].psbt) ==> OwnerArchived(db, pid, x, fp)
  }

  lemma SubmitKeepsOwners(db: Db, e: Event, fp: SignerId -> Fingerprint)
    requires SigningInv(db) && OwnersArchived(db, fp) && e.SubmitPartial? && AddsOwnKeysOnly(db, e, fp)
    ensures OwnersArchived(Step(db, e), fp)
  {
    var d := Step(db, e);
    if d != db {
      CombineUnion(db.proposals[e.pid].psbt, e.partial);
      forall pid, x | pid in d.proposals && x in SigSet(d.proposals[pid].psbt) ensures OwnerArchived(d, pid, x, fp) {
        if x in SigSet(db.proposals[pid].psbt) {
          assert OwnerArchived(db, pid, x, fp);
          var s :| (pid, s) in db.signatures && OwnedBy(db.proposals[pid].policy, x, fp(s));
          assert (pid, s) in d.signatures;
        } else {
          assert (pid, e.signer) in d.signatures;
        }
      }
    }
  }

  lemma OthersKeepOwners(db: Db, d: Db, fp: SignerId -> Fingerprint)
    requires OwnersArchived(db, fp) && SameSignatures(db, d)
    ensures OwnersArchived(d, fp)
  {
    forall pid, x | pid in d.proposals && x in SigSet(d.proposals[pid].psbt) ensures OwnerArchived(d, pid, x, fp) {
      assert OwnerArchived(db, pid, x, fp);
      var s :| (pid, s) in db.signatures && OwnedBy(db.proposals[pid].policy, x, fp(s));
      assert (pid, s) in d.signatures;
    }
  }

  lemma {:induction false} OwnersHold(events: seq<Event>, fp: SignerId -> Fingerprint)
    requires forall k :: 0 <= k < |events| ==> AddsOwnKeysOnly(Run(EMPTY, events[..k]), events[k], fp)
    ensures OwnersArchived(Run(EMPTY, events), fp)
    decreases |events|
  {
    if events != [] {
      var init, e := events[..|events| - 1], events[|events| - 1];
      forall k | 0 <= k < |init| ensures AddsOwnKeysOnly(Run(EMPTY, init[..k]), init[k], fp) {
        assert init[..k] == events[..k];
      }
      OwnersHold(init, fp);
      SigningHolds(init);
      if e.SubmitPartial? {
        SubmitKeepsOwners(Run(EMPTY, init), e, fp);
      } else {
        OthersKeepSignatures(Run(EMPTY, init), e);
        OthersKeepOwners(Run(EMPTY, init), Run(EMPTY, events), fp);
      }
    }
  }

  /** The PSBT's key origins name the same devices as the descriptor does. */
  predicate OriginsAgree(policy: SpendPolicy, p: Psbt) {
    forall i, k ::
      0 <= i < |p.inputs| && i < |policy.keys| && k in p.inputs[i].origins && k in policy.keys[i]
      ==> policy.keys[i][k] == p.inputs[i].origins[k].fingerprint
  }

  /** What injection guarantees is what threshold counting needs. */
  lemma InjectedAddsOwnKeysOnly(db: Db, e: Event, fp: SignerId -> Fingerprint, sigs: seq<TrezorSig>)
    requires e.SubmitPartial? && e.pid in db.proposals
    requires var p := db.proposals[e.pid];
      && OriginsAgree(p.policy, p.psbt)
      && |sigs| == |p.psbt.inputs| == |e.partial.inputs|
      && forall i :: 0 <= i < |sigs| ==>
           if sigs[i].Der? then SignedBy(p.psbt.inputs[i], fp(e.signer), sigs[i].sig, e.partial.inputs[i])
           else e.partial.inputs[i] == p.psbt.inputs[i]
    ensures AddsOwnKeysOnly(db, e, fp)
  {
    var p := db.proposals[e.pid];
    forall x | x in SigSet(e.partial) - SigSet(p.psbt) ensures OwnedBy(p.policy, x, fp(e.signer)) {
      var i, k := x.0, x.1;
      assert sigs[i].Der?;
      var own :| own in p.psbt.inputs[i].origins && p.psbt.inputs[i].origins[own].fingerprint == fp(e.signer)
        && e.partial.inputs[i] == p.psbt.inputs[i].(partialSigs := p.psbt.inputs[i].partialSigs[own := sigs[i].sig]);
      assert k == own;
    }
  }

  function Signers(db: Db, pid: ProposalId): set<SignerId> {
    set k | k in db.signatures && k.0 == pid :: k.1
  }

  /** The cosigners' fingerprints are distinct: no two keys of one input belong to one device. */
  predicate DistinctDevices(policy: SpendPolicy) {
    forall i, k, l ::
      0 <= i < |policy.keys| && k in policy.keys[i] && l in policy.keys[i]
      && policy.keys[i][k] == policy.keys[i][l]
      ==> k == l
  }

  /** If every accepted partial adds only its signer's keys and the devices are distinct, a
      proposal with an input that is finalized or broadcast has contributions by at least
      threshold-many distinct signers. */
  lemma FinalizedMeansThresholdSigners(events: seq<Event>, pid: ProposalId, fp: SignerId -> Fingerprint)
    requires forall k :: 0 <= k < |events| ==> AddsOwnKeysOnly(Run(EMPTY, events[..k]), events[k], fp)
    requires pid in Run(EMPTY, events).proposals
    requires Run(EMPTY, events).proposals[pid].status in {Finalized, Broadcast}
    requires Run(EMPTY, events).proposals[pid].psbt.inputs != []
    requires DistinctDevices(Run(EMPTY, events).proposals[pid].policy)
    ensures |Signers(Run(EMPTY, events), pid)| >= Run(EMPTY, events).proposals[pid].policy.threshold
  {
    var db := Run(EMPTY, events);
    var p := db.proposals[pid];
    SigningHolds(events);
    OwnersHold(events, fp);
    var signed := p.psbt.inputs[0].partialSigs.Keys * p.policy.keys[0].Keys;
    forall k | k in signed ensures exists s :: s in Signers(db, pid) && fp(s) == p.policy.keys[0][k] {
      assert (0, k) in SigSet(p.psbt);
      assert OwnerArchived(db, pid, (0, k), fp);
      var s :| (pid, s) in db.signatures && OwnedBy(p.policy, (0, k), fp(s));
      assert s in Signers(db, pid);
    }
    KeysNeedSigners(signed, Signers(db, pid), p.policy.keys[0], fp);
  }

  /** Keys of distinct devices need as many signers. */
  lemma {:induction false} KeysNeedSigners(keys: set<Pubkey>, signers: set<SignerId>,
                                           device: map<Pubkey, Fingerprint>, fp: SignerId -> Fingerprint)
    requires keys <= device.Keys
    requires forall k, l :: k in keys && l in keys && device[k] == device[l] ==> k == l
    requires forall k :: k in keys ==> exists s :: s in signers && fp(s) == device[k]
    ensures |signers| >= |keys|
    decreases keys
  {
    if keys != {} {
      var k :| k in keys;
      var s :| s in signers && fp(s) == device[k];
      forall l | l in keys - {k} ensures exists t :: t in signers - {s} && fp(t) == device[l] {
        var t :| t in signers && fp(t) == device[l];
        assert t in signers - {s};
      }
      KeysNeedSigners(keys - {k}, signers - {s}, device, fp);
    }
  }
}
