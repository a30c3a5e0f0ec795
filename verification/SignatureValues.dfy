/** Which signatures the stored PSBT of a proposal carries, value by value, and what becomes of the
    key origins it was created with. */
module SignatureValues {
  import opened Wrappers
  import opened Psbts
  import opened Schema
  import opened Steps
  import opened SigningTheorems
  import opened ArrivalOrders

  /** The signature input `i` carries under the key `k`. */
  function SigAt(p: Psbt, i: nat, k: Pubkey): Option<Signature> {
    if i < |p.inputs| && k in p.inputs[i].partialSigs then Some(p.inputs[i].partialSigs[k]) else None
  }

  /** The origin input `i` names for the key `k`. */
  function OriginAt(p: Psbt, i: nat, k: Pubkey): Option<KeyOrigin> {
    if i < |p.inputs| && k in p.inputs[i].origins then Some(p.inputs[i].origins[k]) else None
  }

  function Over<T>(top: Option<T>, bottom: Option<T>): Option<T> {
    if top.Some? then top else bottom
  }

  // ----- one submission -----

  /** What the partial signs is the partial's, all else is as stored; and so for the origins. */
  ghost predicate Overlays(stored: Psbt, partial: Psbt, merged: Psbt) {
    && merged.tx == stored.tx && |merged.inputs| == |stored.inputs|
    && (forall i: nat, k {:trigger SigAt(merged, i, k)} :: SigAt(merged, i, k) == Over(SigAt(partial, i, k), SigAt(stored, i, k)))
    && (forall i: nat, k {:trigger OriginAt(merged, i, k)} ::
          OriginAt(merged, i, k) == Over(OriginAt(partial, i, k), OriginAt(stored, i, k)))
  }

  lemma CombineOverlays(base: Psbt, partial: Psbt)
    requires base.tx == partial.tx
    ensures Combine(base, partial).Ok? && Overlays(base, partial, Combine(base, partial).value)
  {
    var merged := Combine(base, partial).value;
    forall i: nat, k
      ensures SigAt(merged, i, k) == Over(SigAt(partial, i, k), SigAt(base, i, k))
      ensures OriginAt(merged, i, k) == Over(OriginAt(partial, i, k), OriginAt(base, i, k))
    {
      if i < |base.inputs| {
        assert merged.inputs[i] == CombineInput(base.inputs[i], partial.inputs[i]);
      }
    }
  }

  /** The stored signatures and the partial's together meet the threshold on every input. */
  ghost predicate Enough(p: ProposalRow, partial: Psbt) {
    Suffices(p.policy, |p.psbt.inputs|, SigSet(p.psbt) + SigSet(partial))
  }

  /** The archive and the PSBTs after an accepted submission. */
  lemma SubmissionOverlays(db: Db, pid: ProposalId, signer: SignerId, partial: Psbt, extracted: Option<RawTx>)
    requires Acceptable(db, pid, signer, partial)
    ensures
      var d := SubmitStep(db, pid, signer, partial, extracted);
      && d.signatures == db.signatures[(pid, signer) := partial]
      && d.proposals.Keys == db.proposals.Keys
      && (forall q :: q in db.proposals && q != pid ==> d.proposals[q] == db.proposals[q])
      && Overlays(db.proposals[pid].psbt, partial, d.proposals[pid].psbt)
  {
    CombineOverlays(db.proposals[pid].psbt, partial);
  }

  lemma SubmissionStatus(db: Db, pid: ProposalId, signer: SignerId, partial: Psbt, extracted: Option<RawTx>)
    requires Acceptable(db, pid, signer, partial)
    ensures
      var p, d := db.proposals[pid], SubmitStep(db, pid, signer, partial, extracted);
      && d.versions == db.versions && d.migrations == db.migrations && pid in d.proposals
      && var after := d.proposals[pid];
         && after.status == (if Enough(p, partial) then Finalized else Signing)
         && (after.finalizedTx, after.txid) ==
              (if Enough(p, partial) && extracted.Some? then (Some(extracted.value.hex), Some(extracted.value.txid))
               else (p.finalizedTx, p.txid))
         && after == p.(psbt := after.psbt, status := after.status, finalizedTx := after.finalizedTx, txid := after.txid)
  {
    var p := db.proposals[pid];
    CombineUnion(p.psbt, partial);
    FullySignedIffSuffices(p.policy, Combine(p.psbt, partial).value);
  }

  /** What an accepted submission does, column by column. */
  lemma SubmissionByColumns(db: Db, pid: ProposalId, signer: SignerId, partial: Psbt, extracted: Option<RawTx>)
    requires Acceptable(db, pid, signer, partial)
    ensures
      var p, d := db.proposals[pid], Step(db, SubmitPartial(pid, signer, partial, extracted));
      && d.versions == db.versions && d.migrations == db.migrations
      && d.signatures == db.signatures[(pid, signer) := partial]
      && d.proposals.Keys == db.proposals.Keys
      && (forall q :: q in db.proposals && q != pid ==> d.proposals[q] == db.proposals[q])
      && var after := d.proposals[pid];
         && Overlays(p.psbt, partial, after.psbt)
         && after.status == (if Enough(p, partial) then Finalized else Signing)
         && (after.finalizedTx, after.txid) ==
              (if Enough(p, partial) && extracted.Some? then (Some(extracted.value.hex), Some(extracted.value.txid))
               else (p.finalizedTx, p.txid))
         && after == p.(psbt := after.psbt, status := after.status, finalizedTx := after.finalizedTx, txid := after.txid)
  {
    SubmissionOverlays(db, pid, signer, partial, extracted);
    SubmissionStatus(db, pid, signer, partial, extracted);
  }

  /** Any other submission changes nothing. */
  lemma RefusedSubmission(db: Db, pid: ProposalId, signer: SignerId, partial: Psbt, extracted: Option<RawTx>)
    requires !Acceptable(db, pid, signer, partial)
    ensures Step(db, SubmitPartial(pid, signer, partial, extracted)) == db
  {
  }

  // ----- every signature was archived -----

  /** Some archived contribution to `pid` carries this signature at this place. */
  ghost predicate Archived(db: Db, pid: ProposalId, i: nat, k: Pubkey, sig: Signature) {
    exists s :: (pid, s) in db.signatures && SigAt(db.signatures[(pid, s)], i, k) == Some(sig)
  }

  ghost predicate ValueArchived(db: Db, pid: ProposalId, i: nat, k: Pubkey)
    requires pid in db.proposals
  {
    var stored := SigAt(db.proposals[pid].psbt, i, k);
    stored.Some? ==> Archived(db, pid, i, k, stored.value)
  }

  ghost predicate ValuesArchived(db: Db) {
    forall pid, i: nat, k {:trigger ValueArchived(db, pid, i, k)} :: pid in db.proposals ==> ValueArchived(db, pid, i, k)
  }

  lemma SubmitKeepsValues(db: Db, pid: ProposalId, signer: SignerId, partial: Psbt, extracted: Option<RawTx>)
    requires ValuesArchived(db)
    ensures ValuesArchived(SubmitStep(db, pid, signer, partial, extracted))
  {
    if Acceptable(db, pid, signer, partial) {
      SubmissionOverlays(db, pid, signer, partial, extracted);
      ArchivedStill(db, SubmitStep(db, pid, signer, partial, extracted), pid, signer, partial);
    }
  }

  lemma ArchivedStill(db: Db, d: Db, pid: ProposalId, signer: SignerId, partial: Psbt)
    requires ValuesArchived(db) && pid in db.proposals && d.proposals.Keys == db.proposals.Keys
    requires (pid, signer) !in db.signatures && d.signatures == db.signatures[(pid, signer) := partial]
    requires forall q :: q in db.proposals && q != pid ==> d.proposals[q] == db.proposals[q]
    requires Overlays(db.proposals[pid].psbt, partial, d.proposals[pid].psbt)
    ensures ValuesArchived(d)
  {
    forall q, i: nat, k | q in d.proposals ensures ValueArchived(d, q, i, k) {
      assert ValueArchived(db, q, i, k);
      ValueStaysArchived(db, d, pid, signer, partial, q, i, k);
    }
  }

  lemma ValueStaysArchived(db: Db, d: Db, pid: ProposalId, signer: SignerId, partial: Psbt,
                           q: ProposalId, i: nat, k: Pubkey)
    requires q in db.proposals && q in d.proposals && ValueArchived(db, q, i, k)
    requires (pid, signer) !in db.signatures && d.signatures == db.signatures[(pid, signer) := partial]
    requires q != pid ==> d.proposals[q].psbt == db.proposals[q].psbt
    requires q == pid ==> Overlays(db.proposals[q].psbt, partial, d.proposals[q].psbt)
    ensures ValueArchived(d, q, i, k)
  {
    var before, after := SigAt(db.proposals[q].psbt, i, k), SigAt(d.proposals[q].psbt, i, k);
    if q == pid && SigAt(partial, i, k).Some? {
      assert SigAt(d.signatures[(pid, signer)], i, k) == after;
    } else if before.Some? {
      var s :| (q, s) in db.signatures && SigAt(db.signatures[(q, s)], i, k) == before;
      assert d.signatures[(q, s)] == db.signatures[(q, s)];
    }
  }

  lemma UnsignedCarriesNothing(p: Psbt, i: nat, k: Pubkey)
    requires SigSet(p) == {}
    ensures SigAt(p, i, k) == None
  {
    assert SigAt(p, i, k).Some? ==> (i, k) in SigSet(p);
  }

  lemma OthersKeepValues(db: Db, d: Db)
    requires ValuesArchived(db) && SameSignatures(db, d)
    ensures ValuesArchived(d)
  {
    forall q, i: nat, k | q in d.proposals ensures ValueArchived(d, q, i, k) {
      if q in db.proposals {
        assert ValueArchived(db, q, i, k);
      } else {
        UnsignedCarriesNothing(d.proposals[q].psbt, i, k);
      }
    }
  }

  lemma {:induction false} ValuesHold(events: seq<Event>)
    ensures ValuesArchived(Run(EMPTY, events))
    decreases |events|
  {
    if events != [] {
      var init, e := events[..|events| - 1], events[|events| - 1];
      ValuesHold(init);
      match e
      case SubmitPartial(pid, signer, partial, extracted) =>
        SubmitKeepsValues(Run(EMPTY, init), pid, signer, partial, extracted);
      case _ =>
        OthersKeepSignatures(Run(EMPTY, init), e);
        OthersKeepValues(Run(EMPTY, init), Run(EMPTY, events));
    }
  }

  /** In every reachable state, each signature of the stored PSBT is, value and all, one that some
      archived contribution to the proposal carries at the same input under the same key. */
  lemma StoredSignaturesWereHandedIn(events: seq<Event>, pid: ProposalId, i: nat, k: Pubkey)
    requires pid in Run(EMPTY, events).proposals
    ensures
      var db := Run(EMPTY, events);
      var stored := SigAt(db.proposals[pid].psbt, i, k);
      stored.Some? ==> exists s :: (pid, s) in db.signatures && SigAt(db.signatures[(pid, s)], i, k) == stored
  {
    ValuesHold(events);
    var db := Run(EMPTY, events);
    assert ValueArchived(db, pid, i, k);
  }

  // ----- the origins of the draft -----

  /** One submission keeps the origin of a key if and only if it names none or the same. */
  lemma OriginKeptIff(db: Db, pid: ProposalId, signer: SignerId, partial: Psbt, extracted: Option<RawTx>, i: nat, k: Pubkey)
    requires Acceptable(db, pid, signer, partial) && OriginAt(db.proposals[pid].psbt, i, k).Some?
    ensures
      var before, d := OriginAt(db.proposals[pid].psbt, i, k), Step(db, SubmitPartial(pid, signer, partial, extracted));
      && pid in d.proposals && OriginAt(d.proposals[pid].psbt, i, k).Some?
      && (OriginAt(d.proposals[pid].psbt, i, k) == before <==> OriginAt(partial, i, k) in {None, before})
  {
    SubmissionByColumns(db, pid, signer, partial, extracted);
  }

  /** The contributions archived in between name no other origin for the key. */
  ghost predicate NoneRenames(db: Db, later: Db, pid: ProposalId, i: nat, k: Pubkey, o: KeyOrigin) {
    forall s :: (pid, s) in later.signatures && (pid, s) !in db.signatures ==>
      OriginAt(later.signatures[(pid, s)], i, k) in {None, Some(o)}
  }

  /** From any reachable state on, a key of a proposal keeps an origin for good; and it is the one it
      had, or one that a contribution archived since names for the key. */
  lemma {:induction false} OriginsStay(db: Db, after: seq<Event>, pid: ProposalId, i: nat, k: Pubkey)
    requires pid in db.proposals && OriginAt(db.proposals[pid].psbt, i, k).Some?
    ensures
      var later := Run(db, after);
      && pid in later.proposals
      && var o := OriginAt(later.proposals[pid].psbt, i, k);
         && o.Some?
         && (o == OriginAt(db.proposals[pid].psbt, i, k)
             || exists s :: (pid, s) in later.signatures && (pid, s) !in db.signatures
                            && OriginAt(later.signatures[(pid, s)], i, k) == o)
    decreases |after|
  {
    if after != [] {
      var init, e := after[..|after| - 1], after[|after| - 1];
      var mid := Run(db, init);
      OriginsStay(db, init, pid, i, k);
      ArchiveGrows(db, init);
      match e
      case SubmitPartial(q, signer, partial, extracted) =>
        if Acceptable(mid, q, signer, partial) {
          SubmissionByColumns(mid, q, signer, partial, extracted);
          OriginStep(db, mid, Step(mid, e), pid, q, signer, partial, i, k);
        }
      case _ => OthersKeepSignatures(mid, e);
    }
  }

  lemma OriginStep(db: Db, mid: Db, d: Db, pid: ProposalId, q: ProposalId, signer: SignerId, partial: Psbt,
                   i: nat, k: Pubkey)
    requires pid in db.proposals && pid in mid.proposals && pid in d.proposals
    requires forall x :: x in db.signatures ==> x in mid.signatures
    requires (q, signer) !in mid.signatures && d.signatures == mid.signatures[(q, signer) := partial]
    requires q != pid ==> d.proposals[pid].psbt == mid.proposals[pid].psbt
    requires q == pid ==> Overlays(mid.proposals[pid].psbt, partial, d.proposals[pid].psbt)
    requires OriginAt(mid.proposals[pid].psbt, i, k).Some?
    requires var o := OriginAt(mid.proposals[pid].psbt, i, k);
      o == OriginAt(db.proposals[pid].psbt, i, k)
      || exists s :: (pid, s) in mid.signatures && (pid, s) !in db.signatures
                     && OriginAt(mid.signatures[(pid, s)], i, k) == o
    ensures var o := OriginAt(d.proposals[pid].psbt, i, k);
      o.Some? && (o == OriginAt(db.proposals[pid].psbt, i, k)
      || exists s :: (pid, s) in d.signatures && (pid, s) !in db.signatures
                     && OriginAt(d.signatures[(pid, s)], i, k) == o)
  {
    var before, o := OriginAt(mid.proposals[pid].psbt, i, k), OriginAt(d.proposals[pid].psbt, i, k);
    if q == pid && OriginAt(partial, i, k).Some? {
      assert OriginAt(d.signatures[(pid, signer)], i, k) == o;
    } else if before != OriginAt(db.proposals[pid].psbt, i, k) {
      var s :| (pid, s) in mid.signatures && (pid, s) !in db.signatures
               && OriginAt(mid.signatures[(pid, s)], i, k) == before;
      assert d.signatures[(pid, s)] == mid.signatures[(pid, s)];
    }
  }

  /** So every origin of the draft is kept, as long as no contribution contradicts it. */
  lemma DraftOriginsKept(db: Db, after: seq<Event>, pid: ProposalId, i: nat, k: Pubkey)
    requires pid in db.proposals && OriginAt(db.proposals[pid].psbt, i, k).Some?
    requires NoneRenames(db, Run(db, after), pid, i, k, OriginAt(db.proposals[pid].psbt, i, k).value)
    ensures pid in Run(db, after).proposals
    ensures OriginAt(Run(db, after).proposals[pid].psbt, i, k) == OriginAt(db.proposals[pid].psbt, i, k)
  {
    OriginsStay(db, after, pid, i, k);
  }
}
