/** Any number of submissions to one proposal, in every order. */
module ArrivalOrders {
  import opened Wrappers
  import opened Psbts
  import opened Schema
  import opened Steps
  import opened SigningTheorems

  datatype Submission = Submission(partial: Psbt, extracted: Option<RawTx>)

  type Batch = map<SignerId, Submission>

  /** Each submission alone would be taken. */
  predicate AllAcceptable(db: Db, pid: ProposalId, batch: Batch) {
    pid in db.proposals && forall s :: s in batch ==> Acceptable(db, pid, s, batch[s].partial)
  }

  function Members(order: seq<SignerId>): set<SignerId> {
    set s | s in order
  }

  predicate NoRepeat(order: seq<SignerId>) {
    forall i, j :: 0 <= i < j < |order| ==> order[i] != order[j]
  }

  /** `order` lists each of `ids` once. */
  predicate Ordering(order: seq<SignerId>, ids: set<SignerId>) {
    NoRepeat(order) && Members(order) == ids
  }

  /** The requests, one after the other. */
  function Requests(pid: ProposalId, order: seq<SignerId>, batch: Batch): (events: seq<Event>)
    requires forall s :: s in order ==> s in batch
    ensures |events| == |order|
  {
    if order == [] then []
    else
      var s := order[|order| - 1];
      Requests(pid, order[..|order| - 1], batch) + [SubmitPartial(pid, s, batch[s].partial, batch[s].extracted)]
  }

  /** The signatures of a proposal after a run. */
  ghost function MergedBy(db: Db, pid: ProposalId, events: seq<Event>): set<(nat, Pubkey)> {
    var d := Run(db, events);
    if pid in d.proposals then SigSet(d.proposals[pid].psbt) else {}
  }

  ghost predicate OrdersAgree(db: Db, pid: ProposalId, batch: Batch) {
    forall a, b :: Ordering(a, batch.Keys) && Ordering(b, batch.Keys) ==>
      MergedBy(db, pid, Requests(pid, a, batch)) == MergedBy(db, pid, Requests(pid, b, batch))
  }

  ghost function SigsOf(batch: Batch, ids: set<SignerId>): set<(nat, Pubkey)>
    requires ids <= batch.Keys
  {
    set s, e | s in ids && e in SigSet(batch[s].partial) :: e
  }

  // ----- completeness as a matter of signatures -----

  function KeysAt(signed: set<(nat, Pubkey)>, i: nat): set<Pubkey> {
    set e | e in signed && e.0 == i :: e.1
  }

  predicate SufficesAt(policy: SpendPolicy, i: nat, signed: set<(nat, Pubkey)>) {
    i < |policy.keys| && |KeysAt(signed, i) * policy.keys[i].Keys| >= policy.threshold
  }

  /** These signatures meet the threshold on each of the inputs. */
  predicate Suffices(policy: SpendPolicy, inputs: nat, signed: set<(nat, Pubkey)>) {
    forall i :: 0 <= i < inputs ==> SufficesAt(policy, i, signed)
  }

  lemma KeysAtInput(p: Psbt, i: nat)
    requires i < |p.inputs|
    ensures KeysAt(SigSet(p), i) == p.inputs[i].partialSigs.Keys
  {
    forall k | k in p.inputs[i].partialSigs ensures k in KeysAt(SigSet(p), i) {
      assert (i, k) in SigSet(p);
    }
  }

  lemma SufficesAtInput(policy: SpendPolicy, p: Psbt, i: nat)
    requires i < |p.inputs|
    ensures SufficesAt(policy, i, SigSet(p)) <==>
      i < |policy.keys| && |p.inputs[i].partialSigs.Keys * policy.keys[i].Keys| >= policy.threshold
  {
    KeysAtInput(p, i);
  }

  lemma FullySignedIffSuffices(policy: SpendPolicy, p: Psbt)
    ensures FullySigned(policy, p) <==> Suffices(policy, |p.inputs|, SigSet(p))
  {
    if FullySigned(policy, p) {
      forall i: nat | i < |p.inputs| ensures SufficesAt(policy, i, SigSet(p)) {
        SufficesAtInput(policy, p, i);
      }
    }
    if !FullySigned(policy, p) {
      var i: nat :| i < |p.inputs|
        && !(i < |policy.keys| && |p.inputs[i].partialSigs.Keys * policy.keys[i].Keys| >= policy.threshold);
      SufficesAtInput(policy, p, i);
    }
  }

  /** The proposal's signatures and those of `ids` together complete it. */
  ghost predicate Complete(db: Db, pid: ProposalId, batch: Batch, ids: set<SignerId>)
    requires pid in db.proposals && ids <= batch.Keys
  {
    var p := db.proposals[pid];
    Suffices(p.policy, |p.psbt.inputs|, SigSet(p.psbt) + SigsOf(batch, ids))
  }

  /** Submissions that complete the proposal leave nothing new in the others. */
  ghost predicate CompletingCarryAll(db: Db, pid: ProposalId, batch: Batch)
    requires pid in db.proposals
  {
    forall ids {:trigger Complete(db, pid, batch, ids)} ::
      ids <= batch.Keys && ids != {} && Complete(db, pid, batch, ids) ==>
        SigsOf(batch, batch.Keys) <= SigSet(db.proposals[pid].psbt) + SigsOf(batch, ids)
  }

  // ----- one order -----

  /** The first submissions of an order, up to one after which `done` holds of them. */
  ghost function Taken(done: set<SignerId> -> bool, order: seq<SignerId>): (taken: set<SignerId>)
    ensures taken <= Members(order) && (order != [] ==> taken != {})
  {
    if order == [] then {}
    else
      var before := Taken(done, order[..|order| - 1]);
      if before != {} && done(before) then before else before + {order[|order| - 1]}
  }

  lemma MembersSnoc(order: seq<SignerId>, s: SignerId)
    ensures Members(order + [s]) == Members(order) + {s} && (order + [s])[..|order|] == order
  {
  }

  lemma {:induction false} TakenAllOrDone(done: set<SignerId> -> bool, order: seq<SignerId>)
    ensures Taken(done, order) == Members(order) || (Taken(done, order) != {} && done(Taken(done, order)))
  {
    if order != [] {
      var init, s := order[..|order| - 1], order[|order| - 1];
      TakenAllOrDone(done, init);
      MembersSnoc(init, s);
      assert order == init + [s];
    }
  }

  /** Nothing is taken after a first part that is enough. */
  lemma {:induction false} TakenFromFirstPart(done: set<SignerId> -> bool, a: seq<SignerId>, b: seq<SignerId>)
    requires a != [] && done(Members(a))
    ensures Taken(done, a + b) <= Members(a)
    decreases |b|
  {
    if b == [] {
      assert a + b == a;
    } else {
      var init := b[..|b| - 1];
      assert (a + b)[..|a + b| - 1] == a + init;
      TakenFromFirstPart(done, a, init);
      TakenAllOrDone(done, a + init);
      assert a[0] in Members(a) && Members(a) <= Members(a + init);
      assert Taken(done, a + init) == Members(a + init) ==> Taken(done, a + init) == Members(a);
    }
  }

  lemma {:induction false} FirstIsTaken(done: set<SignerId> -> bool, order: seq<SignerId>)
    requires order != []
    ensures order[0] in Taken(done, order)
  {
    if |order| > 1 {
      FirstIsTaken(done, order[..|order| - 1]);
    }
  }

  ghost function Completing(db: Db, pid: ProposalId, batch: Batch): set<SignerId> -> bool
    requires pid in db.proposals
  {
    ids => ids <= batch.Keys && Complete(db, pid, batch, ids)
  }

  lemma SigsOfOneMore(batch: Batch, ids: set<SignerId>, s: SignerId)
    requires ids <= batch.Keys && s in batch
    ensures SigsOf(batch, ids + {s}) == SigsOf(batch, ids) + SigSet(batch[s].partial)
  {
  }

  /** After the requests of `order` the proposal carries what `taken` brought. */
  ghost predicate LeftBy(db: Db, pid: ProposalId, batch: Batch, order: seq<SignerId>, taken: set<SignerId>, d: Db)
    requires pid in db.proposals && taken <= batch.Keys
  {
    && pid in d.proposals
    && d.proposals[pid].policy == db.proposals[pid].policy
    && d.proposals[pid].psbt.tx == db.proposals[pid].psbt.tx
    && SigSet(d.proposals[pid].psbt) == SigSet(db.proposals[pid].psbt) + SigsOf(batch, taken)
    && d.proposals[pid].status == (if taken == {} then db.proposals[pid].status
                                   else if Completing(db, pid, batch)(taken) then Finalized else Signing)
    && forall t :: t !in order ==> ((pid, t) in d.signatures <==> (pid, t) in db.signatures)
  }

  lemma CompleteRefuses(d: Db, pid: ProposalId, s: SignerId, partial: Psbt, extracted: Option<RawTx>)
    requires pid in d.proposals && d.proposals[pid].status == Finalized
    ensures SubmitStep(d, pid, s, partial, extracted) == d
  {
  }

  lemma LeftByMore(db: Db, pid: ProposalId, batch: Batch, init: seq<SignerId>, taken: set<SignerId>, s: SignerId, d: Db)
    requires pid in db.proposals && taken <= batch.Keys && LeftBy(db, pid, batch, init, taken, d)
    ensures LeftBy(db, pid, batch, init + [s], taken, d)
  {
    assert forall t :: t !in init + [s] ==> t !in init;
  }

  lemma OneMoreTaken(db: Db, pid: ProposalId, batch: Batch, init: seq<SignerId>, before: set<SignerId>, s: SignerId, d: Db)
    requires pid in db.proposals && before <= batch.Keys && s in batch && s !in init
    requires Acceptable(db, pid, s, batch[s].partial) && LeftBy(db, pid, batch, init, before, d)
    requires before == {} || !Completing(db, pid, batch)(before)
    ensures LeftBy(db, pid, batch, init + [s], before + {s},
                   SubmitStep(d, pid, s, batch[s].partial, batch[s].extracted))
  {
    SubmitEffect(d, pid, s, batch[s].partial, batch[s].extracted);
    SigsOfOneMore(batch, before, s);
    CompletesIffComplete(db, pid, batch, before, s, d);
  }

  /** One request more. */
  lemma NextLeaves(db: Db, pid: ProposalId, batch: Batch, init: seq<SignerId>, s: SignerId, d: Db)
    requires AllAcceptable(db, pid, batch) && Members(init) <= batch.Keys && s in batch && s !in init
    requires LeftBy(db, pid, batch, init, Taken(Completing(db, pid, batch), init), d)
    ensures LeftBy(db, pid, batch, init + [s], Taken(Completing(db, pid, batch), init + [s]),
                   SubmitStep(d, pid, s, batch[s].partial, batch[s].extracted))
  {
    var before := Taken(Completing(db, pid, batch), init);
    MembersSnoc(init, s);
    if before != {} && Completing(db, pid, batch)(before) {
      CompleteRefuses(d, pid, s, batch[s].partial, batch[s].extracted);
      LeftByMore(db, pid, batch, init, before, s, d);
    } else {
      OneMoreTaken(db, pid, batch, init, before, s, d);
    }
  }

  lemma RequestsSnoc(db: Db, pid: ProposalId, init: seq<SignerId>, s: SignerId, batch: Batch)
    requires Members(init) <= batch.Keys && s in batch
    ensures (forall t :: t in init + [s] ==> t in batch)
    ensures Run(db, Requests(pid, init + [s], batch)) ==
      SubmitStep(Run(db, Requests(pid, init, batch)), pid, s, batch[s].partial, batch[s].extracted)
  {
    assert forall t :: t in init ==> t in Members(init);
    assert (init + [s])[..|init|] == init;
    var events, e := Requests(pid, init, batch), SubmitPartial(pid, s, batch[s].partial, batch[s].extracted);
    assert Requests(pid, init + [s], batch) == events + [e];
    assert (events + [e])[..|events|] == events;
  }

  lemma LeavesSnoc(db: Db, pid: ProposalId, batch: Batch, init: seq<SignerId>, s: SignerId)
    requires AllAcceptable(db, pid, batch) && Members(init) <= batch.Keys && s in batch && s !in init
    requires LeftBy(db, pid, batch, init, Taken(Completing(db, pid, batch), init), Run(db, Requests(pid, init, batch)))
    ensures Members(init + [s]) <= batch.Keys
    ensures LeftBy(db, pid, batch, init + [s], Taken(Completing(db, pid, batch), init + [s]),
                   Run(db, Requests(pid, init + [s], batch)))
  {
    RequestsSnoc(db, pid, init, s, batch);
    NextLeaves(db, pid, batch, init, s, Run(db, Requests(pid, init, batch)));
  }

  lemma LastIsNew(order: seq<SignerId>)
    requires order != [] && NoRepeat(order)
    ensures
      var init, s := order[..|order| - 1], order[|order| - 1];
      order == init + [s] && NoRepeat(init) && s !in init && s in Members(order) && Members(init) <= Members(order)
  {
  }

  lemma NothingLeaves(db: Db, pid: ProposalId, batch: Batch)
    requires pid in db.proposals
    ensures LeftBy(db, pid, batch, [], {}, db)
  {
    assert SigsOf(batch, {}) == {};
  }

  lemma {:induction false} OrderLeaves(db: Db, pid: ProposalId, batch: Batch, order: seq<SignerId>)
    requires AllAcceptable(db, pid, batch) && NoRepeat(order) && Members(order) <= batch.Keys
    ensures LeftBy(db, pid, batch, order, Taken(Completing(db, pid, batch), order), Run(db, Requests(pid, order, batch)))
  {
    if order == [] {
      NothingLeaves(db, pid, batch);
    } else {
      LastIsNew(order);
      OrderLeaves(db, pid, batch, order[..|order| - 1]);
      LeavesSnoc(db, pid, batch, order[..|order| - 1], order[|order| - 1]);
    }
  }

  lemma CompletesIffComplete(db: Db, pid: ProposalId, batch: Batch, before: set<SignerId>, s: SignerId, d: Db)
    requires pid in db.proposals && pid in d.proposals && before <= batch.Keys && s in batch
    requires d.proposals[pid].policy == db.proposals[pid].policy
    requires d.proposals[pid].psbt.tx == db.proposals[pid].psbt.tx == batch[s].partial.tx
    requires SigSet(d.proposals[pid].psbt) == SigSet(db.proposals[pid].psbt) + SigsOf(batch, before)
    ensures Completes(d, pid, batch[s].partial) <==> Complete(db, pid, batch, before + {s})
  {
    var p := d.proposals[pid];
    CombineUnion(p.psbt, batch[s].partial);
    FullySignedIffSuffices(p.policy, Combine(p.psbt, batch[s].partial).value);
    SigsOfOneMore(batch, before, s);
    assert SigSet(Combine(p.psbt, batch[s].partial).value) ==
      SigSet(db.proposals[pid].psbt) + SigsOf(batch, before + {s});
  }

  // ----- every order -----

  lemma {:induction false} SomeOrdering(ids: set<SignerId>) returns (order: seq<SignerId>)
    ensures Ordering(order, ids)
    decreases ids
  {
    if ids == {} {
      order := [];
    } else {
      var s :| s in ids;
      var rest := SomeOrdering(ids - {s});
      order := rest + [s];
      MembersSnoc(rest, s);
      assert s !in Members(rest);
    }
  }

  /** Some order starts with these. */
  lemma OrderingFrom(first: set<SignerId>, ids: set<SignerId>) returns (a: seq<SignerId>, b: seq<SignerId>)
    requires first <= ids
    ensures Members(a) == first && Ordering(a + b, ids)
  {
    a := SomeOrdering(first);
    b := SomeOrdering(ids - first);
    assert Members(a + b) == Members(a) + Members(b);
    assert forall i, j :: 0 <= i < |a| && 0 <= j < |b| ==> a[i] in Members(a) && b[j] in Members(b);
  }

  lemma OrderMerges(db: Db, pid: ProposalId, batch: Batch, order: seq<SignerId>)
    requires AllAcceptable(db, pid, batch) && Ordering(order, batch.Keys)
    ensures MergedBy(db, pid, Requests(pid, order, batch)) ==
      SigSet(db.proposals[pid].psbt) + SigsOf(batch, Taken(Completing(db, pid, batch), order))
  {
    OrderLeaves(db, pid, batch, order);
  }

  /** Any number of submissions, each acceptable by itself: all orders leave the same merged
      signatures if and only if every choice of them that completes the proposal leaves nothing
      new in the others. */
  lemma ManyArrivalsCommuteIff(db: Db, pid: ProposalId, batch: Batch)
    requires AllAcceptable(db, pid, batch)
    ensures OrdersAgree(db, pid, batch) <==> CompletingCarryAll(db, pid, batch)
  {
    if CompletingCarryAll(db, pid, batch) {
      forall a, b | Ordering(a, batch.Keys) && Ordering(b, batch.Keys)
        ensures MergedBy(db, pid, Requests(pid, a, batch)) == MergedBy(db, pid, Requests(pid, b, batch))
      {
        CarriersMergeAll(db, pid, batch, a);
        CarriersMergeAll(db, pid, batch, b);
      }
    }
    if OrdersAgree(db, pid, batch) {
      forall ids | ids <= batch.Keys && ids != {} && Complete(db, pid, batch, ids)
        ensures SigsOf(batch, batch.Keys) <= SigSet(db.proposals[pid].psbt) + SigsOf(batch, ids)
      {
        forall s | s in batch ensures SigSet(batch[s].partial) <= SigSet(db.proposals[pid].psbt) + SigsOf(batch, ids) {
          AgreementCarries(db, pid, batch, ids, s);
        }
      }
    }
  }

  lemma CarriersMergeAll(db: Db, pid: ProposalId, batch: Batch, order: seq<SignerId>)
    requires AllAcceptable(db, pid, batch) && CompletingCarryAll(db, pid, batch) && Ordering(order, batch.Keys)
    ensures MergedBy(db, pid, Requests(pid, order, batch)) ==
      SigSet(db.proposals[pid].psbt) + SigsOf(batch, batch.Keys)
  {
    var taken := Taken(Completing(db, pid, batch), order);
    OrderMerges(db, pid, batch, order);
    TakenAllOrDone(Completing(db, pid, batch), order);
    assert SigsOf(batch, taken) <= SigsOf(batch, batch.Keys);
  }

  lemma AgreementCarries(db: Db, pid: ProposalId, batch: Batch, ids: set<SignerId>, s: SignerId)
    requires AllAcceptable(db, pid, batch) && OrdersAgree(db, pid, batch) && s in batch
    requires ids <= batch.Keys && ids != {} && Complete(db, pid, batch, ids)
    ensures SigSet(batch[s].partial) <= SigSet(db.proposals[pid].psbt) + SigsOf(batch, ids)
  {
    var a, b := OrderingFrom(ids, batch.Keys);
    var c, d := OrderingFrom({s}, batch.Keys);
    BoundedBy(db, pid, batch, a, b);
    StartsWith(db, pid, batch, s, c, d);
    assert MergedBy(db, pid, Requests(pid, a + b, batch)) == MergedBy(db, pid, Requests(pid, c + d, batch));
  }

  lemma BoundedBy(db: Db, pid: ProposalId, batch: Batch, a: seq<SignerId>, b: seq<SignerId>)
    requires AllAcceptable(db, pid, batch) && Ordering(a + b, batch.Keys) && Members(a) <= batch.Keys
    requires a != [] && Complete(db, pid, batch, Members(a))
    ensures MergedBy(db, pid, Requests(pid, a + b, batch)) <= SigSet(db.proposals[pid].psbt) + SigsOf(batch, Members(a))
  {
    OrderMerges(db, pid, batch, a + b);
    TakenFromFirstPart(Completing(db, pid, batch), a, b);
  }

  lemma StartsWith(db: Db, pid: ProposalId, batch: Batch, s: SignerId, c: seq<SignerId>, d: seq<SignerId>)
    requires AllAcceptable(db, pid, batch) && Ordering(c + d, batch.Keys) && Members(c) == {s} && s in batch
    ensures SigSet(batch[s].partial) <= MergedBy(db, pid, Requests(pid, c + d, batch))
  {
    OrderMerges(db, pid, batch, c + d);
    FirstIsTaken(Completing(db, pid, batch), c + d);
    assert c != [] && c[0] in Members(c) && (c + d)[0] == s;
  }
}
