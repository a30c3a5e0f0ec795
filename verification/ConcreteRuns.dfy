/** Runs of a few requests that show what the exact conditions rule out. */
module ConcreteRuns {
  import opened Wrappers
  import opened Primitives
  import opened Psbts
  import opened Schema
  import opened Transitions
  import opened Steps
  import opened LineageTheorems
  import opened ReconcileTheorems
  import opened SigningTheorems
  import opened DualSweeps
  import opened RequestEffects
  import opened SignatureValues

  // ----- the transaction: one input, two descriptor keys, threshold one -----

  const KEY: Pubkey := [1]
  const OTHER: Pubkey := [2]
  const TX := UnsignedTx([OutPoint(0, 0)], 1)
  const UNSIGNED: Psbt := PsbtData(TX, [PsbtInput(map[], map[])])
  const POLICY := SpendPolicy(1, [map[KEY := 7, OTHER := 8]])
  const DRAFT: BuiltTx := BuiltData.BuiltTx(UNSIGNED, POLICY)

  function SigBy(k: Pubkey): Signature {
    if k == KEY then 71 else 72
  }

  function SignedWith(k: Pubkey): Psbt {
    PsbtData(TX, [PsbtInput(map[], map[k := SigBy(k)])])
  }

  lemma OneSignatureCombines(k: Pubkey)
    requires k == KEY || k == OTHER
    ensures Combine(UNSIGNED, SignedWith(k)) == Ok(SignedWith(k)) && FullySigned(POLICY, SignedWith(k))
  {
    var merged := Combine(UNSIGNED, SignedWith(k)).value;
    assert merged.inputs[0] == CombineInput(PsbtInput(map[], map[]), PsbtInput(map[], map[k := SigBy(k)]));
    assert map[] + map[k := SigBy(k)] == map[k := SigBy(k)];
    assert merged.inputs == SignedWith(k).inputs;
    assert map[k := SigBy(k)].Keys * map[KEY := 7, OTHER := 8].Keys == {k};
  }

  lemma RunOf(events: seq<Event>, e: Event, db: Db, d: Db)
    requires Run(EMPTY, events) == db && Step(db, e) == d
    ensures Run(EMPTY, events + [e]) == d
  {
    RunSnoc(events, e);
  }

  // ----- two txids -----

  function Zeros(n: nat): (s: string)
    ensures |s| == n && forall i :: 0 <= i < n ==> s[i] == '0'
  {
    if n == 0 then "" else Zeros(n - 1) + ['0']
  }

  const FIRST := Zeros(63) + ['0']
  const SECOND := Zeros(63) + ['1']

  lemma {:induction false} ZerosAreZero(n: nat)
    ensures forall c :: c in Zeros(n) ==> c == '0'
    ensures HexValue(Zeros(n)) == 0
  {
    if n > 0 {
      ZerosAreZero(n - 1);
      assert Zeros(n)[..n - 1] == Zeros(n - 1);
    }
  }

  lemma TxidsParse()
    ensures ParseTxid(FIRST) == Some(0) && ParseTxid(SECOND) == Some(1)
  {
    ZerosAreZero(63);
    assert FIRST[..63] == Zeros(63) == SECOND[..63];
    assert forall c :: c in FIRST ==> c == '0';
    assert forall c :: c in SECOND ==> c == '0' || c == '1';
  }

  // ----- a migration with two sweeps -----

  function Sweep(status: ProposalStatus, psbt: Psbt, hex: Option<string>, txid: Option<string>): ProposalRow {
    ProposalRow(0, MigrationSweep, Some(0), Some(1), POLICY, psbt, status, hex, txid)
  }

  const BASE := FreshVersion(0, 0, None, Active)
  const NEXT := FreshVersion(0, 1, Some(0), Pending)
  const BEGUN := MigrationRow(0, 0, Some(1), Proposed)
  const FRESH := Sweep(Open, UNSIGNED, None, None)

  function Ready(txid: string): ProposalRow {
    Sweep(Finalized, SignedWith(KEY), Some(""), Some(txid))
  }

  function Sent(txid: string): ProposalRow {
    Ready(txid).(status := Broadcast)
  }

  lemma CreateStep()
    ensures Step(EMPTY, CreateFederation(0)) == EMPTY.(versions := map[0 := BASE])
  {
  }

  /** One signature completes an open proposal. */
  lemma SignRow(db: Db, pid: ProposalId, p: ProposalRow, txid: string)
    requires pid in db.proposals && db.proposals[pid] == p && (pid, 0) !in db.signatures
    requires p.policy == POLICY && p.psbt == UNSIGNED && p.status == Open
    ensures Step(db, SubmitPartial(pid, 0, SignedWith(KEY), Some(RawTx("", txid)))) ==
      db.(proposals := db.proposals[pid :=
            p.(psbt := SignedWith(KEY), status := Finalized, finalizedTx := Some(""), txid := Some(txid))],
          signatures := db.signatures[(pid, 0) := SignedWith(KEY)])
  {
    OneSignatureCombines(KEY);
  }

  lemma SignStep(db: Db, pid: ProposalId, txid: string)
    requires pid in db.proposals && db.proposals[pid] == FRESH && (pid, 0) !in db.signatures
    ensures Step(db, SubmitPartial(pid, 0, SignedWith(KEY), Some(RawTx("", txid)))) ==
      db.(proposals := db.proposals[pid := Ready(txid)], signatures := db.signatures[(pid, 0) := SignedWith(KEY)])
  {
    SignRow(db, pid, FRESH, txid);
  }

  const ENACTED := Db(
    map[0 := BASE.(status := Superseded, sweepStatus := Complete, sweepTxid := Some(FIRST)), 1 := NEXT.(status := Active)],
    map[0 := BEGUN.(status := Enacted)], map[], map[])

  /** The first broadcast flips the versions and records its txid. */
  lemma FlipStep(db: Db, pid: ProposalId)
    requires db.versions == map[0 := BASE, 1 := NEXT] && db.migrations == map[0 := BEGUN]
    requires pid in db.proposals && db.proposals[pid] == Ready(FIRST)
    ensures Step(db, BroadcastProposal(pid, Some(FIRST))) ==
      db.(versions := ENACTED.versions, migrations := ENACTED.migrations, proposals := db.proposals[pid := Sent(FIRST)])
  {
    BroadcastEffect(db, pid, Some(FIRST));
    var d := Step(db, BroadcastProposal(pid, Some(FIRST)));
    assert d.versions == ENACTED.versions;
    assert d.migrations == ENACTED.migrations;
  }

  /** A later one marks its proposal and nothing else. */
  lemma LateStep(db: Db, pid: ProposalId)
    requires db.migrations == ENACTED.migrations && pid in db.proposals && db.proposals[pid] == Ready(SECOND)
    ensures Step(db, BroadcastProposal(pid, Some(SECOND))) == db.(proposals := db.proposals[pid := Sent(SECOND)])
  {
    BroadcastEffect(db, pid, Some(SECOND));
  }

  /** A pass that does not see the first sweep confirmed changes nothing. */
  lemma BlindPass(db: Db, confirmed: map<Txid, nat>)
    requires db.versions == ENACTED.versions && 0 !in confirmed
    ensures Step(db, SyncLineage(0, [confirmed])) == db
  {
    TxidsParse();
    assert ConfirmedUnion([confirmed]) == confirmed by {
      assert [confirmed][1..] == [];
    }
    assert ReconcileRows(db.versions, 0, confirmed) == db.versions;
  }

  const DUAL_OPENED: seq<Event> := [CreateFederation(0), MigrateDual(0, 0, 1, Built(0, DRAFT), Built(1, DRAFT))]

  /** Both sweeps are signed, the first one first. */
  const DUAL_SIGNED: seq<Event> := DUAL_OPENED
    + [SubmitPartial(0, 0, SignedWith(KEY), Some(RawTx("", FIRST)))]
    + [SubmitPartial(1, 0, SignedWith(KEY), Some(RawTx("", SECOND)))]

  /** And both are broadcast. */
  const DUAL_SENT: seq<Event> := DUAL_SIGNED + [BroadcastProposal(0, Some(FIRST))] + [BroadcastProposal(1, Some(SECOND))]

  const DUAL_ARCHIVE: map<(ProposalId, SignerId), Psbt> := map[(0, 0) := SignedWith(KEY), (1, 0) := SignedWith(KEY)]

  lemma DualOpened()
    ensures Run(EMPTY, DUAL_OPENED) ==
      Db(map[0 := BASE, 1 := NEXT], map[0 := BEGUN], map[0 := FRESH, 1 := FRESH], map[])
  {
    CreateStep();
    var d1 := EMPTY.(versions := map[0 := BASE]);
    var begun := Db(map[0 := BASE, 1 := NEXT], map[0 := BEGUN], map[], map[]);
    RunOf([], CreateFederation(0), EMPTY, d1);
    assert [] + [CreateFederation(0)] == [CreateFederation(0)];
    assert MayMigrate(d1, 0) && !HasInFlight(d1, 0) && !IndexTaken(d1, 0, 1);
    assert OpenMigration(d1, 0, 0, 1) == Ok(begun);
    RunOf([CreateFederation(0)], DUAL_OPENED[1], d1, Step(d1, DUAL_OPENED[1]));
    assert [CreateFederation(0)] + [DUAL_OPENED[1]] == DUAL_OPENED;
  }

  lemma DualSigned()
    ensures Run(EMPTY, DUAL_SIGNED) ==
      Db(map[0 := BASE, 1 := NEXT], map[0 := BEGUN], map[0 := Ready(FIRST), 1 := Ready(SECOND)], DUAL_ARCHIVE)
  {
    var e, f := SubmitPartial(0, 0, SignedWith(KEY), Some(RawTx("", FIRST))),
                SubmitPartial(1, 0, SignedWith(KEY), Some(RawTx("", SECOND)));
    DualOpened();
    var d2 := Run(EMPTY, DUAL_OPENED);
    SignStep(d2, 0, FIRST);
    var d3 := d2.(proposals := d2.proposals[0 := Ready(FIRST)], signatures := map[(0, 0) := SignedWith(KEY)]);
    RunOf(DUAL_OPENED, e, d2, d3);
    SignStep(d3, 1, SECOND);
    RunOf(DUAL_OPENED + [e], f, d3, Step(d3, f));
  }

  lemma DualSent()
    ensures Run(EMPTY, DUAL_SENT) ==
      Db(ENACTED.versions, ENACTED.migrations, map[0 := Sent(FIRST), 1 := Sent(SECOND)], DUAL_ARCHIVE)
  {
    var e, f := BroadcastProposal(0, Some(FIRST)), BroadcastProposal(1, Some(SECOND));
    DualSigned();
    var d4 := Run(EMPTY, DUAL_SIGNED);
    FlipStep(d4, 0);
    var d5 := Db(ENACTED.versions, ENACTED.migrations, map[0 := Sent(FIRST), 1 := Ready(SECOND)], DUAL_ARCHIVE);
    RunOf(DUAL_SIGNED, e, d4, d5);
    LateStep(d5, 1);
    RunOf(DUAL_SIGNED + [e], f, d5, Step(d5, f));
  }

  /** Both sweeps of a dual-chain migration are broadcast; the second is seen confirmed at height
      100, then gone. A pass over the first would revert on this history, but the base stays
      complete with the first sweep's txid: nothing notices the loss of the second. */
  lemma SecondSweepReorgIsMissed()
    ensures
      var passes := [SyncLineage(0, [map[1 := 100]]), SyncLineage(0, [map[]])];
      var sent, end := Run(EMPTY, DUAL_SENT), Run(EMPTY, DUAL_SENT + passes);
      && sent == Db(ENACTED.versions, ENACTED.migrations, map[0 := Sent(FIRST), 1 := Sent(SECOND)], DUAL_ARCHIVE)
      && ParseTxid(SECOND) == Some(1) && ConfirmationLost(Sightings(0, 1, passes))
      && end == sent
      && ENACTED.versions[0].sweepStatus == Complete && ENACTED.versions[0].sweepTxid == Some(FIRST)
  {
    var one, two := SyncLineage(0, [map[1 := 100]]), SyncLineage(0, [map[]]);
    DualSent();
    TxidsParse();
    var sent := Run(EMPTY, DUAL_SENT);
    BlindPass(sent, map[1 := 100]);
    BlindPass(sent, map[]);
    RunOf(DUAL_SENT, one, sent, sent);
    RunOf(DUAL_SENT + [one], two, sent, sent);
    assert DUAL_SENT + [one] + [two] == DUAL_SENT + [one, two];
    SightingsOfTwo(0, 1, [map[1 := 100]], [map[]]);
    UnionOfOne(map[1 := 100]);
    UnionOfOne(map[]);
    var seen := Sightings(0, 1, [one, two]);
    assert seen[0].Some? && seen[1].None?;
  }

  lemma UnionOfOne(w: map<Txid, nat>)
    ensures ConfirmedUnion([w]) == w
  {
    assert [w][1..] == [];
  }

  lemma SightingsOfTwo(lineage: VersionId, t: Txid, a: seq<map<Txid, nat>>, b: seq<map<Txid, nat>>)
    ensures Sightings(lineage, t, [SyncLineage(lineage, a), SyncLineage(lineage, b)]) ==
      Sighting(lineage, t, SyncLineage(lineage, a)) + Sighting(lineage, t, SyncLineage(lineage, b))
  {
    var x, y := SyncLineage(lineage, a), SyncLineage(lineage, b);
    assert [x, y][..1] == [x] && [x][..0] == [];
    assert Sightings(lineage, t, [x]) == [] + Sighting(lineage, t, x);
  }

  // ----- a cancel after the flip -----

  const SINGLE_OPENED: seq<Event> := [CreateFederation(0), Migrate(0, 0, 1, 0, DRAFT)]

  lemma SingleOpened()
    ensures Run(EMPTY, SINGLE_OPENED) == Db(map[0 := BASE, 1 := NEXT], map[0 := BEGUN], map[0 := FRESH], map[])
  {
    CreateStep();
    var d1 := EMPTY.(versions := map[0 := BASE]);
    RunOf([], CreateFederation(0), EMPTY, d1);
    assert [] + [CreateFederation(0)] == [CreateFederation(0)];
    assert MayMigrate(d1, 0) && !HasInFlight(d1, 0) && !IndexTaken(d1, 0, 1);
    assert OpenMigration(d1, 0, 0, 1) == Ok(Db(map[0 := BASE, 1 := NEXT], map[0 := BEGUN], map[], map[]));
    RunOf([CreateFederation(0)], SINGLE_OPENED[1], d1, Step(d1, SINGLE_OPENED[1]));
    assert [CreateFederation(0)] + [SINGLE_OPENED[1]] == SINGLE_OPENED;
  }

  const SINGLE_SENT: seq<Event> := SINGLE_OPENED
    + [SubmitPartial(0, 0, SignedWith(KEY), Some(RawTx("", FIRST)))] + [BroadcastProposal(0, Some(FIRST))]

  /** The sweep is sent, seen confirmed at height 100 and lost again. */
  const REVERTED: seq<Event> := SINGLE_SENT + [SyncLineage(0, [map[0 := 100]])] + [SyncLineage(0, [map[]])]

  const LATCHED_VERSIONS := map[0 := ENACTED.versions[0].(sweepHeight := Some(100)), 1 := NEXT.(status := Active)]
  const REVERTED_VERSIONS := map[0 := BASE.(status := Superseded, sweepStatus := SweepPending), 1 := NEXT.(status := Active)]

  /** One pass over two versions of which only the first has a recorded sweep. */
  lemma PassOverTwo(db: Db, confirmed: map<Txid, nat>, r: VersionRow, s: VersionRow, next: VersionRow)
    requires db.versions == map[0 := r, 1 := next]
    requires r.lineage == 0 && next.lineage == 0 && next.sweepStatus != Complete
    requires Observe(r, SeenHeight(r, confirmed)) == s
    ensures Step(db, SyncLineage(0, [confirmed])) == db.(versions := map[0 := s, 1 := next])
  {
    UnionOfOne(confirmed);
    assert ReconcileRows(db.versions, 0, confirmed) == map[0 := s, 1 := next];
  }

  lemma SeenRow(r: VersionRow)
    requires r.sweepStatus == Complete && r.sweepTxid == Some(FIRST) && r.sweepHeight == None
    ensures Observe(r, SeenHeight(r, map[0 := 100])) == r.(sweepHeight := Some(100))
  {
    TxidsParse();
  }

  lemma LostRow(r: VersionRow)
    requires r.sweepStatus == Complete && r.sweepTxid == Some(FIRST) && r.sweepHeight.Some?
    ensures Observe(r, SeenHeight(r, map[])) == r.(sweepStatus := SweepPending, sweepTxid := None, sweepHeight := None)
  {
    TxidsParse();
  }

  lemma SeenPass(db: Db)
    requires db.versions == ENACTED.versions
    ensures Step(db, SyncLineage(0, [map[0 := 100]])) == db.(versions := LATCHED_VERSIONS)
  {
    SeenRow(ENACTED.versions[0]);
    PassOverTwo(db, map[0 := 100], ENACTED.versions[0], LATCHED_VERSIONS[0], ENACTED.versions[1]);
  }

  lemma LostPass(db: Db)
    requires db.versions == LATCHED_VERSIONS
    ensures Step(db, SyncLineage(0, [map[]])) == db.(versions := REVERTED_VERSIONS)
  {
    LostRow(LATCHED_VERSIONS[0]);
    PassOverTwo(db, map[], LATCHED_VERSIONS[0], REVERTED_VERSIONS[0], LATCHED_VERSIONS[1]);
  }

  lemma SingleSent()
    ensures Run(EMPTY, SINGLE_SENT) ==
      Db(ENACTED.versions, ENACTED.migrations, map[0 := Sent(FIRST)], map[(0, 0) := SignedWith(KEY)])
  {
    var e, f := SubmitPartial(0, 0, SignedWith(KEY), Some(RawTx("", FIRST))), BroadcastProposal(0, Some(FIRST));
    SingleOpened();
    var d2 := Run(EMPTY, SINGLE_OPENED);
    SignStep(d2, 0, FIRST);
    var d3 := d2.(proposals := map[0 := Ready(FIRST)], signatures := map[(0, 0) := SignedWith(KEY)]);
    RunOf(SINGLE_OPENED, e, d2, d3);
    FlipStep(d3, 0);
    RunOf(SINGLE_OPENED + [e], f, d3, Step(d3, f));
  }

  lemma RevertedState()
    ensures Run(EMPTY, REVERTED) ==
      Db(REVERTED_VERSIONS, ENACTED.migrations, map[0 := Sent(FIRST)], map[(0, 0) := SignedWith(KEY)])
  {
    var e, f := SyncLineage(0, [map[0 := 100]]), SyncLineage(0, [map[]]);
    SingleSent();
    var d4 := Run(EMPTY, SINGLE_SENT);
    var d5 := d4.(versions := LATCHED_VERSIONS);
    SeenPass(d4);
    RunOf(SINGLE_SENT, e, d4, d5);
    LostPass(d5);
    RunOf(SINGLE_SENT + [e], f, d5, d5.(versions := REVERTED_VERSIONS));
  }

  /** After the reorg the base can be re-swept. One cancel of the enacted migration later it is
      still reverted, and can not. */
  lemma LateCancelStrandsTheBase()
    ensures MayResweep(Run(EMPTY, REVERTED), 0, 0, 1)
    ensures var d := Run(EMPTY, REVERTED + [CancelMigrationOf(0)]);
      && 0 in d.versions && d.versions[0].sweepStatus == SweepPending
      && 0 in d.migrations && d.migrations[0].status == Cancelled
      && forall m, c :: !MayResweep(d, 0, m, c)
  {
    RevertedState();
    RunSnoc(REVERTED, CancelMigrationOf(0));
  }

  // ----- a re-sweep after the reorg -----

  const AGAIN := ProposalRow(0, Resweep, Some(0), Some(1), POLICY, UNSIGNED, Open, None, None)

  /** The reverted base is swept again and the re-sweep signed. */
  const RESWEEP_SIGNED: seq<Event> := REVERTED + [ProposeResweep(0, 0, 1, 1, DRAFT)]
    + [SubmitPartial(1, 0, SignedWith(KEY), Some(RawTx("", SECOND)))]

  lemma ProposeAgain(db: Db)
    requires db.versions == REVERTED_VERSIONS && db.migrations == ENACTED.migrations && 1 !in db.proposals
    ensures Step(db, ProposeResweep(0, 0, 1, 1, DRAFT)) == db.(proposals := db.proposals[1 := AGAIN])
  {
    ProposalsByColumns(db, 1, 0, 0, 1, DRAFT);
  }

  lemma ResweepSigned()
    ensures
      var db := Run(EMPTY, RESWEEP_SIGNED);
      && db.versions == REVERTED_VERSIONS && 1 in db.proposals
      && db.proposals[1] == AGAIN.(psbt := SignedWith(KEY), status := Finalized, finalizedTx := Some(""), txid := Some(SECOND))
  {
    var e, f := ProposeResweep(0, 0, 1, 1, DRAFT), SubmitPartial(1, 0, SignedWith(KEY), Some(RawTx("", SECOND)));
    RevertedState();
    var d6 := Run(EMPTY, REVERTED);
    var d7 := d6.(proposals := d6.proposals[1 := AGAIN]);
    ProposeAgain(d6);
    RunOf(REVERTED, e, d6, d7);
    SignRow(d7, 1, AGAIN, SECOND);
    RunOf(REVERTED + [e], f, d7, Step(d7, f));
  }

  /** Its broadcast completes the base again, with the re-sweep's txid and no height. */
  lemma ResweepEndsComplete()
    ensures var d := Run(EMPTY, RESWEEP_SIGNED + [BroadcastProposal(1, Some(SECOND))]);
      && 0 in d.versions && d.versions[0].sweepStatus == Complete
      && d.versions[0].sweepTxid == Some(SECOND) && d.versions[0].sweepHeight == None
      && 1 in d.versions && d.versions[1].status == Active
      && SECOND != FIRST
  {
    ResweepSigned();
    RunSnoc(RESWEEP_SIGNED, BroadcastProposal(1, Some(SECOND)));
    ResweepCompletes(RESWEEP_SIGNED, 1, Some(SECOND));
    TxidsParse();
  }

  // ----- two submissions, two orders -----

  const SEND_OPENED: seq<Event> := [CreateFederation(0), ProposeSend(0, 0, DRAFT)]
  const SEND := ProposalRow(0, Send, None, None, POLICY, UNSIGNED, Open, None, None)

  lemma SendOpened()
    ensures Run(EMPTY, SEND_OPENED) == EMPTY.(versions := map[0 := BASE], proposals := map[0 := SEND])
  {
    CreateStep();
    var d1 := EMPTY.(versions := map[0 := BASE]);
    RunOf([], CreateFederation(0), EMPTY, d1);
    assert [] + [CreateFederation(0)] == [CreateFederation(0)];
    RunOf([CreateFederation(0)], SEND_OPENED[1], d1, Step(d1, SEND_OPENED[1]));
    assert [CreateFederation(0)] + [SEND_OPENED[1]] == SEND_OPENED;
  }

  /** Two cosigners of a proposal with threshold one: each submission is acceptable, each one
      completes the proposal, and whichever comes second is not merged. */
  lemma OrderDecidesSignatures()
    ensures Acceptable(Run(EMPTY, SEND_OPENED), 0, 0, SignedWith(KEY))
    ensures Acceptable(Run(EMPTY, SEND_OPENED), 0, 1, SignedWith(OTHER))
    ensures MergedIs(SEND_OPENED + [Submits(0, KEY), Submits(1, OTHER)], {(0, KEY)})
    ensures MergedIs(SEND_OPENED + [Submits(1, OTHER), Submits(0, KEY)], {(0, OTHER)})
  {
    SendOpened();
    FirstComes(SEND_OPENED, 0, KEY, 1, OTHER);
    FirstComes(SEND_OPENED, 1, OTHER, 0, KEY);
  }

  const RAW := Some(RawTx("", FIRST))

  /** Proposal 0 has exactly these signatures. */
  ghost predicate MergedBy(db: Db, signed: set<(nat, Pubkey)>) {
    0 in db.proposals && SigSet(db.proposals[0].psbt) == signed
  }

  ghost predicate MergedIs(events: seq<Event>, signed: set<(nat, Pubkey)>) {
    MergedBy(Run(EMPTY, events), signed)
  }

  function Submits(s: SignerId, k: Pubkey): Event {
    SubmitPartial(0, s, SignedWith(k), RAW)
  }

  lemma FirstComes(events: seq<Event>, s: SignerId, a: Pubkey, t: SignerId, b: Pubkey)
    requires Run(EMPTY, events).proposals == map[0 := SEND] && Run(EMPTY, events).signatures == map[]
    requires s != t && a in {KEY, OTHER} && b in {KEY, OTHER}
    ensures MergedIs(events + [Submits(s, a), Submits(t, b)], {(0, a)})
  {
    FirstWins(Run(EMPTY, events), s, a, t, b);
    MergedAfterTwo(events, Submits(s, a), Submits(t, b), {(0, a)});
  }

  lemma MergedAfterTwo(events: seq<Event>, e: Event, f: Event, signed: set<(nat, Pubkey)>)
    requires MergedBy(Step(Step(Run(EMPTY, events), e), f), signed)
    ensures MergedIs(events + [e, f], signed)
  {
    RunSnoc(events, e);
    RunSnoc(events + [e], f);
    assert events + [e] + [f] == events + [e, f];
  }

  lemma SubmitsStep(db: Db, s: SignerId, k: Pubkey)
    ensures Step(db, Submits(s, k)) == SubmitStep(db, 0, s, SignedWith(k), RAW)
  {
  }

  /** Either key alone is acceptable and completes the proposal. */
  lemma SubmitsCompletes(db: Db, s: SignerId, k: Pubkey)
    requires db.proposals == map[0 := SEND] && db.signatures == map[] && k in {KEY, OTHER}
    ensures Acceptable(db, 0, s, SignedWith(k)) && Completes(db, 0, SignedWith(k))
    ensures SigSet(db.proposals[0].psbt) == {} && SigSet(SignedWith(k)) == {(0, k)}
  {
    OneSignatureCombines(k);
    SignedSet(k);
  }

  lemma FirstWins(db: Db, s: SignerId, a: Pubkey, t: SignerId, b: Pubkey)
    requires db.proposals == map[0 := SEND] && db.signatures == map[]
    requires s != t && a in {KEY, OTHER} && b in {KEY, OTHER}
    ensures MergedBy(Step(Step(db, Submits(s, a)), Submits(t, b)), {(0, a)})
  {
    SubmitsCompletes(db, s, a);
    SubmitsCompletes(db, t, b);
    SubmitsStep(db, s, a);
    SubmitsStep(Step(db, Submits(s, a)), t, b);
    FirstOfTwo(db, s, SignedWith(a), t, SignedWith(b));
  }

  lemma FirstOfTwo(db: Db, s: SignerId, a: Psbt, t: SignerId, b: Psbt)
    requires s != t && Acceptable(db, 0, s, a) && Acceptable(db, 0, t, b) && Completes(db, 0, a)
    requires SigSet(db.proposals[0].psbt) == {}
    ensures MergedBy(SubmitStep(SubmitStep(db, 0, s, a, RAW), 0, t, b, RAW), SigSet(a))
  {
    TwoArrivals(db, 0, s, a, t, b, RAW, RAW);
  }

  lemma SignedSet(k: Pubkey)
    ensures SigSet(SignedWith(k)) == {(0, k)} && SigSet(UNSIGNED) == {}
  {
  }

  // ----- an origin that does not stay -----

  const HERE := KeyOrigin(7, [48])
  const THERE := KeyOrigin(7, [49])

  /** The transaction unsigned, with one origin named for its key. */
  function Named(o: KeyOrigin): Psbt {
    PsbtData(TX, [PsbtInput(map[KEY := o], map[])])
  }

  const NAMED_OPENED: seq<Event> := [CreateFederation(0), ProposeSend(0, 0, BuiltData.BuiltTx(Named(HERE), POLICY))]

  lemma NamedOpened()
    ensures var d := Run(EMPTY, NAMED_OPENED);
      && 0 in d.proposals && d.proposals[0].psbt == Named(HERE)
      && d.proposals[0].status == Open && (0, 0) !in d.signatures
  {
    var draft := BuiltData.BuiltTx(Named(HERE), POLICY);
    CreateStep();
    var d1 := EMPTY.(versions := map[0 := BASE]);
    RunOf([], CreateFederation(0), EMPTY, d1);
    assert [] + [CreateFederation(0)] == [CreateFederation(0)];
    RunOf([CreateFederation(0)], NAMED_OPENED[1], d1, Step(d1, NAMED_OPENED[1]));
    assert [CreateFederation(0)] + [NAMED_OPENED[1]] == NAMED_OPENED;
    ProposalsByColumns(d1, 0, 0, 0, 0, draft);
  }

  /** A contribution that names another origin for a key replaces the one of the draft. */
  lemma ContributionRenamesOrigin()
    ensures var d := Run(EMPTY, NAMED_OPENED);
      0 in d.proposals && OriginAt(d.proposals[0].psbt, 0, KEY) == Some(HERE)
    ensures var d := Run(EMPTY, NAMED_OPENED + [SubmitPartial(0, 0, Named(THERE), None)]);
      0 in d.proposals && OriginAt(d.proposals[0].psbt, 0, KEY) == Some(THERE)
  {
    NamedOpened();
    var db := Run(EMPTY, NAMED_OPENED);
    RunSnoc(NAMED_OPENED, SubmitPartial(0, 0, Named(THERE), None));
    SubmissionByColumns(db, 0, 0, Named(THERE), None);
    assert OriginAt(Named(THERE), 0, KEY) == Some(THERE);
  }
}
