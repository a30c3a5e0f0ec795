/** The signing request handed to a Trezor: per input the cosigner keys in script order, the
    slot of the signing device in that list, and the previous transactions to reference. */
module TrezorRequest {
  import opened Wrappers
  import opened Primitives
  import opened Psbts
  import opened Bip67

  type Xpub = nat

  datatype Cosigner = Cosigner(xpub: Xpub, fingerprint: Fingerprint)

  /** `MultisigPubkeyEntry`: the derived key, and the node it was derived from. */
  datatype Entry = Entry(sortKey: Pubkey, node: Xpub)

  /** The `multisig` field: the key list, the suffix below each account key, and the threshold. */
  datatype Multisig = Multisig(pubkeys: seq<Xpub>, suffix: seq<nat>, m: nat)

  datatype TrezorInput = TrezorInput(addressN: seq<nat>, prev: OutPoint, amount: nat, multisig: Multisig, sequence: nat)

  datatype TrezorOutput =
    | External(script: nat, amount: nat)
    | Change(addressN: seq<nat>, amount: nat, multisig: Multisig)

  datatype SignRequest = SignRequest(inputs: seq<TrezorInput>, outputs: seq<TrezorOutput>,
                                     refTxids: seq<nat>, version: nat, lockTime: nat, signerSlots: seq<nat>)

  /** What the request reads of a proposal beside its inputs' keys: the value of every funding
      output the PSBT knows, the sequence numbers, the outputs with their key origins, and the
      version and lock time of the transaction. */
  datatype PsbtOutput = PsbtOutput(script: nat, amount: nat, origins: map<Pubkey, KeyOrigin>)

  datatype Envelope = Envelope(psbt: Psbt, funded: seq<Option<nat>>, sequences: seq<nat>, outputs: seq<PsbtOutput>,
                               version: int, lockTime: nat)

  /** One funding entry and one sequence number per input, as in any parsed PSBT. */
  predicate Shaped(e: Envelope) {
    |e.funded| == |e.sequences| == |e.psbt.inputs|
  }

  /** `u32::try_from(version).unwrap_or(2)`. */
  function SentVersion(version: int): nat {
    if version < 0 then 2 else version
  }

  /** The threshold is sent as 32 bits. */
  function ClampU32(n: nat): nat {
    if n <= U32_MAX then n else U32_MAX
  }

  /** BIP 32 public derivation below an account key. */
  type Derivation = (Xpub, seq<nat>) -> Pubkey

  ghost predicate Injective(derive: Derivation) {
    forall x, y, path :: derive(x, path) == derive(y, path) ==> x == y
  }

  /** The keychain and index components of a full path. */
  function Relative(path: seq<nat>): seq<nat> {
    if |path| <= 2 then path else path[|path| - 2..]
  }

  function Entries(cosigners: seq<Cosigner>, derive: Derivation, rel: seq<nat>): seq<Entry> {
    Map((c: Cosigner) => Entry(derive(c.xpub, rel), c.xpub), cosigners)
  }

  /** The `multisig.pubkeys` list: cosigner nodes sorted by the key they derive. */
  function PubkeyList(cosigners: seq<Cosigner>, derive: Derivation, rel: seq<nat>): seq<Xpub> {
    Map((e: Entry) => e.node, SortByKey(Entries(cosigners, derive, rel), (e: Entry) => e.sortKey))
  }

  /** The list the slot is looked up in: derived key and fingerprint, sorted by key. */
  function SlotList(cosigners: seq<Cosigner>, derive: Derivation, rel: seq<nat>): seq<(Pubkey, Fingerprint)> {
    SortByKey(Map((c: Cosigner) => (derive(c.xpub, rel), c.fingerprint), cosigners), (p: (Pubkey, Fingerprint)) => p.0)
  }

  // ----- the two sorted lists -----

  function SortedCosigners(cosigners: seq<Cosigner>, derive: Derivation, rel: seq<nat>): seq<Cosigner> {
    SortByKey(cosigners, (c: Cosigner) => derive(c.xpub, rel))
  }

  /** Both lists are images of one sorted cosigner list, so equal positions are equal rows. */
  lemma ListsLineUp(cosigners: seq<Cosigner>, derive: Derivation, rel: seq<nat>)
    ensures var sorted := SortedCosigners(cosigners, derive, rel);
      && |sorted| == |cosigners| && multiset(sorted) == multiset(cosigners)
      && |PubkeyList(cosigners, derive, rel)| == |sorted| == |SlotList(cosigners, derive, rel)|
      && forall i :: 0 <= i < |sorted| ==>
           && PubkeyList(cosigners, derive, rel)[i] == sorted[i].xpub
           && SlotList(cosigners, derive, rel)[i] == (derive(sorted[i].xpub, rel), sorted[i].fingerprint)
  {
    var byKey := (c: Cosigner) => derive(c.xpub, rel);
    var toEntry := (c: Cosigner) => Entry(derive(c.xpub, rel), c.xpub);
    var toPair := (c: Cosigner) => (derive(c.xpub, rel), c.fingerprint);
    SortSorts(cosigners, byKey);
    assert |multiset(SortByKey(cosigners, byKey))| == |multiset(cosigners)|;
    MapSort(toEntry, cosigners, byKey, (e: Entry) => e.sortKey);
    MapSort(toPair, cosigners, byKey, (p: (Pubkey, Fingerprint)) => p.0);
  }

  /** The key list is the BIP 67 arrangement of the derived keys: sorted, and a permutation. */
  lemma PubkeyListIsSorted(cosigners: seq<Cosigner>, derive: Derivation, rel: seq<nat>)
    ensures Sorted(PubkeyList(cosigners, derive, rel), (x: Xpub) => derive(x, rel))
    ensures multiset(PubkeyList(cosigners, derive, rel)) == multiset(Map((c: Cosigner) => c.xpub, cosigners))
  {
    var byXpub := (x: Xpub) => derive(x, rel);
    var toXpub := (c: Cosigner) => c.xpub;
    ListsLineUp(cosigners, derive, rel);
    MapSort(toXpub, cosigners, (c: Cosigner) => derive(c.xpub, rel), byXpub);
    SortSorts(Map(toXpub, cosigners), byXpub);
    assert PubkeyList(cosigners, derive, rel) == SortByKey(Map(toXpub, cosigners), byXpub);
  }

  /** With injective derivation it is the only such arrangement, so every ordering of the same
      cosigner rows gives the same list. */
  lemma PubkeyListIgnoresRowOrder(cosigners: seq<Cosigner>, other: seq<Cosigner>, derive: Derivation, rel: seq<nat>)
    requires Injective(derive)
    requires multiset(Map((c: Cosigner) => c.xpub, cosigners)) == multiset(Map((c: Cosigner) => c.xpub, other))
    ensures PubkeyList(cosigners, derive, rel) == PubkeyList(other, derive, rel)
  {
    PubkeyListIsSorted(cosigners, derive, rel);
    PubkeyListIsSorted(other, derive, rel);
    SortedUnique(PubkeyList(cosigners, derive, rel), PubkeyList(other, derive, rel), (x: Xpub) => derive(x, rel));
  }

  // ----- the slot -----

  function Position(pubs: seq<(Pubkey, Fingerprint)>, fp: Fingerprint): Option<nat> {
    if pubs == [] then None
    else if pubs[0].1 == fp then Some(0)
    else match Position(pubs[1..], fp) case None => None case Some(i) => Some(i + 1)
  }

  lemma {:induction false} PositionIsFirst(pubs: seq<(Pubkey, Fingerprint)>, fp: Fingerprint)
    ensures Position(pubs, fp).Some? <==> exists i :: 0 <= i < |pubs| && pubs[i].1 == fp
    ensures Position(pubs, fp).Some? ==> Position(pubs, fp).value < |pubs| && pubs[Position(pubs, fp).value].1 == fp
  {
    if pubs != [] && pubs[0].1 != fp {
      PositionIsFirst(pubs[1..], fp);
      if i :| 0 <= i < |pubs| && pubs[i].1 == fp { assert pubs[1..][i - 1].1 == fp; }
      if i :| 0 <= i < |pubs[1..]| && pubs[1..][i].1 == fp { assert pubs[i + 1].1 == fp; }
    }
  }

  /** The independently computed slot exists exactly if the device is a cosigner; the key list
      holds the device's own account key there, and with distinct fingerprints nothing else. */
  lemma SlotPointsAtOwnKey(cosigners: seq<Cosigner>, derive: Derivation, rel: seq<nat>, fp: Fingerprint)
    ensures var slot := Position(SlotList(cosigners, derive, rel), fp);
      && (slot.Some? <==> exists c :: c in cosigners && c.fingerprint == fp)
      && (slot.Some? ==>
            (&& slot.value < |PubkeyList(cosigners, derive, rel)|
             && exists c :: c in cosigners && c.fingerprint == fp && PubkeyList(cosigners, derive, rel)[slot.value] == c.xpub))
  {
    ListsLineUp(cosigners, derive, rel);
    var sorted, slots := SortedCosigners(cosigners, derive, rel), SlotList(cosigners, derive, rel);
    PositionIsFirst(slots, fp);
    if i :| 0 <= i < |slots| && slots[i].1 == fp {
      assert sorted[i] in multiset(cosigners);
    }
    if c :| c in cosigners && c.fingerprint == fp {
      assert c in multiset(sorted);
      var i :| 0 <= i < |sorted| && sorted[i] == c;
      assert slots[i].1 == fp;
    }
    var slot := Position(slots, fp);
    if slot.Some? {
      assert sorted[slot.value] in multiset(cosigners);
    }
  }

  // ----- the reference transactions -----

  ghost predicate DuplicateFree(s: seq<nat>) {
    forall i, j :: 0 <= i < j < |s| ==> s[i] != s[j]
  }

  /** `x` occurs before `y` does. */
  predicate Sooner(txids: seq<nat>, x: nat, y: nat) {
    exists p :: 0 <= p < |txids| && txids[p] == x && y !in txids[..p + 1]
  }

  /** Keeps the first occurrence of every txid, in order. */
  method UniqueTxids(txids: seq<nat>) returns (unique: seq<nat>)
    ensures DuplicateFree(unique)
    ensures forall t :: t in unique <==> t in txids
    ensures forall i, j :: 0 <= i < j < |unique| ==> Sooner(txids, unique[i], unique[j])
  {
    unique := [];
    var seen: set<nat> := {};
    for i := 0 to |txids|
      invariant forall t :: t in seen <==> t in txids[..i]
      invariant forall t :: t in unique <==> t in seen
      invariant DuplicateFree(unique)
      invariant forall a, b :: 0 <= a < b < |unique| ==> Sooner(txids, unique[a], unique[b])
    {
      if txids[i] !in seen {
        forall a | 0 <= a < |unique| ensures Sooner(txids, unique[a], txids[i]) {
          assert unique[a] in unique && unique[a] in txids[..i];
          var p :| 0 <= p < i && txids[..i][p] == unique[a];
          assert txids[p] == unique[a] && txids[..p + 1] == txids[..i][..p + 1];
        }
        seen := seen + {txids[i]};
        unique := unique + [txids[i]];
      }
    }
    assert txids[..|txids|] == txids;
  }

  // ----- the request -----

  /** `k` is the first key of the device, in the key order the origins are kept in. */
  predicate FirstOwn(origins: map<Pubkey, KeyOrigin>, fp: Fingerprint, k: Pubkey) {
    k in origins && origins[k].fingerprint == fp
    && forall l :: l in origins && origins[l].fingerprint == fp ==> LexLe(k, l)
  }

  /** `path` is the path of the signing device's first key among these origins. */
  predicate SignerPath(origins: map<Pubkey, KeyOrigin>, fp: Fingerprint, path: seq<nat>) {
    exists k :: k in origins && FirstOwn(origins, fp, k) && origins[k].path == path
  }

  /** The device has a key among these origins. */
  predicate Mine(origins: map<Pubkey, KeyOrigin>, fp: Fingerprint) {
    exists k :: k in origins && origins[k].fingerprint == fp
  }

  lemma {:induction false} LeastOf(keys: set<Pubkey>) returns (k: Pubkey)
    requires keys != {}
    ensures k in keys && forall l :: l in keys ==> LexLe(k, l)
    decreases keys
  {
    k :| k in keys;
    LexTotal(k, k);
    if keys != {k} {
      assert keys - {k} != {};
      var rest := LeastOf(keys - {k});
      LexTotal(k, rest);
      if LexLe(k, rest) {
        forall l | l in keys && l != k ensures LexLe(k, l) {
          LexTrans(k, rest, l);
        }
      } else {
        k := rest;
      }
    }
  }

  /** A device with a key has a first one. */
  lemma OwnersHaveAFirst(origins: map<Pubkey, KeyOrigin>, fp: Fingerprint)
    ensures Mine(origins, fp) <==> exists k :: k in origins && FirstOwn(origins, fp, k)
  {
    if mine :| mine in origins && origins[mine].fingerprint == fp {
      var own := set k | k in origins && origins[k].fingerprint == fp;
      assert mine in own;
      var least := LeastOf(own);
      assert FirstOwn(origins, fp, least);
    }
  }

  predicate HasSigner(psbt: Psbt, fp: Fingerprint) {
    forall i :: 0 <= i < |psbt.inputs| ==> Mine(psbt.inputs[i].origins, fp)
  }

  /** The multisig field for the device's path: the sorted key list at the path's suffix. */
  function MultisigAt(cosigners: seq<Cosigner>, derive: Derivation, path: seq<nat>, threshold: nat): Multisig {
    Multisig(PubkeyList(cosigners, derive, Relative(path)), Relative(path), ClampU32(threshold))
  }

  /** Input `i` of the request carries the device's path, the outpoint and sequence number, the
      funding value if the PSBT knows it, and the multisig field at its suffix. */
  predicate InputListed(e: Envelope, fp: Fingerprint, cosigners: seq<Cosigner>, derive: Derivation, threshold: nat,
                        input: TrezorInput, i: nat)
    requires Shaped(e) && i < |e.psbt.inputs|
  {
    && SignerPath(e.psbt.inputs[i].origins, fp, input.addressN)
    && input.prev == e.psbt.tx.spends[i] && input.sequence == e.sequences[i]
    && input.amount == (if e.funded[i].Some? then e.funded[i].value else 0)
    && input.multisig == MultisigAt(cosigners, derive, input.addressN, threshold)
  }

  /** An output is change exactly if the device has a key in it; then it carries the device's
      path and the multisig field there, and otherwise its script. The amount is kept. */
  predicate OutputListed(o: PsbtOutput, fp: Fingerprint, cosigners: seq<Cosigner>, derive: Derivation, threshold: nat,
                         output: TrezorOutput)
  {
    && output.amount == o.amount
    && (output.Change? <==> Mine(o.origins, fp))
    && match output
       case External(script, _) => script == o.script
       case Change(path, _, multisig) =>
         SignerPath(o.origins, fp, path) && multisig == MultisigAt(cosigners, derive, path, threshold)
  }

  /** The slot is where the input's key list holds the device's own account key. */
  predicate SlotServed(fp: Fingerprint, cosigners: seq<Cosigner>, input: TrezorInput, slot: nat) {
    slot < |input.multisig.pubkeys|
    && exists c :: c in cosigners && c.fingerprint == fp && input.multisig.pubkeys[slot] == c.xpub
  }

  /** The first origin with the device's fingerprint. */
  method FindOwn(origins: map<Pubkey, KeyOrigin>, fp: Fingerprint) returns (path: Option<seq<nat>>)
    ensures path.Some? <==> Mine(origins, fp)
    ensures path.Some? ==> SignerPath(origins, fp, path.value)
  {
    OwnersHaveAFirst(origins, fp);
    if k :| k in origins && FirstOwn(origins, fp, k) {
      path := Some(origins[k].path);
    } else {
      path := None;
    }
  }

  /** The entry of one input, if the device has a key in it. */
  method ListInput(e: Envelope, fp: Fingerprint, cosigners: seq<Cosigner>, derive: Derivation, threshold: nat, i: nat)
    returns (input: Option<TrezorInput>)
    requires Shaped(e) && i < |e.psbt.inputs|
    ensures input.Some? <==> Mine(e.psbt.inputs[i].origins, fp)
    ensures input.Some? ==> InputListed(e, fp, cosigners, derive, threshold, input.value, i)
  {
    var amount := if e.funded[i].Some? then e.funded[i].value else 0;
    var path := FindOwn(e.psbt.inputs[i].origins, fp);
    if path.None? {
      return None;
    }
    input := Some(TrezorInput(path.value, e.psbt.tx.spends[i], amount,
                              MultisigAt(cosigners, derive, path.value, threshold), e.sequences[i]));
  }

  /** One walk over the inputs: the device's path, the sorted key list, the funding txid. The
      walk stops at the first input the device has no key in. */
  method CollectInputs(e: Envelope, fp: Fingerprint, cosigners: seq<Cosigner>, derive: Derivation, threshold: nat)
    returns (r: Result<(seq<TrezorInput>, seq<nat>), PsbtError>)
    requires Shaped(e)
    ensures r.Ok? <==> HasSigner(e.psbt, fp)
    ensures r.Err? ==> r.error == UnknownCosigner
    ensures r.Ok? ==>
      && |r.value.0| == |r.value.1| == |e.psbt.inputs|
      && (forall i :: 0 <= i < |e.psbt.inputs| ==>
            InputListed(e, fp, cosigners, derive, threshold, r.value.0[i], i))
      && (forall i :: 0 <= i < |e.psbt.inputs| ==> r.value.1[i] == e.psbt.tx.spends[i].txid)
  {
    var psbt := e.psbt;
    var inputs: seq<TrezorInput>, refTxids: seq<nat> := [], [];
    for i := 0 to |psbt.inputs|
      invariant |inputs| == |refTxids| == i
      invariant forall j :: 0 <= j < i ==> refTxids[j] == psbt.tx.spends[j].txid
      invariant forall j :: 0 <= j < i ==> InputListed(e, fp, cosigners, derive, threshold, inputs[j], j)
      invariant forall j :: 0 <= j < i ==> Mine(psbt.inputs[j].origins, fp)
    {
      refTxids := refTxids + [psbt.tx.spends[i].txid];
      var input := ListInput(e, fp, cosigners, derive, threshold, i);
      if input.None? {
        return Err(UnknownCosigner);
      }
      inputs := inputs + [input.value];
    }
    r := Ok((inputs, refTxids));
  }

  /** One walk over the outputs, telling change from payments. */
  method CollectOutputs(e: Envelope, fp: Fingerprint, cosigners: seq<Cosigner>, derive: Derivation, threshold: nat)
    returns (outputs: seq<TrezorOutput>)
    ensures |outputs| == |e.outputs|
    ensures forall i :: 0 <= i < |outputs| ==>
      OutputListed(e.outputs[i], fp, cosigners, derive, threshold, outputs[i])
  {
    outputs := [];
    for i := 0 to |e.outputs|
      invariant |outputs| == i
      invariant forall j :: 0 <= j < i ==> OutputListed(e.outputs[j], fp, cosigners, derive, threshold, outputs[j])
    {
      var o := e.outputs[i];
      var path := FindOwn(o.origins, fp);
      if path.Some? {
        outputs := outputs + [Change(path.value, o.amount, MultisigAt(cosigners, derive, path.value, threshold))];
      } else {
        outputs := outputs + [External(o.script, o.amount)];
      }
    }
  }

  lemma SlotServes(fp: Fingerprint, cosigners: seq<Cosigner>, derive: Derivation, threshold: nat, input: TrezorInput)
    requires input.multisig == MultisigAt(cosigners, derive, input.addressN, threshold)
    ensures var slot := Position(SlotList(cosigners, derive, Relative(input.addressN)), fp);
      && (slot.Some? <==> exists c :: c in cosigners && c.fingerprint == fp)
      && (slot.Some? ==> SlotServed(fp, cosigners, input, slot.value))
  {
    SlotPointsAtOwnKey(cosigners, derive, Relative(input.addressN), fp);
  }

  /** The slot of the signing device in every input's key list. */
  method CollectSlots(inputs: seq<TrezorInput>, fp: Fingerprint, cosigners: seq<Cosigner>, derive: Derivation,
                      threshold: nat) returns (r: Result<seq<nat>, PsbtError>)
    requires forall i :: 0 <= i < |inputs| ==>
      inputs[i].multisig == MultisigAt(cosigners, derive, inputs[i].addressN, threshold)
    ensures r.Ok? <==> (inputs == [] || exists c :: c in cosigners && c.fingerprint == fp)
    ensures r.Err? ==> r.error == UnknownCosigner
    ensures r.Ok? ==>
      |r.value| == |inputs| && forall i :: 0 <= i < |inputs| ==> SlotServed(fp, cosigners, inputs[i], r.value[i])
  {
    var slots: seq<nat> := [];
    for i := 0 to |inputs|
      invariant |slots| == i
      invariant forall j :: 0 <= j < i ==> SlotServed(fp, cosigners, inputs[j], slots[j])
      invariant i > 0 ==> exists c :: c in cosigners && c.fingerprint == fp
    {
      var slot := Position(SlotList(cosigners, derive, Relative(inputs[i].addressN)), fp);
      SlotServes(fp, cosigners, derive, threshold, inputs[i]);
      if slot.None? {
        return Err(UnknownCosigner);
      }
      slots := slots + [slot.value];
    }
    r := Ok(slots);
  }

  /** The request for this proposal: every input and output once, in order, with what the device needs
      to sign it. */
  ghost predicate Answers(e: Envelope, fp: Fingerprint, cosigners: seq<Cosigner>, derive: Derivation, threshold: nat,
                          r: SignRequest)
    requires Shaped(e)
  {
    && |r.inputs| == |r.signerSlots| == |e.psbt.inputs| && |r.outputs| == |e.outputs|
    && (forall i :: 0 <= i < |e.psbt.inputs| ==>
          && InputListed(e, fp, cosigners, derive, threshold, r.inputs[i], i)
          && SlotServed(fp, cosigners, r.inputs[i], r.signerSlots[i]))
    && (forall i :: 0 <= i < |e.outputs| ==>
          OutputListed(e.outputs[i], fp, cosigners, derive, threshold, r.outputs[i]))
    && r.version == SentVersion(e.version) && r.lockTime == e.lockTime
    && DuplicateFree(r.refTxids)
    && (forall t :: t in r.refTxids <==> exists i :: 0 <= i < |e.psbt.tx.spends| && e.psbt.tx.spends[i].txid == t)
  }

  method BuildSignRequest(e: Envelope, fp: Fingerprint, cosigners: seq<Cosigner>, derive: Derivation, threshold: nat)
    returns (r: Result<SignRequest, PsbtError>)
    requires Shaped(e)
    ensures r.Ok? <==>
      HasSigner(e.psbt, fp) && (e.psbt.inputs == [] || exists c :: c in cosigners && c.fingerprint == fp)
    ensures r.Err? ==> r.error == UnknownCosigner
    ensures r.Ok? ==> Answers(e, fp, cosigners, derive, threshold, r.value)
    ensures r.Ok? ==> r.value.version == (if e.version < 0 then 2 else e.version) && r.value.lockTime == e.lockTime
  {
    var collected := CollectInputs(e, fp, cosigners, derive, threshold);
    if collected.Err? {
      return Err(collected.error);
    }
    var (inputs, refTxids) := collected.value;
    var outputs := CollectOutputs(e, fp, cosigners, derive, threshold);
    var unique := UniqueTxids(refTxids);
    var slots := CollectSlots(inputs, fp, cosigners, derive, threshold);
    if slots.Err? {
      return Err(slots.error);
    }
    assert forall t :: t in refTxids <==> exists i :: 0 <= i < |e.psbt.tx.spends| && e.psbt.tx.spends[i].txid == t;
    r := Ok(SignRequest(inputs, outputs, unique, SentVersion(e.version), e.lockTime, slots.value));
  }

  // ----- the script the request is for -----

  /** The keys of this input or output are those the cosigners derive at `suffix`. */
  predicate DerivedAt(origins: map<Pubkey, KeyOrigin>, cosigners: seq<Cosigner>, derive: Derivation, suffix: seq<nat>) {
    && (forall c :: c in cosigners ==>
          derive(c.xpub, suffix) in origins && origins[derive(c.xpub, suffix)].fingerprint == c.fingerprint)
    && (forall k :: k in origins ==> exists c :: c in cosigners && derive(c.xpub, suffix) == k)
  }

  /** The listed nodes derive exactly these keys at `suffix`, in the order of BIP 67. */
  predicate ListsKeys(nodes: seq<Xpub>, origins: map<Pubkey, KeyOrigin>, derive: Derivation, suffix: seq<nat>) {
    && (forall j :: 0 <= j < |nodes| ==> derive(nodes[j], suffix) in origins)
    && (forall k :: k in origins ==> exists j :: 0 <= j < |nodes| && derive(nodes[j], suffix) == k)
    && (forall i, j :: 0 <= i < j < |nodes| ==> LexLe(derive(nodes[i], suffix), derive(nodes[j], suffix)))
  }

  /** The multisig field for a path that ends with a keychain and an index: the suffix is those two,
      the threshold is the proposal's, and the nodes are those of the script. */
  lemma MultisigServes(origins: map<Pubkey, KeyOrigin>, cosigners: seq<Cosigner>, derive: Derivation, threshold: nat,
                       account: seq<nat>, keychain: nat, index: nat, multisig: Multisig)
    requires multisig == MultisigAt(cosigners, derive, account + [keychain, index], threshold)
    ensures multisig.suffix == [keychain, index] && |multisig.pubkeys| == |cosigners|
    ensures multisig.m == if threshold <= 0xFFFF_FFFF then threshold else 0xFFFF_FFFF
    ensures DerivedAt(origins, cosigners, derive, [keychain, index]) ==>
      ListsKeys(multisig.pubkeys, origins, derive, [keychain, index])
  {
    var path, suffix := account + [keychain, index], [keychain, index];
    assert path[|path| - 2..] == suffix;
    assert |path| <= 2 ==> path == suffix;
    ListsLineUp(cosigners, derive, suffix);
    if DerivedAt(origins, cosigners, derive, suffix) {
      NodesDeriveKeys(origins, cosigners, derive, suffix);
    }
  }

  lemma NodesDeriveKeys(origins: map<Pubkey, KeyOrigin>, cosigners: seq<Cosigner>, derive: Derivation, suffix: seq<nat>)
    requires DerivedAt(origins, cosigners, derive, suffix)
    ensures ListsKeys(PubkeyList(cosigners, derive, suffix), origins, derive, suffix)
  {
    var nodes, sorted := PubkeyList(cosigners, derive, suffix), SortedCosigners(cosigners, derive, suffix);
    ListsLineUp(cosigners, derive, suffix);
    PubkeyListIsSorted(cosigners, derive, suffix);
    forall j | 0 <= j < |nodes| ensures derive(nodes[j], suffix) in origins {
      assert sorted[j] in multiset(cosigners);
    }
    forall k | k in origins ensures exists j :: 0 <= j < |nodes| && derive(nodes[j], suffix) == k {
      var c :| c in cosigners && derive(c.xpub, suffix) == k;
      assert c in multiset(sorted);
      var j :| 0 <= j < |sorted| && sorted[j] == c;
      assert derive(nodes[j], suffix) == k;
    }
  }

  /** An input whose device path is an account path, a keychain and an index is sent with that suffix
      and the proposal's threshold. If the input's keys are the ones the cosigners derive there, the
      listed nodes derive exactly those keys, in the order of the script, and the slot points at a
      key whose origin is the device's own. */
  lemma InputServesScript(e: Envelope, fp: Fingerprint, cosigners: seq<Cosigner>, derive: Derivation, threshold: nat,
                          r: SignRequest, i: nat, account: seq<nat>, keychain: nat, index: nat)
    requires Shaped(e) && Answers(e, fp, cosigners, derive, threshold, r) && i < |e.psbt.inputs|
    requires r.inputs[i].addressN == account + [keychain, index]
    ensures
      var suffix, multisig, origins := [keychain, index], r.inputs[i].multisig, e.psbt.inputs[i].origins;
      && multisig.suffix == suffix && |multisig.pubkeys| == |cosigners|
      && multisig.m == (if threshold <= 0xFFFF_FFFF then threshold else 0xFFFF_FFFF)
      && (DerivedAt(origins, cosigners, derive, suffix) ==>
            && ListsKeys(multisig.pubkeys, origins, derive, suffix)
            && r.signerSlots[i] < |multisig.pubkeys|
            && var own := derive(multisig.pubkeys[r.signerSlots[i]], suffix);
               own in origins && origins[own].fingerprint == fp)
  {
    MultisigServes(e.psbt.inputs[i].origins, cosigners, derive, threshold, account, keychain, index, r.inputs[i].multisig);
    assert SlotServed(fp, cosigners, r.inputs[i], r.signerSlots[i]);
  }

  /** The same for a change output; any other output carries its own script. */
  lemma OutputServesScript(e: Envelope, fp: Fingerprint, cosigners: seq<Cosigner>, derive: Derivation, threshold: nat,
                           r: SignRequest, i: nat, account: seq<nat>, keychain: nat, index: nat)
    requires Shaped(e) && Answers(e, fp, cosigners, derive, threshold, r) && i < |e.outputs|
    requires r.outputs[i].Change? && r.outputs[i].addressN == account + [keychain, index]
    ensures
      var suffix, multisig, origins := [keychain, index], r.outputs[i].multisig, e.outputs[i].origins;
      && multisig.suffix == suffix && |multisig.pubkeys| == |cosigners|
      && multisig.m == (if threshold <= 0xFFFF_FFFF then threshold else 0xFFFF_FFFF)
      && (DerivedAt(origins, cosigners, derive, suffix) ==> ListsKeys(multisig.pubkeys, origins, derive, suffix))
  {
    assert OutputListed(e.outputs[i], fp, cosigners, derive, threshold, r.outputs[i]);
    MultisigServes(e.outputs[i].origins, cosigners, derive, threshold, account, keychain, index, r.outputs[i].multisig);
  }
}
