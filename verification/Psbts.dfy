/** Partially signed transactions, reduced to what the signing protocol reads and writes:
    the unsigned transaction, the key origins and the partial signatures of every input. */
module Psbts {
  import opened Wrappers
  import opened Primitives

  type Pubkey = seq<byte>
  type Fingerprint = nat
  type Signature = nat

  /** `KeyOrigin` is one value of `bip32_derivation`: master fingerprint and full path. */
  datatype KeyOrigin = KeyOrigin(fingerprint: Fingerprint, path: seq<nat>)

  datatype PsbtInput = PsbtInput(
    origins: map<Pubkey, KeyOrigin>,
    partialSigs: map<Pubkey, Signature>)

  datatype UnsignedTx = UnsignedTx(spends: seq<OutPoint>, outputs: nat)

  /** A parsed PSBT always carries exactly one input map per transaction input. */
  type Psbt = p: PsbtData | |p.inputs| == |p.tx.spends|
    witness PsbtData(UnsignedTx([], 0), [])

  datatype PsbtData = PsbtData(tx: UnsignedTx, inputs: seq<PsbtInput>)

  /** The descriptor's view of a transaction: the threshold and, for every input, the key
      each cosigner derives there. It decides what finalisation accepts. */
  datatype SpendPolicy = SpendPolicy(threshold: nat, keys: seq<map<Pubkey, Fingerprint>>)

  datatype PsbtError = DifferentTransaction | WrongSignatureCount | UnknownCosigner | BadSignature

  /** What one entry of a Trezor submission can be: blank, undecodable, or a signature. */
  datatype TrezorSig = Blank | Malformed | Der(sig: Signature)

  // ----- the Combiner -----

  function CombineInput(a: PsbtInput, b: PsbtInput): PsbtInput {
    PsbtInput(a.origins + b.origins, a.partialSigs + b.partialSigs)
  }

  function Combine(base: Psbt, partial: Psbt): Result<Psbt, PsbtError> {
    if base.tx != partial.tx then Err(DifferentTransaction)
    else Ok(PsbtData(base.tx, seq(|base.inputs|,
      i requires 0 <= i < |base.inputs| => CombineInput(base.inputs[i], partial.inputs[i]))))
  }

  /** The (input, key) pairs that carry a signature. */
  ghost function SigSet(p: Psbt): set<(nat, Pubkey)> {
    set i: nat, k: Pubkey | i < |p.inputs| && k in p.inputs[i].partialSigs :: (i, k)
  }

  /** Combining succeeds exactly on the same transaction, and then signs exactly the union. */
  lemma CombineUnion(base: Psbt, partial: Psbt)
    ensures Combine(base, partial).Ok? <==> base.tx == partial.tx
    ensures Combine(base, partial).Ok? ==>
      SigSet(Combine(base, partial).value) == SigSet(base) + SigSet(partial)
  {
    if base.tx == partial.tx {
      var r := Combine(base, partial).value;
      assert forall i :: 0 <= i < |r.inputs| ==>
        r.inputs[i].partialSigs.Keys == base.inputs[i].partialSigs.Keys + partial.inputs[i].partialSigs.Keys;
      forall e | e in SigSet(base) + SigSet(partial) ensures e in SigSet(r) {
        assert e.1 in r.inputs[e.0].partialSigs;
      }
    }
  }

  // ----- the finalisation probe -----

  /** Finalisation needs `threshold` signatures by descriptor keys on every input. */
  predicate FullySigned(policy: SpendPolicy, p: Psbt) {
    forall i :: 0 <= i < |p.inputs| ==>
      i < |policy.keys| && |p.inputs[i].partialSigs.Keys * policy.keys[i].Keys| >= policy.threshold
  }

  // ----- Trezor signatures -----

  /** `r` is `p` with `sig` added under a key the device `fp` owns on this input, and nothing else. */
  ghost predicate SignedBy(p: PsbtInput, fp: Fingerprint, sig: Signature, r: PsbtInput) {
    exists k :: k in p.origins && p.origins[k].fingerprint == fp
      && r == p.(partialSigs := p.partialSigs[k := sig])
  }

  predicate Owns(p: PsbtInput, fp: Fingerprint) {
    exists k :: k in p.origins && p.origins[k].fingerprint == fp
  }

  /** The submission can be injected: one entry per input, each blank or a well-formed
      signature on an input where the device has a key. */
  predicate Injectable(base: Psbt, fp: Fingerprint, sigs: seq<TrezorSig>) {
    |sigs| == |base.inputs|
    && forall i :: 0 <= i < |sigs| && !sigs[i].Blank? ==> sigs[i].Der? && Owns(base.inputs[i], fp)
  }

  /** Slots a device's per-input signatures into a copy of the base PSBT. */
  method InjectTrezorSignatures(base: Psbt, fp: Fingerprint, sigs: seq<TrezorSig>)
    returns (r: Result<Psbt, PsbtError>)
    ensures r.Ok? <==> Injectable(base, fp, sigs)
    ensures r.Ok? ==> r.value.tx == base.tx && forall i :: 0 <= i < |sigs| ==>
      if sigs[i].Blank? then r.value.inputs[i] == base.inputs[i]
      else SignedBy(base.inputs[i], fp, sigs[i].sig, r.value.inputs[i])
  {
    if |sigs| != |base.inputs| {
      return Err(WrongSignatureCount);
    }
    var inputs := base.inputs;
    for i := 0 to |sigs|
      invariant |inputs| == |base.inputs|
      invariant forall j :: i <= j < |sigs| ==> inputs[j] == base.inputs[j]
      invariant forall j :: 0 <= j < i && !sigs[j].Blank? ==> sigs[j].Der? && Owns(base.inputs[j], fp)
      invariant forall j :: 0 <= j < i ==>
        if sigs[j].Blank? then inputs[j] == base.inputs[j]
        else SignedBy(base.inputs[j], fp, sigs[j].sig, inputs[j])
    {
      match sigs[i]
      case Blank =>
      case Malformed => return Err(BadSignature);
      case Der(sig) =>
        if key :| key in inputs[i].origins && inputs[i].origins[key].fingerprint == fp {
          inputs := inputs[i := inputs[i].(partialSigs := inputs[i].partialSigs[key := sig])];
        } else {
          return Err(UnknownCosigner);
        }
    }
    r := Ok(PsbtData(base.tx, inputs));
  }
}
