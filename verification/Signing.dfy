/** Laws of the signing step (programs/entangle-photon-sol/src/lib.rs:396-439). */
module Signing {
  import opened Wrappers
  import opened Bytes
  import opened FixedList
  import opened Quorum
  import opened ProtocolData
  import opened State
  import opened Gov
  import opened Photon

  /** The stored signers are a duplicate-free list, padded with zeros. */
  predicate SignersOk(op: OpInfo) {
    Distinct(StoredSigners(op)) && op.uniqueSigners == Pad(StoredSigners(op), SIGNER_SLOTS, ZERO_ADDRESS)
  }

  /** What one signing step does to the stored signers and the status. */
  lemma SignOpEffect(crypto: Crypto, info: ProtocolInfo, op: OpInfo, opHash: seq<byte>, signatures: seq<Signature>)
    requires SignersOk(op) && SignOp(crypto, info, op, opHash, signatures).Ok?
    ensures var s := SignOp(crypto, info, op, opHash, signatures).value;
            var allowed, stored := Transmitters(info), StoredSigners(op);
            var after := StoredSigners(s.op);
            && allowed != []
            && SignersOk(s.op) && s.op.opData == op.opData && stored <= after
            && (forall a :: a in after && a !in stored ==>
                  a in allowed && exists sig :: sig in signatures && Ecrecover(crypto, opHash, sig) == Some(a))
            && s.op.status == (if s.approved then Signed else op.status)
            && (s.approved ==> after != [] && |after| * RATE_DECIMALS >= info.consensusTargetRate * |allowed|)
            && (s.consensusReached <==> Reached(|after|, |allowed|, info.consensusTargetRate))
  {
    var allowed, stored, rate := Transmitters(info), StoredSigners(op), info.consensusTargetRate;
    if !Reached(|stored|, |allowed|, rate) {
      var recovered := Recovered(crypto, opHash, signatures);
      var c := Collect(allowed, rate, stored, recovered).value;
      CollectInvariant(allowed, rate, stored, recovered);
      NotReachedStaysBelow(allowed, rate, stored, recovered);
      QuorumArithmetic(|c.signers|, |allowed|, rate);
      forall a | a in c.signers && a !in stored
        ensures a in allowed && exists sig :: sig in signatures && Ecrecover(crypto, opHash, sig) == Some(a)
      {
        assert a in ToSet(c.signers);
        assert a in Supplied(allowed, recovered);
        var i :| 0 <= i < |recovered| && recovered[i] == Some(a);
        assert signatures[i] in signatures;
      }
      assert ZERO_ADDRESS !in c.signers;
      ListOfPadded(c.signers, SIGNER_SLOTS, ZERO_ADDRESS);
    }
  }

  /**
    With a fixed configuration, the quorum not yet reached, every signature recoverable and a quorum
    that fits the slots, signing succeeds, and the operation is approved exactly when the distinct
    allowed signers, stored or supplied, meet the quorum.
  */
  lemma SignedExactlyAtQuorum(crypto: Crypto, info: ProtocolInfo, op: OpInfo, opHash: seq<byte>, signatures: seq<Signature>)
    requires SignersOk(op) && Transmitters(info) != []
    requires !Reached(|StoredSigners(op)|, |Transmitters(info)|, info.consensusTargetRate)
    requires AllRecoverable(Recovered(crypto, opHash, signatures))
    requires QuorumSize(|Transmitters(info)|, info.consensusTargetRate) <= SIGNER_SLOTS
    ensures SignOp(crypto, info, op, opHash, signatures).Ok?
    ensures var s := SignOp(crypto, info, op, opHash, signatures).value;
            var allowed := Transmitters(info);
            var union := ToSet(StoredSigners(op)) + Supplied(allowed, Recovered(crypto, opHash, signatures));
            && (s.approved <==> Reached(|union|, |allowed|, info.consensusTargetRate))
            && (s.approved <==> s.consensusReached)
            && s.op.status == (if s.approved then Signed else op.status)
  {
    var allowed, stored, rate := Transmitters(info), StoredSigners(op), info.consensusTargetRate;
    var recovered := Recovered(crypto, opHash, signatures);
    CollectRefinesSet(allowed, rate, stored, recovered);
    NotReachedStaysBelow(allowed, rate, stored, recovered);
  }

  /**
    The answer true does not by itself mean Signed: an operation still at Init stays there exactly when
    its stored signers already met the quorum before the call, as after a change of rate or transmitters.
  */
  lemma TrueMeansSignedExactlyUnlessEarly(crypto: Crypto, info: ProtocolInfo, op: OpInfo, opHash: seq<byte>, signatures: seq<Signature>)
    requires SignersOk(op) && op.status == Init && SignOp(crypto, info, op, opHash, signatures).Ok?
    ensures var s := SignOp(crypto, info, op, opHash, signatures).value;
            var enough := Reached(|StoredSigners(op)|, |Transmitters(info)|, info.consensusTargetRate);
            && (s.consensusReached && s.op.status != Signed <==> enough)
            && (enough ==> s.op == op && forall more :: SignOp(crypto, info, op, opHash, more) == Ok(s))
  {
    SignOpEffect(crypto, info, op, opHash, signatures);
  }

  /** An operation is not approved, by whatever signatures, while there are fewer distinct candidates than the quorum. */
  lemma NotApprovedBelowQuorum(crypto: Crypto, info: ProtocolInfo, op: OpInfo, opHash: seq<byte>, signatures: seq<Signature>)
    requires SignersOk(op) && SignOp(crypto, info, op, opHash, signatures).Ok?
    requires |ToSet(StoredSigners(op)) + ToSet(Transmitters(info))| < QuorumSize(|Transmitters(info)|, info.consensusTargetRate)
    ensures !SignOp(crypto, info, op, opHash, signatures).value.consensusReached
  {
    SignOpEffect(crypto, info, op, opHash, signatures);
    var allowed, after := Transmitters(info), StoredSigners(SignOp(crypto, info, op, opHash, signatures).value.op);
    var all := ToSet(StoredSigners(op)) + ToSet(allowed);
    assert ToSet(after) <= all;
    DistinctCardinality(after);
    SubsetCardinality(ToSet(after), all);
    QuorumArithmetic(|after|, |allowed|, info.consensusTargetRate);
  }

  /**
    Transmitters a, b, a, as after adding a twice, at the full rate: the quorum is three, and no
    signatures whatever approve an operation of that protocol signed by none but these.
  */
  lemma RepeatBlocksApproval(crypto: Crypto, info: ProtocolInfo, a: EthAddress, b: EthAddress, op: OpInfo, opHash: seq<byte>, signatures: seq<Signature>)
    requires Transmitters(info) == [a, b, a] && info.consensusTargetRate == RATE_DECIMALS
    requires SignersOk(op) && (forall x :: x in StoredSigners(op) ==> x == a || x == b)
    requires SignOp(crypto, info, op, opHash, signatures).Ok?
    ensures !SignOp(crypto, info, op, opHash, signatures).value.consensusReached
  {
    var all := ToSet(StoredSigners(op)) + ToSet(Transmitters(info));
    assert all == {a, b} && |{a, b}| <= 2;
    assert QuorumSize(3, RATE_DECIMALS) == 3;
    NotApprovedBelowQuorum(crypto, info, op, opHash, signatures);
  }

  /** Exactly when a call fails for its signatures: an unrecoverable one comes before the recoverable ones have reached the quorum. */
  lemma FailsForSignaturesExactly(crypto: Crypto, info: ProtocolInfo, op: OpInfo, opHash: seq<byte>, signatures: seq<Signature>)
    requires SignersOk(op)
    ensures var allowed, stored, rate := Transmitters(info), StoredSigners(op), info.consensusTargetRate;
            var recovered := Recovered(crypto, opHash, signatures);
            SignOp(crypto, info, op, opHash, signatures) == Err(InvalidSignature)
            <==> && allowed != [] && !Reached(|stored|, |allowed|, rate)
                 && exists i :: 0 <= i < |recovered| && recovered[i].None? && AllRecoverable(recovered[..i])
                                && !Reached(|ToSet(stored) + Supplied(allowed, recovered[..i])|, |allowed|, rate)
  {
    var allowed, stored, rate := Transmitters(info), StoredSigners(op), info.consensusTargetRate;
    if allowed != [] && !Reached(|stored|, |allowed|, rate) {
      CollectFailsExactly(allowed, rate, stored, Recovered(crypto, opHash, signatures));
    }
  }

  /**
    Exactly when a call runs off the 16 slots, from below the quorum and with recoverable signatures: the
    quorum is more than 16, and so are the distinct signers, stored or supplied.
  */
  lemma OverflowsExactly(crypto: Crypto, info: ProtocolInfo, op: OpInfo, opHash: seq<byte>, signatures: seq<Signature>)
    requires SignersOk(op) && Transmitters(info) != []
    requires !Reached(|StoredSigners(op)|, |Transmitters(info)|, info.consensusTargetRate)
    requires AllRecoverable(Recovered(crypto, opHash, signatures))
    ensures var allowed := Transmitters(info);
            var union := ToSet(StoredSigners(op)) + Supplied(allowed, Recovered(crypto, opHash, signatures));
            SignOp(crypto, info, op, opHash, signatures) == Err(Panicked)
            <==> QuorumSize(|allowed|, info.consensusTargetRate) > SIGNER_SLOTS && |union| > SIGNER_SLOTS
  {
    var allowed, stored, rate := Transmitters(info), StoredSigners(op), info.consensusTargetRate;
    var recovered := Recovered(crypto, opHash, signatures);
    var union := ToSet(stored) + Supplied(allowed, recovered);
    CollectRefinesSet(allowed, rate, stored, recovered);
    CollectInvariant(allowed, rate, stored, recovered);
    DistinctCardinality(Collect(allowed, rate, stored, recovered).value.signers);
    QuorumArithmetic(|union|, |allowed|, rate);
  }

  /** The 16-slot write-back never runs off the end when the quorum fits, whatever happened before. */
  lemma WriteBackFits(crypto: Crypto, info: ProtocolInfo, op: OpInfo, opHash: seq<byte>, signatures: seq<Signature>)
    requires QuorumSize(|Transmitters(info)|, info.consensusTargetRate) <= SIGNER_SLOTS
    ensures SignOp(crypto, info, op, opHash, signatures) != Err(Panicked)
  {
    var allowed, stored, rate := Transmitters(info), StoredSigners(op), info.consensusTargetRate;
    if allowed != [] && !Reached(|stored|, |allowed|, rate)
       && Collect(allowed, rate, stored, Recovered(crypto, opHash, signatures)).Some? {
      NotReachedStaysBelow(allowed, rate, stored, Recovered(crypto, opHash, signatures));
    }
  }

  lemma RecoveredAppend(crypto: Crypto, opHash: seq<byte>, a: seq<Signature>, b: seq<Signature>)
    ensures Recovered(crypto, opHash, a + b) == Recovered(crypto, opHash, a) + Recovered(crypto, opHash, b)
  {
  }

  lemma SignOpChunks(crypto: Crypto, info: ProtocolInfo, op: OpInfo, opHash: seq<byte>, a: seq<Signature>, b: seq<Signature>)
    requires SignersOk(op)
    ensures var whole, first := SignOp(crypto, info, op, opHash, a + b), SignOp(crypto, info, op, opHash, a);
            if first.Err? then whole.Err?
            else
              var second := SignOp(crypto, info, first.value.op, opHash, b);
              if second.Err? then whole.Err?
              else whole == Ok(Signing(second.value.op, second.value.consensusReached,
                                       first.value.approved || second.value.approved))
                   && !(first.value.approved && second.value.approved)
  {
    var allowed, stored, rate := Transmitters(info), StoredSigners(op), info.consensusTargetRate;
    if allowed != [] && !Reached(|stored|, |allowed|, rate) {
      var ra, rb := Recovered(crypto, opHash, a), Recovered(crypto, opHash, b);
      RecoveredAppend(crypto, opHash, a, b);
      CollectAppend(allowed, rate, stored, ra, rb);
      if Collect(allowed, rate, stored, ra).Some? {
        var c := Collect(allowed, rate, stored, ra).value;
        NotReachedStaysBelow(allowed, rate, stored, ra);
        if |c.signers| <= SIGNER_SLOTS {
          SignOpEffect(crypto, info, op, opHash, a);
          CollectInvariant(allowed, rate, stored, ra);
          assert ZERO_ADDRESS !in c.signers by {
            assert ToSet(c.signers) <= ToSet(stored) + Supplied(allowed, ra);
            assert ZERO_ADDRESS !in ToSet(c.signers);
          }
          ListOfPadded(c.signers, SIGNER_SLOTS, ZERO_ADDRESS);
        } else if !c.reached && Collect(allowed, rate, c.signers, rb).Some? {
          NotReachedStaysBelow(allowed, rate, c.signers, rb);
        }
      }
    }
  }

  /**
    Chunked signing equals single-shot signing, without conditions: signing `a ++ b` succeeds exactly
    when signing `a` and then `b` both do, and then leaves the same accounts, log and answer.
  */
  lemma ChunkedSigningEqualsSingleShot(env: Env, w: World, executor: Pubkey, opHash: seq<byte>, a: seq<Signature>, b: seq<Signature>)
    requires opHash in w.ops ==> SignersOk(w.ops[opHash])
    ensures var whole, first := SignStep(env, w, executor, opHash, a + b), SignStep(env, w, executor, opHash, a);
            if first.Err? then whole.Err?
            else
              var second := SignStep(env, first.value.0, executor, opHash, b);
              if second.Err? then whole.Err? else whole == second
  {
    if opHash in w.ops && CheckExecutor(w, w.ops[opHash].opData.protocolId, executor).Ok? {
      var op := w.ops[opHash];
      var info := w.protocols[op.opData.protocolId];
      SignOpChunks(env.crypto, info, op, opHash, a, b);
      if SignStep(env, w, executor, opHash, a).Ok? {
        SignOpEffect(env.crypto, info, op, opHash, a);
        var first := SignStep(env, w, executor, opHash, a).value.0;
        if SignOp(env.crypto, info, first.ops[opHash], opHash, b).Ok? {
          var second := SignStep(env, first, executor, opHash, b).value.0;
          var whole := SignStep(env, w, executor, opHash, a + b).value.0;
          assert second.ops == whole.ops;
          assert second.log == whole.log;
        }
      }
    }
  }
}
