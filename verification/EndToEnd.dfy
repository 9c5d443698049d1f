/** From a proposal on one chain to the operation an executor would load for it. */
module EndToEnd {
  import opened Wrappers
  import opened Bytes
  import PD = ProtocolData
  import TD = TransmitterData
  import opened State
  import opened Photon
  import opened RetroReader
  import opened Listener
  import opened Instructions

  /** The event a successful proposal adds. */
  function ProposedEvent(env: Env, w: World, ix: Instruction): Event
    requires ix.Propose? && Photon.Step(env, w, ix).Ok?
  {
    ProposeExactly(env, w, ix.proposer, ix.protocolId, ix.dstChainId, ix.protocolAddress, ix.functionSelector, ix.params);
    Apply(env, w, ix).log[|w.log|]
  }

  /**
    What is proposed is what arrives: for a proposal to a 32-byte address under an allowed protocol, the
    listener's record converts to an operation with the proposed selector, params, chain, address and the
    proposal's number, and the two sides hash the same bytes for it.
  */
  lemma ProposalArrives(env: Env, w: World, ix: Instruction, cfg: Settings, isUtf8: seq<byte> -> bool,
                        signature: TxSignature, slot: u64, needCheck: bool)
    requires ix.Propose? && Photon.Step(env, w, ix).Ok?
    requires ix.protocolId in cfg.allowed && |ix.protocolId| == 32 && cfg.signatureBytes(signature).Some?
    requires |ix.protocolAddress| == 32 && !ix.functionSelector.Dummy?
    requires ix.functionSelector.ByName? ==> isUtf8(ix.functionSelector.name)
    ensures var e := ProposedEvent(env, w, ix);
            && e.ProposeEvent? && ProposalFor(cfg, e, signature, slot, needCheck).Some?
            && var sent := ProposalFor(cfg, e, signature, slot, needCheck).value.operationData;
               && TD.ToOnChain(isUtf8, sent).Ok?
               && var op := TD.ToOnChain(isUtf8, sent).value;
                  && op.protocolId == ix.protocolId && op.nonce == ConfigOf(w).nonce
                  && op.destChainId == ix.dstChainId && op.protocolAddr == ix.protocolAddress
                  && op.functionSelector == ix.functionSelector && op.params == ix.params
                  && Some(TD.OpDataEvm(sent)) == PD.OpDataEvm(op)
  {
    ProposeExactly(env, w, ix.proposer, ix.protocolId, ix.dstChainId, ix.protocolAddress, ix.functionSelector, ix.params);
    var e := ProposedEvent(env, w, ix);
    ProposalExactly(cfg, e, signature, slot, needCheck);
    var sent := ProposalFor(cfg, e, signature, slot, needCheck).value.operationData;
    TD.PreimagesAgreeOnWrittenSelector(isUtf8, sent, ix.functionSelector);
  }
}
