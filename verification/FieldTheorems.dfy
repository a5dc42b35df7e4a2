/**
 * Where every field of every message goes, field by field and by name: conversion copies each
 * field to the one of the same name, in both directions, and texts are the only ones rewritten.
 */
module FieldTheorems {
  import opened Bytes
  import opened Utf8
  import opened Sv2Messages
  import opened InnerMessages
  import opened Conversion
  import opened MessageTheorems

  /** What happens to texts: nothing on the way in, lossy conversion on the way out. */
  datatype Rewrite = Unchanged | MadeWellFormed

  function Text(t: Rewrite, s: seq<byte>): seq<byte> {
    if t.Unchanged? then s else Lossy(s)
  }

  /** The number a byte string denotes, least significant byte first. */
  function LittleEndian(s: seq<byte>): int {
    if s == [] then 0 else s[0] + 256 * LittleEndian(s[1..])
  }

  predicate IsProtocol(b: byte, p: Protocol) {
    match p
    case MiningProtocol => b == 0
    case JobDeclarationProtocol => b == 1
    case TemplateDistributionProtocol => b == 2
  }

  predicate SameCommon(i: CommonMessage, m: Sv2Message, t: Rewrite) {
    && (i.SetupConnection? ==>
         m.SetupConnection? && IsProtocol(m.protocol, i.protocol) && m.minVersion == i.minVersion &&
         m.maxVersion == i.maxVersion && m.flags == i.flags && m.endpointHost == Text(t, i.endpointHost) &&
         m.endpointPort == i.endpointPort && m.vendor == Text(t, i.vendor) &&
         m.hardwareVersion == Text(t, i.hardwareVersion) && m.firmware == Text(t, i.firmware) &&
         m.deviceId == Text(t, i.deviceId))
    && (i.SetupConnectionSuccess? ==>
         m.SetupConnectionSuccess? && m.usedVersion == i.usedVersion && m.flags == i.flags)
    && (i.SetupConnectionError? ==>
         m.SetupConnectionError? && m.flags == i.flags && m.errorCode == Text(t, i.errorCode))
    && (i.ChannelEndpointChanged? ==> m.ChannelEndpointChanged? && m.channelId == i.channelId)
    && (i.Reconnect? ==> m.Reconnect? && m.newHost == Text(t, i.newHost) && m.newPort == i.newPort)
  }

  predicate SameChannel(i: MiningMessage, m: Sv2Message, t: Rewrite) {
    && (i.OpenStandardMiningChannel? ==>
         m.OpenStandardMiningChannel? && m.requestId == LittleEndian(i.requestIdLe) &&
         m.userIdentity == Text(t, i.userIdentity) && m.nominalHashRate == i.nominalHashRate &&
         m.maxTarget == i.maxTarget)
    && (i.OpenStandardMiningChannelSuccess? ==>
         m.OpenStandardMiningChannelSuccess? && m.requestId == LittleEndian(i.requestIdLe) &&
         m.channelId == i.channelId && m.target == i.target && m.extranoncePrefix == i.extranoncePrefix &&
         m.groupChannelId == i.groupChannelId)
    && (i.OpenExtendedMiningChannel? ==>
         m.OpenExtendedMiningChannel? && m.requestId == i.requestId && m.userIdentity == Text(t, i.userIdentity) &&
         m.nominalHashRate == i.nominalHashRate && m.maxTarget == i.maxTarget &&
         m.minExtranonceSize == i.minExtranonceSize)
    && (i.OpenExtendedMiningChannelSuccess? ==>
         m.OpenExtendedMiningChannelSuccess? && m.requestId == i.requestId && m.channelId == i.channelId &&
         m.target == i.target && m.extranonceSize == i.extranonceSize &&
         m.extranoncePrefix == i.extranoncePrefix)
    && (i.OpenMiningChannelError? ==>
         m.OpenMiningChannelError? && m.requestId == i.requestId && m.errorCode == Text(t, i.errorCode))
    && (i.UpdateChannel? ==>
         m.UpdateChannel? && m.channelId == i.channelId && m.nominalHashRate == i.nominalHashRate &&
         m.maximumTarget == i.maximumTarget)
    && (i.UpdateChannelError? ==>
         m.UpdateChannelError? && m.channelId == i.channelId && m.errorCode == Text(t, i.errorCode))
    && (i.CloseChannel? ==> m.CloseChannel? && m.channelId == i.channelId && m.reasonCode == Text(t, i.reasonCode))
    && (i.SetExtranoncePrefix? ==>
         m.SetExtranoncePrefix? && m.channelId == i.channelId && m.extranoncePrefix == i.extranoncePrefix)
  }

  predicate SameShare(i: MiningMessage, m: Sv2Message, t: Rewrite) {
    && (i.SubmitSharesStandard? ==>
         m.SubmitSharesStandard? && m.channelId == i.channelId && m.sequenceNumber == i.sequenceNumber &&
         m.jobId == i.jobId && m.nonce == i.nonce && m.ntime == i.ntime && m.version == i.version)
    && (i.SubmitSharesExtended? ==>
         m.SubmitSharesExtended? && m.channelId == i.channelId && m.sequenceNumber == i.sequenceNumber &&
         m.jobId == i.jobId && m.nonce == i.nonce && m.ntime == i.ntime && m.version == i.version &&
         m.extranonce == i.extranonce)
    && (i.SubmitSharesSuccess? ==>
         m.SubmitSharesSuccess? && m.channelId == i.channelId && m.lastSequenceNumber == i.lastSequenceNumber &&
         m.newSubmitsAcceptedCount == i.newSubmitsAcceptedCount && m.newSharesSum == i.newSharesSum)
    && (i.SubmitSharesError? ==>
         m.SubmitSharesError? && m.channelId == i.channelId && m.sequenceNumber == i.sequenceNumber &&
         m.errorCode == Text(t, i.errorCode))
  }

  predicate SameJob(i: MiningMessage, m: Sv2Message, t: Rewrite) {
    && (i.NewMiningJob? ==>
         m.NewMiningJob? && m.channelId == i.channelId && m.jobId == i.jobId &&
         m.minNtimeIfActive == i.minNtimeIfActive && m.version == i.version && m.merkleRoot == i.merkleRoot)
    && (i.NewExtendedMiningJob? ==>
         m.NewExtendedMiningJob? && m.channelId == i.channelId && m.jobId == i.jobId &&
         m.minNtimeIfActive == i.minNtimeIfActive && m.version == i.version &&
         m.versionRollingAllowed == i.versionRollingAllowed && m.merklePath == i.merklePath &&
         m.coinbaseTxPrefix == i.coinbaseTxPrefix && m.coinbaseTxSuffix == i.coinbaseTxSuffix)
    && (i.SetNewPrevHash? ==>
         m.SetNewPrevHashMining? && m.channelId == i.channelId && m.jobId == i.jobId &&
         m.prevHash == i.prevHash && m.minNtime == i.minNtime && m.nbits == i.nbits)
    && (i.SetCustomMiningJob? ==>
         m.SetCustomMiningJob? && m.channelId == i.channelId && m.requestId == i.requestId &&
         m.miningJobToken == i.token && m.version == i.version && m.prevHash == i.prevHash &&
         m.minNtime == i.minNtime && m.nbits == i.nbits && m.coinbaseTxVersion == i.coinbaseTxVersion &&
         m.coinbasePrefix == i.coinbasePrefix && m.coinbaseTxInputNsequence == i.coinbaseTxInputNsequence &&
         m.coinbaseTxOutputs == i.coinbaseTxOutputs && m.coinbaseTxLocktime == i.coinbaseTxLocktime &&
         m.merklePath == i.merklePath)
    && (i.SetCustomMiningJobSuccess? ==>
         m.SetCustomMiningJobSuccess? && m.channelId == i.channelId && m.requestId == i.requestId &&
         m.jobId == i.jobId)
    && (i.SetCustomMiningJobError? ==>
         m.SetCustomMiningJobError? && m.channelId == i.channelId && m.requestId == i.requestId &&
         m.errorCode == Text(t, i.errorCode))
    && (i.SetTarget? ==> m.SetTarget? && m.channelId == i.channelId && m.maximumTarget == i.maximumTarget)
    && (i.SetGroupChannel? ==>
         m.SetGroupChannel? && m.groupChannelId == i.groupChannelId && m.channelIds == i.channelIds)
  }

  predicate ConcernsShares(i: MiningMessage) {
    i.SubmitSharesStandard? || i.SubmitSharesExtended? || i.SubmitSharesSuccess? || i.SubmitSharesError?
  }

  predicate SameMining(i: MiningMessage, m: Sv2Message, t: Rewrite) {
    if OpensOrUpdates(i) then SameChannel(i, m, t)
    else if ConcernsShares(i) then SameShare(i, m, t)
    else SameJob(i, m, t)
  }

  predicate SameJobDeclaration(i: JobDeclarationMessage, m: Sv2Message, t: Rewrite) {
    && (i.AllocateMiningJobToken? ==>
         m.AllocateMiningJobToken? && m.userIdentifier == Text(t, i.userIdentifier) && m.requestId == i.requestId)
    && (i.AllocateMiningJobTokenSuccess? ==>
         m.AllocateMiningJobTokenSuccess? && m.requestId == i.requestId &&
         m.miningJobToken == i.miningJobToken && m.coinbaseTxOutputs == i.coinbaseOutputs)
    && (i.DeclareMiningJob? ==>
         m.DeclareMiningJob? && m.requestId == i.requestId && m.miningJobToken == i.miningJobToken &&
         m.version == i.version && m.coinbaseTxPrefix == i.coinbaseTxPrefix &&
         m.coinbaseTxSuffix == i.coinbaseTxSuffix && m.txIdsList == i.txIdsList && m.excessData == i.excessData)
    && (i.DeclareMiningJobSuccess? ==>
         m.DeclareMiningJobSuccess? && m.requestId == i.requestId && m.newMiningJobToken == i.newMiningJobToken)
    && (i.DeclareMiningJobError? ==>
         m.DeclareMiningJobError? && m.requestId == i.requestId && m.errorCode == Text(t, i.errorCode) &&
         m.errorDetails == i.errorDetails)
    && (i.ProvideMissingTransactions? ==>
         m.ProvideMissingTransactions? && m.requestId == i.requestId &&
         m.unknownTxPositionList == i.unknownTxPositionList)
    && (i.ProvideMissingTransactionsSuccess? ==>
         m.ProvideMissingTransactionsSuccess? && m.requestId == i.requestId &&
         m.transactionList == i.transactionList)
    && (i.PushSolution? ==>
         m.PushSolution? && m.extranonce == i.extranonce && m.prevHash == i.prevHash && m.nonce == i.nonce &&
         m.ntime == i.ntime && m.nbits == i.nbits && m.version == i.version)
  }

  predicate SameTemplateDistribution(i: TemplateDistributionMessage, m: Sv2Message, t: Rewrite) {
    && (i.CoinbaseOutputConstraints? ==>
         m.CoinbaseOutputConstraints? &&
         m.coinbaseOutputMaxAdditionalSize == i.coinbaseOutputMaxAdditionalSize &&
         m.coinbaseOutputMaxAdditionalSigops == i.coinbaseOutputMaxAdditionalSigops)
    && (i.NewTemplate? ==>
         m.NewTemplate? && m.templateId == i.templateId && m.futureTemplate == i.futureTemplate &&
         m.version == i.version && m.coinbaseTxVersion == i.coinbaseTxVersion &&
         m.coinbasePrefix == i.coinbasePrefix && m.coinbaseTxInputSequence == i.coinbaseTxInputSequence &&
         m.coinbaseTxValueRemaining == i.coinbaseTxValueRemaining &&
         m.coinbaseTxOutputsCount == i.coinbaseTxOutputsCount && m.coinbaseTxOutputs == i.coinbaseTxOutputs &&
         m.coinbaseTxLocktime == i.coinbaseTxLocktime && m.merklePath == i.merklePath)
    && (i.SetNewPrevHash? ==>
         m.SetNewPrevHashTemplateDistribution? && m.templateId == i.templateId && m.prevHash == i.prevHash &&
         m.headerTimestamp == i.headerTimestamp && m.nbits == i.nBits && m.target == i.target)
    && (i.RequestTransactionData? ==> m.RequestTransactionData? && m.templateId == i.templateId)
    && (i.RequestTransactionDataSuccess? ==>
         m.RequestTransactionDataSuccess? && m.templateId == i.templateId && m.excessData == i.excessData &&
         m.transactionList == i.transactionList)
    && (i.RequestTransactionDataError? ==>
         m.RequestTransactionDataError? && m.templateId == i.templateId && m.errorCode == Text(t, i.errorCode))
    && (i.SubmitSolution? ==>
         m.SubmitSolution? && m.templateId == i.templateId && m.version == i.version &&
         m.headerTimestamp == i.headerTimestamp && m.headerNonce == i.headerNonce &&
         m.coinbaseTx == i.coinbaseTx)
  }

  /** Same variant, same fields. */
  predicate SameFields(i: InnerMessage, m: Sv2Message, t: Rewrite) {
    match i
    case Common(c) => SameCommon(c, m, t)
    case Mining(mi) => SameMining(mi, m, t)
    case JobDeclaration(j) => SameJobDeclaration(j, m, t)
    case TemplateDistribution(d) => SameTemplateDistribution(d, m, t)
  }
  // ----- on the way out -----

  lemma RequestIdIsLittleEndian(s: U32AsRef)
    ensures LittleEndian(s) == FromLeBytes(s)
  {
    var a: int, b: int, c: int, d: int := s[0], s[1], s[2], s[3];
    assert s[1..][1..] == s[2..];
    assert s[2..][1..] == s[3..];
    assert s[3..][1..] == [];
    assert LittleEndian(s[3..]) == d;
    assert LittleEndian(s[2..]) == c + 256 * d;
  }

  lemma CommonFieldsOut(c: CommonMessage, m: Sv2Message)
    ensures CommonToMessage(c) == m <==> SameCommon(c, m, MadeWellFormed)
  {
    hide Lossy, Valid;
  }

  lemma ChannelFieldsOut(mi: MiningMessage, m: Sv2Message)
    requires OpensOrUpdates(mi)
    ensures MiningToMessage(mi) == m <==> SameMining(mi, m, MadeWellFormed)
  {
    hide SameShare, SameJob, Lossy, Valid, LittleEndian, FromLeBytes;
    match mi
    case OpenStandardMiningChannel(id, _, _, _) => RequestIdIsLittleEndian(id);
    case OpenStandardMiningChannelSuccess(id, _, _, _, _) => RequestIdIsLittleEndian(id);
    case _ =>
  }

  lemma ShareFieldsOut(mi: MiningMessage, m: Sv2Message)
    requires ConcernsShares(mi)
    ensures MiningToMessage(mi) == m <==> SameMining(mi, m, MadeWellFormed)
  {
    hide SameChannel, SameJob, Lossy, Valid;
  }

  lemma JobFieldsOut(mi: MiningMessage, m: Sv2Message)
    requires !OpensOrUpdates(mi) && !ConcernsShares(mi)
    ensures MiningToMessage(mi) == m <==> SameMining(mi, m, MadeWellFormed)
  {
    hide SameChannel, SameShare, Lossy, Valid;
  }

  lemma MiningFieldsOut(mi: MiningMessage, m: Sv2Message)
    ensures MiningToMessage(mi) == m <==> SameMining(mi, m, MadeWellFormed)
  {
    hide Lossy, MiningToMessage, SameMining;
    if OpensOrUpdates(mi) {
      ChannelFieldsOut(mi, m);
    } else if ConcernsShares(mi) {
      ShareFieldsOut(mi, m);
    } else {
      JobFieldsOut(mi, m);
    }
  }

  lemma JobDeclarationFieldsOut(j: JobDeclarationMessage, m: Sv2Message)
    ensures JobDeclarationToMessage(j) == m <==> SameJobDeclaration(j, m, MadeWellFormed)
  {
    hide Lossy, Valid;
  }

  lemma TemplateDistributionFieldsOut(d: TemplateDistributionMessage, m: Sv2Message)
    ensures TemplateDistributionToMessage(d) == m <==> SameTemplateDistribution(d, m, MadeWellFormed)
  {
    hide Lossy, Valid;
  }

  /** The message that goes out is the one of the same variant with the same fields, texts made well formed. */
  lemma OutwardIsFieldwise(i: InnerMessage, m: Sv2Message)
    ensures InnerToMessage(i) == m <==> SameFields(i, m, MadeWellFormed)
  {
    hide SameCommon, SameMining, SameJobDeclaration, SameTemplateDistribution;
    hide CommonToMessage, MiningToMessage, JobDeclarationToMessage, TemplateDistributionToMessage;
    match i
    case Common(c) => CommonFieldsOut(c, m);
    case Mining(mi) => MiningFieldsOut(mi, m);
    case JobDeclaration(j) => JobDeclarationFieldsOut(j, m);
    case TemplateDistribution(d) => TemplateDistributionFieldsOut(d, m);
  }

  // ----- on the way in -----

  predicate IsValid(s: seq<byte>) {
    Valid(s)
  }

  lemma CommonTextsKept(c: CommonMessage, m: Sv2Message)
    ensures SameCommon(c, m, Unchanged) <==> SameCommon(c, m, MadeWellFormed) && CommonTexts(c, IsValid)
  {
    hide Lossy, Valid;
    match c
    case SetupConnection(_, _, _, _, host, _, vendor, hardware, firmware, device) =>
      LossyFixesExactlyValid(host);
      LossyFixesExactlyValid(vendor);
      LossyFixesExactlyValid(hardware);
      LossyFixesExactlyValid(firmware);
      LossyFixesExactlyValid(device);
    case SetupConnectionError(_, code) => LossyFixesExactlyValid(code);
    case Reconnect(host, _) => LossyFixesExactlyValid(host);
    case _ =>
  }

  predicate NamesUser(mi: MiningMessage) {
    mi.OpenStandardMiningChannel? || mi.OpenExtendedMiningChannel?
  }

  lemma UserTextsKept(mi: MiningMessage, m: Sv2Message)
    requires NamesUser(mi)
    ensures SameMining(mi, m, Unchanged) <==> SameMining(mi, m, MadeWellFormed) && MiningTexts(mi, IsValid)
  {
    hide SameShare, SameJob, Lossy, Valid, LittleEndian;
    LossyFixesExactlyValid(mi.userIdentity);
  }

  lemma CodeTextsKept(mi: MiningMessage, m: Sv2Message)
    requires OpensOrUpdates(mi) && !NamesUser(mi)
    ensures SameMining(mi, m, Unchanged) <==> SameMining(mi, m, MadeWellFormed) && MiningTexts(mi, IsValid)
  {
    hide SameShare, SameJob, Lossy, Valid, LittleEndian;
    match mi
    case OpenMiningChannelError(_, code) => LossyFixesExactlyValid(code);
    case UpdateChannelError(_, code) => LossyFixesExactlyValid(code);
    case CloseChannel(_, code) => LossyFixesExactlyValid(code);
    case _ =>
  }

  lemma ShareTextsKept(mi: MiningMessage, m: Sv2Message)
    requires ConcernsShares(mi)
    ensures SameMining(mi, m, Unchanged) <==> SameMining(mi, m, MadeWellFormed) && MiningTexts(mi, IsValid)
  {
    hide SameChannel, SameJob, Lossy, Valid;
    match mi
    case SubmitSharesError(_, _, code) => LossyFixesExactlyValid(code);
    case _ =>
  }

  lemma JobTextsKept(mi: MiningMessage, m: Sv2Message)
    requires !OpensOrUpdates(mi) && !ConcernsShares(mi)
    ensures SameMining(mi, m, Unchanged) <==> SameMining(mi, m, MadeWellFormed) && MiningTexts(mi, IsValid)
  {
    hide SameChannel, SameShare, Lossy, Valid;
    match mi
    case SetCustomMiningJobError(_, _, code) => LossyFixesExactlyValid(code);
    case _ =>
  }

  lemma MiningTextsKept(mi: MiningMessage, m: Sv2Message)
    ensures SameMining(mi, m, Unchanged) <==> SameMining(mi, m, MadeWellFormed) && MiningTexts(mi, IsValid)
  {
    hide Lossy, MiningTexts, SameMining, IsValid;
    if NamesUser(mi) {
      UserTextsKept(mi, m);
    } else if OpensOrUpdates(mi) {
      CodeTextsKept(mi, m);
    } else if ConcernsShares(mi) {
      ShareTextsKept(mi, m);
    } else {
      JobTextsKept(mi, m);
    }
  }

  lemma JobDeclarationTextsKept(j: JobDeclarationMessage, m: Sv2Message)
    ensures SameJobDeclaration(j, m, Unchanged)
            <==> SameJobDeclaration(j, m, MadeWellFormed) && JobDeclarationTexts(j, IsValid)
  {
    hide Lossy, Valid;
    if j.AllocateMiningJobToken? {
      LossyFixesExactlyValid(j.userIdentifier);
    } else if j.DeclareMiningJobError? {
      LossyFixesExactlyValid(j.errorCode);
    }
  }

  lemma TemplateDistributionTextsKept(d: TemplateDistributionMessage, m: Sv2Message)
    ensures SameTemplateDistribution(d, m, Unchanged)
            <==> SameTemplateDistribution(d, m, MadeWellFormed) && TemplateDistributionTexts(d, IsValid)
  {
    hide Lossy, Valid;
    match d
    case RequestTransactionDataError(_, code) => LossyFixesExactlyValid(code);
    case _ =>
  }

  lemma AllValidTexts(i: InnerMessage)
    ensures AllValid(i) <==> AllTexts(i, IsValid)
  {
    hide Valid;
  }

  /** Texts that are unchanged are well formed, as the message's own texts are. */
  lemma TextsKept(i: InnerMessage, m: Sv2Message)
    ensures SameFields(i, m, Unchanged) <==> SameFields(i, m, MadeWellFormed) && AllValid(i)
  {
    hide SameCommon, SameMining, SameJobDeclaration, SameTemplateDistribution;
    AllValidTexts(i);
    hide CommonTexts, MiningTexts, JobDeclarationTexts, TemplateDistributionTexts, AllValid;
    match i
    case Common(c) => CommonTextsKept(c, m);
    case Mining(mi) => MiningTextsKept(mi, m);
    case JobDeclaration(j) => JobDeclarationTextsKept(j, m);
    case TemplateDistribution(d) => TemplateDistributionTextsKept(d, m);
  }

  /**
   * A message converts to a wire message exactly when the two are of the same variant and have
   * the same fields: the wire message's own bounds are all that can stand in the way.
   */
  lemma InwardIsFieldwise(m: Sv2Message, i: InnerMessage)
    ensures MessageToInner(m) == Ok(i) <==> SameFields(i, m, Unchanged)
  {
    hide MessageToInner, InnerToMessage, SameFields, AllValid;
    MessageRoundTrip(m);
    OutThenInIsIdentity(i);
    OutwardIsFieldwise(i, m);
    TextsKept(i, m);
  }
}
