/**
 * The conversion pair between the public messages and the wire-format library's messages:
 * `MessageToInner` checks sizes and stops at the first failure, `InnerToMessage` is total
 * and turns ill-formed text into well-formed text.
 */
module Conversion {
  import opened Bytes
  import opened Utf8
  import opened InnerMessages
  import opened Sv2Messages

  datatype Sv2MessageError = FailedToConvertProtocol | FailedToSerializeString | FailedToSerializeByteArray

  function ProtocolFromByte(b: byte): Result<Protocol, Sv2MessageError> {
    match b
    case 0 => Ok(MiningProtocol)
    case 1 => Ok(JobDeclarationProtocol)
    case 2 => Ok(TemplateDistributionProtocol)
    case _ => Err(FailedToConvertProtocol)
  }

  function ProtocolToByte(p: Protocol): byte {
    match p
    case MiningProtocol => 0
    case JobDeclarationProtocol => 1
    case TemplateDistributionProtocol => 2
  }

  function ToLeBytes(n: u32): U32AsRef {
    [n % 256, n / 256 % 256, n / 65536 % 256, n / 16777216]
  }

  function FromLeBytes(s: U32AsRef): u32 {
    var a: int, b: int, c: int, d: int := s[0], s[1], s[2], s[3];
    a + b * 256 + c * 65536 + d * 16777216
  }

  function TextToStr0255(s: Utf8String): Result<Str0255, Sv2MessageError> {
    if |s| <= 255 then Ok(s) else Err(FailedToSerializeString)
  }

  function BytesToU256(s: seq<byte>): Result<U256, Sv2MessageError> {
    if |s| == 32 then Ok(s) else Err(FailedToSerializeByteArray)
  }

  function BytesToB032(s: seq<byte>): Result<B032, Sv2MessageError> {
    if |s| <= 32 then Ok(s) else Err(FailedToSerializeByteArray)
  }

  function BytesToB0255(s: seq<byte>): Result<B0255, Sv2MessageError> {
    if |s| <= 255 then Ok(s) else Err(FailedToSerializeByteArray)
  }

  function BytesToB064K(s: seq<byte>): Result<B064K, Sv2MessageError> {
    if |s| <= 0xFFFF then Ok(s) else Err(FailedToSerializeByteArray)
  }

  function BytesToB016M(s: seq<byte>): Result<B016M, Sv2MessageError> {
    if |s| <= 0xFF_FFFF then Ok(s) else Err(FailedToSerializeByteArray)
  }

  /** Converts every element, stopping at the first that does not fit. */
  function CollectU256(items: seq<seq<byte>>): (r: Result<seq<U256>, Sv2MessageError>)
    ensures r.Ok? <==> forall i :: 0 <= i < |items| ==> |items[i]| == 32
    ensures r.Ok? ==> r.value == items
    ensures r.Err? ==> r.error == FailedToSerializeByteArray
  {
    if items == [] then Ok([]) else
    var first :- BytesToU256(items[0]);
    var rest :- CollectU256(items[1..]);
    Ok([first] + rest)
  }

  function CollectB016M(items: seq<seq<byte>>): (r: Result<seq<B016M>, Sv2MessageError>)
    ensures r.Ok? <==> forall i :: 0 <= i < |items| ==> |items[i]| <= 0xFF_FFFF
    ensures r.Ok? ==> r.value == items
    ensures r.Err? ==> r.error == FailedToSerializeByteArray
  {
    if items == [] then Ok([]) else
    var first :- BytesToB016M(items[0]);
    var rest :- CollectB016M(items[1..]);
    Ok([first] + rest)
  }

  function MessageToInner(m: Sv2Message): Result<InnerMessage, Sv2MessageError> {
    match m
    case SetupConnection(protocol, minVersion, maxVersion, flags, endpointHost, endpointPort, vendor, hardwareVersion,
        firmware, deviceId) =>
      var protocol :- ProtocolFromByte(protocol);
      var endpointHost :- TextToStr0255(endpointHost);
      var vendor :- TextToStr0255(vendor);
      var hardwareVersion :- TextToStr0255(hardwareVersion);
      var firmware :- TextToStr0255(firmware);
      var deviceId :- TextToStr0255(deviceId);
      Ok(Common(CommonMessage.SetupConnection(protocol, minVersion, maxVersion, flags, endpointHost, endpointPort,
          vendor, hardwareVersion, firmware, deviceId)))
    case SetupConnectionSuccess(usedVersion, flags) =>
      Ok(Common(CommonMessage.SetupConnectionSuccess(usedVersion, flags)))
    case SetupConnectionError(flags, errorCode) =>
      var errorCode :- TextToStr0255(errorCode);
      Ok(Common(CommonMessage.SetupConnectionError(flags, errorCode)))
    case ChannelEndpointChanged(channelId) =>
      Ok(Common(CommonMessage.ChannelEndpointChanged(channelId)))
    case Reconnect(newHost, newPort) =>
      var newHost :- TextToStr0255(newHost);
      Ok(Common(CommonMessage.Reconnect(newHost, newPort)))
    case OpenStandardMiningChannel(requestId, userIdentity, nominalHashRate, maxTarget) =>
      var maxTarget :- BytesToU256(maxTarget);
      var userIdentity :- TextToStr0255(userIdentity);
      Ok(Mining(MiningMessage.OpenStandardMiningChannel(ToLeBytes(requestId), userIdentity, nominalHashRate,
          maxTarget)))
    case OpenStandardMiningChannelSuccess(requestId, channelId, target, extranoncePrefix, groupChannelId) =>
      var target :- BytesToU256(target);
      var extranoncePrefix :- BytesToB032(extranoncePrefix);
      Ok(Mining(MiningMessage.OpenStandardMiningChannelSuccess(ToLeBytes(requestId), channelId, target,
          extranoncePrefix, groupChannelId)))
    case OpenExtendedMiningChannel(requestId, userIdentity, nominalHashRate, maxTarget, minExtranonceSize) =>
      var maxTarget :- BytesToU256(maxTarget);
      var userIdentity :- TextToStr0255(userIdentity);
      Ok(Mining(MiningMessage.OpenExtendedMiningChannel(requestId, userIdentity, nominalHashRate, maxTarget,
          minExtranonceSize)))
    case OpenExtendedMiningChannelSuccess(requestId, channelId, target, extranonceSize, extranoncePrefix) =>
      var target :- BytesToU256(target);
      var extranoncePrefix :- BytesToB032(extranoncePrefix);
      Ok(Mining(MiningMessage.OpenExtendedMiningChannelSuccess(requestId, channelId, target, extranonceSize,
          extranoncePrefix)))
    case OpenMiningChannelError(requestId, errorCode) =>
      var errorCode :- TextToStr0255(errorCode);
      Ok(Mining(MiningMessage.OpenMiningChannelError(requestId, errorCode)))
    case UpdateChannel(channelId, nominalHashRate, maximumTarget) =>
      var maximumTarget :- BytesToU256(maximumTarget);
      Ok(Mining(MiningMessage.UpdateChannel(channelId, nominalHashRate, maximumTarget)))
    case UpdateChannelError(channelId, errorCode) =>
      var errorCode :- TextToStr0255(errorCode);
      Ok(Mining(MiningMessage.UpdateChannelError(channelId, errorCode)))
    case CloseChannel(channelId, reasonCode) =>
      var reasonCode :- TextToStr0255(reasonCode);
      Ok(Mining(MiningMessage.CloseChannel(channelId, reasonCode)))
    case SetExtranoncePrefix(channelId, extranoncePrefix) =>
      var extranoncePrefix :- BytesToB032(extranoncePrefix);
      Ok(Mining(MiningMessage.SetExtranoncePrefix(channelId, extranoncePrefix)))
    case SubmitSharesStandard(channelId, sequenceNumber, jobId, nonce, ntime, version) =>
      Ok(Mining(MiningMessage.SubmitSharesStandard(channelId, sequenceNumber, jobId, nonce, ntime, version)))
    case SubmitSharesExtended(channelId, sequenceNumber, jobId, nonce, ntime, version, extranonce) =>
      var extranonce :- BytesToB032(extranonce);
      Ok(Mining(MiningMessage.SubmitSharesExtended(channelId, sequenceNumber, jobId, nonce, ntime, version,
          extranonce)))
    case SubmitSharesSuccess(channelId, lastSequenceNumber, newSubmitsAcceptedCount, newSharesSum) =>
      Ok(Mining(MiningMessage.SubmitSharesSuccess(channelId, lastSequenceNumber, newSubmitsAcceptedCount,
          newSharesSum)))
    case SubmitSharesError(channelId, sequenceNumber, errorCode) =>
      var errorCode :- TextToStr0255(errorCode);
      Ok(Mining(MiningMessage.SubmitSharesError(channelId, sequenceNumber, errorCode)))
    case NewMiningJob(channelId, jobId, minNtimeIfActive, version, merkleRoot) =>
      var merkleRoot :- BytesToU256(merkleRoot);
      Ok(Mining(MiningMessage.NewMiningJob(channelId, jobId, minNtimeIfActive, version, merkleRoot)))
    case NewExtendedMiningJob(channelId, jobId, minNtimeIfActive, version, versionRollingAllowed, merklePath,
        coinbaseTxPrefix, coinbaseTxSuffix) =>
      var merklePath :- CollectU256(merklePath);
      var coinbaseTxPrefix :- BytesToB064K(coinbaseTxPrefix);
      var coinbaseTxSuffix :- BytesToB064K(coinbaseTxSuffix);
      Ok(Mining(MiningMessage.NewExtendedMiningJob(channelId, jobId, minNtimeIfActive, version, versionRollingAllowed,
          merklePath, coinbaseTxPrefix, coinbaseTxSuffix)))
    case SetNewPrevHashMining(channelId, jobId, prevHash, minNtime, nbits) =>
      var prevHash :- BytesToU256(prevHash);
      Ok(Mining(MiningMessage.SetNewPrevHash(channelId, jobId, prevHash, minNtime, nbits)))
    case SetCustomMiningJob(channelId, requestId, miningJobToken, version, prevHash, minNtime, nbits,
        coinbaseTxVersion, coinbasePrefix, coinbaseTxInputNsequence, coinbaseTxOutputs, coinbaseTxLocktime,
        merklePath) =>
      var merklePath :- CollectU256(merklePath);
      var miningJobToken :- BytesToB0255(miningJobToken);
      var prevHash :- BytesToU256(prevHash);
      var coinbasePrefix :- BytesToB0255(coinbasePrefix);
      var coinbaseTxOutputs :- BytesToB064K(coinbaseTxOutputs);
      Ok(Mining(MiningMessage.SetCustomMiningJob(channelId, requestId, miningJobToken, version, prevHash, minNtime,
          nbits, coinbaseTxVersion, coinbasePrefix, coinbaseTxInputNsequence, coinbaseTxOutputs, coinbaseTxLocktime,
          merklePath)))
    case SetCustomMiningJobSuccess(channelId, requestId, jobId) =>
      Ok(Mining(MiningMessage.SetCustomMiningJobSuccess(channelId, requestId, jobId)))
    case SetCustomMiningJobError(channelId, requestId, errorCode) =>
      var errorCode :- TextToStr0255(errorCode);
      Ok(Mining(MiningMessage.SetCustomMiningJobError(channelId, requestId, errorCode)))
    case SetTarget(channelId, maximumTarget) =>
      var maximumTarget :- BytesToU256(maximumTarget);
      Ok(Mining(MiningMessage.SetTarget(channelId, maximumTarget)))
    case SetGroupChannel(groupChannelId, channelIds) =>
      Ok(Mining(MiningMessage.SetGroupChannel(groupChannelId, channelIds)))
    case AllocateMiningJobToken(userIdentifier, requestId) =>
      var userIdentifier :- TextToStr0255(userIdentifier);
      Ok(JobDeclaration(JobDeclarationMessage.AllocateMiningJobToken(userIdentifier, requestId)))
    case AllocateMiningJobTokenSuccess(requestId, miningJobToken, coinbaseTxOutputs) =>
      var miningJobToken :- BytesToB0255(miningJobToken);
      var coinbaseTxOutputs :- BytesToB064K(coinbaseTxOutputs);
      Ok(JobDeclaration(JobDeclarationMessage.AllocateMiningJobTokenSuccess(requestId, miningJobToken,
          coinbaseTxOutputs)))
    case DeclareMiningJob(requestId, miningJobToken, version, coinbaseTxPrefix, coinbaseTxSuffix, txIdsList,
        excessData) =>
      var txIdsList :- CollectU256(txIdsList);
      var miningJobToken :- BytesToB0255(miningJobToken);
      var coinbaseTxPrefix :- BytesToB064K(coinbaseTxPrefix);
      var coinbaseTxSuffix :- BytesToB064K(coinbaseTxSuffix);
      var excessData :- BytesToB064K(excessData);
      Ok(JobDeclaration(JobDeclarationMessage.DeclareMiningJob(requestId, miningJobToken, version, coinbaseTxPrefix,
          coinbaseTxSuffix, txIdsList, excessData)))
    case DeclareMiningJobSuccess(requestId, newMiningJobToken) =>
      var newMiningJobToken :- BytesToB0255(newMiningJobToken);
      Ok(JobDeclaration(JobDeclarationMessage.DeclareMiningJobSuccess(requestId, newMiningJobToken)))
    case DeclareMiningJobError(requestId, errorCode, errorDetails) =>
      var errorCode :- TextToStr0255(errorCode);
      var errorDetails :- BytesToB064K(errorDetails);
      Ok(JobDeclaration(JobDeclarationMessage.DeclareMiningJobError(requestId, errorCode, errorDetails)))
    case ProvideMissingTransactions(requestId, unknownTxPositionList) =>
      Ok(JobDeclaration(JobDeclarationMessage.ProvideMissingTransactions(requestId, unknownTxPositionList)))
    case ProvideMissingTransactionsSuccess(requestId, transactionList) =>
      var transactionList :- CollectB016M(transactionList);
      Ok(JobDeclaration(JobDeclarationMessage.ProvideMissingTransactionsSuccess(requestId, transactionList)))
    case PushSolution(extranonce, prevHash, nonce, ntime, nbits, version) =>
      var extranonce :- BytesToB032(extranonce);
      var prevHash :- BytesToU256(prevHash);
      Ok(JobDeclaration(JobDeclarationMessage.PushSolution(extranonce, prevHash, nonce, ntime, nbits, version)))
    case CoinbaseOutputConstraints(coinbaseOutputMaxAdditionalSize, coinbaseOutputMaxAdditionalSigops) =>
      Ok(TemplateDistribution(TemplateDistributionMessage.CoinbaseOutputConstraints(coinbaseOutputMaxAdditionalSize,
          coinbaseOutputMaxAdditionalSigops)))
    case NewTemplate(templateId, futureTemplate, version, coinbaseTxVersion, coinbasePrefix, coinbaseTxInputSequence,
        coinbaseTxValueRemaining, coinbaseTxOutputsCount, coinbaseTxOutputs, coinbaseTxLocktime, merklePath) =>
      var merklePath :- CollectU256(merklePath);
      var coinbasePrefix :- BytesToB0255(coinbasePrefix);
      var coinbaseTxOutputs :- BytesToB064K(coinbaseTxOutputs);
      Ok(TemplateDistribution(TemplateDistributionMessage.NewTemplate(templateId, futureTemplate, version,
          coinbaseTxVersion, coinbasePrefix, coinbaseTxInputSequence, coinbaseTxValueRemaining,
          coinbaseTxOutputsCount, coinbaseTxOutputs, coinbaseTxLocktime, merklePath)))
    case SetNewPrevHashTemplateDistribution(templateId, prevHash, headerTimestamp, nbits, target) =>
      var prevHash :- BytesToU256(prevHash);
      var target :- BytesToU256(target);
      Ok(TemplateDistribution(TemplateDistributionMessage.SetNewPrevHash(templateId, prevHash, headerTimestamp, nbits,
          target)))
    case RequestTransactionData(templateId) =>
      Ok(TemplateDistribution(TemplateDistributionMessage.RequestTransactionData(templateId)))
    case RequestTransactionDataSuccess(templateId, excessData, transactionList) =>
      var transactionList :- CollectB016M(transactionList);
      var excessData :- BytesToB064K(excessData);
      Ok(TemplateDistribution(TemplateDistributionMessage.RequestTransactionDataSuccess(templateId, excessData,
          transactionList)))
    case RequestTransactionDataError(templateId, errorCode) =>
      var errorCode :- TextToStr0255(errorCode);
      Ok(TemplateDistribution(TemplateDistributionMessage.RequestTransactionDataError(templateId, errorCode)))
    case SubmitSolution(templateId, version, headerTimestamp, headerNonce, coinbaseTx) =>
      var coinbaseTx :- BytesToB064K(coinbaseTx);
      Ok(TemplateDistribution(TemplateDistributionMessage.SubmitSolution(templateId, version, headerTimestamp,
          headerNonce, coinbaseTx)))
  }

  function InnerToMessage(m: InnerMessage): Sv2Message {
    match m
    case Common(c) => CommonToMessage(c)
    case Mining(mi) => MiningToMessage(mi)
    case JobDeclaration(j) => JobDeclarationToMessage(j)
    case TemplateDistribution(t) => TemplateDistributionToMessage(t)
  }

  function CommonToMessage(m: CommonMessage): Sv2Message {
    match m
    case SetupConnection(protocol, minVersion, maxVersion, flags, endpointHost, endpointPort, vendor, hardwareVersion,
        firmware, deviceId) =>
      Sv2Message.SetupConnection(ProtocolToByte(protocol), minVersion, maxVersion, flags, Lossy(endpointHost),
          endpointPort, Lossy(vendor), Lossy(hardwareVersion), Lossy(firmware), Lossy(deviceId))
    case SetupConnectionSuccess(usedVersion, flags) =>
      Sv2Message.SetupConnectionSuccess(usedVersion, flags)
    case SetupConnectionError(flags, errorCode) =>
      Sv2Message.SetupConnectionError(flags, Lossy(errorCode))
    case ChannelEndpointChanged(channelId) =>
      Sv2Message.ChannelEndpointChanged(channelId)
    case Reconnect(newHost, newPort) =>
      Sv2Message.Reconnect(Lossy(newHost), newPort)
  }

  function MiningToMessage(m: MiningMessage): Sv2Message {
    match m
    case OpenStandardMiningChannel(requestIdLe, userIdentity, nominalHashRate, maxTarget) =>
      Sv2Message.OpenStandardMiningChannel(FromLeBytes(requestIdLe), Lossy(userIdentity), nominalHashRate, maxTarget)
    case OpenStandardMiningChannelSuccess(requestIdLe, channelId, target, extranoncePrefix, groupChannelId) =>
      Sv2Message.OpenStandardMiningChannelSuccess(FromLeBytes(requestIdLe), channelId, target, extranoncePrefix,
          groupChannelId)
    case OpenExtendedMiningChannel(requestId, userIdentity, nominalHashRate, maxTarget, minExtranonceSize) =>
      Sv2Message.OpenExtendedMiningChannel(requestId, Lossy(userIdentity), nominalHashRate, maxTarget,
          minExtranonceSize)
    case OpenExtendedMiningChannelSuccess(requestId, channelId, target, extranonceSize, extranoncePrefix) =>
      Sv2Message.OpenExtendedMiningChannelSuccess(requestId, channelId, target, extranonceSize, extranoncePrefix)
    case OpenMiningChannelError(requestId, errorCode) =>
      Sv2Message.OpenMiningChannelError(requestId, Lossy(errorCode))
    case UpdateChannel(channelId, nominalHashRate, maximumTarget) =>
      Sv2Message.UpdateChannel(channelId, nominalHashRate, maximumTarget)
    case UpdateChannelError(channelId, errorCode) =>
      Sv2Message.UpdateChannelError(channelId, Lossy(errorCode))
    case CloseChannel(channelId, reasonCode) =>
      Sv2Message.CloseChannel(channelId, Lossy(reasonCode))
    case SetExtranoncePrefix(channelId, extranoncePrefix) =>
      Sv2Message.SetExtranoncePrefix(channelId, extranoncePrefix)
    case SubmitSharesStandard(channelId, sequenceNumber, jobId, nonce, ntime, version) =>
      Sv2Message.SubmitSharesStandard(channelId, sequenceNumber, jobId, nonce, ntime, version)
    case SubmitSharesExtended(channelId, sequenceNumber, jobId, nonce, ntime, version, extranonce) =>
      Sv2Message.SubmitSharesExtended(channelId, sequenceNumber, jobId, nonce, ntime, version, extranonce)
    case SubmitSharesSuccess(channelId, lastSequenceNumber, newSubmitsAcceptedCount, newSharesSum) =>
      Sv2Message.SubmitSharesSuccess(channelId, lastSequenceNumber, newSubmitsAcceptedCount, newSharesSum)
    case SubmitSharesError(channelId, sequenceNumber, errorCode) =>
      Sv2Message.SubmitSharesError(channelId, sequenceNumber, Lossy(errorCode))
    case NewMiningJob(channelId, jobId, minNtimeIfActive, version, merkleRoot) =>
      Sv2Message.NewMiningJob(channelId, jobId, minNtimeIfActive, version, merkleRoot)
    case NewExtendedMiningJob(channelId, jobId, minNtimeIfActive, version, versionRollingAllowed, merklePath,
        coinbaseTxPrefix, coinbaseTxSuffix) =>
      Sv2Message.NewExtendedMiningJob(channelId, jobId, minNtimeIfActive, version, versionRollingAllowed, merklePath,
          coinbaseTxPrefix, coinbaseTxSuffix)
    case SetNewPrevHash(channelId, jobId, prevHash, minNtime, nbits) =>
      Sv2Message.SetNewPrevHashMining(channelId, jobId, prevHash, minNtime, nbits)
    case SetCustomMiningJob(channelId, requestId, token, version, prevHash, minNtime, nbits, coinbaseTxVersion,
        coinbasePrefix, coinbaseTxInputNsequence, coinbaseTxOutputs, coinbaseTxLocktime, merklePath) =>
      Sv2Message.SetCustomMiningJob(channelId, requestId, token, version, prevHash, minNtime, nbits,
          coinbaseTxVersion, coinbasePrefix, coinbaseTxInputNsequence, coinbaseTxOutputs, coinbaseTxLocktime,
          merklePath)
    case SetCustomMiningJobSuccess(channelId, requestId, jobId) =>
      Sv2Message.SetCustomMiningJobSuccess(channelId, requestId, jobId)
    case SetCustomMiningJobError(channelId, requestId, errorCode) =>
      Sv2Message.SetCustomMiningJobError(channelId, requestId, Lossy(errorCode))
    case SetTarget(channelId, maximumTarget) =>
      Sv2Message.SetTarget(channelId, maximumTarget)
    case SetGroupChannel(groupChannelId, channelIds) =>
      Sv2Message.SetGroupChannel(groupChannelId, channelIds)
  }

  function JobDeclarationToMessage(m: JobDeclarationMessage): Sv2Message {
    match m
    case AllocateMiningJobToken(userIdentifier, requestId) =>
      Sv2Message.AllocateMiningJobToken(Lossy(userIdentifier), requestId)
    case AllocateMiningJobTokenSuccess(requestId, miningJobToken, coinbaseOutputs) =>
      Sv2Message.AllocateMiningJobTokenSuccess(requestId, miningJobToken, coinbaseOutputs)
    case DeclareMiningJob(requestId, miningJobToken, version, coinbaseTxPrefix, coinbaseTxSuffix, txIdsList,
        excessData) =>
      Sv2Message.DeclareMiningJob(requestId, miningJobToken, version, coinbaseTxPrefix, coinbaseTxSuffix, txIdsList,
          excessData)
    case DeclareMiningJobSuccess(requestId, newMiningJobToken) =>
      Sv2Message.DeclareMiningJobSuccess(requestId, newMiningJobToken)
    case DeclareMiningJobError(requestId, errorCode, errorDetails) =>
      Sv2Message.DeclareMiningJobError(requestId, Lossy(errorCode), errorDetails)
    case ProvideMissingTransactions(requestId, unknownTxPositionList) =>
      Sv2Message.ProvideMissingTransactions(requestId, unknownTxPositionList)
    case ProvideMissingTransactionsSuccess(requestId, transactionList) =>
      Sv2Message.ProvideMissingTransactionsSuccess(requestId, transactionList)
    case PushSolution(extranonce, prevHash, nonce, ntime, nbits, version) =>
      Sv2Message.PushSolution(extranonce, prevHash, nonce, ntime, nbits, version)
  }

  function TemplateDistributionToMessage(m: TemplateDistributionMessage): Sv2Message {
    match m
    case CoinbaseOutputConstraints(coinbaseOutputMaxAdditionalSize, coinbaseOutputMaxAdditionalSigops) =>
      Sv2Message.CoinbaseOutputConstraints(coinbaseOutputMaxAdditionalSize, coinbaseOutputMaxAdditionalSigops)
    case NewTemplate(templateId, futureTemplate, version, coinbaseTxVersion, coinbasePrefix, coinbaseTxInputSequence,
        coinbaseTxValueRemaining, coinbaseTxOutputsCount, coinbaseTxOutputs, coinbaseTxLocktime, merklePath) =>
      Sv2Message.NewTemplate(templateId, futureTemplate, version, coinbaseTxVersion, coinbasePrefix,
          coinbaseTxInputSequence, coinbaseTxValueRemaining, coinbaseTxOutputsCount, coinbaseTxOutputs,
          coinbaseTxLocktime, merklePath)
    case SetNewPrevHash(templateId, prevHash, headerTimestamp, nBits, target) =>
      Sv2Message.SetNewPrevHashTemplateDistribution(templateId, prevHash, headerTimestamp, nBits, target)
    case RequestTransactionData(templateId) =>
      Sv2Message.RequestTransactionData(templateId)
    case RequestTransactionDataSuccess(templateId, excessData, transactionList) =>
      Sv2Message.RequestTransactionDataSuccess(templateId, excessData, transactionList)
    case RequestTransactionDataError(templateId, errorCode) =>
      Sv2Message.RequestTransactionDataError(templateId, Lossy(errorCode))
    case SubmitSolution(templateId, version, headerTimestamp, headerNonce, coinbaseTx) =>
      Sv2Message.SubmitSolution(templateId, version, headerTimestamp, headerNonce, coinbaseTx)
  }

  // ----- what conversion requires, field by field -----

  type Failure = Option<Sv2MessageError>

  /** The failure `e` unless `holds`; then whatever the `rest` of the checks report. */
  ghost function Check(holds: bool, e: Sv2MessageError, rest: Failure): Failure {
    if holds then rest else Some(e)
  }

  ghost function Known(b: byte, rest: Failure): Failure {
    Check(b <= 2, FailedToConvertProtocol, rest)
  }

  ghost function Text(s: seq<byte>, rest: Failure): Failure {
    Check(|s| <= 255, FailedToSerializeString, rest)
  }

  ghost function AtMost(n: nat, s: seq<byte>, rest: Failure): Failure {
    Check(|s| <= n, FailedToSerializeByteArray, rest)
  }

  ghost function Exactly32(s: seq<byte>, rest: Failure): Failure {
    Check(|s| == 32, FailedToSerializeByteArray, rest)
  }

  ghost function AllExactly32(items: seq<seq<byte>>, rest: Failure): Failure {
    Check(forall i :: 0 <= i < |items| ==> |items[i]| == 32, FailedToSerializeByteArray, rest)
  }

  ghost function AllAtMost(n: nat, items: seq<seq<byte>>, rest: Failure): Failure {
    Check(forall i :: 0 <= i < |items| ==> |items[i]| <= n, FailedToSerializeByteArray, rest)
  }

  /** The first size check that fails, in the order the source makes them. */
  ghost function FirstFailure(m: Sv2Message): Failure {
    match m
    case SetupConnection(protocol, _, _, _, endpointHost, _, vendor, hardwareVersion, firmware, deviceId) =>
      Known(protocol, Text(endpointHost, Text(vendor, Text(hardwareVersion, Text(firmware, Text(deviceId, None))))))
    case SetupConnectionError(_, errorCode) =>
      Text(errorCode, None)
    case Reconnect(newHost, _) =>
      Text(newHost, None)
    case OpenStandardMiningChannel(_, userIdentity, _, maxTarget) =>
      Exactly32(maxTarget, Text(userIdentity, None))
    case OpenStandardMiningChannelSuccess(_, _, target, extranoncePrefix, _) =>
      Exactly32(target, AtMost(32, extranoncePrefix, None))
    case OpenExtendedMiningChannel(_, userIdentity, _, maxTarget, _) =>
      Exactly32(maxTarget, Text(userIdentity, None))
    case OpenExtendedMiningChannelSuccess(_, _, target, _, extranoncePrefix) =>
      Exactly32(target, AtMost(32, extranoncePrefix, None))
    case OpenMiningChannelError(_, errorCode) =>
      Text(errorCode, None)
    case UpdateChannel(_, _, maximumTarget) =>
      Exactly32(maximumTarget, None)
    case UpdateChannelError(_, errorCode) =>
      Text(errorCode, None)
    case CloseChannel(_, reasonCode) =>
      Text(reasonCode, None)
    case SetExtranoncePrefix(_, extranoncePrefix) =>
      AtMost(32, extranoncePrefix, None)
    case SubmitSharesExtended(_, _, _, _, _, _, extranonce) =>
      AtMost(32, extranonce, None)
    case SubmitSharesError(_, _, errorCode) =>
      Text(errorCode, None)
    case NewMiningJob(_, _, _, _, merkleRoot) =>
      Exactly32(merkleRoot, None)
    case NewExtendedMiningJob(_, _, _, _, _, merklePath, coinbaseTxPrefix, coinbaseTxSuffix) =>
      AllExactly32(merklePath, AtMost(0xFFFF, coinbaseTxPrefix, AtMost(0xFFFF, coinbaseTxSuffix, None)))
    case SetNewPrevHashMining(_, _, prevHash, _, _) =>
      Exactly32(prevHash, None)
    case SetCustomMiningJob(_, _, miningJobToken, _, prevHash, _, _, _, coinbasePrefix, _, coinbaseTxOutputs, _,
        merklePath) =>
      AllExactly32(merklePath, AtMost(255, miningJobToken, Exactly32(prevHash, AtMost(255, coinbasePrefix,
        AtMost(0xFFFF, coinbaseTxOutputs, None)))))
    case SetCustomMiningJobError(_, _, errorCode) =>
      Text(errorCode, None)
    case SetTarget(_, maximumTarget) =>
      Exactly32(maximumTarget, None)
    case AllocateMiningJobToken(userIdentifier, _) =>
      Text(userIdentifier, None)
    case AllocateMiningJobTokenSuccess(_, miningJobToken, coinbaseTxOutputs) =>
      AtMost(255, miningJobToken, AtMost(0xFFFF, coinbaseTxOutputs, None))
    case DeclareMiningJob(_, miningJobToken, _, coinbaseTxPrefix, coinbaseTxSuffix, txIdsList, excessData) =>
      AllExactly32(txIdsList, AtMost(255, miningJobToken, AtMost(0xFFFF, coinbaseTxPrefix,
        AtMost(0xFFFF, coinbaseTxSuffix, AtMost(0xFFFF, excessData, None)))))
    case DeclareMiningJobSuccess(_, newMiningJobToken) =>
      AtMost(255, newMiningJobToken, None)
    case DeclareMiningJobError(_, errorCode, errorDetails) =>
      Text(errorCode, AtMost(0xFFFF, errorDetails, None))
    case ProvideMissingTransactionsSuccess(_, transactionList) =>
      AllAtMost(0xFF_FFFF, transactionList, None)
    case PushSolution(extranonce, prevHash, _, _, _, _) =>
      AtMost(32, extranonce, Exactly32(prevHash, None))
    case NewTemplate(_, _, _, _, coinbasePrefix, _, _, _, coinbaseTxOutputs, _, merklePath) =>
      AllExactly32(merklePath, AtMost(255, coinbasePrefix, AtMost(0xFFFF, coinbaseTxOutputs, None)))
    case SetNewPrevHashTemplateDistribution(_, prevHash, _, _, target) =>
      Exactly32(prevHash, Exactly32(target, None))
    case RequestTransactionDataSuccess(_, excessData, transactionList) =>
      AllAtMost(0xFF_FFFF, transactionList, AtMost(0xFFFF, excessData, None))
    case RequestTransactionDataError(_, errorCode) =>
      Text(errorCode, None)
    case SubmitSolution(_, _, _, _, coinbaseTx) =>
      AtMost(0xFFFF, coinbaseTx, None)
    case _ => None
  }

  /** Whether every text field of a wire-format message has a property. */
  ghost predicate AllTexts(m: InnerMessage, p: seq<byte> -> bool) {
    match m
    case Common(c) => CommonTexts(c, p)
    case Mining(mi) => MiningTexts(mi, p)
    case JobDeclaration(j) => JobDeclarationTexts(j, p)
    case TemplateDistribution(t) => TemplateDistributionTexts(t, p)
  }

  ghost predicate CommonTexts(m: CommonMessage, p: seq<byte> -> bool) {
    match m
    case SetupConnection(_, _, _, _, endpointHost, _, vendor, hardwareVersion, firmware, deviceId) =>
      p(endpointHost) && p(vendor) && p(hardwareVersion) && p(firmware) && p(deviceId)
    case SetupConnectionError(_, errorCode) => p(errorCode)
    case Reconnect(newHost, _) => p(newHost)
    case _ => true
  }

  ghost predicate MiningTexts(m: MiningMessage, p: seq<byte> -> bool) {
    match m
    case OpenStandardMiningChannel(_, userIdentity, _, _) => p(userIdentity)
    case OpenExtendedMiningChannel(_, userIdentity, _, _, _) => p(userIdentity)
    case OpenMiningChannelError(_, errorCode) => p(errorCode)
    case UpdateChannelError(_, errorCode) => p(errorCode)
    case CloseChannel(_, reasonCode) => p(reasonCode)
    case SubmitSharesError(_, _, errorCode) => p(errorCode)
    case SetCustomMiningJobError(_, _, errorCode) => p(errorCode)
    case _ => true
  }

  ghost predicate JobDeclarationTexts(m: JobDeclarationMessage, p: seq<byte> -> bool) {
    match m
    case AllocateMiningJobToken(userIdentifier, _) => p(userIdentifier)
    case DeclareMiningJobError(_, errorCode, _) => p(errorCode)
    case _ => true
  }

  ghost predicate TemplateDistributionTexts(m: TemplateDistributionMessage, p: seq<byte> -> bool) {
    match m
    case RequestTransactionDataError(_, errorCode) => p(errorCode)
    case _ => true
  }
}
