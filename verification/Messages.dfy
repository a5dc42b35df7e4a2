/**
 * The messages of the public interface: one variant for every Stratum V2 message, with the
 * field types the foreign-language bindings see.
 */
module Sv2Messages {
  import opened Bytes
  import opened Utf8

  /** A 32-bit float, carried as its bit pattern. */
  type F32 = u32

  datatype Sv2Message =
      // common messages
    | SetupConnection(protocol: byte, minVersion: u16, maxVersion: u16, flags: u32, endpointHost: Utf8String,
        endpointPort: u16, vendor: Utf8String, hardwareVersion: Utf8String, firmware: Utf8String,
        deviceId: Utf8String)
    | SetupConnectionSuccess(usedVersion: u16, flags: u32)
    | SetupConnectionError(flags: u32, errorCode: Utf8String)
    | ChannelEndpointChanged(channelId: u32)
    | Reconnect(newHost: Utf8String, newPort: u16)
      // mining subprotocol
    | OpenStandardMiningChannel(requestId: u32, userIdentity: Utf8String, nominalHashRate: F32, maxTarget: seq<byte>)
    | OpenStandardMiningChannelSuccess(requestId: u32, channelId: u32, target: seq<byte>, extranoncePrefix: seq<byte>,
        groupChannelId: u32)
    | OpenExtendedMiningChannel(requestId: u32, userIdentity: Utf8String, nominalHashRate: F32, maxTarget: seq<byte>,
        minExtranonceSize: u16)
    | OpenExtendedMiningChannelSuccess(requestId: u32, channelId: u32, target: seq<byte>, extranonceSize: u16,
        extranoncePrefix: seq<byte>)
    | OpenMiningChannelError(requestId: u32, errorCode: Utf8String)
    | UpdateChannel(channelId: u32, nominalHashRate: F32, maximumTarget: seq<byte>)
    | UpdateChannelError(channelId: u32, errorCode: Utf8String)
    | CloseChannel(channelId: u32, reasonCode: Utf8String)
    | SetExtranoncePrefix(channelId: u32, extranoncePrefix: seq<byte>)
    | SubmitSharesStandard(channelId: u32, sequenceNumber: u32, jobId: u32, nonce: u32, ntime: u32, version: u32)
    | SubmitSharesExtended(channelId: u32, sequenceNumber: u32, jobId: u32, nonce: u32, ntime: u32, version: u32,
        extranonce: seq<byte>)
    | SubmitSharesSuccess(channelId: u32, lastSequenceNumber: u32, newSubmitsAcceptedCount: u32, newSharesSum: u64)
    | SubmitSharesError(channelId: u32, sequenceNumber: u32, errorCode: Utf8String)
    | NewMiningJob(channelId: u32, jobId: u32, minNtimeIfActive: Option<u32>, version: u32, merkleRoot: seq<byte>)
    | NewExtendedMiningJob(channelId: u32, jobId: u32, minNtimeIfActive: Option<u32>, version: u32,
        versionRollingAllowed: bool, merklePath: seq<seq<byte>>, coinbaseTxPrefix: seq<byte>,
        coinbaseTxSuffix: seq<byte>)
    | SetNewPrevHashMining(channelId: u32, jobId: u32, prevHash: seq<byte>, minNtime: u32, nbits: u32)
    | SetCustomMiningJob(channelId: u32, requestId: u32, miningJobToken: seq<byte>, version: u32, prevHash: seq<byte>,
        minNtime: u32, nbits: u32, coinbaseTxVersion: u32, coinbasePrefix: seq<byte>, coinbaseTxInputNsequence: u32,
        coinbaseTxOutputs: seq<byte>, coinbaseTxLocktime: u32, merklePath: seq<seq<byte>>)
    | SetCustomMiningJobSuccess(channelId: u32, requestId: u32, jobId: u32)
    | SetCustomMiningJobError(channelId: u32, requestId: u32, errorCode: Utf8String)
    | SetTarget(channelId: u32, maximumTarget: seq<byte>)
    | SetGroupChannel(groupChannelId: u32, channelIds: seq<u32>)
      // job declaration subprotocol
    | AllocateMiningJobToken(userIdentifier: Utf8String, requestId: u32)
    | AllocateMiningJobTokenSuccess(requestId: u32, miningJobToken: seq<byte>, coinbaseTxOutputs: seq<byte>)
    | DeclareMiningJob(requestId: u32, miningJobToken: seq<byte>, version: u32, coinbaseTxPrefix: seq<byte>,
        coinbaseTxSuffix: seq<byte>, txIdsList: seq<seq<byte>>, excessData: seq<byte>)
    | DeclareMiningJobSuccess(requestId: u32, newMiningJobToken: seq<byte>)
    | DeclareMiningJobError(requestId: u32, errorCode: Utf8String, errorDetails: seq<byte>)
    | ProvideMissingTransactions(requestId: u32, unknownTxPositionList: seq<u16>)
    | ProvideMissingTransactionsSuccess(requestId: u32, transactionList: seq<seq<byte>>)
    | PushSolution(extranonce: seq<byte>, prevHash: seq<byte>, nonce: u32, ntime: u32, nbits: u32, version: u32)
      // template distribution subprotocol
    | CoinbaseOutputConstraints(coinbaseOutputMaxAdditionalSize: u32, coinbaseOutputMaxAdditionalSigops: u16)
    | NewTemplate(templateId: u64, futureTemplate: bool, version: u32, coinbaseTxVersion: u32,
        coinbasePrefix: seq<byte>, coinbaseTxInputSequence: u32, coinbaseTxValueRemaining: u64,
        coinbaseTxOutputsCount: u32, coinbaseTxOutputs: seq<byte>, coinbaseTxLocktime: u32,
        merklePath: seq<seq<byte>>)
    | SetNewPrevHashTemplateDistribution(templateId: u64, prevHash: seq<byte>, headerTimestamp: u32, nbits: u32,
        target: seq<byte>)
    | RequestTransactionData(templateId: u64)
    | RequestTransactionDataSuccess(templateId: u64, excessData: seq<byte>, transactionList: seq<seq<byte>>)
    | RequestTransactionDataError(templateId: u64, errorCode: Utf8String)
    | SubmitSolution(templateId: u64, version: u32, headerTimestamp: u32, headerNonce: u32, coinbaseTx: seq<byte>)
}

/**
 * The messages of the wire-format library: fields are bounded byte strings, as sections 3.1
 * and 5 to 7 of the Stratum V2 specification give them. Conversion does not bound the number
 * of elements of a sequence field; `WithinCounts` states the specification's bound.
 */
module InnerMessages {
  import opened Bytes
  import opened Sv2Messages

  type Str0255 = s: seq<byte> | |s| <= 255
  type B032 = s: seq<byte> | |s| <= 32
  type B0255 = s: seq<byte> | |s| <= 255
  type B064K = s: seq<byte> | |s| <= 0xFFFF
  type B016M = s: seq<byte> | |s| <= 0xFF_FFFF
  type U256 = s: seq<byte> | |s| == 32 witness seq(32, _ => 0)
  type U32AsRef = s: seq<byte> | |s| == 4 witness [0, 0, 0, 0]

  datatype Protocol = MiningProtocol | JobDeclarationProtocol | TemplateDistributionProtocol

  datatype InnerMessage =
    | Common(common: CommonMessage)
    | Mining(mining: MiningMessage)
    | JobDeclaration(jobDeclaration: JobDeclarationMessage)
    | TemplateDistribution(templateDistribution: TemplateDistributionMessage)

  datatype CommonMessage =
    | SetupConnection(protocol: Protocol, minVersion: u16, maxVersion: u16, flags: u32, endpointHost: Str0255,
        endpointPort: u16, vendor: Str0255, hardwareVersion: Str0255, firmware: Str0255, deviceId: Str0255)
    | SetupConnectionSuccess(usedVersion: u16, flags: u32)
    | SetupConnectionError(flags: u32, errorCode: Str0255)
    | ChannelEndpointChanged(channelId: u32)
    | Reconnect(newHost: Str0255, newPort: u16)

  datatype MiningMessage =
    | OpenStandardMiningChannel(requestIdLe: U32AsRef, userIdentity: Str0255, nominalHashRate: F32, maxTarget: U256)
    | OpenStandardMiningChannelSuccess(requestIdLe: U32AsRef, channelId: u32, target: U256, extranoncePrefix: B032,
        groupChannelId: u32)
    | OpenExtendedMiningChannel(requestId: u32, userIdentity: Str0255, nominalHashRate: F32, maxTarget: U256,
        minExtranonceSize: u16)
    | OpenExtendedMiningChannelSuccess(requestId: u32, channelId: u32, target: U256, extranonceSize: u16,
        extranoncePrefix: B032)
    | OpenMiningChannelError(requestId: u32, errorCode: Str0255)
    | UpdateChannel(channelId: u32, nominalHashRate: F32, maximumTarget: U256)
    | UpdateChannelError(channelId: u32, errorCode: Str0255)
    | CloseChannel(channelId: u32, reasonCode: Str0255)
    | SetExtranoncePrefix(channelId: u32, extranoncePrefix: B032)
    | SubmitSharesStandard(channelId: u32, sequenceNumber: u32, jobId: u32, nonce: u32, ntime: u32, version: u32)
    | SubmitSharesExtended(channelId: u32, sequenceNumber: u32, jobId: u32, nonce: u32, ntime: u32, version: u32,
        extranonce: B032)
    | SubmitSharesSuccess(channelId: u32, lastSequenceNumber: u32, newSubmitsAcceptedCount: u32, newSharesSum: u64)
    | SubmitSharesError(channelId: u32, sequenceNumber: u32, errorCode: Str0255)
    | NewMiningJob(channelId: u32, jobId: u32, minNtimeIfActive: Option<u32>, version: u32, merkleRoot: U256)
    | NewExtendedMiningJob(channelId: u32, jobId: u32, minNtimeIfActive: Option<u32>, version: u32,
        versionRollingAllowed: bool, merklePath: seq<U256>, coinbaseTxPrefix: B064K, coinbaseTxSuffix: B064K)
    | SetNewPrevHash(channelId: u32, jobId: u32, prevHash: U256, minNtime: u32, nbits: u32)
    | SetCustomMiningJob(channelId: u32, requestId: u32, token: B0255, version: u32, prevHash: U256, minNtime: u32,
        nbits: u32, coinbaseTxVersion: u32, coinbasePrefix: B0255, coinbaseTxInputNsequence: u32,
        coinbaseTxOutputs: B064K, coinbaseTxLocktime: u32, merklePath: seq<U256>)
    | SetCustomMiningJobSuccess(channelId: u32, requestId: u32, jobId: u32)
    | SetCustomMiningJobError(channelId: u32, requestId: u32, errorCode: Str0255)
    | SetTarget(channelId: u32, maximumTarget: U256)
    | SetGroupChannel(groupChannelId: u32, channelIds: seq<u32>)

  datatype JobDeclarationMessage =
    | AllocateMiningJobToken(userIdentifier: Str0255, requestId: u32)
    | AllocateMiningJobTokenSuccess(requestId: u32, miningJobToken: B0255, coinbaseOutputs: B064K)
    | DeclareMiningJob(requestId: u32, miningJobToken: B0255, version: u32, coinbaseTxPrefix: B064K,
        coinbaseTxSuffix: B064K, txIdsList: seq<U256>, excessData: B064K)
    | DeclareMiningJobSuccess(requestId: u32, newMiningJobToken: B0255)
    | DeclareMiningJobError(requestId: u32, errorCode: Str0255, errorDetails: B064K)
    | ProvideMissingTransactions(requestId: u32, unknownTxPositionList: seq<u16>)
    | ProvideMissingTransactionsSuccess(requestId: u32, transactionList: seq<B016M>)
    | PushSolution(extranonce: B032, prevHash: U256, nonce: u32, ntime: u32, nbits: u32, version: u32)

  datatype TemplateDistributionMessage =
    | CoinbaseOutputConstraints(coinbaseOutputMaxAdditionalSize: u32, coinbaseOutputMaxAdditionalSigops: u16)
    | NewTemplate(templateId: u64, futureTemplate: bool, version: u32, coinbaseTxVersion: u32, coinbasePrefix: B0255,
        coinbaseTxInputSequence: u32, coinbaseTxValueRemaining: u64, coinbaseTxOutputsCount: u32,
        coinbaseTxOutputs: B064K, coinbaseTxLocktime: u32, merklePath: seq<U256>)
    | SetNewPrevHash(templateId: u64, prevHash: U256, headerTimestamp: u32, nBits: u32, target: U256)
    | RequestTransactionData(templateId: u64)
    | RequestTransactionDataSuccess(templateId: u64, excessData: B064K, transactionList: seq<B016M>)
    | RequestTransactionDataError(templateId: u64, errorCode: Str0255)
    | SubmitSolution(templateId: u64, version: u32, headerTimestamp: u32, headerNonce: u32, coinbaseTx: B064K)

  /** The element counts that sequence fields may have on the wire. */
  predicate WithinCounts(m: InnerMessage) {
    match m
    case Mining(NewExtendedMiningJob(_, _, _, _, _, merklePath, _, _)) => |merklePath| <= 255
    case Mining(SetCustomMiningJob(_, _, _, _, _, _, _, _, _, _, _, _, merklePath)) => |merklePath| <= 255
    case Mining(SetGroupChannel(_, channelIds)) => |channelIds| <= 0xFFFF
    case JobDeclaration(DeclareMiningJob(_, _, _, _, _, txIdsList, _)) => |txIdsList| <= 0xFFFF
    case JobDeclaration(ProvideMissingTransactions(_, unknownTxPositionList)) => |unknownTxPositionList| <= 0xFFFF
    case JobDeclaration(ProvideMissingTransactionsSuccess(_, transactionList)) => |transactionList| <= 0xFFFF
    case TemplateDistribution(NewTemplate(_, _, _, _, _, _, _, _, _, _, merklePath)) => |merklePath| <= 255
    case TemplateDistribution(RequestTransactionDataSuccess(_, _, transactionList)) => |transactionList| <= 0xFFFF
    case _ => true
  }
}
