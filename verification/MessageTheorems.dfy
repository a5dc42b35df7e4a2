/** What the conversion pair promises, over all 41 message variants. */
module MessageTheorems {
  import opened Bytes
  import opened Utf8
  import opened InnerMessages
  import opened Sv2Messages
  import opened Conversion

  /** The four little-endian bytes of a request id and the id are the same information. */
  lemma LeBytesInverse(n: u32, s: U32AsRef)
    ensures FromLeBytes(ToLeBytes(n)) == n
    ensures ToLeBytes(FromLeBytes(s)) == s
  {
    Shift(n % 256, n / 256);
    Shift(n / 256 % 256, n / 256 / 256);
    Shift(n / 65536 % 256, n / 65536 / 256);
    NestedDivision(n);
    BytesOfSum(s[0], s[1], s[2], s[3]);
  }

  lemma NestedDivision(n: nat)
    ensures n / 256 / 256 == n / 65536 && n / 65536 / 256 == n / 16777216
  {
  }

  lemma BytesOfSum(a: byte, b: byte, c: byte, d: byte)
    ensures ToLeBytes(FromLeBytes([a, b, c, d])) == [a, b, c, d]
  {
    var n := FromLeBytes([a, b, c, d]);
    NestedDivision(n);
    var high := c + d * 256;
    Shift(a, b + high * 256);
    Shift(b, high);
    Shift(c, d);
  }

  lemma Shift(low: nat, high: nat)
    requires low < 256
    ensures (low + high * 256) % 256 == low && (low + high * 256) / 256 == high
  {
  }

  lemma ProtocolInverse(p: Protocol)
    ensures ProtocolFromByte(ProtocolToByte(p)) == Ok(p)
  {
  }

  // The 41 variants in groups, the largest ones alone, so that each proof stays small.

  predicate IsCommon(m: Sv2Message) {
    m.SetupConnection? || m.SetupConnectionSuccess? || m.SetupConnectionError? ||
    m.ChannelEndpointChanged? || m.Reconnect?
  }

  predicate IsOpen(m: Sv2Message) {
    m.OpenStandardMiningChannel? || m.OpenStandardMiningChannelSuccess? || m.OpenExtendedMiningChannel? ||
    m.OpenExtendedMiningChannelSuccess? || m.OpenMiningChannelError?
  }

  predicate IsChannel(m: Sv2Message) {
    m.UpdateChannel? || m.UpdateChannelError? || m.CloseChannel? || m.SetExtranoncePrefix?
  }

  predicate IsShare(m: Sv2Message) {
    m.SubmitSharesStandard? || m.SubmitSharesExtended? || m.SubmitSharesSuccess? || m.SubmitSharesError?
  }

  predicate IsAssignment(m: Sv2Message) {
    m.SetCustomMiningJobSuccess? || m.SetCustomMiningJobError? || m.SetTarget? ||
    m.SetGroupChannel?
  }

  predicate IsTemplateDistribution(m: Sv2Message) {
    m.CoinbaseOutputConstraints? || m.SetNewPrevHashTemplateDistribution? ||
    m.RequestTransactionData? || m.RequestTransactionDataSuccess? || m.RequestTransactionDataError? ||
    m.SubmitSolution?
  }

  predicate IsJobDeclaration(m: Sv2Message) {
    m.AllocateMiningJobToken? || m.AllocateMiningJobTokenSuccess? ||
    m.DeclareMiningJobSuccess? || m.DeclareMiningJobError? || m.ProvideMissingTransactions? ||
    m.ProvideMissingTransactionsSuccess? || m.PushSolution?
  }

  predicate IsJob(m: Sv2Message) {
    m.NewMiningJob? || m.NewExtendedMiningJob? || m.SetNewPrevHashMining?
  }

  ghost predicate ComesBack(m: Sv2Message) {
    MessageToInner(m).Ok? ==> InnerToMessage(MessageToInner(m).value) == m
  }

  ghost predicate ReportsFirstFailure(m: Sv2Message) {
    match FirstFailure(m)
    case None => MessageToInner(m).Ok?
    case Some(e) => MessageToInner(m) == Err(e)
  }

  lemma TextUnchanged()
    ensures forall t: Utf8String :: Lossy(t) == t
  {
    forall t: Utf8String
      ensures Lossy(t) == t
    {
      LossyFixesExactlyValid(t);
    }
  }

  lemma CommonMessages(m: Sv2Message)
    requires IsCommon(m)
    ensures ComesBack(m) && ReportsFirstFailure(m)
  {
    hide Lossy, Valid;
    TextUnchanged();
  }

  lemma OpenMessages(m: Sv2Message)
    requires IsOpen(m)
    ensures ComesBack(m) && ReportsFirstFailure(m)
  {
    hide Lossy, Valid;
    TextUnchanged();
    forall n: u32
      ensures FromLeBytes(ToLeBytes(n)) == n
    {
      LeBytesInverse(n, [0, 0, 0, 0]);
    }
  }

  lemma ChannelMessages(m: Sv2Message)
    requires IsChannel(m)
    ensures ComesBack(m) && ReportsFirstFailure(m)
  {
    hide Lossy, Valid;
    TextUnchanged();
  }

  lemma AssignmentMessages(m: Sv2Message)
    requires IsAssignment(m)
    ensures ComesBack(m) && ReportsFirstFailure(m)
  {
    hide Lossy, Valid;
    TextUnchanged();
  }

  lemma ShareMessages(m: Sv2Message)
    requires IsShare(m)
    ensures ComesBack(m) && ReportsFirstFailure(m)
  {
    hide Lossy, Valid;
    TextUnchanged();
  }

  lemma JobMessages(m: Sv2Message)
    requires IsJob(m)
    ensures ComesBack(m) && ReportsFirstFailure(m)
  {
    hide Lossy, Valid;
    TextUnchanged();
  }

  lemma TemplateDistributionMessages(m: Sv2Message)
    requires IsTemplateDistribution(m)
    ensures ComesBack(m) && ReportsFirstFailure(m)
  {
    hide Lossy, Valid;
    TextUnchanged();
  }

  lemma JobDeclarationMessages(m: Sv2Message)
    requires IsJobDeclaration(m)
    ensures ComesBack(m) && ReportsFirstFailure(m)
  {
    hide Lossy, Valid;
    TextUnchanged();
  }

  lemma CustomJobComesBack(m: Sv2Message)
    requires m.SetCustomMiningJob?
    ensures ComesBack(m)
  {
    hide Lossy, Valid;
  }

  lemma CustomJobChecks(m: Sv2Message)
    requires m.SetCustomMiningJob?
    ensures ReportsFirstFailure(m)
  {
    hide InnerToMessage;
  }

  lemma DeclareJobMessage(m: Sv2Message)
    requires m.DeclareMiningJob?
    ensures ComesBack(m) && ReportsFirstFailure(m)
  {
    hide Lossy, Valid;
  }

  lemma TemplateMessage(m: Sv2Message)
    requires m.NewTemplate?
    ensures ComesBack(m) && ReportsFirstFailure(m)
  {
    hide Lossy, Valid;
  }

  /** A message that converts comes back unchanged. */
  lemma MessageRoundTrip(m: Sv2Message)
    ensures MessageToInner(m).Ok? ==> InnerToMessage(MessageToInner(m).value) == m
  {
    EveryMessage(m);
  }

  lemma EveryMessage(m: Sv2Message)
    ensures ComesBack(m) && ReportsFirstFailure(m)
  {
    if {
      case IsCommon(m) => CommonMessages(m);
      case IsOpen(m) => OpenMessages(m);
      case IsChannel(m) => ChannelMessages(m);
      case IsShare(m) => ShareMessages(m);
      case IsJob(m) => JobMessages(m);
      case IsAssignment(m) => AssignmentMessages(m);
      case IsTemplateDistribution(m) => TemplateDistributionMessages(m);
      case IsJobDeclaration(m) => JobDeclarationMessages(m);
      case m.SetCustomMiningJob? => CustomJobComesBack(m); CustomJobChecks(m);
      case m.DeclareMiningJob? => DeclareJobMessage(m);
      case m.NewTemplate? => TemplateMessage(m);
    }
  }

  /** Distinct messages never convert to the same wire-format message. */
  lemma ConversionInjective(m: Sv2Message, n: Sv2Message)
    requires MessageToInner(m).Ok? && MessageToInner(m) == MessageToInner(n)
    ensures m == n
  {
    MessageRoundTrip(m);
    MessageRoundTrip(n);
  }

  /** Conversion succeeds exactly when every check holds, and otherwise reports the first that fails. */
  lemma ConversionReportsFirstFailure(m: Sv2Message)
    ensures match FirstFailure(m)
            case None => MessageToInner(m).Ok?
            case Some(e) => MessageToInner(m) == Err(e)
  {
    EveryMessage(m);
  }

  ghost predicate AllValid(i: InnerMessage) {
    AllTexts(i, (t: seq<byte>) => Valid(t))
  }

  ghost predicate AllFit(i: InnerMessage) {
    AllTexts(i, (t: seq<byte>) => |Lossy(t)| <= 255)
  }

  ghost predicate OutThenIn(i: InnerMessage) {
    var back := MessageToInner(InnerToMessage(i));
    && (back.Ok? <==> AllFit(i))
    && (back == Ok(i) <==> AllValid(i))
  }

  lemma CommonOutThenIn(c: CommonMessage)
    ensures OutThenIn(Common(c))
  {
    hide Lossy, Valid;
    match c
    case SetupConnection(p, _, _, _, host, _, vendor, hardware, firmware, device) =>
      ProtocolInverse(p);
      LossyFixesExactlyValid(host);
      LossyFixesExactlyValid(vendor);
      LossyFixesExactlyValid(hardware);
      LossyFixesExactlyValid(firmware);
      LossyFixesExactlyValid(device);
    case SetupConnectionError(_, code) =>
      LossyFixesExactlyValid(code);
    case Reconnect(host, _) =>
      LossyFixesExactlyValid(host);
    case _ =>
  }

  lemma JobDeclarationOutThenIn(j: JobDeclarationMessage)
    ensures OutThenIn(JobDeclaration(j))
  {
    hide Lossy, Valid;
    match j
    case AllocateMiningJobToken(user, _) =>
      LossyFixesExactlyValid(user);
    case DeclareMiningJobError(_, code, _) =>
      LossyFixesExactlyValid(code);
    case _ =>
  }

  lemma TemplateDistributionOutThenIn(t: TemplateDistributionMessage)
    ensures OutThenIn(TemplateDistribution(t))
  {
    hide Lossy, Valid;
    match t
    case RequestTransactionDataError(_, code) =>
      LossyFixesExactlyValid(code);
    case _ =>
  }

  predicate OpensOrUpdates(mi: MiningMessage) {
    mi.OpenStandardMiningChannel? || mi.OpenStandardMiningChannelSuccess? || mi.OpenExtendedMiningChannel? ||
    mi.OpenExtendedMiningChannelSuccess? || mi.OpenMiningChannelError? || mi.UpdateChannel? ||
    mi.UpdateChannelError? || mi.CloseChannel? || mi.SetExtranoncePrefix?
  }

  lemma ChannelOutThenIn(mi: MiningMessage)
    requires OpensOrUpdates(mi)
    ensures OutThenIn(Mining(mi))
  {
    hide Lossy, Valid;
    match mi
    case OpenStandardMiningChannel(id, user, _, _) =>
      LeBytesInverse(0, id);
      LossyFixesExactlyValid(user);
    case OpenStandardMiningChannelSuccess(id, _, _, _, _) =>
      LeBytesInverse(0, id);
    case OpenExtendedMiningChannel(_, user, _, _, _) =>
      LossyFixesExactlyValid(user);
    case OpenMiningChannelError(_, code) =>
      LossyFixesExactlyValid(code);
    case UpdateChannelError(_, code) =>
      LossyFixesExactlyValid(code);
    case CloseChannel(_, code) =>
      LossyFixesExactlyValid(code);
    case _ =>
  }

  lemma CustomJobOutThenIn(mi: MiningMessage)
    requires mi.SetCustomMiningJob?
    ensures OutThenIn(Mining(mi))
  {
    hide Lossy, Valid;
  }

  lemma ExtendedJobOutThenIn(mi: MiningMessage)
    requires mi.NewExtendedMiningJob?
    ensures OutThenIn(Mining(mi))
  {
    hide Lossy, Valid;
  }

  lemma WorkOutThenIn(mi: MiningMessage)
    requires !OpensOrUpdates(mi) && !mi.SetCustomMiningJob? && !mi.NewExtendedMiningJob?
    ensures OutThenIn(Mining(mi))
  {
    hide Lossy, Valid;
    match mi
    case SubmitSharesError(_, _, code) =>
      LossyFixesExactlyValid(code);
    case SetCustomMiningJobError(_, _, code) =>
      LossyFixesExactlyValid(code);
    case _ =>
  }

  /**
   * Out and back in succeeds exactly when every text field still fits after lossy conversion,
   * and is the identity exactly when every text field is well-formed UTF-8.
   */
  lemma OutThenInIsIdentity(i: InnerMessage)
    ensures MessageToInner(InnerToMessage(i)).Ok? <==> AllFit(i)
    ensures MessageToInner(InnerToMessage(i)) == Ok(i) <==> AllValid(i)
  {
    assert OutThenIn(i) by {
      match i
      case Common(c) => CommonOutThenIn(c);
      case JobDeclaration(j) => JobDeclarationOutThenIn(j);
      case TemplateDistribution(t) => TemplateDistributionOutThenIn(t);
      case Mining(mi) =>
        if OpensOrUpdates(mi) {
          ChannelOutThenIn(mi);
        } else if mi.SetCustomMiningJob? {
          CustomJobOutThenIn(mi);
        } else if mi.NewExtendedMiningJob? {
          ExtendedJobOutThenIn(mi);
        } else {
          WorkOutThenIn(mi);
        }
    }
  }

  /** A message converts exactly when it is what some wire-format message with well-formed texts looks like outside. */
  lemma AcceptedExactlyImages(m: Sv2Message)
    ensures MessageToInner(m).Ok? <==> exists i :: AllValid(i) && InnerToMessage(i) == m
  {
    hide MessageToInner, InnerToMessage, AllValid;
    MessageRoundTrip(m);
    if MessageToInner(m).Ok? {
      OutThenInIsIdentity(MessageToInner(m).value);
    }
    forall i | AllValid(i) && InnerToMessage(i) == m
      ensures MessageToInner(m).Ok?
    {
      OutThenInIsIdentity(i);
    }
  }

  /** Eighty-five is the limit: a reason code of 86 such bytes goes out and does not come back in. */
  lemma EightySixBytesStayOut(channelId: u32)
    ensures var code: seq<byte> := seq(86, _ => 0xFF);
            var i := Mining(MiningMessage.CloseChannel(channelId, code));
            |code| == 86 && !AllFit(i) && MessageToInner(InnerToMessage(i)) == Err(FailedToSerializeString)
  {
    hide Lossy;
    NoncharactersTriple(86);
  }

  /** An out-and-in pass that succeeds yields a message every later pass leaves alone. */
  lemma OutThenInNormalises(i: InnerMessage)
    requires MessageToInner(InnerToMessage(i)).Ok?
    ensures var j := MessageToInner(InnerToMessage(i)).value;
            AllValid(j) && InnerToMessage(j) == InnerToMessage(i) && MessageToInner(InnerToMessage(j)) == Ok(j)
  {
    var j := MessageToInner(InnerToMessage(i)).value;
    MessageRoundTrip(InnerToMessage(i));
    OutThenInIsIdentity(j);
  }

  /** Text of at most 85 bytes always survives: lossy conversion is at most threefold. */
  lemma ShortTextsFit(i: InnerMessage)
    requires AllTexts(i, (t: seq<byte>) => |t| <= 85)
    ensures AllFit(i)
  {
    forall t: seq<byte> | |t| <= 85
      ensures |Lossy(t)| <= 255
    {
      LossyLength(t);
    }
  }
}
