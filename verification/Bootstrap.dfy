/**
 * Opening channels on a mining server: the Python bootstrap examples for standard and
 * extended channels. Contexts are objects whose fields the two functions update; what they
 * do is stated as functions of the old state, and proved about in `BootstrapTheorems`.
 */
module Bootstrap {
  import opened Bytes
  import opened Sv2Messages
  import opened Conversion
  import opened Extranonce

  type NewTemplate = m: Sv2Message | m.NewTemplate?
    witness Sv2Message.NewTemplate(0, true, 0, 0, [], 0, 0, 0, [], 0, [])

  type PrevHash = m: Sv2Message | m.SetNewPrevHashTemplateDistribution?
    witness SetNewPrevHashTemplateDistribution(0, [], 0, 0, [])

  // ----- a channel, reduced to its jobs -----

  datatype ChannelError =
    | BadMaxTarget
    | InvalidNominalHashrate
    | RequestedMaxTargetOutOfRange
    | RequestedMinExtranonceSizeTooLarge
    | FailedToCreateStandardChannel
    | FailedToCreateExtendedChannel
    | FailedToConvertMessage(error: Sv2MessageError)
    | FailedToProcessNewTemplate
    | FailedToProcessNewPrevHash
    | TemplateIdNotFound
    | IdOutOfRange

  datatype Job = Job(jobId: u32, channelId: u32, templateId: u64)

  datatype Channel = Channel(
    channelId: u32,
    extranoncePrefix: seq<byte>,
    target: seq<byte>,
    rollableSize: u16,
    futureJobs: map<u32, Job>,
    templateToJob: map<u64, u32>,
    activeJob: Option<Job>,
    nextJobId: u32,
    hasTip: bool)

  /** What the channel library settles on: the target and how many extranonce bytes may be rolled. */
  datatype Grant = Grant(target: seq<byte>, rollableSize: u16)

  function NewChannel(id: u32, prefix: seq<byte>, grant: Grant): Channel {
    Channel(id, prefix, grant.target, grant.rollableSize, map[], map[], None, FIRST_JOB, false)
  }

  const FIRST_JOB: u32 := 1

  /** A future template becomes a future job; any other one needs a chain tip to become active. */
  function OnNewTemplate(c: Channel, t: NewTemplate): Result<Channel, ChannelError> {
    match MessageToInner(t)
    case Err(e) => Err(FailedToConvertMessage(e))
    case Ok(_) =>
      var id := c.nextJobId;
      var job := Job(id, c.channelId, t.templateId);
      if t.futureTemplate then
        Ok(c.(nextJobId := (id + 1) % 0x1_0000_0000,
              futureJobs := c.futureJobs[id := job], templateToJob := c.templateToJob[t.templateId := id]))
      else if !c.hasTip then Err(FailedToProcessNewTemplate)
      else Ok(c.(nextJobId := (id + 1) % 0x1_0000_0000, activeJob := Some(job)))
  }

  /** A new previous hash activates the future job of its template. Without future jobs it only sets the tip. */
  function OnSetNewPrevHash(c: Channel, p: PrevHash, tipAlone: bool): Result<Channel, ChannelError> {
    match MessageToInner(p)
    case Err(e) => Err(FailedToConvertMessage(e))
    case Ok(_) =>
      if p.templateId in c.templateToJob && c.templateToJob[p.templateId] in c.futureJobs then
        var id := c.templateToJob[p.templateId];
        Ok(c.(futureJobs := c.futureJobs - {id}, templateToJob := c.templateToJob - {p.templateId},
              activeJob := Some(c.futureJobs[id]), hasTip := true))
      else if tipAlone && c.futureJobs == map[] then Ok(c.(hasTip := true))
      else Err(FailedToProcessNewPrevHash)
  }

  // ----- contexts as values -----

  /** Whether the channel library accepts a request, and what it grants; decided elsewhere. */
  type Policy = Request -> Result<Grant, ChannelError>

  datatype Request = Request(requestId: u32, hashRate: F32, maxTarget: seq<byte>, minExtranonceSize: u16)

  datatype ServerState = ServerState(
    standardFactory: ExtendedExtranonce,
    extendedFactory: ExtendedExtranonce,
    template: NewTemplate,
    prevHash: PrevHash)

  datatype Group = Group(groupChannelId: u32, memberIds: set<u32>, channel: Channel)

  datatype ConnState = ConnState(
    nextId: nat,
    requiresStandardJobs: bool,
    requiresWorkSelection: bool,
    standardChannels: map<u32, Channel>,
    extendedChannels: map<u32, Channel>,
    groupChannel: Option<Group>)

  // ----- replies -----

  datatype Reply =
    | OpenError(requestId: u32, errorCode: string)
    | OpenStandardSuccess(requestId: u32, channelId: u32, target: seq<byte>, extranoncePrefix: seq<byte>, groupChannelId: u32)
    | OpenExtendedSuccess(requestId: u32, channelId: u32, target: seq<byte>, extranoncePrefix: seq<byte>, extranonceSize: u16)
    | FutureJob(channelId: u32, jobId: u32, templateId: u64)
    | NewPrevHash(channelId: u32, jobId: u32, prevHash: seq<byte>, minNtime: u32, nbits: u32)

  /** What the Python functions hand back: a list of messages, a list of lists, or an exception. */
  datatype Returned = Flat(messages: seq<Reply>) | Nested(lists: seq<seq<Reply>>) | Raised(reason: Raise)

  datatype Raise = Factory(factory: FactoryError) | Unbound | InChannel(channel: ChannelError) | KeyError | NoGroup

  // ----- creating a channel -----

  /** The standard constructor reports every refusal of the library under one name. */
  function CreateStandard(policy: Policy, id: nat, prefix: seq<byte>, req: Request): Result<Channel, ChannelError> {
    if id >= 0x1_0000_0000 then Err(IdOutOfRange)
    else if |req.maxTarget| != 32 then Err(BadMaxTarget)
    else match policy(req)
      case Err(_) => Err(FailedToCreateStandardChannel)
      case Ok(grant) => Ok(NewChannel(id, prefix, grant))
  }

  /** The extended constructor keeps three of the library's names. */
  function CreateExtended(policy: Policy, id: nat, prefix: seq<byte>, req: Request): Result<Channel, ChannelError> {
    if id >= 0x1_0000_0000 then Err(IdOutOfRange)
    else if |req.maxTarget| != 32 then Err(BadMaxTarget)
    else match policy(req)
      case Err(e) =>
        if e.InvalidNominalHashrate? || e.RequestedMaxTargetOutOfRange? || e.RequestedMinExtranonceSizeTooLarge?
        then Err(e) else Err(FailedToCreateExtendedChannel)
      case Ok(grant) => Ok(NewChannel(id, prefix, grant))
  }

  /** The code chosen from the exception's name; names not listed leave it unset. */
  function StandardErrorCode(e: ChannelError): Option<string> {
    match e
    case InvalidNominalHashrate => Some("invalid-nominal-hashrate")
    case RequestedMaxTargetOutOfRange => Some("max-target-out-of-range")
    case FailedToCreateStandardChannel => Some("other-error")
    case _ => None
  }

  function ExtendedErrorCode(e: ChannelError): Option<string> {
    match e
    case InvalidNominalHashrate => Some("invalid-nominal-hashrate")
    case RequestedMaxTargetOutOfRange => Some("max-target-out-of-range")
    case RequestedMinExtranonceSizeTooLarge => Some("min-extranonce-size-too-large")
    case FailedToCreateExtendedChannel => Some("other-error")
    case _ => None
  }

  /** A job id looked up by template, and the job looked up by that id. */
  datatype Found = Found(jobId: u32, job: Job)

  /** Template, job lookups, previous hash: the part of opening both functions share. */
  datatype Activation = Activation(channel: Channel, result: Result<Found, Raise>)

  function Activate(c: Channel, t: NewTemplate, p: PrevHash, tipAlone: bool): Activation {
    match OnNewTemplate(c, t)
    case Err(e) => Activation(c, Err(InChannel(e)))
    case Ok(withJob) =>
      if t.templateId !in withJob.templateToJob then Activation(withJob, Err(KeyError)) else
      var id := withJob.templateToJob[t.templateId];
      if id !in withJob.futureJobs then Activation(withJob, Err(KeyError)) else
      match OnSetNewPrevHash(withJob, p, tipAlone)
      case Err(e) => Activation(withJob, Err(InChannel(e)))
      case Ok(active) => Activation(active, Ok(Found(id, withJob.futureJobs[id])))
  }

  /** The job's own message, and the previous hash under the id that was looked up. */
  function JobReplies(c: Channel, f: Found, p: PrevHash): seq<Reply> {
    [FutureJob(f.job.channelId, f.job.jobId, f.job.templateId),
     NewPrevHash(c.channelId, f.jobId, p.prevHash, p.headerTimestamp, p.nbits)]
  }

  // ----- the two functions -----

  datatype Opened = Opened(server: ServerState, conn: ConnState, returned: Returned)

  function OpenStandard(policy: Policy, s: ServerState, c: ConnState, req: Request): Opened
    requires WellFormed(s.standardFactory)
  {
    if c.requiresWorkSelection then
      Opened(s, c, Flat([OpenError(req.requestId, "standard-channels-not-supported-for-custom-work")]))
    else match NextStandard(s.standardFactory)
      case Err(e) => Opened(s, c, Raised(Factory(e)))
      case Ok((factory, prefix)) =>
        var s1, c1 := s.(standardFactory := factory), c.(nextId := c.nextId + 1);
        match CreateStandard(policy, c.nextId, prefix, req)
        case Err(e) =>
          (match StandardErrorCode(e)
           case None => Opened(s1, c1, Raised(Unbound))
           case Some(code) => Opened(s1, c1, Nested([[], [OpenError(req.requestId, code)]])))
        case Ok(channel) =>
          var id := channel.channelId;
          if !c.requiresStandardJobs && c.groupChannel.None? then
            Opened(s1, c1.(standardChannels := c1.standardChannels[id := channel]), Raised(NoGroup)) else
          var c2 := c1.(groupChannel :=
            if c.requiresStandardJobs then c.groupChannel
            else Some(c.groupChannel.value.(memberIds := c.groupChannel.value.memberIds + {id})));
          var groupId := if c.requiresStandardJobs then 0 else c.groupChannel.value.groupChannelId;
          var a := Activate(channel, s.template, s.prevHash, false);
          var c3 := c2.(standardChannels := c2.standardChannels[id := a.channel]);
          match a.result
          case Err(r) => Opened(s1, c3, Raised(r))
          case Ok(found) =>
            Opened(s1, c3, Flat([OpenStandardSuccess(req.requestId, id, channel.target, channel.extranoncePrefix, groupId)]
                                + JobReplies(channel, found, s.prevHash)))
  }

  function OpenExtended(policy: Policy, s: ServerState, c: ConnState, req: Request): Opened
    requires WellFormed(s.extendedFactory)
  {
    match NextExtended(s.extendedFactory, req.minExtranonceSize)
    case Err(_) => Opened(s, c, Flat([OpenError(req.requestId, "min-extranonce-size-too-large")]))
    case Ok((factory, prefix)) =>
      var s1, c1 := s.(extendedFactory := factory), c.(nextId := c.nextId + 1);
      match CreateExtended(policy, c.nextId, prefix, req)
      case Err(e) =>
        (match ExtendedErrorCode(e)
         case None => Opened(s1, c1, Raised(Unbound))
         case Some(code) => Opened(s1, c1, Flat([OpenError(req.requestId, code)])))
      case Ok(channel) =>
        var id := channel.channelId;
        var success := OpenExtendedSuccess(req.requestId, id, channel.target, channel.extranoncePrefix, channel.rollableSize);
        if c.requiresWorkSelection then
          match OnSetNewPrevHash(channel, s.prevHash, true)
          case Err(e) => Opened(s1, c1.(extendedChannels := c1.extendedChannels[id := channel]), Raised(InChannel(e)))
          case Ok(tip) => Opened(s1, c1.(extendedChannels := c1.extendedChannels[id := tip]), Flat([success]))
        else
          var a := Activate(channel, s.template, s.prevHash, true);
          var c2 := c1.(extendedChannels := c1.extendedChannels[id := a.channel]);
          match a.result
          case Err(r) => Opened(s1, c2, Raised(r))
          case Ok(found) => Opened(s1, c2, Flat([success] + JobReplies(channel, found, s.prevHash)))
  }

  // ----- the context objects -----

  class MiningServerContext {
    const standardFactory: Sv2ExtranoncePrefixFactoryStandard
    const extendedFactory: Sv2ExtranoncePrefixFactoryExtended
    var template: NewTemplate
    var prevHash: PrevHash

    constructor (standardFactory: Sv2ExtranoncePrefixFactoryStandard, extendedFactory: Sv2ExtranoncePrefixFactoryExtended,
                 template: NewTemplate, prevHash: PrevHash)
      ensures this.standardFactory == standardFactory && this.extendedFactory == extendedFactory
      ensures State() == ServerState(standardFactory.inner, extendedFactory.inner, template, prevHash)
    {
      this.standardFactory := standardFactory;
      this.extendedFactory := extendedFactory;
      this.template := template;
      this.prevHash := prevHash;
    }

    ghost function State(): ServerState
      reads this, standardFactory, extendedFactory
    {
      ServerState(standardFactory.inner, extendedFactory.inner, template, prevHash)
    }

    ghost predicate Valid()
      reads this, standardFactory, extendedFactory
    {
      WellFormed(standardFactory.inner) && WellFormed(extendedFactory.inner)
    }
  }

  /** A group channel starts with the cached template and previous hash; otherwise it cannot be set up. */
  function NewGroup(id: u32, t: NewTemplate, p: PrevHash): Result<Group, ChannelError> {
    match OnNewTemplate(NewChannel(id, [], Grant([], 0)), t)
    case Err(e) => Err(e)
    case Ok(withJob) =>
      match OnSetNewPrevHash(withJob, p, false)
      case Err(e) => Err(e)
      case Ok(active) => Ok(Group(id, {}, active))
  }

  /** `ConnectionContext.__init__`: a group channel takes the first id, unless a flag rules it out. */
  function NewConnection(standardJobs: bool, workSelection: bool, t: NewTemplate, p: PrevHash): Result<ConnState, ChannelError> {
    if standardJobs || workSelection then
      Ok(ConnState(0, standardJobs, workSelection, map[], map[], None))
    else match NewGroup(0, t, p)
      case Err(e) => Err(e)
      case Ok(group) => Ok(ConnState(1, standardJobs, workSelection, map[], map[], Some(group)))
  }

  /** The extended example's connections never have a group channel. */
  function NewExtendedConnection(standardJobs: bool, workSelection: bool): ConnState {
    ConnState(0, standardJobs, workSelection, map[], map[], None)
  }

  class ConnectionContext {
    var nextId: nat
    var requiresStandardJobs: bool
    var requiresWorkSelection: bool
    var standardChannels: map<u32, Channel>
    var extendedChannels: map<u32, Channel>
    var groupChannel: Option<Group>

    function State(): ConnState
      reads this
    {
      ConnState(nextId, requiresStandardJobs, requiresWorkSelection, standardChannels, extendedChannels, groupChannel)
    }

    constructor (c: ConnState)
      ensures State() == c
    {
      nextId := c.nextId;
      requiresStandardJobs := c.requiresStandardJobs;
      requiresWorkSelection := c.requiresWorkSelection;
      standardChannels := c.standardChannels;
      extendedChannels := c.extendedChannels;
      groupChannel := c.groupChannel;
    }

    /** A group channel takes the first id and the cached template; if that fails there is no connection. */
    static method New(standardJobs: bool, workSelection: bool, server: MiningServerContext)
      returns (r: Result<ConnectionContext, ChannelError>)
      ensures match NewConnection(standardJobs, workSelection, server.template, server.prevHash)
              case Err(e) => r == Err(e)
              case Ok(c) => r.Ok? && fresh(r.value) && r.value.State() == c
    {
      hide OnNewTemplate, OnSetNewPrevHash;
      var c := new ConnectionContext(NewExtendedConnection(standardJobs, workSelection));
      if !standardJobs && !workSelection {
        var group := NewGroup(c.nextId, server.template, server.prevHash);
        c.nextId := c.nextId + 1;
        if group.Err? {
          return Err(group.error);
        }
        c.groupChannel := Some(group.value);
      }
      r := Ok(c);
    }

    method BootstrapStandardChannelServer(policy: Policy, server: MiningServerContext, req: Request) returns (r: Returned)
      requires server.Valid()
      modifies this, server.standardFactory
      ensures server.Valid()
      ensures Opened(server.State(), State(), r) == OpenStandard(policy, old(server.State()), old(State()), req)
    {
      hide Activate, JobReplies, CreateStandard, StandardErrorCode, NextStandard, WellFormed;
      if requiresWorkSelection {
        return Flat([OpenError(req.requestId, "standard-channels-not-supported-for-custom-work")]);
      }
      var prefix := server.standardFactory.NextExtranoncePrefix();
      if prefix.Err? {
        return Raised(Factory(prefix.error));
      }
      var id := nextId;
      nextId := nextId + 1;
      var created := CreateStandard(policy, id, prefix.value, req);
      if created.Err? {
        var code := StandardErrorCode(created.error);
        if code.None? {
          return Raised(Unbound);
        }
        return Nested([[], [OpenError(req.requestId, code.value)]]);
      }
      var channel := created.value;
      standardChannels := standardChannels[channel.channelId := channel];
      var groupChannelId: u32 := 0;
      if !requiresStandardJobs {
        if groupChannel.None? {
          return Raised(NoGroup);
        }
        var group := groupChannel.value;
        groupChannelId := group.groupChannelId;
        groupChannel := Some(group.(memberIds := group.memberIds + {channel.channelId}));
      }
      var success := OpenStandardSuccess(req.requestId, channel.channelId, channel.target, channel.extranoncePrefix, groupChannelId);
      var a := Activate(channel, server.template, server.prevHash, false);
      standardChannels := standardChannels[channel.channelId := a.channel];
      assert standardChannels == old(standardChannels)[channel.channelId := a.channel];
      if a.result.Err? {
        return Raised(a.result.error);
      }
      r := Flat([success] + JobReplies(channel, a.result.value, server.prevHash));
    }

    method BootstrapExtendedChannelServer(policy: Policy, server: MiningServerContext, req: Request) returns (r: Returned)
      requires server.Valid()
      modifies this, server.extendedFactory
      ensures server.Valid()
      ensures Opened(server.State(), State(), r) == OpenExtended(policy, old(server.State()), old(State()), req)
    {
      hide Activate, JobReplies, CreateExtended, ExtendedErrorCode, NextExtended, OnSetNewPrevHash, WellFormed;
      var prefix := server.extendedFactory.NextExtranoncePrefix(req.minExtranonceSize);
      if prefix.Err? {
        return Flat([OpenError(req.requestId, "min-extranonce-size-too-large")]);
      }
      var id := nextId;
      nextId := nextId + 1;
      var created := CreateExtended(policy, id, prefix.value, req);
      if created.Err? {
        var code := ExtendedErrorCode(created.error);
        if code.None? {
          return Raised(Unbound);
        }
        return Flat([OpenError(req.requestId, code.value)]);
      }
      var channel := created.value;
      extendedChannels := extendedChannels[channel.channelId := channel];
      var success := OpenExtendedSuccess(req.requestId, channel.channelId, channel.target, channel.extranoncePrefix,
                                         channel.rollableSize);
      if requiresWorkSelection {
        var tip := OnSetNewPrevHash(channel, server.prevHash, true);
        if tip.Err? {
          return Raised(InChannel(tip.error));
        }
        extendedChannels := extendedChannels[channel.channelId := tip.value];
        return Flat([success]);
      }
      var a := Activate(channel, server.template, server.prevHash, true);
      extendedChannels := extendedChannels[channel.channelId := a.channel];
      if a.result.Err? {
        return Raised(a.result.error);
      }
      r := Flat([success] + JobReplies(channel, a.result.value, server.prevHash));
    }
  }
}
