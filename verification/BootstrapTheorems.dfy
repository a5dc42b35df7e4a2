/** What every run of open requests keeps: the channel registry, the prefixes, and the client's picture of it. */
module BootstrapTheorems {
  import opened Bytes
  import opened Radix
  import opened Sv2Messages
  import opened Conversion
  import opened Extranonce
  import opened Bootstrap

  // ----- one open request, of either kind -----

  datatype Call = Call(kind: Kind, policy: Policy, req: Request)

  /** Whether the group channel, if the request needs one, is there. */
  predicate CanServe(c: ConnState, kind: Kind) {
    kind.Standard? && !c.requiresStandardJobs && !c.requiresWorkSelection ==> c.groupChannel.Some?
  }

  predicate ServerOk(s: ServerState) {
    WellFormed(s.standardFactory) && WellFormed(s.extendedFactory)
  }

  function FactoryOf(kind: Kind, s: ServerState): ExtendedExtranonce {
    if kind.Standard? then s.standardFactory else s.extendedFactory
  }

  function ChannelsOf(kind: Kind, c: ConnState): map<u32, Channel> {
    if kind.Standard? then c.standardChannels else c.extendedChannels
  }

  function OpenOne(s: ServerState, c: ConnState, call: Call): Opened
    requires ServerOk(s)
  {
    if call.kind.Standard? then OpenStandard(call.policy, s, c, call.req)
    else OpenExtended(call.policy, s, c, call.req)
  }

  /** What the channel library must be given, and must agree to, for a channel to exist. */
  predicate Accepted(id: nat, call: Call) {
    id < 0x1_0000_0000 && |call.req.maxTarget| == 32 && call.policy(call.req).Ok?
  }

  /** The request gets as far as taking a prefix. */
  predicate TakesPrefix(s: ServerState, c: ConnState, call: Call)
    requires ServerOk(s)
  {
    var x := FactoryOf(call.kind, s);
    && (call.kind.Standard? ==> !c.requiresWorkSelection)
    && (call.kind.Standard? || call.req.minExtranonceSize <= |x.bytes| - x.split)
    && Count(CounterOf(call.kind, x)) + 1 < Pow(256, |CounterOf(call.kind, x)|)
  }

  /** The cached template and previous hash belong together and fit the wire format. */
  predicate Coherent(s: ServerState) {
    && s.template.futureTemplate && s.template.templateId == s.prevHash.templateId
    && MessageToInner(s.template).Ok? && MessageToInner(s.prevHash).Ok?
  }

  /** What a new channel needs of its connection and the cached messages to be handed to the client. */
  predicate Activates(s: ServerState, c: ConnState, kind: Kind) {
    CanServe(c, kind)
    && if kind.Extended? && c.requiresWorkSelection then MessageToInner(s.prevHash).Ok? else Coherent(s)
  }

  /** On a fresh channel: both job lookups are defined, and only a coherent cache activates. */
  lemma FreshChannelActivates(id: u32, prefix: seq<byte>, grant: Grant, s: ServerState, tipAlone: bool)
    ensures var c := NewChannel(id, prefix, grant);
            var a := Activate(c, s.template, s.prevHash, tipAlone);
            var job := Job(FIRST_JOB, id, s.template.templateId);
            && (a.result.Ok? <==> Coherent(s))
            && (a.result.Err? ==> a.result.error.InChannel?)
            && a.channel.channelId == id && a.channel.extranoncePrefix == prefix
            && Grant(a.channel.target, a.channel.rollableSize) == grant
            && (Coherent(s) ==>
                  a.result == Ok(Found(FIRST_JOB, job))
                  && a.channel.activeJob == Some(job) && a.channel.futureJobs == map[] && a.channel.templateToJob == map[]
                  && a.channel.hasTip)
  {
    hide MessageToInner;
    assert map[FIRST_JOB := Job(FIRST_JOB, id, s.template.templateId)] - {FIRST_JOB} == map[];
  }

  lemma FreshChannelTip(id: u32, prefix: seq<byte>, grant: Grant, s: ServerState)
    ensures var c := NewChannel(id, prefix, grant);
            var r := OnSetNewPrevHash(c, s.prevHash, true);
            if MessageToInner(s.prevHash).Ok? then r == Ok(c.(hasTip := true)) else r.Err?
  {
    hide MessageToInner;
  }

  /** Why the cached messages cannot activate a channel; the template comes first. */
  function ActivationError(s: ServerState): ChannelError {
    if MessageToInner(s.template).Err? then FailedToConvertMessage(MessageToInner(s.template).error)
    else if !s.template.futureTemplate then FailedToProcessNewTemplate
    else if MessageToInner(s.prevHash).Err? then FailedToConvertMessage(MessageToInner(s.prevHash).error)
    else FailedToProcessNewPrevHash
  }

  /** A template that was taken in before the failure has left its future job behind. */
  lemma FreshChannelFails(id: u32, prefix: seq<byte>, grant: Grant, s: ServerState, tipAlone: bool)
    requires !Coherent(s)
    ensures var c := NewChannel(id, prefix, grant);
            var a := Activate(c, s.template, s.prevHash, tipAlone);
            && a.result == Err(InChannel(ActivationError(s)))
            && if MessageToInner(s.template).Ok? && s.template.futureTemplate then
                 && a.channel.futureJobs == map[FIRST_JOB := Job(FIRST_JOB, id, s.template.templateId)]
                 && a.channel.templateToJob == map[s.template.templateId := FIRST_JOB]
                 && a.channel.activeJob == None && !a.channel.hasTip
               else a.channel == c
  {
    hide MessageToInner;
  }

  /** How far one request gets, read off the state it leaves. */
  datatype Progress = Refused | Unregistered(prefix: seq<byte>) | Registered(prefix: seq<byte>)

  predicate Did(s: ServerState, c: ConnState, call: Call, p: Progress)
    requires ServerOk(s)
  {
    var o := OpenOne(s, c, call);
    match p
    case Refused => o.server == s && o.conn == c
    case Unregistered(prefix) =>
      TookPrefix(s, o.server, call, prefix) && o.conn == c.(nextId := c.nextId + 1)
    case Registered(prefix) =>
      && TookPrefix(s, o.server, call, prefix)
      && c.nextId < 0x1_0000_0000
      && var id: u32 := c.nextId;
      && id in ChannelsOf(call.kind, o.conn)
      && var stored := ChannelsOf(call.kind, o.conn)[id];
      && stored.channelId == id && stored.extranoncePrefix == prefix
      && call.policy(call.req) == Ok(Grant(stored.target, stored.rollableSize))
      && o.conn == WithChannel(c, call.kind, stored)
  }

  predicate TookPrefix(s: ServerState, after: ServerState, call: Call, prefix: seq<byte>)
    requires ServerOk(s)
  {
    var next := Next(call.kind, FactoryOf(call.kind, s), call.req.minExtranonceSize);
    && next.Ok? && next.value.1 == prefix
    && after == if call.kind.Standard? then s.(standardFactory := next.value.0) else s.(extendedFactory := next.value.0)
  }

  /** A connection with one more channel under the next id; a standard one joins the group, if there is one. */
  function WithChannel(c: ConnState, kind: Kind, ch: Channel): ConnState
  {
    var next := c.(nextId := c.nextId + 1);
    if kind.Extended? then next.(extendedChannels := c.extendedChannels[ch.channelId := ch])
    else if c.requiresStandardJobs || c.groupChannel.None? then
      next.(standardChannels := c.standardChannels[ch.channelId := ch])
    else next.(
      standardChannels := c.standardChannels[ch.channelId := ch],
      groupChannel := Some(c.groupChannel.value.(memberIds := c.groupChannel.value.memberIds + {ch.channelId})))
  }

  function ProgressOf(s: ServerState, c: ConnState, call: Call): Progress
    requires ServerOk(s)
  {
    if !TakesPrefix(s, c, call) then Refused else
    var next := Next(call.kind, FactoryOf(call.kind, s), call.req.minExtranonceSize);
    if next.Err? then Refused
    else if Accepted(c.nextId, call) then Registered(next.value.1) else Unregistered(next.value.1)
  }

  /** One request takes no prefix and no id, or one of each; its channel is registered exactly when the library accepts it. */
  lemma OpenOutcome(s: ServerState, c: ConnState, call: Call)
    requires ServerOk(s)
    ensures ProgressOf(s, c, call).Refused? <==> !TakesPrefix(s, c, call)
    ensures Did(s, c, call, ProgressOf(s, c, call))
  {
    hide Activate, JobReplies, OnSetNewPrevHash, MessageToInner, NextStandard, NextExtended, Count, Pow, CounterOf;
    NextPrefix(call.kind, FactoryOf(call.kind, s), call.req.minExtranonceSize);
    if ProgressOf(s, c, call).Registered? {
      var grant := call.policy(call.req).value;
      FreshChannelActivates(c.nextId, ProgressOf(s, c, call).prefix, grant, s, call.kind.Extended?);
      FreshChannelTip(c.nextId, ProgressOf(s, c, call).prefix, grant, s);
    }
  }

  // ----- the registry of one connection -----

  ghost predicate Registry(c: ConnState) {
    && (forall id :: id in c.standardChannels ==> c.standardChannels[id].channelId == id && id < c.nextId)
    && (forall id :: id in c.extendedChannels ==> c.extendedChannels[id].channelId == id && id < c.nextId)
    && c.standardChannels.Keys !! c.extendedChannels.Keys
    && match c.groupChannel
       case None => true
       case Some(g) =>
         && !c.requiresStandardJobs && !c.requiresWorkSelection
         && g.memberIds == c.standardChannels.Keys && g.channel.channelId == g.groupChannelId < c.nextId
         && g.groupChannelId !in c.standardChannels && g.groupChannelId !in c.extendedChannels
  }

  predicate GroupRule(c: ConnState) {
    c.groupChannel.Some? <==> !c.requiresStandardJobs && !c.requiresWorkSelection
  }

  predicate HasFlags(c: ConnState, standardJobs: bool, workSelection: bool) {
    c.requiresStandardJobs == standardJobs && c.requiresWorkSelection == workSelection
  }

  /** A connection exists exactly when it needs no group channel or the cached messages are coherent. */
  lemma NewConnectionRegistered(standardJobs: bool, workSelection: bool, s: ServerState)
    ensures var r := NewConnection(standardJobs, workSelection, s.template, s.prevHash);
            && (r.Ok? <==> standardJobs || workSelection || Coherent(s))
            && (r.Ok? ==> Registry(r.value) && GroupRule(r.value)
                          && r.value.standardChannels == map[] && r.value.extendedChannels == map[])
            && (r.Ok? ==> HasFlags(r.value, standardJobs, workSelection) && r.value.nextId == if r.value.groupChannel.Some? then 1 else 0)
            && (r.Ok? && r.value.groupChannel.Some? ==>
                  var g := r.value.groupChannel.value;
                  && g.groupChannelId == 0 && g.memberIds == {}
                  && g.channel.activeJob == Some(Job(FIRST_JOB, 0, s.template.templateId))
                  && g.channel.futureJobs == map[] && g.channel.hasTip)
    ensures var c := NewExtendedConnection(standardJobs, workSelection);
            HasFlags(c, standardJobs, workSelection) && c.nextId == 0 && c.groupChannel == None
            && c.standardChannels == map[] && c.extendedChannels == map[]
    ensures Registry(NewExtendedConnection(standardJobs, workSelection))
  {
    hide MessageToInner;
  }

  lemma WithChannelRegistered(c: ConnState, kind: Kind, ch: Channel)
    requires Registry(c) && ch.channelId == c.nextId
    requires kind.Standard? ==> !c.requiresWorkSelection
    ensures var after := WithChannel(c, kind, ch);
            && Registry(after) && after.nextId == c.nextId + 1
            && (GroupRule(c) <==> GroupRule(after)) && HasFlags(after, c.requiresStandardJobs, c.requiresWorkSelection)
  {
  }

  /** Every request, accepted or not, keeps the registry and never loses or creates the group channel. */
  lemma OpenKeepsRegistry(s: ServerState, c: ConnState, call: Call)
    requires ServerOk(s) && Registry(c)
    ensures var o := OpenOne(s, c, call);
            ServerOk(o.server) && Registry(o.conn) && (GroupRule(c) <==> GroupRule(o.conn))
            && HasFlags(o.conn, c.requiresStandardJobs, c.requiresWorkSelection)
            && c.nextId <= o.conn.nextId <= c.nextId + 1
  {
    hide OpenOne, Accepted, Next, WithChannel, CounterOf, Count, Pow;
    OpenOutcome(s, c, call);
    match ProgressOf(s, c, call)
    case Registered(_) =>
      hide Registry;
      WithChannelRegistered(c, call.kind, ChannelsOf(call.kind, OpenOne(s, c, call).conn)[c.nextId]);
    case _ =>
  }

  // ----- ids over every sequence of requests -----

  /** The id a request took and whether its channel is registered; requests refused early take none. */
  datatype Attempt = Attempt(id: nat, kind: Kind, registered: bool)

  function Calls(s: ServerState, c: ConnState, calls: seq<Call>): (r: (ServerState, ConnState, seq<Attempt>))
    requires ServerOk(s) && Registry(c)
    decreases |calls|
  {
    if calls == [] then (s, c, []) else
    var o := OpenOne(s, c, calls[0]);
    OpenKeepsRegistry(s, c, calls[0]);
    var (s', c', rest) := Calls(o.server, o.conn, calls[1..]);
    (s', c',
     (if o.conn.nextId == c.nextId then []
      else [Attempt(c.nextId, calls[0].kind, c.nextId in ChannelsOf(calls[0].kind, o.conn))]) + rest)
  }

  lemma OneMoreId(s: ServerState, c: ConnState, call: Call)
    requires ServerOk(s) && Registry(c)
    ensures var o := OpenOne(s, c, call);
            var attempt := Attempt(c.nextId, call.kind, c.nextId in ChannelsOf(call.kind, o.conn));
            forall id: u32, kind :: id in ChannelsOf(kind, o.conn) <==>
              id in ChannelsOf(kind, c) || (o.conn.nextId != c.nextId && attempt == Attempt(id, kind, true))
  {
    hide OpenOne, TakesPrefix, Accepted, Next;
    OpenOutcome(s, c, call);
  }

  /**
   * Attempts take consecutive ids, so no id is issued twice and one taken by a failed attempt
   * stays unused for good. The registered channels at the end are those at the start and those
   * of the successful attempts.
   */
  lemma {:induction false} IdsNeverReissued(s: ServerState, c: ConnState, calls: seq<Call>)
    requires ServerOk(s) && Registry(c)
    ensures var (s', c', log) := Calls(s, c, calls);
            && ServerOk(s') && Registry(c') && (GroupRule(c) <==> GroupRule(c')) && c'.nextId == c.nextId + |log|
            && (forall k :: 0 <= k < |log| ==> log[k].id == c.nextId + k)
            && forall id: u32, kind :: id in ChannelsOf(kind, c') <==>
                 id in ChannelsOf(kind, c) || Attempt(id, kind, true) in log
    decreases |calls|
  {
    hide OpenOne, TakesPrefix, Accepted, Next, Registry;
    if calls != [] {
      var o := OpenOne(s, c, calls[0]);
      OpenKeepsRegistry(s, c, calls[0]);
      OneMoreId(s, c, calls[0]);
      IdsNeverReissued(o.server, o.conn, calls[1..]);
      var rest := Calls(o.server, o.conn, calls[1..]).2;
      var log := Calls(s, c, calls).2;
      if o.conn.nextId != c.nextId {
        assert log[1..] == rest;
        forall attempt ensures attempt in log <==> attempt == log[0] || attempt in rest {
          assert log == [log[0]] + rest;
        }
      } else {
        assert log == rest;
      }
    }
  }

  // ----- a server with any number of connections -----

  datatype World = World(server: ServerState, connections: seq<ConnState>)

  /** New cached messages arrive, a client connects to either program, or a client asks for a channel. */
  datatype Event =
    | Cache(template: NewTemplate, prevHash: PrevHash)
    | Connect(standardJobs: bool, workSelection: bool)
    | ConnectExtended(standardJobs: bool, workSelection: bool)
    | Open(who: nat, call: Call)

  function Step(w: World, e: Event): (after: World)
    requires ServerOk(w.server)
    ensures ServerOk(after.server)
  {
    match e
    case Cache(t, p) => w.(server := w.server.(template := t, prevHash := p))
    case Connect(standardJobs, workSelection) =>
      (match NewConnection(standardJobs, workSelection, w.server.template, w.server.prevHash)
       case Err(_) => w
       case Ok(c) => w.(connections := w.connections + [c]))
    case ConnectExtended(standardJobs, workSelection) =>
      w.(connections := w.connections + [NewExtendedConnection(standardJobs, workSelection)])
    case Open(who, call) =>
      if who < |w.connections| then
        OpenOutcome(w.server, w.connections[who], call);
        var o := OpenOne(w.server, w.connections[who], call);
        World(o.server, w.connections[who := o.conn])
      else w
  }

  function Run(w: World, events: seq<Event>): (after: World)
    requires ServerOk(w.server)
    ensures ServerOk(after.server)
    decreases |events|
  {
    if events == [] then w else Run(Step(w, events[0]), events[1..])
  }

  /** Where a channel is kept: the connection and the key. */
  datatype Slot = Slot(who: nat, id: u32)

  predicate Holds(kind: Kind, w: World, slot: Slot) {
    slot.who < |w.connections| && slot.id in ChannelsOf(kind, w.connections[slot.who])
  }

  function PrefixAt(kind: Kind, w: World, slot: Slot): seq<byte>
    requires Holds(kind, w, slot)
  {
    ChannelsOf(kind, w.connections[slot.who])[slot.id].extranoncePrefix
  }

  /** A prefix the factory has handed out already: right shape, and a serial the counter has passed. */
  predicate HandedOut(kind: Kind, s: ServerState, prefix: seq<byte>)
    requires ServerOk(s)
  {
    var x := FactoryOf(kind, s);
    HasShape(kind, x, prefix) && Serial(kind, x.staticLen, x.split, prefix) <= Count(CounterOf(kind, x))
  }

  ghost predicate DistinctPrefixes(kind: Kind, w: World)
    requires ServerOk(w.server)
  {
    && (forall slot :: Holds(kind, w, slot) ==> HandedOut(kind, w.server, PrefixAt(kind, w, slot)))
    && forall s1, s2 :: Holds(kind, w, s1) && Holds(kind, w, s2) && s1 != s2 ==>
         PrefixAt(kind, w, s1) != PrefixAt(kind, w, s2)
  }

  ghost predicate WorldInv(w: World) {
    && ServerOk(w.server)
    && (forall i :: 0 <= i < |w.connections| ==> Registry(w.connections[i]))
    && DistinctPrefixes(Standard, w) && DistinctPrefixes(Extended, w)
  }

  /** Prefixes handed out stay so, and a request's own prefix is now one of them. */
  lemma OpenAdvancesFactory(w: World, who: nat, call: Call)
    requires ServerOk(w.server) && who < |w.connections|
    ensures var after, p := Step(w, Open(who, call)).server, ProgressOf(w.server, w.connections[who], call);
            && (p.Registered? ==> HandedOut(call.kind, after, p.prefix) && !HandedOut(call.kind, w.server, p.prefix))
            && forall kind, prefix :: HandedOut(kind, w.server, prefix) ==> HandedOut(kind, after, prefix)
  {
    hide OpenOne, TakesPrefix, Accepted, Next, Serial, CounterOf, Count, Pow;
    OpenOutcome(w.server, w.connections[who], call);
    NextPrefix(call.kind, FactoryOf(call.kind, w.server), call.req.minExtranonceSize);
  }

  /** The one slot a request can fill was empty, and holds the prefix it took. */
  lemma OpenFillsOneSlot(w: World, who: nat, call: Call, kind: Kind, slot: Slot)
    requires WorldInv(w) && who < |w.connections|
    requires Holds(kind, Step(w, Open(who, call)), slot)
    ensures var after, p := Step(w, Open(who, call)), ProgressOf(w.server, w.connections[who], call);
            if Holds(kind, w, slot) then PrefixAt(kind, after, slot) == PrefixAt(kind, w, slot)
            else kind == call.kind && slot == Slot(who, w.connections[who].nextId)
                 && p.Registered? && PrefixAt(kind, after, slot) == p.prefix
  {
    hide OpenOne, DistinctPrefixes, ProgressOf, Next;
    OpenOutcome(w.server, w.connections[who], call);
  }

  lemma OpenKeepsPrefixes(w: World, who: nat, call: Call, kind: Kind)
    requires WorldInv(w) && who < |w.connections|
    ensures DistinctPrefixes(kind, Step(w, Open(who, call)))
  {
    hide OpenOne, ProgressOf, HandedOut, Holds, PrefixAt, Step;
    var after := Step(w, Open(who, call));
    OpenAdvancesFactory(w, who, call);
    forall slot | Holds(kind, after, slot) {
      OpenFillsOneSlot(w, who, call, kind, slot);
    }
  }

  /** Connections start without channels, so adding them (or new cached messages) adds no prefixes. */
  lemma ConnectionsOnlyAdded(w: World, after: World)
    requires WorldInv(w) && w.connections <= after.connections
    requires forall i :: |w.connections| <= i < |after.connections| ==>
               Registry(after.connections[i])
               && forall kind :: ChannelsOf(kind, after.connections[i]) == map[]
    requires forall kind :: FactoryOf(kind, after.server) == FactoryOf(kind, w.server)
    ensures WorldInv(after)
  {
    hide Registry, HasShape, Serial, CounterOf, Count, WellFormed;
    assert FactoryOf(Standard, after.server) == after.server.standardFactory;
    assert FactoryOf(Extended, after.server) == after.server.extendedFactory;
    forall kind, slot | Holds(kind, after, slot)
      ensures Holds(kind, w, slot) && PrefixAt(kind, after, slot) == PrefixAt(kind, w, slot)
    {
      if slot.who >= |w.connections| { assert false; }
    }
  }

  lemma StepKeepsWorld(w: World, e: Event)
    requires WorldInv(w)
    ensures WorldInv(Step(w, e))
  {
    hide OpenOne, NewConnection, Registry, HandedOut;
    match e
    case Open(who, call) =>
      if who < |w.connections| {
        hide DistinctPrefixes;
        OpenKeepsRegistry(w.server, w.connections[who], call);
        OpenKeepsPrefixes(w, who, call, Standard);
        OpenKeepsPrefixes(w, who, call, Extended);
      }
    case Cache(_, _) => ConnectionsOnlyAdded(w, Step(w, e));
    case Connect(standardJobs, workSelection) =>
      NewConnectionRegistered(standardJobs, workSelection, w.server);
      ConnectionsOnlyAdded(w, Step(w, e));
    case ConnectExtended(standardJobs, workSelection) =>
      NewConnectionRegistered(standardJobs, workSelection, w.server);
      ConnectionsOnlyAdded(w, Step(w, e));
  }

  /**
   * Whatever clients connect and ask for, in whatever order, every connection's registry is
   * kept and no two channels of a kind, on any connections of the server, share a prefix.
   */
  lemma {:induction false} RunKeepsWorld(w: World, events: seq<Event>)
    requires WorldInv(w)
    ensures WorldInv(Run(w, events))
    decreases |events|
  {
    hide Step, DistinctPrefixes, Registry;
    if events != [] {
      StepKeepsWorld(w, events[0]);
      RunKeepsWorld(Step(w, events[0]), events[1..]);
    }
  }

  lemma PrefixesDistinctAcrossConnections(s: ServerState, events: seq<Event>, kind: Kind, s1: Slot, s2: Slot)
    requires ServerOk(s)
    ensures var w := Run(World(s, []), events);
            Holds(kind, w, s1) && Holds(kind, w, s2) && PrefixAt(kind, w, s1) == PrefixAt(kind, w, s2) ==> s1 == s2
  {
    hide Run;
    RunKeepsWorld(World(s, []), events);
  }

  // ----- what the client is told -----

  predicate Succeeded(r: Returned) {
    r.Flat? && r.messages != [] && !r.messages[0].OpenError?
  }

  /** The arguments the channel constructor can be given at all; otherwise it raises a name neither function lists. */
  predicate Constructible(c: ConnState, call: Call) {
    c.nextId < 0x1_0000_0000 && |call.req.maxTarget| == 32
  }

  /** Every outcome, each with the condition it has exactly; a failed job lookup is not among them. */
  lemma ReturnedExactly(s: ServerState, c: ConnState, call: Call)
    requires ServerOk(s)
    ensures var r := OpenOne(s, c, call).returned;
            var ready := TakesPrefix(s, c, call) && Accepted(c.nextId, call);
            && (Succeeded(r) <==> ready && Activates(s, c, call.kind))
            && (r.Raised? && r.reason.InChannel? <==> ready && CanServe(c, call.kind) && !Activates(s, c, call.kind))
            && (r == Raised(NoGroup) <==> ready && !CanServe(c, call.kind))
            && (r == Raised(Unbound) <==> TakesPrefix(s, c, call) && !Constructible(c, call))
            && (r.Raised? && r.reason.Factory? <==>
                  call.kind.Standard? && !c.requiresWorkSelection && !TakesPrefix(s, c, call))
            && (r.Raised? && r.reason.Factory? ==> r.reason.factory == FailedToCreateExtranoncePrefix)
            && (r.Nested? <==>
                  call.kind.Standard? && TakesPrefix(s, c, call) && Constructible(c, call) && !ready)
            && r != Raised(KeyError)
  {
    hide Activate, JobReplies, OnSetNewPrevHash, MessageToInner, NextStandard, NextExtended, Count, Pow, CounterOf, Coherent;
    NextPrefix(call.kind, FactoryOf(call.kind, s), call.req.minExtranonceSize);
    if ProgressOf(s, c, call).Registered? {
      var grant := call.policy(call.req).value;
      FreshChannelActivates(c.nextId, ProgressOf(s, c, call).prefix, grant, s, call.kind.Extended?);
      FreshChannelTip(c.nextId, ProgressOf(s, c, call).prefix, grant, s);
    }
  }

  /**
   * What a request that strands a channel raises, and what it leaves registered: the channel as
   * created, or with the template's job still in the future.
   */
  lemma StrandedExactly(s: ServerState, c: ConnState, call: Call)
    requires ServerOk(s)
    requires TakesPrefix(s, c, call) && Accepted(c.nextId, call) && !Activates(s, c, call.kind)
    ensures var o, id: u32 := OpenOne(s, c, call), c.nextId;
            && id in ChannelsOf(call.kind, o.conn)
            && var stored := ChannelsOf(call.kind, o.conn)[id];
            var created := NewChannel(id, stored.extranoncePrefix, call.policy(call.req).value);
            if !CanServe(c, call.kind) then
              o.returned == Raised(NoGroup) && stored == created
            else if call.kind.Extended? && c.requiresWorkSelection then
              && MessageToInner(s.prevHash).Err? && stored == created
              && o.returned == Raised(InChannel(FailedToConvertMessage(MessageToInner(s.prevHash).error)))
            else
              && o.returned == Raised(InChannel(ActivationError(s)))
              && if MessageToInner(s.template).Ok? && s.template.futureTemplate then
                   && stored.futureJobs == map[FIRST_JOB := Job(FIRST_JOB, id, s.template.templateId)]
                   && stored.templateToJob == map[s.template.templateId := FIRST_JOB]
                   && stored.activeJob == None && !stored.hasTip
                 else stored == created
  {
    hide Activate, JobReplies, MessageToInner, NextStandard, NextExtended, Count, Pow, CounterOf, Coherent, ActivationError;
    NextPrefix(call.kind, FactoryOf(call.kind, s), call.req.minExtranonceSize);
    var grant := call.policy(call.req).value;
    var prefix := ProgressOf(s, c, call).prefix;
    FreshChannelActivates(c.nextId, prefix, grant, s, call.kind.Extended?);
    if !Coherent(s) {
      FreshChannelFails(c.nextId, prefix, grant, s, call.kind.Extended?);
    }
  }

  /**
   * Refusals carry the request's id and one code. The standard function nests them in a second
   * list, except for work selection, and knows only one code for the library's reasons.
   */
  lemma RefusalReplies(s: ServerState, c: ConnState, call: Call)
    requires ServerOk(s)
    ensures var r, id := OpenOne(s, c, call).returned, call.req.requestId;
            && (r.Nested? ==> r == Nested([[], [OpenError(id, "other-error")]]))
            && (r.Flat? && !Succeeded(r) && call.kind.Standard? ==>
                  c.requiresWorkSelection
                  && r == Flat([OpenError(id, "standard-channels-not-supported-for-custom-work")]))
            && (r.Flat? && !Succeeded(r) && call.kind.Extended? ==>
                  exists code :: r == Flat([OpenError(id, code)]) && IsExtendedCode(code, s, c, call))
  {
    hide OpenStandard, OpenExtended, IsExtendedCode, TakesPrefix, Succeeded;
    if call.kind.Standard? {
      StandardRefusal(s, c, call);
    } else {
      ExtendedRefusal(s, c, call);
    }
  }

  /** The four codes of the extended function, each for its own reason. */
  predicate IsExtendedCode(code: string, s: ServerState, c: ConnState, call: Call)
    requires ServerOk(s)
  {
    && code in {"min-extranonce-size-too-large", "invalid-nominal-hashrate", "max-target-out-of-range", "other-error"}
    && (code == "min-extranonce-size-too-large" <==>
          !TakesPrefix(s, c, call) || call.policy(call.req) == Err(RequestedMinExtranonceSizeTooLarge))
    && (code == "invalid-nominal-hashrate" <==>
          TakesPrefix(s, c, call) && call.policy(call.req) == Err(InvalidNominalHashrate))
    && (code == "max-target-out-of-range" <==>
          TakesPrefix(s, c, call) && call.policy(call.req) == Err(RequestedMaxTargetOutOfRange))
  }

  lemma StandardRefusal(s: ServerState, c: ConnState, call: Call)
    requires ServerOk(s) && call.kind.Standard?
    ensures var r, id := OpenStandard(call.policy, s, c, call.req).returned, call.req.requestId;
            && (r.Nested? ==> r == Nested([[], [OpenError(id, "other-error")]]))
            && (r.Flat? && !Succeeded(r) ==>
                  c.requiresWorkSelection
                  && r == Flat([OpenError(id, "standard-channels-not-supported-for-custom-work")]))
  {
    hide Activate, JobReplies, MessageToInner, NextStandard, Coherent;
  }

  lemma ExtendedRefusal(s: ServerState, c: ConnState, call: Call)
    requires ServerOk(s) && call.kind.Extended?
    ensures var r, id := OpenExtended(call.policy, s, c, call.req).returned, call.req.requestId;
            && !r.Nested?
            && (r.Flat? && !Succeeded(r) ==>
                  exists code :: r == Flat([OpenError(id, code)]) && IsExtendedCode(code, s, c, call))
  {
    hide Activate, JobReplies, OnSetNewPrevHash, MessageToInner, NextExtended, Count, Pow, CounterOf, Coherent;
    NextPrefix(call.kind, FactoryOf(call.kind, s), call.req.minExtranonceSize);
    var r := OpenExtended(call.policy, s, c, call.req).returned;
    if r.Flat? && !Succeeded(r) {
      CodesDiffer();
      assert r == Flat([OpenError(call.req.requestId, r.messages[0].errorCode)]);
    }
  }

  /** Where both functions list a name, or a refusal of the library under its own name, they choose the same code. */
  lemma CodesAgree()
    ensures StandardErrorCode(InvalidNominalHashrate) == ExtendedErrorCode(InvalidNominalHashrate)
    ensures StandardErrorCode(RequestedMaxTargetOutOfRange) == ExtendedErrorCode(RequestedMaxTargetOutOfRange)
    ensures StandardErrorCode(FailedToCreateStandardChannel) == ExtendedErrorCode(FailedToCreateExtendedChannel)
    ensures forall e :: ExtendedErrorCode(e).None? ==> StandardErrorCode(e).None? || e == FailedToCreateStandardChannel
  {
  }

  lemma CodesDiffer()
    ensures "min-extranonce-size-too-large" != "invalid-nominal-hashrate"
    ensures "min-extranonce-size-too-large" != "max-target-out-of-range"
    ensures "invalid-nominal-hashrate" != "max-target-out-of-range"
    ensures "other-error" != "min-extranonce-size-too-large"
    ensures "other-error" != "invalid-nominal-hashrate" && "other-error" != "max-target-out-of-range"
  {
    assert "min-extranonce-size-too-large"[1] == 'i' && "max-target-out-of-range"[1] == 'a' && "invalid-nominal-hashrate"[1] == 'n';
    assert "other-error"[0] == 'o';
  }

  /** The group id a new standard channel is announced with: 0 when there is no group. */
  function GroupIdOf(c: ConnState): u32 {
    if c.groupChannel.Some? then c.groupChannel.value.groupChannelId else 0
  }

  predicate Announced(s: ServerState, c: ConnState, call: Call, id: u32, o: Opened) {
    && id in ChannelsOf(call.kind, o.conn)
    && var ch := ChannelsOf(call.kind, o.conn)[id];
    var success := if call.kind.Standard?
      then OpenStandardSuccess(call.req.requestId, id, ch.target, ch.extranoncePrefix, GroupIdOf(c))
      else OpenExtendedSuccess(call.req.requestId, id, ch.target, ch.extranoncePrefix, ch.rollableSize);
    && ch.futureJobs == map[] && ch.templateToJob == map[] && ch.hasTip
    && if call.kind.Extended? && c.requiresWorkSelection then
         ch.activeJob == None && o.returned == Flat([success])
       else
         && ch.activeJob.Some?
         && var job := ch.activeJob.value;
         && job.channelId == id && job.templateId == s.template.templateId
         && o.returned == Flat([success,
              FutureJob(id, job.jobId, s.template.templateId),
              NewPrevHash(id, job.jobId, s.prevHash.prevHash, s.prevHash.headerTimestamp, s.prevHash.nbits)])
  }

  /**
   * A success reply describes the channel as the server now holds it. Unless the client works on
   * its own jobs, the future job and the previous hash that activates it follow, in that order,
   * with the channel's id and one job id, and that job is the active one on the server too.
   */
  lemma SuccessReplies(s: ServerState, c: ConnState, call: Call)
    requires ServerOk(s) && Registry(c)
    ensures var o := OpenOne(s, c, call);
            Succeeded(o.returned) ==> c.nextId < 0x1_0000_0000 && Announced(s, c, call, c.nextId, o)
  {
    hide OpenOne, Announced, Registry, WellFormed;
    if call.kind.Standard? {
      StandardSuccess(s, c, call);
    } else {
      ExtendedSuccess(s, c, call);
    }
  }

  lemma StandardSuccess(s: ServerState, c: ConnState, call: Call)
    requires ServerOk(s) && Registry(c) && call.kind.Standard?
    ensures var o := OpenOne(s, c, call);
            Succeeded(o.returned) ==> c.nextId < 0x1_0000_0000 && Announced(s, c, call, c.nextId, o)
  {
    hide OpenExtended, CreateExtended, Activate, OnSetNewPrevHash, MessageToInner, NextStandard, NextExtended, Coherent, TakesPrefix;
    ReturnedExactly(s, c, call);
    OpenOutcome(s, c, call);
    if Succeeded(OpenOne(s, c, call).returned) {
      FreshChannelActivates(c.nextId, ProgressOf(s, c, call).prefix, call.policy(call.req).value, s, false);
    }
  }

  lemma ExtendedSuccess(s: ServerState, c: ConnState, call: Call)
    requires ServerOk(s) && Registry(c) && call.kind.Extended?
    ensures var o := OpenOne(s, c, call);
            Succeeded(o.returned) ==> c.nextId < 0x1_0000_0000 && Announced(s, c, call, c.nextId, o)
  {
    hide OpenStandard, CreateStandard, Activate, OnSetNewPrevHash, MessageToInner, NextStandard, NextExtended, Coherent, TakesPrefix;
    ReturnedExactly(s, c, call);
    OpenOutcome(s, c, call);
    if Succeeded(OpenOne(s, c, call).returned) {
      var grant := call.policy(call.req).value;
      FreshChannelActivates(c.nextId, ProgressOf(s, c, call).prefix, grant, s, true);
      FreshChannelTip(c.nextId, ProgressOf(s, c, call).prefix, grant, s);
    }
  }

  // ----- the client's picture of its channels -----

  /** What a client that follows the protocol knows of one channel. */
  datatype ClientChannel = ClientChannel(
    target: seq<byte>, extranoncePrefix: seq<byte>, groupChannelId: Option<u32>, extranonceSize: Option<u16>,
    futureJobs: map<u32, Job>, activeJob: Option<Job>)

  type ClientView = map<u32, ClientChannel>

  /** A success opens a channel, a future job is kept, and a previous hash naming a kept job activates it. */
  function Receive(v: ClientView, m: Reply): ClientView {
    match m
    case OpenError(_, _) => v
    case OpenStandardSuccess(_, id, target, prefix, group) =>
      v[id := ClientChannel(target, prefix, Some(group), None, map[], None)]
    case OpenExtendedSuccess(_, id, target, prefix, size) =>
      v[id := ClientChannel(target, prefix, None, Some(size), map[], None)]
    case FutureJob(id, job, template) =>
      if id !in v then v
      else v[id := v[id].(futureJobs := v[id].futureJobs[job := Job(job, id, template)])]
    case NewPrevHash(id, job, _, _, _) =>
      if id !in v || job !in v[id].futureJobs then v
      else v[id := v[id].(futureJobs := v[id].futureJobs - {job}, activeJob := Some(v[id].futureJobs[job]))]
  }

  function ReceiveAll(v: ClientView, ms: seq<Reply>): ClientView
    decreases |ms|
  {
    if ms == [] then v else ReceiveAll(Receive(v, ms[0]), ms[1..])
  }

  function ReceiveLists(v: ClientView, lists: seq<seq<Reply>>): ClientView
    decreases |lists|
  {
    if lists == [] then v else ReceiveLists(ReceiveAll(v, lists[0]), lists[1..])
  }

  function ReceiveReturned(v: ClientView, r: Returned): ClientView {
    match r
    case Flat(ms) => ReceiveAll(v, ms)
    case Nested(lists) => ReceiveLists(v, lists)
    case Raised(_) => v
  }

  /** What the server itself holds of a channel, seen from the client's side. */
  function Shown(c: ConnState, kind: Kind, ch: Channel): ClientChannel {
    ClientChannel(ch.target, ch.extranoncePrefix,
                  if kind.Extended? then None else Some(GroupIdOf(c)),
                  if kind.Extended? then Some(ch.rollableSize) else None,
                  ch.futureJobs, ch.activeJob)
  }

  function Mirror(c: ConnState): ClientView {
    map id | id in c.standardChannels.Keys + c.extendedChannels.Keys ::
      if id in c.standardChannels then Shown(c, Standard, c.standardChannels[id])
      else Shown(c, Extended, c.extendedChannels[id])
  }

  lemma MirrorWithChannel(c: ConnState, kind: Kind, ch: Channel)
    requires Registry(c) && ch.channelId == c.nextId
    ensures ch.channelId !in Mirror(c)
    ensures Mirror(WithChannel(c, kind, ch)) == Mirror(c)[ch.channelId := Shown(c, kind, ch)]
  {
    hide Registry, Mirror, Shown;
    NewIdIsFresh(c);
    MirrorExtended(c, WithChannel(c, kind, ch), kind, ch);
  }

  lemma MirrorExtended(c: ConnState, after: ConnState, kind: Kind, ch: Channel)
    requires ch.channelId !in c.standardChannels && ch.channelId !in c.extendedChannels
    requires GroupIdOf(after) == GroupIdOf(c)
    requires ChannelsOf(kind, after) == ChannelsOf(kind, c)[ch.channelId := ch]
    requires kind.Standard? ==> after.extendedChannels == c.extendedChannels
    requires kind.Extended? ==> after.standardChannels == c.standardChannels
    ensures ch.channelId !in Mirror(c)
    ensures Mirror(after) == Mirror(c)[ch.channelId := Shown(c, kind, ch)]
  {
    hide GroupIdOf;
  }

  lemma NewIdIsFresh(c: ConnState)
    requires Registry(c) && c.nextId < 0x1_0000_0000
    ensures c.nextId !in c.standardChannels && c.nextId !in c.extendedChannels
  {
  }

  /** Receiving success, future job and previous hash leaves the new channel with that job active. */
  lemma ReceiveThree(v: ClientView, success: Reply, id: u32, job: Job, prevHash: seq<byte>, minNtime: u32, nbits: u32)
    requires success.OpenStandardSuccess? || success.OpenExtendedSuccess?
    requires success.channelId == id == job.channelId
    ensures var channel := Receive(v, success)[id];
            ReceiveAll(v, [success, FutureJob(id, job.jobId, job.templateId), NewPrevHash(id, job.jobId, prevHash, minNtime, nbits)])
            == v[id := channel.(activeJob := Some(job))]
  {
    var v1 := Receive(v, success);
    var m2, m3 := FutureJob(id, job.jobId, job.templateId), NewPrevHash(id, job.jobId, prevHash, minNtime, nbits);
    assert [success, m2, m3][1..] == [m2, m3];
    assert [m2, m3][1..] == [m3];
    ReceiveOne(Receive(v1, m2), m3);
    assert ReceiveAll(v1, [m2, m3]) == Receive(Receive(v1, m2), m3);
    assert map[job.jobId := job] - {job.jobId} == map[];
    assert Receive(Receive(v1, m2), m3) == v[id := v1[id].(activeJob := Some(job))];
  }

  lemma ReceiveOne(v: ClientView, m: Reply)
    ensures ReceiveAll(v, [m]) == Receive(v, m)
    ensures m.OpenError? ==> ReceiveReturned(v, Nested([[], [m]])) == v
  {
    assert [[], [m]][1..] == [[m]];
    assert ReceiveAll(v, []) == v;
    assert ReceiveLists(v, [[m]]) == ReceiveAll(v, [m]);
  }

  /** A success adds the new channel to any client's picture, as the server holds it; nothing else changes a picture. */
  lemma RepliesSeen(s: ServerState, c: ConnState, call: Call, v: ClientView)
    requires ServerOk(s) && Registry(c)
    ensures var o := OpenOne(s, c, call);
            if Succeeded(o.returned) then
              c.nextId < 0x1_0000_0000 && var id: u32 := c.nextId;
              id in ChannelsOf(call.kind, o.conn)
              && ReceiveReturned(v, o.returned) == v[id := Shown(c, call.kind, ChannelsOf(call.kind, o.conn)[id])]
            else ReceiveReturned(v, o.returned) == v
  {
    hide OpenOne, TakesPrefix, Accepted, Activates, Next, MessageToInner, Registry, ReceiveAll;
    var o := OpenOne(s, c, call);
    RefusalReplies(s, c, call);
    SuccessReplies(s, c, call);
    if o.returned.Nested? {
      ReceiveOne(v, o.returned.lists[1][0]);
    } else if o.returned.Flat? {
      var first := o.returned.messages[0];
      ReceiveOne(v, first);
      if Succeeded(o.returned) {
        var ch := ChannelsOf(call.kind, o.conn)[c.nextId];
        if ch.activeJob.Some? {
          ReceiveThree(v, first, c.nextId, ch.activeJob.value, s.prevHash.prevHash, s.prevHash.headerTimestamp, s.prevHash.nbits);
        }
      }
    }
  }

  /** A registered channel joins the server's own side under an id not there before; nothing else changes it. */
  lemma ServerSide(s: ServerState, c: ConnState, call: Call)
    requires ServerOk(s) && Registry(c)
    ensures var o := OpenOne(s, c, call);
            if TakesPrefix(s, c, call) && Accepted(c.nextId, call) then
              c.nextId < 0x1_0000_0000 && var id: u32 := c.nextId;
              id in ChannelsOf(call.kind, o.conn) && id !in Mirror(c)
              && Mirror(o.conn) == Mirror(c)[id := Shown(c, call.kind, ChannelsOf(call.kind, o.conn)[id])]
            else Mirror(o.conn) == Mirror(c)
  {
    hide OpenOne, TakesPrefix, Mirror, Shown, WithChannel, Next, Registry;
    OpenOutcome(s, c, call);
    if ProgressOf(s, c, call).Registered? {
      MirrorWithChannel(c, call.kind, ChannelsOf(call.kind, OpenOne(s, c, call).conn)[c.nextId]);
    } else {
      MirrorIgnoresNextId(c);
    }
  }

  lemma MirrorIgnoresNextId(c: ConnState)
    ensures Mirror(c.(nextId := c.nextId + 1)) == Mirror(c)
  {
  }

  /** A request that leaves a registered channel whose activation raised, so that no reply is sent. */
  predicate Strands(s: ServerState, c: ConnState, call: Call)
    requires ServerOk(s)
  {
    TakesPrefix(s, c, call) && Accepted(c.nextId, call) && !Activates(s, c, call.kind)
  }

  /** The replies to one request bring the client's picture up to date exactly when the request strands no channel. */
  lemma RepliesMirrorServer(s: ServerState, c: ConnState, call: Call)
    requires ServerOk(s) && Registry(c)
    ensures var o := OpenOne(s, c, call);
            ReceiveReturned(Mirror(c), o.returned) == Mirror(o.conn) <==> !Strands(s, c, call)
  {
    hide OpenOne, TakesPrefix, Accepted, Activates, Mirror, Shown, ReceiveReturned, Next, Succeeded;
    ReturnedExactly(s, c, call);
    RepliesSeen(s, c, call, Mirror(c));
    ServerSide(s, c, call);
  }

  // ----- the pictures of all clients -----

  /** A server and what the client of each connection knows. */
  datatype Scene = Scene(world: World, views: seq<ClientView>)

  predicate Serves(w: World, e: Event) {
    e.Open? && e.who < |w.connections|
  }

  /** One event, with its replies reaching the client that asked. */
  function Watch(sc: Scene, e: Event): (after: Scene)
    requires ServerOk(sc.world.server) && |sc.views| == |sc.world.connections|
    ensures ServerOk(after.world.server) && |after.views| == |after.world.connections|
  {
    var next := Step(sc.world, e);
    if Serves(sc.world, e) then
      var r := OpenOne(sc.world.server, sc.world.connections[e.who], e.call).returned;
      Scene(next, sc.views[e.who := ReceiveReturned(sc.views[e.who], r)])
    else Scene(next, if |next.connections| > |sc.world.connections| then sc.views + [map[]] else sc.views)
  }

  function WatchAll(sc: Scene, events: seq<Event>): (after: Scene)
    requires ServerOk(sc.world.server) && |sc.views| == |sc.world.connections|
    ensures ServerOk(after.world.server) && |after.views| == |after.world.connections|
    decreases |events|
  {
    if events == [] then sc else WatchAll(Watch(sc, events[0]), events[1..])
  }

  /** No request of the run strands a channel: whatever is cached at a request suits the channel it opens. */
  predicate NeverStrands(w: World, events: seq<Event>)
    requires ServerOk(w.server)
    decreases |events|
  {
    events == [] ||
    ((Serves(w, events[0]) ==> !Strands(w.server, w.connections[events[0].who], events[0].call))
     && NeverStrands(Step(w, events[0]), events[1..]))
  }

  ghost predicate Knows(sc: Scene, i: nat)
    requires i < |sc.views| == |sc.world.connections|
  {
    sc.views[i] == Mirror(sc.world.connections[i])
  }

  /** Every client knows exactly the channels the server holds for it. */
  ghost predicate AllKnow(sc: Scene) {
    |sc.views| == |sc.world.connections| && forall i :: 0 <= i < |sc.views| ==> Knows(sc, i)
  }

  /** The server holds a channel its client has never heard of. */
  predicate Unknown(sc: Scene, i: nat, id: u32) {
    i < |sc.views| == |sc.world.connections| && id in Mirror(sc.world.connections[i]) && id !in sc.views[i]
  }

  lemma OpenWatched(sc: Scene, e: Event)
    requires WorldInv(sc.world) && |sc.views| == |sc.world.connections| && Serves(sc.world, e)
    ensures AllKnow(sc) && !Strands(sc.world.server, sc.world.connections[e.who], e.call) ==> AllKnow(Watch(sc, e))
    ensures AllKnow(sc) && Strands(sc.world.server, sc.world.connections[e.who], e.call) ==>
              exists id :: Unknown(Watch(sc, e), e.who, id)
    ensures forall i, id :: Unknown(sc, i, id) ==> Unknown(Watch(sc, e), i, id)
  {
    hide OpenOne, TakesPrefix, Accepted, Activates, Mirror, Shown, ReceiveReturned, Next, Succeeded, Registry, DistinctPrefixes;
    var s, c := sc.world.server, sc.world.connections[e.who];
    ReturnedExactly(s, c, e.call);
    RepliesSeen(s, c, e.call, sc.views[e.who]);
    ServerSide(s, c, e.call);
    var after := Watch(sc, e);
    assert after.world.connections == sc.world.connections[e.who := OpenOne(s, c, e.call).conn];
    if AllKnow(sc) {
      assert Knows(sc, e.who);
      if Strands(s, c, e.call) {
        assert Unknown(after, e.who, c.nextId);
      } else {
        forall i | 0 <= i < |after.views| ensures Knows(after, i) {
          assert Knows(sc, i);
        }
      }
    }
  }

  lemma OtherWatched(sc: Scene, e: Event)
    requires ServerOk(sc.world.server) && |sc.views| == |sc.world.connections| && !Serves(sc.world, e)
    ensures AllKnow(sc) ==> AllKnow(Watch(sc, e))
    ensures forall i, id :: Unknown(sc, i, id) ==> Unknown(Watch(sc, e), i, id)
  {
    hide OpenOne, NewGroup, Shown;
    var after := Watch(sc, e);
    assert sc.world.connections <= after.world.connections && sc.views <= after.views;
    if AllKnow(sc) {
      forall i | 0 <= i < |after.views| ensures Knows(after, i) {
        if i < |sc.views| {
          assert Knows(sc, i);
        }
      }
    }
  }

  /** A channel its client has not heard of stays unheard of, since its id is never issued again. */
  lemma {:induction false} UnknownForever(sc: Scene, i: nat, id: u32, events: seq<Event>)
    requires WorldInv(sc.world) && Unknown(sc, i, id)
    ensures !AllKnow(WatchAll(sc, events))
    decreases |events|
  {
    hide Watch, DistinctPrefixes, Registry, Mirror, Step;
    if events == [] {
      assert !Knows(sc, i);
    } else {
      WatchStep(sc, events[0]);
      UnknownForever(Watch(sc, events[0]), i, id, events[1..]);
    }
  }

  lemma WatchStep(sc: Scene, e: Event)
    requires WorldInv(sc.world) && |sc.views| == |sc.world.connections|
    ensures Watch(sc, e).world == Step(sc.world, e) && WorldInv(Watch(sc, e).world)
    ensures forall i, id :: Unknown(sc, i, id) ==> Unknown(Watch(sc, e), i, id)
  {
    hide DistinctPrefixes, Registry, Mirror, Step, Strands, AllKnow;
    StepKeepsWorld(sc.world, e);
    if Serves(sc.world, e) {
      OpenWatched(sc, e);
    } else {
      OtherWatched(sc, e);
    }
  }

  /**
   * Whatever connects, is cached and is asked for, in whatever order: the clients following the
   * replies know exactly the server's channels, with their targets, prefixes, group, future jobs
   * and active job, exactly when no request strands a channel.
   */
  lemma {:induction false} ClientMirrorsServer(sc: Scene, events: seq<Event>)
    requires WorldInv(sc.world) && AllKnow(sc)
    ensures AllKnow(WatchAll(sc, events)) <==> NeverStrands(sc.world, events)
    decreases |events|
  {
    hide Watch, DistinctPrefixes, Registry, Mirror, Step, AllKnow, Strands, Unknown;
    if events != [] {
      var e := events[0];
      LengthsAgree(sc);
      WatchStep(sc, e);
      if Serves(sc.world, e) {
        OpenWatched(sc, e);
        if Strands(sc.world.server, sc.world.connections[e.who], e.call) {
          var id :| Unknown(Watch(sc, e), e.who, id);
          UnknownForever(Watch(sc, e), e.who, id, events[1..]);
        } else {
          ClientMirrorsServer(Watch(sc, e), events[1..]);
        }
      } else {
        OtherWatched(sc, e);
        ClientMirrorsServer(Watch(sc, e), events[1..]);
      }
    }
  }

  lemma LengthsAgree(sc: Scene)
    requires AllKnow(sc)
    ensures |sc.views| == |sc.world.connections|
  {
  }

  /** With a group where one is needed and a coherent cache at every request, no request strands a channel. */
  lemma {:induction false} CoherentCacheStrandsNothing(w: World, events: seq<Event>)
    requires ServerOk(w.server) && SuitedRequests(w, events)
    ensures NeverStrands(w, events)
    decreases |events|
  {
    hide Step, Coherent, TakesPrefix, Accepted, CanServe;
    if events != [] {
      if Serves(w, events[0]) {
        SuitedActivates(w.server, w.connections[events[0].who], events[0].call.kind);
      }
      CoherentCacheStrandsNothing(Step(w, events[0]), events[1..]);
    }
  }

  lemma SuitedActivates(s: ServerState, c: ConnState, kind: Kind)
    ensures CanServe(c, kind) && Coherent(s) ==> Activates(s, c, kind)
  {
  }

  predicate SuitedRequests(w: World, events: seq<Event>)
    requires ServerOk(w.server)
    decreases |events|
  {
    events == [] ||
    ((Serves(w, events[0]) ==> CanServe(w.connections[events[0].who], events[0].call.kind) && Coherent(w.server))
     && SuitedRequests(Step(w, events[0]), events[1..]))
  }

  // ----- group channels over a whole run -----

  /** A connection keeps to the group rule, or never did, whatever happens on the server. */
  lemma {:induction false} GroupRuleKept(w: World, events: seq<Event>, i: nat)
    requires WorldInv(w) && i < |w.connections|
    ensures i < |Run(w, events).connections|
    ensures GroupRule(w.connections[i]) <==> GroupRule(Run(w, events).connections[i])
    decreases |events|
  {
    hide Step, DistinctPrefixes, Registry, GroupRule;
    if events != [] {
      StepKeepsWorld(w, events[0]);
      StepKeepsGroupRule(w, events[0]);
      GroupRuleKept(Step(w, events[0]), events[1..], i);
    }
  }

  /** A connection keeps the flags it connected with. */
  lemma {:induction false} FlagsKept(w: World, events: seq<Event>, i: nat)
    requires WorldInv(w) && i < |w.connections|
    ensures i < |Run(w, events).connections|
    ensures var c := w.connections[i];
            HasFlags(Run(w, events).connections[i], c.requiresStandardJobs, c.requiresWorkSelection)
    decreases |events|
  {
    hide Step, DistinctPrefixes, Registry, GroupRule;
    if events != [] {
      StepKeepsWorld(w, events[0]);
      StepKeepsGroupRule(w, events[0]);
      FlagsKept(Step(w, events[0]), events[1..], i);
    }
  }

  /** A client that connects has its two flags, each in its own place, in every later state; the standard program may refuse it. */
  lemma ConnectedWith(w: World, standardJobs: bool, workSelection: bool, standard: bool, later: seq<Event>)
    requires WorldInv(w)
    ensures var e := if standard then Connect(standardJobs, workSelection) else ConnectExtended(standardJobs, workSelection);
            var after, i := Step(w, e), |w.connections|;
            && (|after.connections| == i + 1 <==> !standard || standardJobs || workSelection || Coherent(w.server))
            && (|after.connections| == i + 1 ==>
                  i < |Run(after, later).connections|
                  && HasFlags(Run(after, later).connections[i], standardJobs, workSelection))
  {
    hide NewConnection, Coherent, Run, WorldInv, HasFlags;
    var e := if standard then Connect(standardJobs, workSelection) else ConnectExtended(standardJobs, workSelection);
    NewConnectionRegistered(standardJobs, workSelection, w.server);
    StepKeepsWorld(w, e);
    if |Step(w, e).connections| == |w.connections| + 1 {
      FlagsKept(Step(w, e), later, |w.connections|);
      SameFlags(Step(w, e).connections[|w.connections|], standardJobs, workSelection);
    }
  }

  lemma SameFlags(c: ConnState, standardJobs: bool, workSelection: bool)
    ensures HasFlags(c, standardJobs, workSelection) ==>
              c.requiresStandardJobs == standardJobs && c.requiresWorkSelection == workSelection
  {
  }

  lemma StepKeepsGroupRule(w: World, e: Event)
    requires WorldInv(w)
    ensures var after := Step(w, e).connections;
            && |w.connections| <= |after|
            && (forall i :: 0 <= i < |w.connections| ==> (GroupRule(after[i]) <==> GroupRule(w.connections[i])))
            && (forall i :: 0 <= i < |w.connections| ==>
                  HasFlags(after[i], w.connections[i].requiresStandardJobs, w.connections[i].requiresWorkSelection))
            && (!e.ConnectExtended? ==> forall i :: |w.connections| <= i < |after| ==> GroupRule(after[i]))
  {
    hide OpenOne, DistinctPrefixes, Registry, GroupRule, NewConnection;
    match e
    case Open(who, call) => if who < |w.connections| { OpenKeepsRegistry(w.server, w.connections[who], call); }
    case Connect(standardJobs, workSelection) => NewConnectionRegistered(standardJobs, workSelection, w.server);
    case _ =>
  }

  /** On the standard program's connections the group channel exists exactly when neither flag is set, so it is never missing. */
  lemma {:induction false} StandardProgramHasGroups(w: World, events: seq<Event>)
    requires WorldInv(w) && forall i :: 0 <= i < |w.connections| ==> GroupRule(w.connections[i])
    requires forall e :: e in events ==> !e.ConnectExtended?
    ensures forall i :: 0 <= i < |Run(w, events).connections| ==>
              GroupRule(Run(w, events).connections[i]) && forall kind :: CanServe(Run(w, events).connections[i], kind)
    decreases |events|
  {
    hide Step, DistinctPrefixes, Registry;
    if events != [] {
      StepKeepsWorld(w, events[0]);
      StepKeepsGroupRule(w, events[0]);
      StandardProgramHasGroups(Step(w, events[0]), events[1..]);
    }
  }

  // ----- a stranded channel -----

  /** The cached previous hash is for another template: an accepted request registers a channel and then raises. */
  lemma StaleCacheStrands(s: ServerState, c: ConnState, call: Call, later: seq<Event>)
    requires ServerOk(s) && Registry(c) && s.prevHash.templateId != s.template.templateId
    requires TakesPrefix(s, c, call) && Accepted(c.nextId, call) && CanServe(c, call.kind)
    requires call.kind.Extended? ==> !c.requiresWorkSelection
    requires WorldInv(World(s, [c]))
    ensures var r := OpenOne(s, c, call).returned;
            && r.Raised? && r.reason.InChannel?
            && !AllKnow(WatchAll(Scene(World(s, [c]), [Mirror(c)]), [Open(0, call)] + later))
  {
    hide WatchAll, Mirror, WorldInv, TakesPrefix, Accepted, CanServe, OpenOne, Registry;
    ReturnedExactly(s, c, call);
    var sc, events := Scene(World(s, [c]), [Mirror(c)]), [Open(0, call)] + later;
    assert events[0] == Open(0, call);
    assert Knows(sc, 0);
    ClientMirrorsServer(sc, events);
  }

  /** A server whose cached previous hash belongs to template 2 while the cached template is number 1. */
  function StaleServer(): ServerState {
    ServerState(ExtendedExtranonce(ZeroBytes(32), 16, 0), ExtendedExtranonce(ZeroBytes(20), 12, 0),
                Sv2Message.NewTemplate(1, true, 0, 0, [], 0, 0, 0, [], 0, []),
                Sv2Message.SetNewPrevHashTemplateDistribution(2, ZeroBytes(32), 0, 0, ZeroBytes(32)))
  }

  function PlainCall(): Call {
    Call(Extended, _ => Ok(Grant(ZeroBytes(32), 8)), Request(0, 0, ZeroBytes(32), 8))
  }

  /** One such request, on an ordinary connection: an exception, and a channel the client never learns of. */
  lemma OneStrandedChannel(later: seq<Event>)
    ensures var s, c := StaleServer(), NewExtendedConnection(false, false);
            && ServerOk(s)
            && var o := OpenOne(s, c, PlainCall());
            && o.returned.Raised? && o.returned.reason.InChannel? && 0 in o.conn.extendedChannels
            && !AllKnow(WatchAll(Scene(World(s, [c]), [map[]]), [Open(0, PlainCall())] + later))
  {
    var s, c := StaleServer(), NewExtendedConnection(false, false);
    StaleTakesPrefix();
    StaleCacheDiffers();
    hide TakesPrefix, Next, StaleServer, OpenOne, WatchAll, Registry, WorldInv;
    OpenOutcome(s, c, PlainCall());
    EmptyWorld(s, c);
    StaleCacheStrands(s, c, PlainCall(), later);
  }

  lemma StaleCacheDiffers()
    ensures StaleServer().prevHash.templateId != StaleServer().template.templateId
  {
  }

  lemma EmptyWorld(s: ServerState, c: ConnState)
    requires ServerOk(s) && c == NewExtendedConnection(false, false)
    ensures Registry(c) && Mirror(c) == map[] && WorldInv(World(s, [c]))
  {
    hide HandedOut;
    assert forall kind, slot :: !Holds(kind, World(s, [c]), slot);
  }

  lemma StaleTakesPrefix()
    ensures ServerOk(StaleServer()) && TakesPrefix(StaleServer(), NewExtendedConnection(false, false), PlainCall())
  {
    var x := StaleServer().extendedFactory;
    ZeroBytesCountZero(12);
    assert ExtendedCounter(x) == ZeroBytes(12);
    PowStrictExponent(256, 0, 12);
  }
}
