/** StreamLiveTelemetry (telemetry/service.go): the lifecycle of every connected stream around the hub, each
    hub call one step, all streams interleaved. */
module Streams {
  import opened Wrappers
  import opened HubModel
  import opened HubRun

  predicate ValidPoint(pt: Point) {
    pt.user != "" && pt.project.uuid.Some?
  }

  /** Subscribed but not yet published; in the select loop; returned with the deferred cancel to run; gone. */
  datatype Phase = Greeting | Serving | Leaving | Left

  datatype Handler = Handler(first: Point, phase: Phase)

  /** The hub and its handlers; the handler that made channel `c` is `handlers[c]`. */
  datatype Server = Server(hub: State, handlers: seq<Handler>)

  datatype Action =
    | Connect(pt: Point)
    | Greet(h: nat, now: int)
    | Incoming(h: nat, pt: Point, now: int)
    | Send(h: nat, delivered: bool)
    | Quit(h: nat)
    | Cancel(h: nat) // the deferred call, or a later repetition
    | Reap(now: int)

  ghost predicate InPhase(s: Server, h: nat, phase: Phase) {
    h < |s.handlers| && s.handlers[h].phase == phase
  }

  ghost predicate CanDo(s: Server, act: Action) {
    match act
    case Connect(pt) => true
    case Greet(h, now) => InPhase(s, h, Greeting) && s.hub.clock <= now
    case Incoming(h, pt, now) => InPhase(s, h, Serving) && s.hub.clock <= now
    case Send(h, delivered) => InPhase(s, h, Serving) && HubRun.Enabled(s.hub, Received(h))
    case Quit(h) => InPhase(s, h, Serving)
    case Cancel(h) => (InPhase(s, h, Leaving) || InPhase(s, h, Left)) && HubRun.Enabled(s.hub, Cancelled(h))
    case Reap(now) => s.hub.clock <= now
  }

  function Move(s: Server, h: nat, phase: Phase): seq<Handler> {
    if h < |s.handlers| then s.handlers[h := s.handlers[h].(phase := phase)] else s.handlers
  }

  /** The hub call an action makes, if any. */
  function HubCall(s: Server, act: Action): Option<Event> {
    match act
    case Connect(pt) => if ValidPoint(pt) then Some(Subscribed(pt.project.text)) else None
    case Greet(h, now) => if h < |s.handlers| then Some(Published(s.handlers[h].first, now)) else None
    case Incoming(h, pt, now) => if ValidPoint(pt) then Some(Published(pt, now)) else None
    case Send(h, delivered) => Some(Received(h))
    case Quit(h) => None
    case Cancel(h) => Some(Cancelled(h))
    case Reap(now) => Some(Swept(now))
  }

  function HandlersAfter(s: Server, act: Action): seq<Handler> {
    match act
    case Connect(pt) => if ValidPoint(pt) then s.handlers + [Handler(pt, Greeting)] else s.handlers
    case Greet(h, now) => Move(s, h, Serving)
    case Incoming(h, pt, now) => s.handlers
    case Send(h, delivered) => if delivered then s.handlers else Move(s, h, Leaving)
    case Quit(h) => Move(s, h, Leaving)
    case Cancel(h) => Move(s, h, Left)
    case Reap(now) => s.handlers
  }

  ghost function Do(s: Server, act: Action, ttl: int): Server
    requires CanDo(s, act)
  {
    var call := HubCall(s, act);
    Server(if call.Some? then Apply(s.hub, call.value, ttl) else s.hub, HandlersAfter(s, act))
  }

  ghost predicate Run(s: Server, acts: seq<Action>, ttl: int, s': Server)
    decreases |acts|
  {
    if acts == [] then s' == s
    else CanDo(s, acts[0]) && Run(Do(s, acts[0], ttl), acts[1..], ttl, s')
  }

  /** Channels and handlers correspond, and a channel is live until its handler has run its cancel. */
  ghost predicate Corresponds(s: Server) {
    && s.hub.made == |s.handlers|
    && (forall c: Channel :: c in s.hub.home <==> c < |s.handlers|)
    && (forall c: Channel | c < |s.handlers| :: s.hub.home[c] == s.handlers[c].first.project.text)
    && (forall c: Channel :: c in s.hub.live <==> c < |s.handlers| && s.handlers[c].phase != Left)
  }

  /** Only points that passed validation reach the hub. */
  ghost predicate OnlyValidPoints(s: Server) {
    && (forall i | 0 <= i < |s.handlers| :: ValidPoint(s.handlers[i].first))
    && (forall p, u | p in s.hub.members && u in s.hub.members[p] :: u != "")
  }

  ghost predicate ServerInv(s: Server, ttl: int) {
    Inv(s.hub, ttl) && Corresponds(s) && OnlyValidPoints(s)
  }

  /** What a hub call does to the channels in existence. */
  lemma ChannelsAfter(s: State, e: Event, ttl: int)
    requires HubRun.Enabled(s, e)
    ensures var s' := Apply(s, e, ttl);
            && s'.made == s.made + (if e.Subscribed? then 1 else 0)
            && s'.home == (if e.Subscribed? then s.home[s.made := e.p] else s.home)
            && s'.live == if e.Subscribed? then s.live + {s.made}
                          else if e.Cancelled? then s.live - {e.ch} else s.live
  {
  }

  lemma DoKeepsInv(s: Server, act: Action, ttl: int)
    requires ServerInv(s, ttl) && CanDo(s, act) && 0 <= ttl
    ensures ServerInv(Do(s, act, ttl), ttl)
  {
    var call := HubCall(s, act);
    UsersStayNamed(s, act, ttl);
    if call.Some? {
      ApplyKeepsInv(s.hub, call.value, ttl);
      ChannelsAfter(s.hub, call.value, ttl);
      StillCorresponds(s, act, Apply(s.hub, call.value, ttl));
    } else {
      StillCorresponds(s, act, s.hub);
    }
  }

  /** Whatever a step hands to the hub has passed validation, the later points of a stream like its first. */
  ghost predicate CallsValid(s: Server, act: Action) {
    var call := HubCall(s, act);
    && (call.Some? && call.value.Published? ==> ValidPoint(call.value.pt))
    && (call.Some? && call.value.Subscribed? ==>
          act.Connect? && ValidPoint(act.pt) && call.value.p == act.pt.project.text)
  }

  lemma UsersStayNamed(s: Server, act: Action, ttl: int)
    requires OnlyValidPoints(s) && CanDo(s, act)
    ensures OnlyValidPoints(Do(s, act, ttl)) && CallsValid(s, act)
    ensures act.Incoming? && !ValidPoint(act.pt) ==> Do(s, act, ttl) == s
    ensures act.Connect? && !ValidPoint(act.pt) ==> Do(s, act, ttl) == s
  {
    var s', call := Do(s, act, ttl), HubCall(s, act);
    forall p, u | p in s'.hub.members && u in s'.hub.members[p] ensures u != "" {
      assert || (p in s.hub.members && u in s.hub.members[p])
             || (call.Some? && call.value.Published? && u == call.value.pt.user);
    }
  }

  // ---------- what each step of a stream does ----------

  /** A later point with a user and a parsable project reaches the hub and changes no stream. */
  lemma IncomingIsPublished(s: Server, h: nat, pt: Point, now: int, ttl: int)
    requires CanDo(s, Incoming(h, pt, now)) && pt.user != "" && pt.project.uuid.Some?
    ensures var s' := Do(s, Incoming(h, pt, now), ttl);
            Shows(s.hub, s'.hub, pt, now) && s'.handlers == s.handlers
  {
    BreadcrumbIsStored(s.hub, pt, now);
  }

  /** The first point reaches the hub too, and the stream goes on to serve. */
  lemma FirstPointIsPublished(s: Server, h: nat, now: int, ttl: int)
    requires CanDo(s, Greet(h, now))
    ensures var s' := Do(s, Greet(h, now), ttl);
            && Shows(s.hub, s'.hub, s.handlers[h].first, now)
            && OnlyMoves(s, s', h, Serving)
  {
    BreadcrumbIsStored(s.hub, s.handlers[h].first, now);
  }

  /** A connection with a valid first point adds one stream with an empty channel of its own. */
  lemma ConnectAddsAStream(s: Server, pt: Point, ttl: int)
    requires Corresponds(s) && pt.user != "" && pt.project.uuid.Some?
    ensures var s', c := Do(s, Connect(pt), ttl), |s.handlers|;
            && |s'.handlers| == c + 1 && s'.handlers[c] == Handler(pt, Greeting)
            && (forall i | 0 <= i < c :: s'.handlers[i] == s.handlers[i])
            && c in SubsOf(s'.hub.subs, pt.project.text) && c in s'.hub.queue && s'.hub.queue[c] == []
            && s'.hub.members == s.hub.members
  {
  }

  /** A point without a user or with an unparsable project changes nothing. */
  lemma BadPointsAreIgnored(s: Server, act: Action, ttl: int)
    requires CanDo(s, act) && (act.Connect? || act.Incoming?)
    requires act.pt.user == "" || act.pt.project.uuid.None?
    ensures Do(s, act, ttl) == s
  {
  }

  /** One stream enters this phase; nothing else about the streams changes. */
  ghost predicate OnlyMoves(s: Server, s': Server, h: nat, phase: Phase) {
    && h < |s.handlers| == |s'.handlers|
    && s'.handlers[h].first == s.handlers[h].first && s'.handlers[h].phase == phase
    && forall i | 0 <= i < |s.handlers| && i != h :: s'.handlers[i] == s.handlers[i]
  }

  /** A sent snapshot is the oldest one queued; if sending fails, the stream leaves. */
  lemma SendTakesTheOldest(s: Server, h: nat, delivered: bool, ttl: int)
    requires CanDo(s, Send(h, delivered))
    ensures var s' := Do(s, Send(h, delivered), ttl);
            && OnlyMoves(s, s', h, if delivered then Serving else Leaving)
            && h in s.hub.queue && h in s'.hub.queue && s.hub.queue[h] == [s.hub.queue[h][0]] + s'.hub.queue[h]
            && s'.hub.members == s.hub.members && s'.hub.subs == s.hub.subs
  {
  }

  /** A stream that ends leaves the hub alone until its cancel runs, and that takes it off the registry. */
  lemma EndThenCancel(s: Server, h: nat, ttl: int)
    requires ServerInv(s, ttl) && CanDo(s, Quit(h))
    ensures var s1 := Do(s, Quit(h), ttl);
            && OnlyMoves(s, s1, h, Leaving) && s1.hub == s.hub
            && CanDo(s1, Cancel(h))
            && (var s2 := Do(s1, Cancel(h), ttl);
                && OnlyMoves(s1, s2, h, Left) && s2.hub.members == s.hub.members
                && h !in SubsOf(s2.hub.subs, s.handlers[h].first.project.text))
  {
    var s1 := Do(s, Quit(h), ttl);
    CancelDeregisters(s.hub, h);
  }

  /** The reaper's step forgets whoever has been silent for more than four times the TTL and greys out whoever
      has been silent for longer than the TTL, in every project; it changes no stream. */
  lemma ReapForgets(s: Server, now: int, ttl: int, p: string, u: string)
    requires ServerInv(s, ttl) && CanDo(s, Reap(now))
    ensures var s' := Do(s, Reap(now), ttl);
            var team, team' := TeamOf(s.hub.members, p), TeamOf(s'.hub.members, p);
            && s'.handlers == s.handlers && s'.hub.subs == s.hub.subs
            && (u in team' <==> u in team && now - team[u].lastSeen <= 4 * ttl)
            && (u in team' ==> team'[u] == team[u].(active := now - team[u].lastSeen <= ttl))
            && |BroadcastsOf(s'.hub.log, p)| == |BroadcastsOf(s.hub.log, p)| + (if team' == team then 0 else 1)
  {
    assert Do(s, Reap(now), ttl) == Server(Sweep(s.hub, now, ttl), s.handlers);
    SweepForgets(s.hub, now, ttl, p, u);
  }

  lemma ChannelExists(s: Server, h: nat)
    requires WellFormed(s.hub) && Corresponds(s) && h < |s.handlers|
    ensures h in s.hub.home && h in s.hub.queue && h in s.hub.received
  {
    assert h in s.hub.home;
  }

  /** Which steps a stream can take, and when. */
  lemma WhatAStreamCanDo(s: Server, h: nat, pt: Point, now: int, delivered: bool)
    requires WellFormed(s.hub) && Corresponds(s) && h < |s.handlers|
    ensures CanDo(s, Connect(pt)) && (CanDo(s, Reap(now)) <==> s.hub.clock <= now)
    ensures h in s.hub.queue
    ensures var phase := s.handlers[h].phase;
            && (CanDo(s, Greet(h, now)) <==> phase == Greeting && s.hub.clock <= now)
            && (CanDo(s, Incoming(h, pt, now)) <==> phase == Serving && s.hub.clock <= now)
            && (CanDo(s, Send(h, delivered)) <==> phase == Serving && s.hub.queue[h] != [])
            && (CanDo(s, Quit(h)) <==> phase == Serving)
            && (CanDo(s, Cancel(h)) <==> phase == Leaving || phase == Left)
  {
    ChannelExists(s, h);
  }

  lemma StillCorresponds(s: Server, act: Action, hub: State)
    requires Corresponds(s) && CanDo(s, act)
    requires hub.made == s.hub.made + (if act.Connect? && ValidPoint(act.pt) then 1 else 0)
    requires hub.home == if act.Connect? && ValidPoint(act.pt)
        then s.hub.home[s.hub.made := act.pt.project.text] else s.hub.home
    requires hub.live == if act.Connect? && ValidPoint(act.pt) then s.hub.live + {s.hub.made}
                         else if act.Cancel? then s.hub.live - {act.h} else s.hub.live
    ensures Corresponds(Server(hub, HandlersAfter(s, act)))
  {
  }

  lemma {:induction false} RunKeepsInv(s: Server, acts: seq<Action>, ttl: int, s': Server)
    requires ServerInv(s, ttl) && 0 <= ttl && Run(s, acts, ttl, s')
    ensures ServerInv(s', ttl)
    decreases |acts|
  {
    if acts != [] {
      DoKeepsInv(s, acts[0], ttl);
      RunKeepsInv(Do(s, acts[0], ttl), acts[1..], ttl, s');
    }
  }

  /** In every reachable state, under any interleaving and any repeated cancels, the subscribers of a project
      are exactly the streams whose first point named it and that have not yet run their cancel. */
  lemma RegistryIsTheStreams(now: int, acts: seq<Action>, ttl: int, s: Server, p: string, c: Channel)
    requires 0 <= ttl && Run(Server(Init(now), []), acts, ttl, s)
    ensures c in SubsOf(s.hub.subs, p) <==>
              c < |s.handlers| && s.handlers[c].phase != Left && s.handlers[c].first.project.text == p
  {
    RunKeepsInv(Server(Init(now), []), acts, ttl, s);
    assert c in SubsOf(s.hub.subs, p) <==> c in s.hub.live && c in s.hub.home && s.hub.home[c] == p;
  }

  lemma LeftIsFinal(s: Server, act: Action, c: Channel)
    requires CanDo(s, act) && c < |s.handlers| && s.handlers[c].phase == Left
    ensures c < |HandlersAfter(s, act)| && HandlersAfter(s, act)[c].phase == Left
    ensures act.Send? ==> act.h != c
  {
  }

  /** Once a stream has left, no step of any other stream adds to its channel: a stream is never sent anything
      after its cancel. */
  lemma LeftStaysLeft(s: Server, act: Action, ttl: int, c: Channel)
    requires WellFormed(s.hub) && RegistryExact(s.hub) && Corresponds(s)
    requires CanDo(s, act) && c < |s.handlers| && s.handlers[c].phase == Left
    ensures var s' := Do(s, act, ttl);
            && c < |s'.handlers| && s'.handlers[c].phase == Left
            && c in s.hub.queue && c in s'.hub.queue && s'.hub.queue[c] == s.hub.queue[c]
  {
    LeftIsFinal(s, act, c);
    assert c in s.hub.home && c !in s.hub.live && c in s.hub.queue;
    var call := HubCall(s, act);
    if call.Some? {
      CancelledIsQuiet(s.hub, call.value, ttl, c);
    }
  }

  /** The same over runs: in every continuation of every run, a stream that has left stays so, and no snapshot
      is enqueued or received after its cancel. */
  lemma NothingAfterLeaving(now: int, before: seq<Action>, s: Server, after: seq<Action>, s': Server, ttl: int,
      c: Channel)
    requires 0 <= ttl && Run(Server(Init(now), []), before, ttl, s) && Run(s, after, ttl, s')
    requires c < |s.handlers| && s.handlers[c].phase == Left
    ensures c < |s'.handlers| && s'.handlers[c].phase == Left
    ensures c in s.hub.queue && c in s'.hub.queue && s'.hub.queue[c] == s.hub.queue[c]
  {
    RunKeepsInv(Server(Init(now), []), before, ttl, s);
    LeftOverRun(s, after, s', ttl, c);
  }

  lemma {:induction false} LeftOverRun(s: Server, acts: seq<Action>, s': Server, ttl: int, c: Channel)
    requires 0 <= ttl && ServerInv(s, ttl) && Run(s, acts, ttl, s')
    requires c < |s.handlers| && s.handlers[c].phase == Left
    ensures c < |s'.handlers| && s'.handlers[c].phase == Left
    ensures c in s.hub.queue && c in s'.hub.queue && s'.hub.queue[c] == s.hub.queue[c]
    decreases |acts|
  {
    assert c in s.hub.home && c in s.hub.queue;
    if acts != [] {
      DoKeepsInv(s, acts[0], ttl);
      LeftStaysLeft(s, acts[0], ttl, c);
      LeftOverRun(Do(s, acts[0], ttl), acts[1..], s', ttl, c);
    }
  }

  /** Running a stream's cancel any number of times leaves every other stream registered. */
  lemma CancelRemovesOnlyItself(s: Server, h: nat, ttl: int, p: string, c: Channel)
    requires ServerInv(s, ttl) && CanDo(s, Cancel(h)) && c != h
    ensures c in SubsOf(Do(s, Cancel(h), ttl).hub.subs, p) <==> c in SubsOf(s.hub.subs, p)
  {
    CancelKeepsInv(s.hub, h, ttl);
    var s' := Do(s, Cancel(h), ttl);
    assert c in SubsOf(s.hub.subs, p) <==> c in s.hub.live && c in s.hub.home && s.hub.home[c] == p;
    assert c in SubsOf(s'.hub.subs, p) <==> c in s'.hub.live && c in s'.hub.home && s'.hub.home[c] == p;
  }
}
