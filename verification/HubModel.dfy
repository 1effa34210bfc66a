/** The telemetry hub on values: members, bounded queues, and the history each operation adds to. */
module HubModel {
  import opened SyncTypes

  /** Buffer of one subscriber. */
  const CAPACITY: nat := 64
  const NANOS_PER_MILLI: int := 1_000_000

  /** What the map shows of a device besides its name and activity. */
  datatype Fix = Fix(lat: Float, lon: Float, elevation: Float, heading: Float, battery: int)

  /** One breadcrumb. Only its first point decides what a stream subscribes to. */
  datatype Point = Point(project: Ref, user: string, name: string, fix: Fix)

  datatype Member = Member(name: string, fix: Fix, lastSeen: int, active: bool)

  type Team = map<string, Member>

  datatype Location = Location(name: string, fix: Fix, lastSeenAt: int, active: bool)

  /** A snapshot; the order of its member list is not part of the model. */
  datatype Snapshot = Snapshot(project: string, members: map<string, Location>)

  /** Channels are numbered in the order they are made. */
  type Channel = nat

  /** The hub's maps and channel buffers, then history: broadcasts per project, and per channel its project,
      the broadcasts before it subscribed, what was received and how many were dropped; the channels not yet
      cancelled; and the latest clock reading. */
  datatype State = State(
    members: map<string, Team>,
    subs: map<string, set<Channel>>,
    queue: map<Channel, seq<Snapshot>>,
    made: nat,
    log: map<string, seq<Snapshot>>,
    home: map<Channel, string>,
    start: map<Channel, nat>,
    received: map<Channel, seq<Snapshot>>,
    dropped: map<Channel, nat>,
    live: set<Channel>,
    clock: int)

  function TeamOf(members: map<string, Team>, p: string): Team {
    if p in members then members[p] else map[]
  }

  function SubsOf(subs: map<string, set<Channel>>, p: string): set<Channel> {
    if p in subs then subs[p] else {}
  }

  function BroadcastsOf(log: map<string, seq<Snapshot>>, p: string): seq<Snapshot> {
    if p in log then log[p] else []
  }

  function LocationOf(m: Member): Location {
    Location(m.name, m.fix, m.lastSeen / NANOS_PER_MILLI, m.active)
  }

  function ViewOf(t: Team): map<string, Location> {
    map u | u in t :: LocationOf(t[u])
  }

  // ---------- delivery ----------

  /** The non-blocking send: a full buffer keeps what it has. */
  function Offer(q: seq<Snapshot>, snap: Snapshot): seq<Snapshot> {
    if |q| < CAPACITY then q + [snap] else q
  }

  /** The queues and drop counts after `snap` was offered to the channels of `to`. */
  function OfferAll(queue: map<Channel, seq<Snapshot>>, to: set<Channel>, snap: Snapshot): map<Channel, seq<Snapshot>> {
    map c | c in queue :: if c in to then Offer(queue[c], snap) else queue[c]
  }

  function DropAll(queue: map<Channel, seq<Snapshot>>, dropped: map<Channel, nat>, to: set<Channel>)
    : map<Channel, nat>
  {
    map c | c in dropped :: if c in to && c in queue && |queue[c]| >= CAPACITY then dropped[c] + 1 else dropped[c]
  }

  /** Builds the snapshot of one project and offers it to each of its subscribers. */
  function Broadcast(s: State, p: string): State {
    var snap := Snapshot(p, ViewOf(TeamOf(s.members, p)));
    var to := SubsOf(s.subs, p);
    s.(queue := OfferAll(s.queue, to, snap),
       dropped := DropAll(s.queue, s.dropped, to),
       log := s.log[p := BroadcastsOf(s.log, p) + [snap]])
  }

  /** Every registered channel is registered under its own project. */
  ghost predicate SubsAtHome(s: State) {
    forall p, c | p in s.subs && c in s.subs[p] :: c in s.home && s.home[c] == p
  }

  /** Registered channels exist, and only channels already made do. */
  ghost predicate WellFormed(s: State) {
    && SubsAtHome(s)
    && s.queue.Keys == s.home.Keys && s.start.Keys == s.home.Keys
    && s.received.Keys == s.home.Keys && s.dropped.Keys == s.home.Keys
    && forall c | c in s.home :: c < s.made
  }

  lemma OfferNone(queue: map<Channel, seq<Snapshot>>, dropped: map<Channel, nat>, snap: Snapshot)
    ensures OfferAll(queue, {}, snap) == queue && DropAll(queue, dropped, {}) == dropped
  {
  }

  lemma OfferOneMore(queue: map<Channel, seq<Snapshot>>, dropped: map<Channel, nat>, to: set<Channel>,
                     ch: Channel, snap: Snapshot)
    requires ch !in to && ch in queue && ch in dropped
    ensures OfferAll(queue, to, snap)[ch] == queue[ch] && DropAll(queue, dropped, to)[ch] == dropped[ch]
    ensures OfferAll(queue, to + {ch}, snap) == OfferAll(queue, to, snap)[ch := Offer(queue[ch], snap)]
    ensures DropAll(queue, dropped, to + {ch})
            == DropAll(queue, dropped, to)[ch := dropped[ch] + if |queue[ch]| < CAPACITY then 0 else 1]
  {
  }

  lemma BroadcastWellFormed(s: State, p: string)
    requires WellFormed(s)
    ensures WellFormed(Broadcast(s, p))
  {
    assert Broadcast(s, p).queue.Keys == s.queue.Keys && Broadcast(s, p).dropped.Keys == s.dropped.Keys;
  }

  // ---------- operations ----------

  function Publish(s: State, pt: Point, now: int): State {
    var p := pt.project.text;
    var team := TeamOf(s.members, p)[pt.user := Member(pt.name, pt.fix, now, true)];
    Broadcast(s.(members := s.members[p := team], clock := now), p)
  }

  /** Registers the next channel for a project. */
  function Subscribe(s: State, p: string): State {
    var ch := s.made;
    s.(subs := s.subs[p := SubsOf(s.subs, p) + {ch}],
       queue := s.queue[ch := []],
       made := s.made + 1,
       home := s.home[ch := p],
       start := s.start[ch := |BroadcastsOf(s.log, p)|],
       received := s.received[ch := []],
       dropped := s.dropped[ch := 0],
       live := s.live + {ch})
  }

  lemma UpdateKeys<K, V>(m: map<K, V>, k: K, v: V)
    ensures m[k := v].Keys == m.Keys + {k}
  {
  }

  lemma SubscribeWellFormed(s: State, p: string)
    requires WellFormed(s)
    ensures WellFormed(Subscribe(s, p))
  {
    var ch := s.made;
    UpdateKeys(s.home, ch, p);
    UpdateKeys(s.queue, ch, []);
    UpdateKeys(s.start, ch, |BroadcastsOf(s.log, p)|);
    UpdateKeys(s.received, ch, []);
    UpdateKeys(s.dropped, ch, 0);
  }

  /** The cancel closure of a channel, however often it is called. */
  function Cancel(s: State, ch: Channel): State
    requires ch in s.home
  {
    var p := s.home[ch];
    s.(subs := if p !in s.subs then s.subs
               else if s.subs[p] - {ch} == {} then s.subs - {p}
               else s.subs[p := s.subs[p] - {ch}],
       live := s.live - {ch})
  }

  /** The handler takes the next snapshot from its channel. */
  function Receive(s: State, ch: Channel): State
    requires ch in s.queue && s.queue[ch] != [] && ch in s.received
  {
    s.(queue := s.queue[ch := s.queue[ch][1..]],
       received := s.received[ch := s.received[ch] + [s.queue[ch][0]]])
  }

  // ---------- the sweep ----------

  predicate Forgotten(m: Member, now: int, ttl: int) {
    now - m.lastSeen > 4 * ttl
  }

  function Aged(m: Member, now: int, ttl: int): Member {
    m.(active := m.active && now - m.lastSeen <= ttl)
  }

  /** The simple form of a sweep on one team: drop the long silent, grey out the silent. */
  function After(t: Team, now: int, ttl: int): Team {
    map u | u in t && !Forgotten(t[u], now, ttl) :: Aged(t[u], now, ttl)
  }

  /** One project's part of a sweep: the bucket is replaced or deleted, and rebroadcast if it changed. */
  function SweepProject(s: State, p: string, now: int, ttl: int): State
    requires p in s.members
  {
    var t, t' := s.members[p], After(s.members[p], now, ttl);
    var s' := s.(members := if t' == map[] then s.members - {p} else s.members[p := t']);
    if t' != t then Broadcast(s', p) else s'
  }

  /** The projects of `ps` that a sweep changes. */
  function Changed(members: map<string, Team>, ps: set<string>, now: int, ttl: int): set<string> {
    set p | p in ps && p in members && After(members[p], now, ttl) != members[p]
  }

  function SweepSnap(members: map<string, Team>, p: string, now: int, ttl: int): Snapshot {
    Snapshot(p, ViewOf(After(TeamOf(members, p), now, ttl)))
  }

  /** A channel some changed project broadcasts to. */
  predicate Reached(s: State, changed: set<string>, c: Channel) {
    c in s.home && s.home[c] in changed && c in SubsOf(s.subs, s.home[c])
  }

  function SweptMembers(members: map<string, Team>, ps: set<string>, now: int, ttl: int): map<string, Team> {
    map p | p in members && (p in ps ==> After(members[p], now, ttl) != map[]) ::
      if p in ps then After(members[p], now, ttl) else members[p]
  }

  function SweptQueue(s: State, changed: set<string>, now: int, ttl: int): map<Channel, seq<Snapshot>> {
    map c | c in s.queue ::
      if Reached(s, changed, c) then Offer(s.queue[c], SweepSnap(s.members, s.home[c], now, ttl)) else s.queue[c]
  }

  function SweptDropped(s: State, changed: set<string>): map<Channel, nat> {
    map c | c in s.dropped ::
      if Reached(s, changed, c) && c in s.queue && |s.queue[c]| >= CAPACITY then s.dropped[c] + 1 else s.dropped[c]
  }

  function SweptLog(s: State, changed: set<string>, now: int, ttl: int): map<string, seq<Snapshot>> {
    map p | p in s.log.Keys + changed ::
      if p in changed then BroadcastsOf(s.log, p) + [SweepSnap(s.members, p, now, ttl)] else s.log[p]
  }

  /** The simple form of a sweep over the projects of `ps`, all at once. */
  function SweepSet(s: State, ps: set<string>, now: int, ttl: int): State {
    var changed := Changed(s.members, ps, now, ttl);
    s.(members := SweptMembers(s.members, ps, now, ttl),
       queue := SweptQueue(s, changed, now, ttl),
       dropped := SweptDropped(s, changed),
       log := SweptLog(s, changed, now, ttl))
  }

  function Sweep(s: State, now: int, ttl: int): State {
    SweepSet(s, s.members.Keys, now, ttl).(clock := now)
  }

  lemma ChangedOneMore(members: map<string, Team>, ps: set<string>, p: string, now: int, ttl: int)
    requires p in members && p !in ps
    ensures Changed(members, ps + {p}, now, ttl)
            == if After(members[p], now, ttl) != members[p] then Changed(members, ps, now, ttl) + {p}
               else Changed(members, ps, now, ttl)
  {
  }

  lemma MembersOneMore(members: map<string, Team>, ps: set<string>, p: string, now: int, ttl: int)
    requires p in members && p !in ps
    ensures var m, t := SweptMembers(members, ps, now, ttl), After(members[p], now, ttl);
            && p in m && m[p] == members[p]
            && SweptMembers(members, ps + {p}, now, ttl) == if t == map[] then m - {p} else m[p := t]
  {
  }

  lemma ReachedOneMore(s: State, changed: set<string>, p: string, c: Channel)
    requires SubsAtHome(s) && p !in changed
    ensures Reached(s, changed + {p}, c) <==> Reached(s, changed, c) || c in SubsOf(s.subs, p)
    ensures c in SubsOf(s.subs, p) ==> c in s.home && s.home[c] == p && !Reached(s, changed, c)
  {
  }

  lemma QueueOneMore(s: State, changed: set<string>, p: string, now: int, ttl: int)
    requires SubsAtHome(s) && p !in changed
    ensures OfferAll(SweptQueue(s, changed, now, ttl), SubsOf(s.subs, p), SweepSnap(s.members, p, now, ttl))
            == SweptQueue(s, changed + {p}, now, ttl)
  {
    forall c: Channel {
      ReachedOneMore(s, changed, p, c);
    }
  }

  lemma DroppedOneMore(s: State, changed: set<string>, p: string, now: int, ttl: int)
    requires SubsAtHome(s) && p !in changed
    ensures DropAll(SweptQueue(s, changed, now, ttl), SweptDropped(s, changed), SubsOf(s.subs, p))
            == SweptDropped(s, changed + {p})
  {
    forall c: Channel {
      ReachedOneMore(s, changed, p, c);
    }
  }

  lemma LogOneMore(s: State, changed: set<string>, p: string, now: int, ttl: int)
    requires p !in changed
    ensures var log := SweptLog(s, changed, now, ttl);
            SweptLog(s, changed + {p}, now, ttl)
            == log[p := BroadcastsOf(log, p) + [SweepSnap(s.members, p, now, ttl)]]
  {
  }

  /** Sweeping one more project after the others is sweeping them all at once, whatever the order. */
  lemma SweepOneMore(s: State, ps: set<string>, p: string, now: int, ttl: int)
    requires SubsAtHome(s) && p in s.members && p !in ps
    ensures p in SweepSet(s, ps, now, ttl).members && SweepSet(s, ps, now, ttl).members[p] == s.members[p]
    ensures SweepProject(SweepSet(s, ps, now, ttl), p, now, ttl) == SweepSet(s, ps + {p}, now, ttl)
  {
    var changed := Changed(s.members, ps, now, ttl);
    ChangedOneMore(s.members, ps, p, now, ttl);
    MembersOneMore(s.members, ps, p, now, ttl);
    if After(s.members[p], now, ttl) != s.members[p] {
      QueueOneMore(s, changed, p, now, ttl);
      DroppedOneMore(s, changed, p, now, ttl);
      LogOneMore(s, changed, p, now, ttl);
    }
  }

  lemma SweepNone(s: State, now: int, ttl: int)
    ensures SweepSet(s, {}, now, ttl) == s
  {
    var a := SweepSet(s, {}, now, ttl);
    assert Changed(s.members, {}, now, ttl) == {};
    assert a.members == s.members && a.queue == s.queue && a.dropped == s.dropped && a.log == s.log;
  }
}
