/** What holds of the hub in every reachable state, for any interleaving of its operations. */
module HubRun {
  import opened HubModel

  datatype Event =
    | Published(pt: Point, now: int)
    | Subscribed(p: string)
    | Cancelled(ch: Channel) // by the stream's exit, or once more after that
    | Received(ch: Channel)
    | Swept(now: int)

  ghost predicate Enabled(s: State, e: Event) {
    match e
    case Published(pt, now) => s.clock <= now
    case Subscribed(p) => true
    case Cancelled(ch) => ch in s.home
    case Received(ch) => ch in s.queue && s.queue[ch] != [] && ch in s.received
    case Swept(now) => s.clock <= now
  }

  function Apply(s: State, e: Event, ttl: int): State
    requires Enabled(s, e)
  {
    match e
    case Published(pt, now) => Publish(s, pt, now)
    case Subscribed(p) => Subscribe(s, p)
    case Cancelled(ch) => Cancel(s, ch)
    case Received(ch) => Receive(s, ch)
    case Swept(now) => Sweep(s, now, ttl)
  }

  function Init(now: int): State {
    State(map[], map[], map[], 0, map[], map[], map[], map[], map[], {}, now)
  }

  ghost predicate Valid(s: State, es: seq<Event>, ttl: int)
    decreases |es|
  {
    es == [] || (Enabled(s, es[0]) && Valid(Apply(s, es[0], ttl), es[1..], ttl))
  }

  ghost function Exec(s: State, es: seq<Event>, ttl: int): State
    requires Valid(s, es, ttl)
    decreases |es|
  {
    if es == [] then s else Exec(Apply(s, es[0], ttl), es[1..], ttl)
  }

  // ---------- subsequences ----------

  /** `a` is `b` with some elements left out. */
  ghost predicate IsSubsequence<T(!new)>(a: seq<T>, b: seq<T>) {
    if a == [] then true
    else if b == [] then false
    else
      || (a[|a| - 1] == b[|b| - 1] && IsSubsequence(a[..|a| - 1], b[..|b| - 1]))
      || IsSubsequence(a, b[..|b| - 1])
  }

  lemma SubsequenceSkips<T(!new)>(a: seq<T>, b: seq<T>, x: T)
    requires IsSubsequence(a, b)
    ensures IsSubsequence(a, b + [x])
  {
    assert (b + [x])[..|b|] == b;
  }

  lemma SubsequenceTakes<T(!new)>(a: seq<T>, b: seq<T>, x: T)
    requires IsSubsequence(a, b)
    ensures IsSubsequence(a + [x], b + [x])
  {
    assert (a + [x])[..|a|] == a && (b + [x])[..|b|] == b;
  }

  lemma {:induction false} FullSubsequence<T(!new)>(a: seq<T>, b: seq<T>)
    requires IsSubsequence(a, b)
    ensures |a| <= |b| && (|a| == |b| ==> a == b)
    decreases |b|
  {
    if a != [] {
      var a', b' := a[..|a| - 1], b[..|b| - 1];
      if a[|a| - 1] == b[|b| - 1] && IsSubsequence(a', b') {
        FullSubsequence(a', b');
        assert a == a' + [a[|a| - 1]] && b == b' + [b[|b| - 1]];
      } else {
        FullSubsequence(a, b');
      }
    }
  }

  // ---------- the invariants ----------

  /** No empty bucket and no empty subscriber set persists. */
  ghost predicate NothingEmpty(s: State) {
    && (forall p | p in s.members :: s.members[p] != map[])
    && (forall p | p in s.subs :: s.subs[p] != {})
  }

  /** The subscribers of a project are exactly the channels made for it and not yet cancelled. */
  ghost predicate RegistryExact(s: State) {
    forall p: string, c: Channel :: c in SubsOf(s.subs, p) <==> c in s.live && c in s.home && s.home[c] == p
  }

  function LastView(log: seq<Snapshot>): map<string, Location> {
    if log == [] then map[] else log[|log| - 1].members
  }

  /** Whoever saw the last broadcast of the project knows its present team. */
  ghost predicate AgreesOn(s: State, p: string) {
    LastView(BroadcastsOf(s.log, p)) == ViewOf(TeamOf(s.members, p))
  }

  ghost predicate Agreement(s: State) {
    forall p: string :: AgreesOn(s, p)
  }

  /** The broadcasts a channel was subscribed for. */
  function Offered(s: State, c: Channel): seq<Snapshot>
    requires c in s.home && c in s.start
  {
    var log := BroadcastsOf(s.log, s.home[c]);
    if s.start[c] <= |log| then log[s.start[c]..] else []
  }

  /** Everything a channel was given: what its handler took, then what is queued. */
  function Given(s: State, c: Channel): seq<Snapshot>
    requires c in s.received && c in s.queue
  {
    s.received[c] + s.queue[c]
  }

  /** Bounded queue, nothing reordered or invented, and every broadcast accounted for. */
  ghost predicate Accounted(s: State, c: Channel)
    requires WellFormed(s) && c in s.home
  {
    && s.start[c] <= |BroadcastsOf(s.log, s.home[c])|
    && |s.queue[c]| <= CAPACITY
    && |s.received[c]| + |s.queue[c]| + s.dropped[c] == |Offered(s, c)|
    && IsSubsequence(Given(s, c), Offered(s, c))
  }

  ghost predicate Conservation(s: State)
    requires WellFormed(s)
  {
    forall c | c in s.live :: c in s.home && Accounted(s, c)
  }

  /** Nobody is seen in the future, and a grey dot has been silent for longer than the TTL. */
  ghost predicate TeamHonest(t: Team, clock: int, ttl: int) {
    forall u | u in t :: t[u].lastSeen <= clock && (!t[u].active ==> clock - t[u].lastSeen > ttl)
  }

  ghost predicate FlagsHonest(s: State, ttl: int) {
    forall p | p in s.members :: TeamHonest(s.members[p], s.clock, ttl)
  }

  ghost predicate Inv(s: State, ttl: int) {
    && WellFormed(s) && NothingEmpty(s) && RegistryExact(s) && Agreement(s) && Conservation(s) && FlagsHonest(s, ttl)
  }

  // ---------- broadcasts ----------

  /** One more broadcast reaches a subscriber, by its queue or by its drop count. */
  lemma OneMoreOffered(s: State, s': State, c: Channel, snap: Snapshot)
    requires WellFormed(s) && WellFormed(s') && c in s.home && Accounted(s, c)
    requires s'.home == s.home && s'.start == s.start && s'.received == s.received
    requires BroadcastsOf(s'.log, s.home[c]) == BroadcastsOf(s.log, s.home[c]) + [snap]
    requires s'.queue[c] == Offer(s.queue[c], snap)
    requires s'.dropped[c] == s.dropped[c] + if |s.queue[c]| < CAPACITY then 0 else 1
    ensures Accounted(s', c)
  {
    var offered := Offered(s, c);
    assert Offered(s', c) == offered + [snap];
    if |s.queue[c]| < CAPACITY {
      SubsequenceTakes(s.received[c] + s.queue[c], offered, snap);
      assert s'.received[c] + s'.queue[c] == (s.received[c] + s.queue[c]) + [snap];
    } else {
      SubsequenceSkips(s.received[c] + s.queue[c], offered, snap);
    }
  }

  lemma Untouched(s: State, s': State, c: Channel)
    requires WellFormed(s) && WellFormed(s') && c in s.home && Accounted(s, c)
    requires c in s'.home && s'.home[c] == s.home[c] && s'.start[c] == s.start[c] && s'.received[c] == s.received[c]
    requires BroadcastsOf(s'.log, s.home[c]) == BroadcastsOf(s.log, s.home[c])
    requires s'.queue[c] == s.queue[c] && s'.dropped[c] == s.dropped[c]
    ensures Accounted(s', c)
  {
  }

  lemma BroadcastAgrees(s: State, p: string)
    ensures AgreesOn(Broadcast(s, p), p)
  {
  }

  lemma StillAgrees(s: State, s': State, p: string)
    requires AgreesOn(s, p)
    requires BroadcastsOf(s'.log, p) == BroadcastsOf(s.log, p) && TeamOf(s'.members, p) == TeamOf(s.members, p)
    ensures AgreesOn(s', p)
  {
  }

  lemma PublishWellFormed(s: State, pt: Point, now: int)
    requires WellFormed(s)
    ensures WellFormed(Publish(s, pt, now))
  {
    var team := TeamOf(s.members, pt.project.text)[pt.user := Member(pt.name, pt.fix, now, true)];
    BroadcastWellFormed(s.(members := s.members[pt.project.text := team], clock := now), pt.project.text);
  }

  lemma PublishAccounts(s: State, pt: Point, now: int, c: Channel)
    requires WellFormed(s) && WellFormed(Publish(s, pt, now)) && c in s.home && Accounted(s, c)
    requires c in SubsOf(s.subs, pt.project.text) <==> s.home[c] == pt.project.text
    ensures Accounted(Publish(s, pt, now), c)
  {
    var p, s' := pt.project.text, Publish(s, pt, now);
    if s.home[c] == p {
      OneMoreOffered(s, s', c, Snapshot(p, ViewOf(TeamOf(s'.members, p))));
    } else {
      Untouched(s, s', c);
    }
  }

  lemma PublishConserves(s: State, pt: Point, now: int)
    requires WellFormed(s) && RegistryExact(s) && Conservation(s)
    ensures WellFormed(Publish(s, pt, now)) && Conservation(Publish(s, pt, now))
  {
    PublishWellFormed(s, pt, now);
    forall c | c in s.live ensures Accounted(Publish(s, pt, now), c) {
      assert Accounted(s, c);
      assert c in SubsOf(s.subs, pt.project.text) <==> s.home[c] == pt.project.text;
      PublishAccounts(s, pt, now, c);
    }
    assert Publish(s, pt, now).live == s.live && Publish(s, pt, now).home == s.home;
  }

  lemma PublishAgrees(s: State, pt: Point, now: int)
    requires Agreement(s)
    ensures Agreement(Publish(s, pt, now))
  {
    var p, s' := pt.project.text, Publish(s, pt, now);
    forall q: string ensures AgreesOn(s', q) {
      if q == p {
        BroadcastAgrees(s.(members := s'.members, clock := now), p);
      } else {
        StillAgrees(s, s', q);
      }
    }
  }

  lemma PublishKeepsInv(s: State, pt: Point, now: int, ttl: int)
    requires Inv(s, ttl) && s.clock <= now && 0 <= ttl
    ensures Inv(Publish(s, pt, now), ttl)
  {
    PublishConserves(s, pt, now);
    PublishAgrees(s, pt, now);
    PublishKeepsFlags(s, pt, now, ttl);
    assert Publish(s, pt, now).subs == s.subs && Publish(s, pt, now).live == s.live;
  }

  lemma BreadcrumbIsHonest(t: Team, u: string, m: Member, clock: int, now: int, ttl: int)
    requires TeamHonest(t, clock, ttl) && clock <= now && m.lastSeen == now && m.active
    ensures TeamHonest(t[u := m], now, ttl) && TeamHonest(t, now, ttl)
  {
  }

  lemma PublishSets(s: State, pt: Point, now: int)
    ensures var p, s', m := pt.project.text, Publish(s, pt, now), Member(pt.name, pt.fix, now, true);
            && s'.members == s.members[p := TeamOf(s.members, p)[pt.user := m]]
            && s'.clock == now && s'.subs == s.subs && s'.live == s.live
  {
  }

  lemma TeamStaysHonest(members: map<string, Team>, p: string, u: string, m: Member, clock: int, now: int, ttl: int)
    requires forall q | q in members :: members[q] != map[] && TeamHonest(members[q], clock, ttl)
    requires clock <= now && m.lastSeen == now && m.active
    ensures var members' := members[p := TeamOf(members, p)[u := m]];
            forall q | q in members' :: members'[q] != map[] && TeamHonest(members'[q], now, ttl)
  {
    assert u in TeamOf(members, p)[u := m];
    forall q: string {
      BreadcrumbIsHonest(TeamOf(members, q), u, m, clock, now, ttl);
    }
  }

  lemma PublishKeepsFlags(s: State, pt: Point, now: int, ttl: int)
    requires NothingEmpty(s) && FlagsHonest(s, ttl) && s.clock <= now
    ensures NothingEmpty(Publish(s, pt, now)) && FlagsHonest(Publish(s, pt, now), ttl)
  {
    PublishSets(s, pt, now);
    var m := Member(pt.name, pt.fix, now, true);
    TeamStaysHonest(s.members, pt.project.text, pt.user, m, s.clock, now, ttl);
  }

  lemma SubscribeConserves(s: State, p: string)
    requires WellFormed(s) && Conservation(s)
    ensures WellFormed(Subscribe(s, p)) && Conservation(Subscribe(s, p))
  {
    var s' := Subscribe(s, p);
    SubscribeWellFormed(s, p);
    forall c | c in s'.live ensures c in s'.home && Accounted(s', c) {
      if c != s.made {
        assert Accounted(s, c);
        Untouched(s, s', c);
      }
    }
  }

  lemma SubscribeRegisters(s: State, p: string)
    requires WellFormed(s) && RegistryExact(s)
    ensures RegistryExact(Subscribe(s, p))
  {
    var s' := Subscribe(s, p);
    forall q: string, c: Channel
      ensures c in SubsOf(s'.subs, q) <==> c in s'.live && c in s'.home && s'.home[c] == q
    {
      assert c in SubsOf(s.subs, q) <==> c in s.live && c in s.home && s.home[c] == q;
    }
  }

  lemma SubscribeKeepsInv(s: State, p: string, ttl: int)
    requires Inv(s, ttl)
    ensures Inv(Subscribe(s, p), ttl)
  {
    SubscribeConserves(s, p);
    SubscribeRegisters(s, p);
    forall q: string ensures AgreesOn(Subscribe(s, p), q) {
      StillAgrees(s, Subscribe(s, p), q);
    }
  }

  lemma CancelDeregisters(s: State, ch: Channel)
    requires WellFormed(s) && RegistryExact(s) && ch in s.home
    ensures WellFormed(Cancel(s, ch)) && RegistryExact(Cancel(s, ch))
  {
    var s' := Cancel(s, ch);
    forall p: string, c: Channel
      ensures c in SubsOf(s'.subs, p) <==> c in s'.live && c in s'.home && s'.home[c] == p
    {
      assert c in SubsOf(s.subs, p) <==> c in s.live && c in s.home && s.home[c] == p;
    }
  }

  lemma CancelKeepsInv(s: State, ch: Channel, ttl: int)
    requires Inv(s, ttl) && ch in s.home
    ensures Inv(Cancel(s, ch), ttl)
  {
    var s' := Cancel(s, ch);
    CancelDeregisters(s, ch);
    forall c | c in s'.live ensures c in s'.home && Accounted(s', c) {
      assert Accounted(s, c);
      Untouched(s, s', c);
    }
    forall q: string ensures AgreesOn(s', q) {
      StillAgrees(s, s', q);
    }
  }

  lemma ReceiveAccounts(s: State, ch: Channel, c: Channel)
    requires ch in s.queue && s.queue[ch] != [] && ch in s.received
    requires WellFormed(s) && WellFormed(Receive(s, ch)) && c in s.home && Accounted(s, c)
    ensures Accounted(Receive(s, ch), c)
  {
    var s' := Receive(s, ch);
    if c == ch {
      assert s'.received[c] + s'.queue[c] == s.received[c] + s.queue[c];
      assert Offered(s', c) == Offered(s, c);
    } else {
      Untouched(s, s', c);
    }
  }

  lemma ReceiveWellFormed(s: State, ch: Channel)
    requires WellFormed(s) && Enabled(s, Received(ch))
    ensures WellFormed(Receive(s, ch))
  {
    UpdateKeys(s.queue, ch, s.queue[ch][1..]);
    UpdateKeys(s.received, ch, s.received[ch] + [s.queue[ch][0]]);
  }

  lemma ReceiveConserves(s: State, ch: Channel)
    requires WellFormed(s) && Conservation(s) && Enabled(s, Received(ch))
    ensures WellFormed(Receive(s, ch)) && Conservation(Receive(s, ch))
  {
    var s' := Receive(s, ch);
    ReceiveWellFormed(s, ch);
    forall c | c in s'.live ensures c in s'.home && Accounted(s', c) {
      assert Accounted(s, c);
      ReceiveAccounts(s, ch, c);
    }
  }

  lemma ReceiveKeepsInv(s: State, ch: Channel, ttl: int)
    requires Inv(s, ttl) && Enabled(s, Received(ch))
    ensures Inv(Receive(s, ch), ttl)
  {
    ReceiveConserves(s, ch);
    forall q: string ensures AgreesOn(Receive(s, ch), q) {
      StillAgrees(s, Receive(s, ch), q);
    }
    assert RegistryExact(Receive(s, ch));
  }

  lemma SweepWellFormed(s: State, now: int, ttl: int)
    requires WellFormed(s)
    ensures WellFormed(Sweep(s, now, ttl))
  {
    var s' := Sweep(s, now, ttl);
    assert s'.queue.Keys == s.queue.Keys && s'.dropped.Keys == s.dropped.Keys;
  }

  lemma SweepAccounts(s: State, now: int, ttl: int, c: Channel)
    requires WellFormed(s) && WellFormed(Sweep(s, now, ttl))
    requires c in s.home && c in SubsOf(s.subs, s.home[c]) && Accounted(s, c)
    ensures Accounted(Sweep(s, now, ttl), c)
  {
    var s' := Sweep(s, now, ttl);
    var changed, p := Changed(s.members, s.members.Keys, now, ttl), s.home[c];
    assert Reached(s, changed, c) <==> p in changed;
    if p in changed {
      OneMoreOffered(s, s', c, SweepSnap(s.members, p, now, ttl));
    } else {
      assert BroadcastsOf(s'.log, p) == BroadcastsOf(s.log, p);
      Untouched(s, s', c);
    }
  }

  lemma SweepConserves(s: State, now: int, ttl: int)
    requires WellFormed(s) && RegistryExact(s) && Conservation(s)
    ensures WellFormed(Sweep(s, now, ttl)) && Conservation(Sweep(s, now, ttl))
  {
    SweepWellFormed(s, now, ttl);
    forall c | c in s.live ensures Accounted(Sweep(s, now, ttl), c) {
      assert Accounted(s, c) && c in SubsOf(s.subs, s.home[c]);
      SweepAccounts(s, now, ttl, c);
    }
    assert Sweep(s, now, ttl).live == s.live && Sweep(s, now, ttl).home == s.home;
  }

  lemma SweepAgreesOn(s: State, now: int, ttl: int, p: string)
    requires AgreesOn(s, p)
    ensures AgreesOn(Sweep(s, now, ttl), p)
  {
    var changed := Changed(s.members, s.members.Keys, now, ttl);
    SweptTeam(s, p, now, ttl);
    if p !in changed {
      StillAgrees(s, Sweep(s, now, ttl), p);
    } else {
      assert LastView(BroadcastsOf(Sweep(s, now, ttl).log, p)) == SweepSnap(s.members, p, now, ttl).members;
    }
  }

  lemma SweepAgrees(s: State, now: int, ttl: int)
    requires Agreement(s)
    ensures Agreement(Sweep(s, now, ttl))
  {
    forall p: string ensures AgreesOn(Sweep(s, now, ttl), p) {
      SweepAgreesOn(s, now, ttl, p);
    }
  }

  lemma SweepKeepsInv(s: State, now: int, ttl: int)
    requires Inv(s, ttl) && s.clock <= now
    ensures Inv(Sweep(s, now, ttl), ttl)
  {
    SweepConserves(s, now, ttl);
    SweepAgrees(s, now, ttl);
    SweepKeepsTeams(s, now, ttl);
    assert RegistryExact(Sweep(s, now, ttl));
  }

  lemma SweepKeepsTeams(s: State, now: int, ttl: int)
    requires NothingEmpty(s) && FlagsHonest(s, ttl) && s.clock <= now
    ensures NothingEmpty(Sweep(s, now, ttl)) && FlagsHonest(Sweep(s, now, ttl), ttl)
  {
  }

  /** After a sweep every team is its simple form, whether or not its bucket survives. */
  lemma SweptTeam(s: State, p: string, now: int, ttl: int)
    ensures TeamOf(Sweep(s, now, ttl).members, p) == After(TeamOf(s.members, p), now, ttl)
    ensures p in Sweep(s, now, ttl).members <==> After(TeamOf(s.members, p), now, ttl) != map[]
  {
  }

  lemma ApplyKeepsInv(s: State, e: Event, ttl: int)
    requires Inv(s, ttl) && Enabled(s, e) && 0 <= ttl
    ensures Inv(Apply(s, e, ttl), ttl)
  {
    match e
    case Published(pt, now) => PublishKeepsInv(s, pt, now, ttl);
    case Subscribed(p) => SubscribeKeepsInv(s, p, ttl);
    case Cancelled(ch) => CancelKeepsInv(s, ch, ttl);
    case Received(ch) => ReceiveKeepsInv(s, ch, ttl);
    case Swept(now) => SweepKeepsInv(s, now, ttl);
  }

  /** In every reachable state: the last broadcast of each project shows its present team, the registry is
      exact, every live stream's broadcasts are accounted for in order, and the activity flags are honest. */
  lemma {:induction false} ExecKeepsInv(s: State, es: seq<Event>, ttl: int)
    requires Inv(s, ttl) && Valid(s, es, ttl) && 0 <= ttl
    ensures Inv(Exec(s, es, ttl), ttl)
    decreases |es|
  {
    if es != [] {
      ApplyKeepsInv(s, es[0], ttl);
      ExecKeepsInv(Apply(s, es[0], ttl), es[1..], ttl);
    }
  }

  lemma HubInvariant(now: int, es: seq<Event>, ttl: int)
    requires Valid(Init(now), es, ttl) && 0 <= ttl
    ensures Inv(Exec(Init(now), es, ttl), ttl)
  {
    ExecKeepsInv(Init(now), es, ttl);
  }

  /** A live stream that lost nothing has, as the last thing received or queued, the present team. */
  lemma UndroppedStreamIsCurrent(s: State, c: Channel, ttl: int)
    requires Inv(s, ttl) && c in s.live && s.dropped[c] == 0
    ensures c in s.home && Given(s, c) == Offered(s, c)
    ensures Given(s, c) != [] ==> LastView(Given(s, c)) == ViewOf(TeamOf(s.members, s.home[c]))
  {
    assert Accounted(s, c);
    FullSubsequence(Given(s, c), Offered(s, c));
    var log := BroadcastsOf(s.log, s.home[c]);
    assert AgreesOn(s, s.home[c]);
  }

  /** A breadcrumb leaves the user in the team with that name, position and arrival time, active, next to
      everybody else as they were, and is broadcast once. */
  ghost predicate Shows(s: State, s': State, pt: Point, now: int) {
    var p := pt.project.text;
    && p in s'.members && pt.user in s'.members[p]
    && s'.members[p][pt.user] == Member(pt.name, pt.fix, now, true)
    && (forall u | u != pt.user :: u in s'.members[p] <==> p in s.members && u in s.members[p])
    && (forall u | u != pt.user && u in s'.members[p] :: s'.members[p][u] == s.members[p][u])
    && (forall q | q != p :: q in s'.members <==> q in s.members)
    && (forall q | q != p && q in s.members :: s'.members[q] == s.members[q])
    && |BroadcastsOf(s'.log, p)| == |BroadcastsOf(s.log, p)| + 1
  }

  lemma BreadcrumbIsStored(s: State, pt: Point, now: int)
    ensures Shows(s, Publish(s, pt, now), pt, now)
  {
  }

  /** In every reachable state the last broadcast of a project lists exactly its present members, each with
      its name, position, activity and the time it was last seen, in whole milliseconds rounded down. */
  lemma LastBroadcastShows(s: State, ttl: int, p: string, u: string)
    requires Inv(s, ttl)
    ensures var view, team := LastView(BroadcastsOf(s.log, p)), TeamOf(s.members, p);
            && (u in view <==> u in team)
            && (u in team ==>
                  && view[u].name == team[u].name && view[u].fix == team[u].fix && view[u].active == team[u].active
                  && view[u].lastSeenAt * 1_000_000 <= team[u].lastSeen < (view[u].lastSeenAt + 1) * 1_000_000)
  {
    assert AgreesOn(s, p);
  }

  /** A breadcrumb's snapshot is the previous one with that one member replaced: its name and position, the
      arrival in milliseconds, and active. */
  lemma BreadcrumbUpdatesTheSnapshot(s: State, pt: Point, now: int)
    requires AgreesOn(s, pt.project.text)
    ensures var p, log' := pt.project.text, BroadcastsOf(Publish(s, pt, now).log, pt.project.text);
            && log'[..|log'| - 1] == BroadcastsOf(s.log, p)
            && log'[|log'| - 1].project == p
            && LastView(log') == LastView(BroadcastsOf(s.log, p))
                                 [pt.user := Location(pt.name, pt.fix, now / NANOS_PER_MILLI, true)]
  {
  }

  lemma ReceivedStaysGiven(s: State, ch: Channel, c: Channel)
    requires Enabled(s, Received(ch)) && c in s.queue && c in s.received
    ensures var s' := Receive(s, ch);
            c in s'.queue && c in s'.received && Given(s', c) == Given(s, c)
  {
    assert c == ch ==> (s.received[c] + [s.queue[c][0]]) + s.queue[c][1..] == Given(s, c);
  }

  /** What a channel was given is never taken back or reordered: a full queue refuses the new snapshot and
      keeps the old ones. */
  lemma KeptOnlyGrows(s: State, e: Event, ttl: int, c: Channel)
    requires WellFormed(s) && Enabled(s, e) && c in s.home
    ensures var s' := Apply(s, e, ttl);
            && c in s'.queue && c in s'.received
            && Given(s, c) <= Given(s', c)
            && |Given(s', c)| <= |Given(s, c)| + 1
            && (|s.queue[c]| == CAPACITY && !e.Received? ==> s'.queue[c] == s.queue[c])
  {
    match e
    case Published(pt, now) =>
    case Subscribed(p) =>
    case Cancelled(ch) =>
    case Received(ch) => ReceivedStaysGiven(s, ch, c);
    case Swept(now) =>
  }

  /** The event broadcasts to the project. */
  ghost predicate Broadcasts(s: State, e: Event, ttl: int, p: string)
    requires Enabled(s, e)
  {
    BroadcastsOf(Apply(s, e, ttl).log, p) != BroadcastsOf(s.log, p)
  }

  /** An event that broadcasts to a project makes one snapshot and offers it to its subscribers. */
  lemma BroadcastOffers(s: State, e: Event, ttl: int, c: Channel) returns (snap: Snapshot)
    requires WellFormed(s) && Enabled(s, e) && c in s.home && c in SubsOf(s.subs, s.home[c])
    requires Broadcasts(s, e, ttl, s.home[c])
    ensures var s' := Apply(s, e, ttl);
            && s'.home == s.home && s'.live == s.live && s'.received == s.received && c in s'.queue
            && BroadcastsOf(s'.log, s.home[c]) == BroadcastsOf(s.log, s.home[c]) + [snap]
            && s'.queue[c] == Offer(s.queue[c], snap)
  {
    var p, s' := s.home[c], Apply(s, e, ttl);
    if e.Swept? {
      snap := SweepSnap(s.members, p, e.now, ttl);
      assert p in Changed(s.members, s.members.Keys, e.now, ttl);
    } else {
      assert e.Published?;
      snap := Snapshot(p, ViewOf(TeamOf(s'.members, p)));
    }
  }

  /** A broadcast reaches a live stream if and only if there is room in its queue at that moment. */
  lemma BroadcastReachesIffRoom(s: State, e: Event, ttl: int, c: Channel)
    requires WellFormed(s) && RegistryExact(s) && Enabled(s, e) && c in s.live && c in s.home
    requires |s.queue[c]| <= CAPACITY && Broadcasts(s, e, ttl, s.home[c])
    ensures var s' := Apply(s, e, ttl);
            var log, log' := BroadcastsOf(s.log, s.home[c]), BroadcastsOf(s'.log, s.home[c]);
            && s'.home == s.home && s'.live == s.live && s'.received == s.received && c in s'.queue
            && |log'| == |log| + 1 && log'[..|log|] == log
            && (|s.queue[c]| < CAPACITY <==> Given(s', c) == Given(s, c) + [log'[|log|]])
            && (|s.queue[c]| == CAPACITY ==> s'.queue[c] == s.queue[c])
  {
    assert c in SubsOf(s.subs, s.home[c]);
    var snap := BroadcastOffers(s, e, ttl, c);
    OfferIffRoom(s.received[c], s.queue[c], snap);
  }

  lemma OfferIffRoom(received: seq<Snapshot>, q: seq<Snapshot>, snap: Snapshot)
    requires |q| <= CAPACITY
    ensures |q| < CAPACITY <==> received + Offer(q, snap) == (received + q) + [snap]
    ensures |q| == CAPACITY ==> Offer(q, snap) == q
  {
    if |q| == CAPACITY {
      assert |received + q| < |(received + q) + [snap]|;
    } else {
      assert received + (q + [snap]) == (received + q) + [snap];
    }
  }

  /** A run without any broadcast to the project. */
  ghost predicate Quiet(s: State, es: seq<Event>, ttl: int, p: string)
    requires Valid(s, es, ttl)
    decreases |es|
  {
    es == [] || (!Broadcasts(s, es[0], ttl, p) && Quiet(Apply(s, es[0], ttl), es[1..], ttl, p))
  }

  lemma SweepLogGrows(s: State, now: int, ttl: int, p: string)
    ensures |BroadcastsOf(Sweep(s, now, ttl).log, p)|
            == |BroadcastsOf(s.log, p)| + if p in Changed(s.members, s.members.Keys, now, ttl) then 1 else 0
  {
  }

  lemma UnchangedProjectKeepsQueues(s: State, now: int, ttl: int, c: Channel)
    requires WellFormed(s) && c in s.home
    requires BroadcastsOf(Sweep(s, now, ttl).log, s.home[c]) == BroadcastsOf(s.log, s.home[c])
    ensures c in Sweep(s, now, ttl).queue && Sweep(s, now, ttl).queue[c] == s.queue[c]
  {
    SweepLogGrows(s, now, ttl, s.home[c]);
  }

  lemma PublishLogGrows(s: State, pt: Point, now: int, p: string)
    ensures |BroadcastsOf(Publish(s, pt, now).log, p)|
            == |BroadcastsOf(s.log, p)| + if p == pt.project.text then 1 else 0
  {
  }

  lemma OtherBreadcrumbKeepsQueues(s: State, pt: Point, now: int, c: Channel)
    requires WellFormed(s) && c in s.home
    requires BroadcastsOf(Publish(s, pt, now).log, s.home[c]) == BroadcastsOf(s.log, s.home[c])
    ensures c in Publish(s, pt, now).queue && Publish(s, pt, now).queue[c] == s.queue[c]
  {
    PublishLogGrows(s, pt, now, s.home[c]);
  }

  lemma QuietEventGivesNothing(s: State, e: Event, ttl: int, c: Channel)
    requires WellFormed(s) && Enabled(s, e) && c in s.home && !Broadcasts(s, e, ttl, s.home[c])
    ensures var s' := Apply(s, e, ttl);
            c in s'.queue && c in s'.received && c in s'.home && s'.home[c] == s.home[c] && Given(s', c) == Given(s, c)
  {
    match e
    case Published(pt, now) => OtherBreadcrumbKeepsQueues(s, pt, now, c);
    case Subscribed(p) =>
    case Cancelled(ch) =>
    case Received(ch) => ReceivedStaysGiven(s, ch, c);
    case Swept(now) => UnchangedProjectKeepsQueues(s, now, ttl, c);
  }

  lemma {:induction false} QuietGivesNothing(s: State, es: seq<Event>, ttl: int, c: Channel)
    requires Inv(s, ttl) && 0 <= ttl && c in s.home && Valid(s, es, ttl) && Quiet(s, es, ttl, s.home[c])
    ensures var s' := Exec(s, es, ttl);
            && c in s'.queue && c in s'.received && Given(s', c) == Given(s, c)
            && BroadcastsOf(s'.log, s.home[c]) == BroadcastsOf(s.log, s.home[c])
    decreases |es|
  {
    if es != [] {
      QuietEventGivesNothing(s, es[0], ttl, c);
      ApplyKeepsInv(s, es[0], ttl);
      QuietGivesNothing(Apply(s, es[0], ttl), es[1..], ttl, c);
    }
  }

  /** When a stream is up to date. From a broadcast `e` until the next one to its project, a live stream's
      latest snapshot shows the present team if and only if there was room in its queue for that broadcast,
      or what it was given before happens to look the same. Drops before that do not matter. */
  lemma StreamIsCurrentIff(s: State, e: Event, es: seq<Event>, ttl: int, c: Channel)
    requires Inv(s, ttl) && Enabled(s, e) && 0 <= ttl && c in s.live
    requires Broadcasts(s, e, ttl, s.home[c])
    requires Valid(Apply(s, e, ttl), es, ttl) && Quiet(Apply(s, e, ttl), es, ttl, s.home[c])
    ensures var s', p := Exec(Apply(s, e, ttl), es, ttl), s.home[c];
            && c in s'.queue && c in s'.received
            && (LastView(Given(s', c)) == ViewOf(TeamOf(s'.members, p))
                <==> |s.queue[c]| < CAPACITY || LastView(Given(s, c)) == ViewOf(TeamOf(s'.members, p)))
  {
    var s1, s' := Apply(s, e, ttl), Exec(Apply(s, e, ttl), es, ttl);
    assert Accounted(s, c);
    BroadcastReachesIffRoom(s, e, ttl, c);
    ApplyKeepsInv(s, e, ttl);
    QuietGivesNothing(s1, es, ttl, c);
    ExecKeepsInv(s1, es, ttl);
    assert AgreesOn(s', s.home[c]);
  }

  // ---------- a stream that falls behind ----------

  lemma {:induction false} ExecSnoc(s: State, es: seq<Event>, ttl: int, e: Event)
    requires Valid(s, es, ttl) && Enabled(Exec(s, es, ttl), e)
    ensures Valid(s, es + [e], ttl) && Exec(s, es + [e], ttl) == Apply(Exec(s, es, ttl), e, ttl)
    decreases |es|
  {
    if es == [] {
      assert [e][1..] == [];
      assert es + [e] == [e];
    } else {
      assert (es + [e])[1..] == es[1..] + [e];
      ExecSnoc(Apply(s, es[0], ttl), es[1..], ttl, e);
    }
  }

  /** The `i`-th breadcrumb of one device, which differs from the others in its battery level. */
  function Crumb(pt: Point, now: int, i: nat): Event {
    Published(pt.(fix := pt.fix.(battery := i)), now)
  }

  /** A stream that never receives anything, and `n` breadcrumbs. */
  function FallBehind(pt: Point, now: int, n: nat): seq<Event> {
    [Subscribed(pt.project.text)] + seq(n, i requires 0 <= i < n => Crumb(pt, now, i))
  }

  /** Channel 0 of the project has been given `n` snapshots, the last of them showing the present team. */
  ghost predicate Filled(s: State, pt: Point, now: int, ttl: int, n: nat) {
    && Inv(s, ttl) && s.clock == now && 0 in s.live && s.home[0] == pt.project.text
    && s.received[0] == [] && |s.queue[0]| == n
    && (n > 0 ==> LastView(s.queue[0]) == ViewOf(TeamOf(s.members, pt.project.text)))
    && (n > 0 ==> pt.user in TeamOf(s.members, pt.project.text)
                  && TeamOf(s.members, pt.project.text)[pt.user].fix.battery == n - 1)
  }

  ghost predicate FilledBy(pt: Point, now: int, ttl: int, n: nat) {
    && Valid(Init(now), FallBehind(pt, now, n), ttl)
    && Filled(Exec(Init(now), FallBehind(pt, now, n), ttl), pt, now, ttl, n)
  }

  lemma NothingFilled(pt: Point, now: int, ttl: int)
    ensures FilledBy(pt, now, ttl, 0)
  {
    assert FallBehind(pt, now, 0) == [] + [Subscribed(pt.project.text)];
    ExecSnoc(Init(now), [], ttl, Subscribed(pt.project.text));
    SubscribeKeepsInv(Init(now), pt.project.text, ttl);
  }

  lemma OneCrumbMore(pt: Point, now: int, ttl: int, n: nat)
    requires Valid(Init(now), FallBehind(pt, now, n), ttl)
    requires Enabled(Exec(Init(now), FallBehind(pt, now, n), ttl), Crumb(pt, now, n))
    ensures Valid(Init(now), FallBehind(pt, now, n + 1), ttl)
    ensures Exec(Init(now), FallBehind(pt, now, n + 1), ttl)
            == Apply(Exec(Init(now), FallBehind(pt, now, n), ttl), Crumb(pt, now, n), ttl)
  {
    assert FallBehind(pt, now, n + 1) == FallBehind(pt, now, n) + [Crumb(pt, now, n)];
    ExecSnoc(Init(now), FallBehind(pt, now, n), ttl, Crumb(pt, now, n));
  }

  lemma FillOneMore(s: State, pt: Point, now: int, ttl: int, n: nat)
    requires 0 <= ttl && n < CAPACITY && Filled(s, pt, now, ttl, n)
    ensures Filled(Apply(s, Crumb(pt, now, n), ttl), pt, now, ttl, n + 1)
  {
    var e, p := Crumb(pt, now, n), pt.project.text;
    ApplyKeepsInv(s, e, ttl);
    CrumbShows(s, pt, now, ttl, n);
    BroadcastReachesIffRoom(s, e, ttl, 0);
    var s' := Apply(s, e, ttl);
    assert Given(s', 0) == s'.queue[0] && Given(s, 0) == s.queue[0];
    assert AgreesOn(s', p);
  }

  lemma CrumbShows(s: State, pt: Point, now: int, ttl: int, i: nat)
    requires s.clock <= now
    ensures var s', p := Apply(s, Crumb(pt, now, i), ttl), pt.project.text;
            && Broadcasts(s, Crumb(pt, now, i), ttl, p) && s'.clock == now
            && pt.user in TeamOf(s'.members, p) && TeamOf(s'.members, p)[pt.user].fix.battery == i
  {
    var s', p := Apply(s, Crumb(pt, now, i), ttl), pt.project.text;
    assert |BroadcastsOf(s'.log, p)| == |BroadcastsOf(s.log, p)| + 1;
  }

  lemma {:induction false} BreadcrumbsFill(pt: Point, now: int, ttl: int, n: nat)
    requires 0 <= ttl && n <= CAPACITY
    ensures FilledBy(pt, now, ttl, n)
  {
    if n == 0 {
      NothingFilled(pt, now, ttl);
    } else {
      BreadcrumbsFill(pt, now, ttl, n - 1);
      FilledByOneMore(pt, now, ttl, n - 1);
    }
  }

  lemma FilledByOneMore(pt: Point, now: int, ttl: int, n: nat)
    requires 0 <= ttl && n < CAPACITY && FilledBy(pt, now, ttl, n)
    ensures FilledBy(pt, now, ttl, n + 1)
  {
    var s := Exec(Init(now), FallBehind(pt, now, n), ttl);
    FillOneMore(s, pt, now, ttl, n);
    OneCrumbMore(pt, now, ttl, n);
  }

  /** A full queue does miss the newest snapshot: after one breadcrumb more than the queue holds, a stream
      that has received nothing yet ends with a snapshot that is not the present team's. */
  lemma FullQueueMissesTheTeam(pt: Point, now: int, ttl: int)
    requires 0 <= ttl
    ensures Valid(Init(now), FallBehind(pt, now, CAPACITY + 1), ttl)
    ensures var s := Exec(Init(now), FallBehind(pt, now, CAPACITY + 1), ttl);
            && 0 in s.live && 0 in s.home && s.home[0] == pt.project.text && 0 in s.queue && 0 in s.received
            && LastView(Given(s, 0)) != ViewOf(TeamOf(s.members, pt.project.text))
  {
    BreadcrumbsFill(pt, now, ttl, CAPACITY);
    var s, e := Exec(Init(now), FallBehind(pt, now, CAPACITY), ttl), Crumb(pt, now, CAPACITY);
    OneCrumbMore(pt, now, ttl, CAPACITY);
    CrumbShows(s, pt, now, ttl, CAPACITY);
    StreamIsCurrentIff(s, e, [], ttl, 0);
    var s', p := Apply(s, e, ttl), pt.project.text;
    assert Given(s, 0) == s.queue[0];
    assert ViewOf(TeamOf(s.members, p))[pt.user].fix.battery == CAPACITY - 1;
    assert ViewOf(TeamOf(s'.members, p))[pt.user].fix.battery == CAPACITY;
  }

  /** In numbers: of 65 snapshots that nobody takes, the first 64 wait and the last one is lost. */
  lemma SixtyFourWait(pt: Point, now: int, ttl: int)
    requires 0 <= ttl
    ensures Valid(Init(now), FallBehind(pt, now, 64), ttl) && Valid(Init(now), FallBehind(pt, now, 65), ttl)
    ensures var s, s' := Exec(Init(now), FallBehind(pt, now, 64), ttl), Exec(Init(now), FallBehind(pt, now, 65), ttl);
            0 in s.queue && |s.queue[0]| == 64 && 0 in s'.queue && s'.queue[0] == s.queue[0]
  {
    BreadcrumbsFill(pt, now, ttl, 64);
    OneCrumbMore(pt, now, ttl, 64);
    var s := Exec(Init(now), FallBehind(pt, now, 64), ttl);
    CrumbShows(s, pt, now, ttl, 64);
    BroadcastReachesIffRoom(s, Crumb(pt, now, 64), ttl, 0);
  }

  // ---------- frames ----------

  /** A breadcrumb touches one project: every other team, its broadcasts and its subscribers' queues stay. */
  lemma PublishIsLocal(s: State, pt: Point, now: int, q: string, c: Channel)
    requires WellFormed(s) && q != pt.project.text && c in s.home && s.home[c] == q
    ensures var s' := Publish(s, pt, now);
            && TeamOf(s'.members, q) == TeamOf(s.members, q) && BroadcastsOf(s'.log, q) == BroadcastsOf(s.log, q)
            && c in s'.queue && s'.queue[c] == s.queue[c]
            && SubsOf(s'.subs, q) == SubsOf(s.subs, q)
  {
  }

  /** Subscribing, cancelling and receiving touch one channel and no team. */
  lemma ChannelEventsAreLocal(s: State, e: Event, ttl: int, q: string, c: Channel)
    requires WellFormed(s) && Enabled(s, e) && c in s.home
    requires e.Subscribed? || (e.Cancelled? && e.ch != c) || (e.Received? && e.ch != c)
    ensures var s' := Apply(s, e, ttl);
            && TeamOf(s'.members, q) == TeamOf(s.members, q) && BroadcastsOf(s'.log, q) == BroadcastsOf(s.log, q)
            && c in s'.queue && s'.queue[c] == s.queue[c]
            && (c in SubsOf(s'.subs, q) <==> c in SubsOf(s.subs, q))
  {
  }

  /** Nothing but its own handler touches the queue of a cancelled channel, and it is never live again. */
  lemma CancelledIsQuiet(s: State, e: Event, ttl: int, c: Channel)
    requires WellFormed(s) && RegistryExact(s) && Enabled(s, e) && c in s.home && c !in s.live
    requires e != Received(c)
    ensures var s' := Apply(s, e, ttl);
            c in s'.queue && s'.queue[c] == s.queue[c] && c !in s'.live
  {
    forall p: string ensures c !in SubsOf(s.subs, p) {
    }
  }

  /** A cancel is final: whatever happens afterwards, the channel is given nothing more. */
  lemma {:induction false} CancelledGetsNothing(s: State, es: seq<Event>, ttl: int, c: Channel)
    requires Inv(s, ttl) && 0 <= ttl && Valid(s, es, ttl) && c in s.home && c !in s.live
    ensures var s' := Exec(s, es, ttl);
            c in s'.queue && c in s'.received && c !in s'.live && Given(s', c) == Given(s, c)
    decreases |es|
  {
    if es != [] {
      CancelledStep(s, es[0], ttl, c);
      ApplyKeepsInv(s, es[0], ttl);
      CancelledGetsNothing(Apply(s, es[0], ttl), es[1..], ttl, c);
    }
  }

  lemma CancelledStep(s: State, e: Event, ttl: int, c: Channel)
    requires WellFormed(s) && RegistryExact(s) && Enabled(s, e) && c in s.home && c !in s.live
    ensures var s' := Apply(s, e, ttl);
            c in s'.home && c in s'.queue && c in s'.received && c !in s'.live && Given(s', c) == Given(s, c)
  {
    if e == Received(c) {
      ReceivedStaysGiven(s, c, c);
    } else {
      CancelledIsQuiet(s, e, ttl, c);
    }
  }

  // ---------- sweeps ----------

  /** Right after a sweep, whoever remains has been silent at most 4 * ttl and is active if and only if silent
      at most ttl; and a project is rebroadcast exactly when the sweep changed its team. */
  lemma SweepIsExact(s: State, now: int, ttl: int, p: string)
    requires Inv(s, ttl) && s.clock <= now
    ensures var s' := Sweep(s, now, ttl);
            var team := TeamOf(s'.members, p);
            && (forall u | u in team :: now - team[u].lastSeen <= 4 * ttl
                                        && (team[u].active <==> now - team[u].lastSeen <= ttl))
            && (forall u :: u in team <==> u in TeamOf(s.members, p)
                                           && now - TeamOf(s.members, p)[u].lastSeen <= 4 * ttl)
            && (forall u | u in team :: team[u] == TeamOf(s.members, p)[u].(active := team[u].active))
            && |BroadcastsOf(s'.log, p)| == |BroadcastsOf(s.log, p)| + (if team != TeamOf(s.members, p) then 1 else 0)
  {
    SweptTeam(s, p, now, ttl);
  }

  function ActiveUsers(t: Team): set<string> {
    set u | u in t && t[u].active
  }

  /** Two for every active member, one for every inactive one. */
  function Weight(t: Team): nat {
    |t.Keys| + |ActiveUsers(t)|
  }

  /** A sweep that changes a team makes it lighter. */
  lemma SweepLightens(t: Team, now: int, ttl: int)
    ensures Weight(After(t, now, ttl)) <= Weight(t)
    ensures After(t, now, ttl) != t ==> Weight(After(t, now, ttl)) < Weight(t)
  {
    var t' := After(t, now, ttl);
    SubsetSize(t'.Keys, t.Keys);
    SubsetSize(ActiveUsers(t'), ActiveUsers(t));
    if t' != t && t'.Keys == t.Keys {
      var u :| u in t && t'[u] != t[u];
      assert u in ActiveUsers(t) && u !in ActiveUsers(t');
    }
  }

  lemma SubsetSize<T>(a: set<T>, b: set<T>)
    requires a <= b
    ensures |a| <= |b| && (a != b ==> |a| < |b|)
  {
    assert b == a + (b - a);
    assert |b| == |a| + |b - a|;
  }

  ghost predicate NoPublish(es: seq<Event>, p: string) {
    forall i | 0 <= i < |es| :: es[i].Published? ==> es[i].pt.project.text != p
  }

  /** The same for one user. */
  lemma SweepForgets(s: State, now: int, ttl: int, p: string, u: string)
    requires Inv(s, ttl) && s.clock <= now
    ensures var s' := Sweep(s, now, ttl);
            var team, team' := TeamOf(s.members, p), TeamOf(s'.members, p);
            && s'.subs == s.subs
            && (u in team' <==> u in team && now - team[u].lastSeen <= 4 * ttl)
            && (u in team' ==> team'[u] == team[u].(active := now - team[u].lastSeen <= ttl))
            && |BroadcastsOf(s'.log, p)| == |BroadcastsOf(s.log, p)| + (if team' == team then 0 else 1)
  {
    SweepIsExact(s, now, ttl, p);
  }

  /** A sweep more than 4 * ttl after everybody's last breadcrumb removes the bucket. */
  lemma SilenceEmptiesTheProject(s: State, now: int, ttl: int, p: string)
    requires forall u | u in TeamOf(s.members, p) :: now - TeamOf(s.members, p)[u].lastSeen > 4 * ttl
    ensures p !in Sweep(s, now, ttl).members
  {
    SweptTeam(s, p, now, ttl);
  }

  /** Without breadcrumbs a team only loses members, and whoever stays was seen when it was seen before. */
  ghost predicate OnlyLoses(t: Team, t': Team) {
    forall u | u in t' :: u in t && t'[u].lastSeen == t[u].lastSeen
  }

  lemma QuietTeamOnlyLoses(s: State, e: Event, ttl: int, p: string)
    requires Enabled(s, e) && (e.Published? ==> e.pt.project.text != p)
    ensures OnlyLoses(TeamOf(s.members, p), TeamOf(Apply(s, e, ttl).members, p))
  {
    if e.Swept? {
      SweptTeam(s, p, e.now, ttl);
    }
  }

  lemma NoPublishTail(es: seq<Event>, p: string)
    requires es != [] && NoPublish(es, p)
    ensures NoPublish(es[1..], p)
  {
    forall i | 0 <= i < |es[1..]| ensures es[1..][i].Published? ==> es[1..][i].pt.project.text != p {
      assert es[1..][i] == es[i + 1];
    }
  }

  lemma {:induction false} QuietRunOnlyLoses(s: State, es: seq<Event>, ttl: int, p: string)
    requires Valid(s, es, ttl) && NoPublish(es, p)
    ensures OnlyLoses(TeamOf(s.members, p), TeamOf(Exec(s, es, ttl).members, p))
    decreases |es|
  {
    if es != [] {
      NoPublishTail(es, p);
      QuietTeamOnlyLoses(s, es[0], ttl, p);
      QuietRunOnlyLoses(Apply(s, es[0], ttl), es[1..], ttl, p);
    }
  }

  /** Any sweep more than 4 * ttl after the last breadcrumb of a project removes its bucket, whatever happened
      in between. */
  lemma QuietProjectIsForgotten(s: State, es: seq<Event>, ttl: int, p: string, now: int)
    requires Inv(s, ttl) && 0 <= ttl && Valid(s, es, ttl) && NoPublish(es, p) && now - s.clock > 4 * ttl
    ensures p !in Sweep(Exec(s, es, ttl), now, ttl).members
  {
    QuietRunOnlyLoses(s, es, ttl, p);
    SilenceEmptiesTheProject(Exec(s, es, ttl), now, ttl, p);
  }

  /** The broadcasts of a project so far plus what its team weighs: an event about the project other than a
      breadcrumb never raises it. */
  lemma QuietEvent(s: State, e: Event, ttl: int, p: string)
    requires Enabled(s, e) && (e.Published? ==> e.pt.project.text != p)
    ensures var s' := Apply(s, e, ttl);
            |BroadcastsOf(s'.log, p)| + Weight(TeamOf(s'.members, p))
            <= |BroadcastsOf(s.log, p)| + Weight(TeamOf(s.members, p))
  {
    var s' := Apply(s, e, ttl);
    if e.Swept? {
      SweptTeam(s, p, e.now, ttl);
      SweepLightens(TeamOf(s.members, p), e.now, ttl);
    } else {
      assert TeamOf(s'.members, p) == TeamOf(s.members, p) && BroadcastsOf(s'.log, p) == BroadcastsOf(s.log, p);
    }
  }

  /** Noise is bounded: while nobody publishes to a project, every broadcast about it makes its team lighter,
      so however often the reaper runs there are at most as many broadcasts as the team weighed. */
  lemma {:induction false} QuietProjectFallsSilent(s: State, es: seq<Event>, ttl: int, p: string)
    requires Valid(s, es, ttl) && NoPublish(es, p)
    ensures var s' := Exec(s, es, ttl);
            |BroadcastsOf(s'.log, p)| + Weight(TeamOf(s'.members, p))
            <= |BroadcastsOf(s.log, p)| + Weight(TeamOf(s.members, p))
    decreases |es|
  {
    if es != [] {
      NoPublishTail(es, p);
      QuietEvent(s, es[0], ttl, p);
      QuietProjectFallsSilent(Apply(s, es[0], ttl), es[1..], ttl, p);
    }
  }
}
