/** The hub as the mutable object it is (hub.go): every method holds the lock, so each is one step. */
module Hub {
  import opened HubModel

  class Hub {
    var members: map<string, Team>
    var subs: map<string, set<Channel>>
    var queue: map<Channel, seq<Snapshot>>
    var made: nat
    const ttl: int

    ghost var log: map<string, seq<Snapshot>>
    ghost var home: map<Channel, string>
    ghost var start: map<Channel, nat>
    ghost var received: map<Channel, seq<Snapshot>>
    ghost var dropped: map<Channel, nat>
    ghost var live: set<Channel>
    ghost var clock: int

    ghost function Value(): State
      reads this
    {
      State.State(members, subs, queue, made, log, home, start, received, dropped, live, clock)
    }

    /** Registered channels exist, under the project they were made for. */
    ghost predicate Valid()
      reads this
    {
      WellFormed(Value())
    }

    constructor (ttl: int, ghost now: int)
      ensures Valid() && this.ttl == ttl
      ensures Value() == State.State(map[], map[], map[], 0, map[], map[], map[], map[], map[], {}, now)
    {
      this.ttl := ttl;
      members, subs, queue, made := map[], map[], map[], 0;
      log, home, start, received, dropped, live, clock := map[], map[], map[], map[], map[], {}, now;
    }

    /** Sends without blocking; a full buffer loses the new snapshot. */
    method DeliverLocked(ch: Channel, snap: Snapshot)
      requires ch in queue && ch in dropped
      modifies this`queue, this`dropped
      ensures queue == old(queue)[ch := Offer(old(queue)[ch], snap)]
      ensures dropped == old(dropped)[ch := old(dropped)[ch] + if |old(queue)[ch]| < CAPACITY then 0 else 1]
    {
      if |queue[ch]| < CAPACITY {
        queue := queue[ch := queue[ch] + [snap]];
      } else {
        dropped := dropped[ch := dropped[ch] + 1];
      }
    }

    /** Copies the present team of a project, member by member. */
    method BuildSnapshot(p: string) returns (snap: Snapshot)
      ensures snap == Snapshot(p, ViewOf(TeamOf(members, p)))
    {
      var view: map<string, Location> := map[];
      var team := TeamOf(members, p);
      var users := team.Keys;
      while users != {}
        invariant users <= team.Keys
        invariant view == map u | u in team && u !in users :: LocationOf(team[u])
        decreases users
      {
        var u :| u in users;
        view := view[u := LocationOf(team[u])];
        users := users - {u};
      }
      assert view == ViewOf(team);
      snap := Snapshot(p, view);
    }

    /** Offers the snapshot to every subscriber of the project. */
    method DeliverToAll(p: string, snap: Snapshot)
      requires Valid()
      modifies this`queue, this`dropped
      ensures queue == OfferAll(old(queue), SubsOf(subs, p), snap)
      ensures dropped == DropAll(old(queue), old(dropped), SubsOf(subs, p))
    {
      ghost var to, q, d := SubsOf(subs, p), queue, dropped;
      var todo := SubsOf(subs, p);
      ServedNone(q, d, to, snap);
      while todo != {}
        invariant Served(q, d, to, todo, snap, queue, dropped)
        decreases todo
      {
        var ch :| ch in todo;
        ServedOneMore(q, d, to, todo, snap, queue, dropped, ch);
        DeliverLocked(ch, snap);
        todo := todo - {ch};
      }
      ServedAll(q, d, to, snap, queue, dropped);
    }

    method BroadcastLocked(p: string)
      requires Valid()
      modifies this`queue, this`dropped, this`log
      ensures Valid() && Value() == Broadcast(old(Value()), p)
    {
      var snap := BuildSnapshot(p);
      DeliverToAll(p, snap);
      log := log[p := BroadcastsOf(log, p) + [snap]];
      BroadcastWellFormed(old(Value()), p);
    }

    method Publish(pt: Point, now: int)
      requires Valid()
      modifies this
      ensures Valid() && Value() == HubModel.Publish(old(Value()), pt, now)
    {
      var p := pt.project.text;
      var proj := TeamOf(members, p);
      members := members[p := proj[pt.user := Member(pt.name, pt.fix, now, true)]];
      clock := now;
      BroadcastLocked(p);
    }

    /** Adds a channel to a project's set, creating the set for its first subscriber. */
    method Register(p: string, ch: Channel)
      modifies this`subs
      ensures subs == old(subs)[p := SubsOf(old(subs), p) + {ch}]
    {
      if p !in subs {
        subs := subs[p := {}];
      }
      subs := subs[p := subs[p] + {ch}];
    }

    method Subscribe(p: string) returns (ch: Channel)
      requires Valid()
      modifies this
      ensures Valid() && ch == old(made) && Value() == HubModel.Subscribe(old(Value()), p)
    {
      ghost var s := HubModel.Subscribe(Value(), p);
      SubscribeWellFormed(Value(), p);
      ch := made;
      made := made + 1;
      queue := queue[ch := []];
      Register(p, ch);
      home, start, received, dropped, live := s.home, s.start, s.received, s.dropped, s.live;
      assert Value() == s;
      assert WellFormed(s);
    }

    /** The closure Subscribe returned for this project and channel. */
    method Cancel(p: string, ch: Channel)
      requires Valid() && ch in home && home[ch] == p
      modifies this
      ensures Valid() && Value() == HubModel.Cancel(old(Value()), ch)
    {
      live := live - {ch};
      if p in subs {
        subs := subs[p := subs[p] - {ch}];
        if subs[p] == {} {
          subs := subs - {p};
        }
      }
    }

    method Receive(ch: Channel) returns (snap: Snapshot)
      requires Valid() && ch in queue && queue[ch] != []
      modifies this
      ensures Valid() && snap == old(queue)[ch][0] && Value() == HubModel.Receive(old(Value()), ch)
    {
      snap := queue[ch][0];
      received := received[ch := received[ch] + [snap]];
      queue := queue[ch := queue[ch][1..]];
    }

    /** The inner loop of a sweep: edits the bucket while ranging over it. */
    method SweepBucket(p: string, now: int) returns (changed: bool)
      requires p in members
      modifies this`members
      ensures members == old(members)[p := After(old(members)[p], now, ttl)]
      ensures changed <==> After(old(members)[p], now, ttl) != old(members)[p]
    {
      changed := false;
      ghost var t := members[p];
      var proj := members[p]; // shared with the outer map, so kept in step with it
      var todo := proj.Keys;
      assert t.Keys - todo == {} && PartlySwept(t, {}, now, ttl) == t;
      while todo != {}
        invariant todo <= t.Keys
        invariant proj == PartlySwept(t, t.Keys - todo, now, ttl)
        invariant members == old(members)[p := proj]
        invariant changed <==> exists u | u in t.Keys - todo :: Loses(t[u], now, ttl)
        decreases todo
      {
        var u :| u in todo;
        PartlySweptStep(t, t.Keys - todo, u, now, ttl);
        var silent := now - proj[u].lastSeen;
        if silent > 4 * ttl {
          proj := proj - {u};
          changed := true;
        } else if silent > ttl && proj[u].active {
          proj := proj[u := proj[u].(active := false)];
          changed := true;
        }
        members := members[p := proj];
        assert t.Keys - (todo - {u}) == (t.Keys - todo) + {u};
        todo := todo - {u};
      }
      assert t.Keys - todo == t.Keys && PartlySwept(t, t.Keys, now, ttl) == After(t, now, ttl);
      SweptUnchanged(t, now, ttl);
    }

    /** The body of the outer loop: an emptied bucket is deleted, a changed one rebroadcast either way. */
    method SweepOneProject(p: string, now: int)
      requires Valid() && p in members
      modifies this`members, this`queue, this`dropped, this`log
      ensures Valid() && Value() == SweepProject(old(Value()), p, now, ttl)
    {
      var changed := SweepBucket(p, now);
      ghost var t' := members[p];
      if members[p] == map[] {
        members := members - {p};
      }
      assert members == if t' == map[] then old(members) - {p} else old(members)[p := t'];
      if changed {
        BroadcastLocked(p);
      }
    }

    /** One reaper pass over all buckets, deleting emptied ones while ranging. */
    method SweepOnce(now: int)
      requires Valid()
      modifies this
      ensures Valid() && Value() == Sweep(old(Value()), now, ttl)
    {
      ghost var s := Value();
      SweepNone(s, now, ttl);
      var todo := members.Keys;
      assert s.members.Keys - todo == {};
      while todo != {}
        invariant todo <= s.members.Keys && Valid()
        invariant Value() == SweepSet(s, s.members.Keys - todo, now, ttl)
        decreases todo
      {
        var p :| p in todo;
        SweptOneMore(s, todo, p, now, ttl);
        SweepOneProject(p, now);
        todo := todo - {p};
      }
      assert s.members.Keys - todo == s.members.Keys;
      clock := now;
    }
  }

  /** The queues and drop counts once all of `to` but `todo` have been offered the snapshot. */
  ghost predicate Served(q: map<Channel, seq<Snapshot>>, d: map<Channel, nat>, to: set<Channel>, todo: set<Channel>,
                         snap: Snapshot, queue: map<Channel, seq<Snapshot>>, dropped: map<Channel, nat>) {
    && todo <= to <= q.Keys * d.Keys
    && queue == OfferAll(q, to - todo, snap) && dropped == DropAll(q, d, to - todo)
  }

  lemma ServedNone(q: map<Channel, seq<Snapshot>>, d: map<Channel, nat>, to: set<Channel>, snap: Snapshot)
    requires to <= q.Keys * d.Keys
    ensures Served(q, d, to, to, snap, q, d)
  {
    OfferNone(q, d, snap);
    assert to - to == {};
  }

  lemma ServedOneMore(q: map<Channel, seq<Snapshot>>, d: map<Channel, nat>, to: set<Channel>, todo: set<Channel>,
                      snap: Snapshot, queue: map<Channel, seq<Snapshot>>, dropped: map<Channel, nat>, ch: Channel)
    requires Served(q, d, to, todo, snap, queue, dropped) && ch in todo
    ensures ch in queue && ch in dropped
    ensures Served(q, d, to, todo - {ch}, snap, queue[ch := Offer(queue[ch], snap)],
                   dropped[ch := dropped[ch] + if |queue[ch]| < CAPACITY then 0 else 1])
  {
    OfferOneMore(q, d, to - todo, ch, snap);
    assert to - (todo - {ch}) == (to - todo) + {ch};
  }

  lemma ServedAll(q: map<Channel, seq<Snapshot>>, d: map<Channel, nat>, to: set<Channel>, snap: Snapshot,
                  queue: map<Channel, seq<Snapshot>>, dropped: map<Channel, nat>)
    requires Served(q, d, to, {}, snap, queue, dropped)
    ensures queue == OfferAll(q, to, snap) && dropped == DropAll(q, d, to)
  {
    assert to - {} == to;
  }

  lemma SweptOneMore(s: State, todo: set<string>, p: string, now: int, ttl: int)
    requires SubsAtHome(s) && todo <= s.members.Keys && p in todo
    ensures var done := SweepSet(s, s.members.Keys - todo, now, ttl);
            && p in done.members
            && SweepProject(done, p, now, ttl) == SweepSet(s, s.members.Keys - (todo - {p}), now, ttl)
  {
    SweepOneMore(s, s.members.Keys - todo, p, now, ttl);
    assert s.members.Keys - (todo - {p}) == (s.members.Keys - todo) + {p};
  }

  /** A sweep forgets or greys out this member. */
  ghost predicate Loses(m: Member, now: int, ttl: int) {
    Forgotten(m, now, ttl) || Aged(m, now, ttl) != m
  }

  /** A team of which only the members in `done` have been looked at. */
  ghost function PartlySwept(t: Team, done: set<string>, now: int, ttl: int): Team {
    map u | u in t && (u in done ==> !Forgotten(t[u], now, ttl)) :: if u in done then Aged(t[u], now, ttl) else t[u]
  }

  lemma PartlySweptStep(t: Team, done: set<string>, u: string, now: int, ttl: int)
    requires u in t && u !in done
    ensures u in PartlySwept(t, done, now, ttl) && PartlySwept(t, done, now, ttl)[u] == t[u]
    ensures PartlySwept(t, done + {u}, now, ttl)
            == if Forgotten(t[u], now, ttl) then PartlySwept(t, done, now, ttl) - {u}
               else PartlySwept(t, done, now, ttl)[u := Aged(t[u], now, ttl)]
  {
  }

  lemma SweptUnchanged(t: Team, now: int, ttl: int)
    ensures After(t, now, ttl) != t <==> exists u | u in t.Keys :: Loses(t[u], now, ttl)
  {
    if After(t, now, ttl) == t {
      forall u | u in t ensures !Loses(t[u], now, ttl) {
        assert u in After(t, now, ttl);
      }
    }
  }
}
