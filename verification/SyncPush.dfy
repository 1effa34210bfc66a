/** PushSyncQueue (service.go): one batch, upserted entity by entity. */
module SyncPush {
  import opened SyncTypes
  import opened Conflict
  import opened Validation
  import opened Lww
  import opened SyncStore

  datatype Batch = Batch(project: Ref, stations: seq<Record>, measurements: seq<Record>, samples: seq<Record>,
                         vegetation: seq<Record>, boreholes: seq<Record>)

  /** The environment: how the i-th statement for a table fails, if it does. */
  type Faults = (Kind, nat) -> Fault

  datatype EntityResult = EntityResult(id: string, status: Status)

  datatype PushResponse =
    | InvalidArgument
    | PushResponse(success: bool, serverTimestamp: int, stations: seq<EntityResult>,
                   measurements: seq<EntityResult>, samples: seq<EntityResult>,
                   vegetation: seq<EntityResult>, boreholes: seq<EntityResult>)

  function Writes(kind: Kind, project: Ref, recs: seq<Record>, faults: Faults): seq<Write> {
    seq(|recs|, i requires 0 <= i < |recs| => Write(kind, project, recs[i], faults(kind, i)))
  }

  /** The batch in the order it is written: parents, children, boreholes. */
  function Flatten(b: Batch, faults: Faults): seq<Write> {
    Writes(Stations, b.project, b.stations, faults)
    + Writes(Measurements, b.project, b.measurements, faults)
    + Writes(Samples, b.project, b.samples, faults)
    + Writes(Vegetation, b.project, b.vegetation, faults)
    + Writes(Boreholes, b.project, b.boreholes, faults)
  }

  /** Each entity of the batch is written once, for its own table, in the order of its list; stations before
      children, children before boreholes. */
  lemma BatchInOrder(b: Batch, faults: Faults)
    ensures var ws := Flatten(b, faults);
            var m := |b.stations|;
            var sa := m + |b.measurements|;
            var v := sa + |b.samples|;
            var h := v + |b.vegetation|;
            && |ws| == h + |b.boreholes|
            && (forall i | 0 <= i < |b.stations| ::
                  ws[i] == Write(Stations, b.project, b.stations[i], faults(Stations, i)))
            && (forall i | 0 <= i < |b.measurements| ::
                  ws[m + i] == Write(Measurements, b.project, b.measurements[i], faults(Measurements, i)))
            && (forall i | 0 <= i < |b.samples| ::
                  ws[sa + i] == Write(Samples, b.project, b.samples[i], faults(Samples, i)))
            && (forall i | 0 <= i < |b.vegetation| ::
                  ws[v + i] == Write(Vegetation, b.project, b.vegetation[i], faults(Vegetation, i)))
            && (forall i | 0 <= i < |b.boreholes| ::
                  ws[h + i] == Write(Boreholes, b.project, b.boreholes[i], faults(Boreholes, i)))
  {
  }

  function AllResults(r: PushResponse): seq<EntityResult>
    requires r.PushResponse?
  {
    r.stations + r.measurements + r.samples + r.vegetation + r.boreholes
  }

  /** One verdict per entity, in order, under the id the client sent. */
  ghost predicate Answers(results: seq<EntityResult>, recs: seq<Record>) {
    |results| == |recs| && forall i | 0 <= i < |recs| :: results[i].id == recs[i].id.text
  }

  ghost predicate Carries(results: seq<EntityResult>, statuses: seq<Status>) {
    |results| == |statuses| && forall i | 0 <= i < |results| :: results[i].status == statuses[i]
  }

  class Service {
    const store: Store

    constructor (store: Store)
      ensures this.store == store
    {
      this.store := store;
    }

    /** Validates and upserts one entity. */
    method PushEntity(w: Write) returns (out: EntityResult)
      requires RequireUuid(w.project)
      modifies store
      ensures Outcome(store.Contents(), out.status) == Step(old(store.Contents()), w)
      ensures out.id == w.rec.id.text
    {
      var status := Rejected(Invalid);
      if ValidRecord(w.kind, w.project, w.rec) {
        if w.kind == Boreholes {
          status := store.UpsertBorehole(w.rec.id.uuid.value, RowOf(w), w.rec.intervals, w.fault);
        } else {
          status := store.UpsertPlain(KeyOf(w), RowOf(w), w.fault);
        }
      }
      out := EntityResult(w.rec.id.text, status);
    }

    /** The loop over one list of the batch. */
    method PushEach(kind: Kind, project: Ref, recs: seq<Record>, faults: Faults) returns (results: seq<EntityResult>)
      requires RequireUuid(project)
      modifies store
      ensures Answers(results, recs)
      ensures var t := Run(old(store.Contents()), Writes(kind, project, recs, faults));
              store.Contents() == t.db && Carries(results, t.statuses)
    {
      results := [];
      ghost var ws, start := Writes(kind, project, recs, faults), store.Contents();
      for i := 0 to |recs|
        invariant |results| == i && forall j | 0 <= j < i :: results[j].id == recs[j].id.text
        invariant store.Contents() == Run(start, ws[..i]).db
        invariant Carries(results, Run(start, ws[..i]).statuses)
      {
        assert ws[..i + 1][..i] == ws[..i];
        var out := PushEntity(Write(kind, project, recs[i], faults(kind, i)));
        results := results + [out];
      }
      assert ws[..|recs|] == ws;
    }

    method PushSyncQueue(b: Batch, now: int, faults: Faults) returns (r: PushResponse)
      modifies store
      ensures r.InvalidArgument? <==> b.project.text == "" || b.project.uuid.None?
      ensures r.InvalidArgument? ==> store.Contents() == old(store.Contents())
      ensures r.PushResponse? ==>
                && r.serverTimestamp == now
                && Answers(r.stations, b.stations) && Answers(r.measurements, b.measurements)
                && Answers(r.samples, b.samples) && Answers(r.vegetation, b.vegetation)
                && Answers(r.boreholes, b.boreholes)
                && (var t := Run(old(store.Contents()), Flatten(b, faults));
                    store.Contents() == t.db && Carries(AllResults(r), t.statuses))
                && (r.success <==> forall e | e in AllResults(r) :: !e.status.Rejected?)
    {
      if !RequireUuid(b.project) {
        return InvalidArgument;
      }
      ghost var d0 := store.Contents();
      var st := PushEach(Stations, b.project, b.stations, faults);
      ghost var t1, d1 := Run(d0, Writes(Stations, b.project, b.stations, faults)), store.Contents();
      var ms := PushEach(Measurements, b.project, b.measurements, faults);
      ghost var t2, d2 := Run(d1, Writes(Measurements, b.project, b.measurements, faults)), store.Contents();
      var sa := PushEach(Samples, b.project, b.samples, faults);
      ghost var t3, d3 := Run(d2, Writes(Samples, b.project, b.samples, faults)), store.Contents();
      var ve := PushEach(Vegetation, b.project, b.vegetation, faults);
      ghost var t4, d4 := Run(d3, Writes(Vegetation, b.project, b.vegetation, faults)), store.Contents();
      var bh := PushEach(Boreholes, b.project, b.boreholes, faults);
      ghost var t5 := Run(d4, Writes(Boreholes, b.project, b.boreholes, faults));
      var success := NothingRejected([st, ms, sa, ve, bh]);
      r := PushResponse(success, now, st, ms, sa, ve, bh);

      ConcatFive(st, ms, sa, ve, bh);
      ConcatStages(d0, d1, b, faults);
      CarriesConcat(st, t1.statuses, ms, t2.statuses);
      CarriesConcat(st + ms, t1.statuses + t2.statuses, sa, t3.statuses);
      CarriesConcat(st + ms + sa, t1.statuses + t2.statuses + t3.statuses, ve, t4.statuses);
      CarriesConcat(st + ms + sa + ve, t1.statuses + t2.statuses + t3.statuses + t4.statuses, bh, t5.statuses);
    }

    /** Scans the five result lists for a rejection. */
    method NothingRejected(groups: seq<seq<EntityResult>>) returns (success: bool)
      ensures success <==> forall e | e in Concat(groups) :: !e.status.Rejected?
    {
      success := true;
      for g := 0 to |groups|
        invariant success <==> forall e | e in Concat(groups[..g]) :: !e.status.Rejected?
      {
        assert groups[..g + 1][..g] == groups[..g];
        var before := success;
        for i := 0 to |groups[g]|
          invariant success <==> before && forall j | 0 <= j < i :: !groups[g][j].status.Rejected?
        {
          if groups[g][i].status.Rejected? {
            success := false;
          }
        }
      }
      assert groups[..|groups|] == groups;
    }
  }

  function Concat(groups: seq<seq<EntityResult>>): seq<EntityResult> {
    if groups == [] then [] else Concat(groups[..|groups| - 1]) + groups[|groups| - 1]
  }

  lemma ConcatFive(st: seq<EntityResult>, ms: seq<EntityResult>, sa: seq<EntityResult>, ve: seq<EntityResult>,
                   bh: seq<EntityResult>)
    ensures Concat([st, ms, sa, ve, bh]) == st + ms + sa + ve + bh
  {
    var g := [st, ms, sa, ve, bh];
    assert g[..4] == [st, ms, sa, ve] && g[..4][..3] == [st, ms, sa] && g[..4][..3][..2] == [st, ms];
    assert [st, ms][..1] == [st] && [st][..0] == [];
    assert Concat([st]) == [] + st;
    assert Concat([st, ms]) == st + ms;
    assert Concat([st, ms, sa]) == st + ms + sa;
    assert Concat([st, ms, sa, ve]) == st + ms + sa + ve;
  }

  lemma CarriesConcat(r: seq<EntityResult>, s: seq<Status>, r': seq<EntityResult>, s': seq<Status>)
    requires Carries(r, s) && Carries(r', s')
    ensures Carries(r + r', s + s')
  {
  }

  /** Pushing list after list is one run over the flattened batch. */
  lemma ConcatStages(d0: Db, d1: Db, b: Batch, faults: Faults)
    requires d1 == Run(d0, Writes(Stations, b.project, b.stations, faults)).db
    ensures var w1 := Writes(Stations, b.project, b.stations, faults);
            var w2 := Writes(Measurements, b.project, b.measurements, faults);
            var w3 := Writes(Samples, b.project, b.samples, faults);
            var w4 := Writes(Vegetation, b.project, b.vegetation, faults);
            var w5 := Writes(Boreholes, b.project, b.boreholes, faults);
            var t2 := Run(d1, w2);
            var t3 := Run(t2.db, w3);
            var t4 := Run(t3.db, w4);
            var t5 := Run(t4.db, w5);
            && Run(d0, Flatten(b, faults)).db == t5.db
            && Run(d0, Flatten(b, faults)).statuses
               == Run(d0, w1).statuses + t2.statuses + t3.statuses + t4.statuses + t5.statuses
  {
    var w1 := Writes(Stations, b.project, b.stations, faults);
    var w2 := Writes(Measurements, b.project, b.measurements, faults);
    var w3 := Writes(Samples, b.project, b.samples, faults);
    var w4 := Writes(Vegetation, b.project, b.vegetation, faults);
    var w5 := Writes(Boreholes, b.project, b.boreholes, faults);
    RunConcat(d0, w1, w2);
    RunConcat(d0, w1 + w2, w3);
    RunConcat(d0, w1 + w2 + w3, w4);
    RunConcat(d0, w1 + w2 + w3 + w4, w5);
  }
}
