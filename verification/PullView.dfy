/** PullProjectData on the answers of its queries: the delta window, the selects, and the nested views. */
module PullView {
  import opened Wrappers
  import opened SyncTypes
  import opened Validation

  const PULL_OVERLAP_MS: int := 2 * 60 * 1000
  const INT64_SPAN: int := 0x1_0000_0000_0000_0000
  const INT64_MIN: int := -0x8000_0000_0000_0000
  const INT64_MAX: int := 0x7fff_ffff_ffff_ffff

  /** Two's-complement reduction to 64 bits. */
  function Wrap64(x: int): int {
    (x - INT64_MIN) % INT64_SPAN + INT64_MIN
  }

  /** The lower bound of a delta for a client's cursor. */
  function Since(cursor: int): int {
    var since := Wrap64(cursor - PULL_OVERLAP_MS);
    if since < 0 then 0 else since
  }

  /** The window is the cursor minus the overlap, clamped at the epoch, unless the subtraction wraps. */
  lemma SinceWindow(cursor: int)
    requires INT64_MIN <= cursor <= INT64_MAX
    ensures Since(cursor) == 0 <==> INT64_MIN + PULL_OVERLAP_MS <= cursor <= PULL_OVERLAP_MS
    ensures cursor >= PULL_OVERLAP_MS ==> Since(cursor) == cursor - PULL_OVERLAP_MS
    ensures cursor < INT64_MIN + PULL_OVERLAP_MS ==> Since(cursor) == cursor - PULL_OVERLAP_MS + INT64_SPAN
  {
  }

  /** The same in numbers: two minutes before the cursor, in milliseconds, from the epoch on. */
  lemma TwoMinutesBefore(cursor: int)
    requires -0x8000_0000_0000_0000 <= cursor < 0x8000_0000_0000_0000
    ensures cursor >= 120_000 ==> Since(cursor) == cursor - 120_000
    ensures -0x8000_0000_0000_0000 + 120_000 <= cursor < 120_000 ==> Since(cursor) == 0
    ensures cursor < -0x8000_0000_0000_0000 + 120_000 ==> Since(cursor) == cursor - 120_000 + 0x1_0000_0000_0000_0000
  {
    SinceWindow(cursor);
  }

  // ---------- the selects ----------

  datatype Item = Item(id: Uuid, row: Row)
  datatype IntervalItem = IntervalItem(id: Uuid, row: IntervalRow)

  /** The project a stored row belongs to; for a child, through the join with its station. */
  function Home(db: Db, k: Key): Option<Uuid> {
    if k !in db.rows then None
    else if !k.kind.IsChild() then Some(db.rows[k].parent)
    else if Key(Stations, db.rows[k].parent) in db.rows then Some(db.rows[Key(Stations, db.rows[k].parent)].parent)
    else None
  }

  predicate Selected(db: Db, k: Key, project: Uuid, since: int) {
    k in db.rows && Home(db, k) == Some(project) && db.rows[k].stamp >= since
  }

  ghost predicate DistinctIds(items: seq<Item>) {
    forall i, j | 0 <= i < j < |items| :: items[i].id != items[j].id
  }

  /** A possible answer of the select on one table: exactly the selected rows, each once, oldest first. */
  ghost predicate IsSelect(db: Db, kind: Kind, project: Uuid, since: int, out: seq<Item>) {
    && DistinctIds(out)
    && (forall i, j | 0 <= i < j < |out| :: out[i].row.stamp <= out[j].row.stamp)
    && forall it: Item ::
         it in out <==>
         Selected(db, Key(kind, it.id), project, since) && db.rows[Key(kind, it.id)] == it.row
  }

  /** A possible answer of the interval select: the logs of the boreholes selected now, by depth. */
  ghost predicate IsIntervalSelect(db: Db, project: Uuid, since: int, out: seq<IntervalItem>) {
    && (forall i, j | 0 <= i < j < |out| :: out[i].id != out[j].id)
    && (forall i, j | 0 <= i < j < |out| :: out[i].row.lo.SortsUpTo(out[j].row.lo))
    && forall it: IntervalItem ::
         it in out <==>
         && it.id in db.intervals && db.intervals[it.id] == it.row
         && Selected(db, Key(Boreholes, it.row.borehole), project, since)
  }

  /** A select on one table lists, oldest first, exactly the rows of the project that are stamped at or after
      `since`; a row belongs to the project it names, a child to the project of its station. */
  lemma SelectIsTheDelta(db: Db, kind: Kind, project: Uuid, since: int, out: seq<Item>, it: Item)
    requires IsSelect(db, kind, project, since, out)
    ensures it in out <==>
              && Key(kind, it.id) in db.rows && db.rows[Key(kind, it.id)] == it.row && it.row.stamp >= since
              && if kind in {Measurements, Samples, Vegetation}
                 then Key(Stations, it.row.parent) in db.rows && db.rows[Key(Stations, it.row.parent)].parent == project
                 else it.row.parent == project
    ensures forall i, j | 0 <= i < j < |out| :: out[i].row.stamp <= out[j].row.stamp && out[i].id != out[j].id
  {
  }

  /** The interval select lists, by depth and undefined depths last, the intervals of the project's boreholes
      that are stamped at or after `since`. */
  lemma IntervalSelectIsTheLogs(db: Db, project: Uuid, since: int, out: seq<IntervalItem>, it: IntervalItem)
    requires IsIntervalSelect(db, project, since, out)
    ensures it in out <==>
              && it.id in db.intervals && db.intervals[it.id] == it.row
              && var b := Key(Boreholes, it.row.borehole);
                 b in db.rows && db.rows[b].parent == project && db.rows[b].stamp >= since
    ensures forall i, j | 0 <= i < j < |out| ::
              && (out[i].row.lo.Finite? && out[j].row.lo.Finite? ==> out[i].row.lo.v <= out[j].row.lo.v)
              && (out[i].row.lo.NaN? ==> out[j].row.lo.NaN?)
  {
    forall i, j | 0 <= i < j < |out|
      ensures out[i].row.lo.Finite? && out[j].row.lo.Finite? ==> out[i].row.lo.v <= out[j].row.lo.v
      ensures out[i].row.lo.NaN? ==> out[j].row.lo.NaN?
    {
      assert out[i].row.lo.SortsUpTo(out[j].row.lo);
    }
  }

  // ---------- nesting ----------

  /** The elements satisfying `f`, in order. */
  function Select<T>(f: T -> bool, s: seq<T>): seq<T> {
    if s == [] then []
    else Select(f, s[..|s| - 1]) + if f(s[|s| - 1]) then [s[|s| - 1]] else []
  }

  function OfStation(station: Uuid): Item -> bool {
    (it: Item) => it.row.parent == station
  }

  function OfBorehole(borehole: Uuid): IntervalItem -> bool {
    (it: IntervalItem) => it.row.borehole == borehole
  }

  datatype StationView = StationView(id: Uuid, row: Row, measurements: seq<Item>, samples: seq<Item>,
      vegetation: seq<Item>)
  datatype BoreholeView = BoreholeView(id: Uuid, row: Row, intervals: seq<IntervalItem>)

  /** What the seven statements of one pull returned. */
  datatype Answers = Answers(stations: seq<Item>, measurements: seq<Item>, samples: seq<Item>, vegetation: seq<Item>,
                             headers: seq<Item>, intervals: seq<IntervalItem>, concessions: seq<Item>)

  /** The seven statements are numbered from 0 in their order; the interval select follows the headers. */
  const INTERVAL_QUERY: nat := 5
  const QUERIES: nat := 7

  datatype PullResponse =
    | InvalidArgument
    | Internal
    | PullResponse(serverTimestamp: int, stations: seq<StationView>, measurements: seq<Item>, samples: seq<Item>,
                   boreholes: seq<BoreholeView>, vegetation: seq<Item>, concessions: seq<Item>)

  function ViewOf(it: Item, ms: seq<Item>, ss: seq<Item>, vs: seq<Item>): StationView {
    StationView(it.id, it.row, Select(OfStation(it.id), ms), Select(OfStation(it.id), ss), Select(OfStation(it.id), vs))
  }

  function NestStations(stations: seq<Item>, ms: seq<Item>, ss: seq<Item>, vs: seq<Item>): seq<StationView> {
    seq(|stations|, i requires 0 <= i < |stations| => ViewOf(stations[i], ms, ss, vs))
  }

  function NestIntervals(headers: seq<Item>, ivs: seq<IntervalItem>): seq<BoreholeView> {
    seq(|headers|, i requires 0 <= i < |headers| =>
      BoreholeView(headers[i].id, headers[i].row, Select(OfBorehole(headers[i].id), ivs)))
  }

  function Respond(watermark: int, a: Answers): PullResponse {
    PullResponse(watermark, NestStations(a.stations, a.measurements, a.samples, a.vegetation),
                 a.measurements, a.samples, NestIntervals(a.headers, a.intervals), a.vegetation, a.concessions)
  }

  /** `index` finds the position of every listed id. */
  ghost predicate Indexes(index: map<Uuid, nat>, items: seq<Item>) {
    && (forall i | 0 <= i < |items| :: items[i].id in index && index[items[i].id] == i)
    && forall id | id in index :: index[id] < |items| && items[index[id]].id == id
  }

  method BuildIndex(items: seq<Item>) returns (index: map<Uuid, nat>)
    requires DistinctIds(items)
    ensures Indexes(index, items)
  {
    index := map[];
    for i := 0 to |items|
      invariant Indexes(index, items[..i])
    {
      index := index[items[i].id := i];
    }
    assert items[..|items|] == items;
  }

  lemma SelectSnoc<T>(f: T -> bool, s: seq<T>, i: nat)
    requires i < |s|
    ensures Select(f, s[..i + 1]) == Select(f, s[..i]) + if f(s[i]) then [s[i]] else []
  {
    assert s[..i + 1][..i] == s[..i];
  }

  /** Attaches each interval to its borehole through an index; the result is the quadratic filter. */
  method AttachIntervals(headers: seq<Item>, ivs: seq<IntervalItem>) returns (out: seq<BoreholeView>)
    requires DistinctIds(headers)
    ensures out == NestIntervals(headers, ivs)
  {
    out := seq(|headers|, i requires 0 <= i < |headers| => BoreholeView(headers[i].id, headers[i].row, []));
    if |out| == 0 {
      return;
    }
    var byIndex := BuildIndex(headers);
    for j := 0 to |ivs|
      invariant |out| == |headers|
      invariant forall i | 0 <= i < |headers| ::
                  out[i] == BoreholeView(headers[i].id, headers[i].row, Select(OfBorehole(headers[i].id), ivs[..j]))
    {
      forall i | 0 <= i < |headers| {
        SelectSnoc(OfBorehole(headers[i].id), ivs, j);
      }
      var iv := ivs[j];
      if iv.row.borehole in byIndex {
        var i := byIndex[iv.row.borehole];
        out := out[i := out[i].(intervals := out[i].intervals + [iv])];
      }
    }
    assert ivs[..|ivs|] == ivs;
  }

  /** Appends every child whose station is part of the delta to that station's list. */
  method AttachChildren(stations: seq<Item>, byId: map<Uuid, nat>, children: seq<Item>)
    returns (out: seq<seq<Item>>)
    requires Indexes(byId, stations)
    ensures out == Nested(stations, children)
  {
    out := seq(|stations|, i => []);
    for j := 0 to |children|
      invariant |out| == |stations|
      invariant forall i | 0 <= i < |stations| :: out[i] == Select(OfStation(stations[i].id), children[..j])
    {
      forall i | 0 <= i < |stations| {
        SelectSnoc(OfStation(stations[i].id), children, j);
      }
      var c := children[j];
      if c.row.parent in byId {
        var i := byId[c.row.parent];
        out := out[i := out[i] + [c]];
      }
    }
    assert children[..|children|] == children;
  }

  /** The whole call, given the watermark read first and the answers of the statements run after it, of which
      number `broken`, if there is one, fails. One failure fails the pull; the interval select is not run, and
      cannot fail, when there is no header. */
  method PullProjectData(project: Ref, watermark: int, a: Answers, broken: nat) returns (r: PullResponse)
    requires DistinctIds(a.stations) && DistinctIds(a.headers)
    ensures r == if !RequireUuid(project) then InvalidArgument
                 else if broken < QUERIES && !(broken == INTERVAL_QUERY && a.headers == []) then Internal
                 else Respond(watermark, a)
    ensures r.InvalidArgument? <==> project.text == "" || project.uuid.None?
    ensures r.PullResponse? ==>
              && r.serverTimestamp == watermark
              && r.measurements == a.measurements && r.samples == a.samples && r.vegetation == a.vegetation
              && r.concessions == a.concessions
    ensures r.PullResponse? ==> |r.stations| == |a.stations| && forall i | 0 <= i < |r.stations| ::
              && r.stations[i].id == a.stations[i].id && r.stations[i].row == a.stations[i].row
              && r.stations[i].measurements == Nested(a.stations, a.measurements)[i]
              && r.stations[i].samples == Nested(a.stations, a.samples)[i]
              && r.stations[i].vegetation == Nested(a.stations, a.vegetation)[i]
  {
    if !RequireUuid(project) {
      return InvalidArgument;
    }
    if broken < INTERVAL_QUERY || (|a.headers| > 0 && broken == INTERVAL_QUERY) {
      return Internal;
    }
    var boreholes := AttachIntervals(a.headers, a.intervals);
    if broken == INTERVAL_QUERY + 1 {
      return Internal;
    }
    var byId := BuildIndex(a.stations);
    var ms := AttachChildren(a.stations, byId, a.measurements);
    var ss := AttachChildren(a.stations, byId, a.samples);
    var vs := AttachChildren(a.stations, byId, a.vegetation);
    var stations := seq(|a.stations|, i requires 0 <= i < |a.stations| =>
      StationView(a.stations[i].id, a.stations[i].row, ms[i], ss[i], vs[i]));
    assert stations == NestStations(a.stations, a.measurements, a.samples, a.vegetation);
    r := PullResponse(watermark, stations, a.measurements, a.samples, boreholes, a.vegetation, a.concessions);
  }

  // ---------- what the nested views mean ----------

  /** Selecting keeps every matching element with its multiplicity, and nothing else. */
  lemma {:induction false} SelectCounts<T>(f: T -> bool, s: seq<T>, x: T)
    ensures multiset(Select(f, s))[x] == if f(x) then multiset(s)[x] else 0
  {
    if s != [] {
      SelectCounts(f, s[..|s| - 1], x);
      assert s == s[..|s| - 1] + [s[|s| - 1]];
    }
  }

  /** Where an element of the flat list comes up in the selection. */
  lemma {:induction false} SelectPositions<T>(f: T -> bool, s: seq<T>) returns (at: seq<nat>)
    ensures |at| == |Select(f, s)|
    ensures forall i | 0 <= i < |at| :: at[i] < |s| && Select(f, s)[i] == s[at[i]] && f(s[at[i]])
    ensures forall i, j | 0 <= i < j < |at| :: at[i] < at[j]
  {
    at := [];
    if s != [] {
      at := SelectPositions(f, s[..|s| - 1]);
      if f(s[|s| - 1]) {
        at := at + [|s| - 1];
      }
    }
  }

  /** The lists one flat list of children is distributed to, station by station. */
  function Nested(stations: seq<Item>, flat: seq<Item>): seq<seq<Item>> {
    seq(|stations|, i requires 0 <= i < |stations| => Select(OfStation(stations[i].id), flat))
  }

  /** A child of the delta is nested exactly once if its station is in the delta, and nowhere otherwise;
      nothing else is nested. */
  lemma NestedExactlyOnce(stations: seq<Item>, flat: seq<Item>, c: Item)
    requires DistinctIds(stations) && DistinctIds(flat)
    ensures var v := Nested(stations, flat);
            && (forall i | 0 <= i < |v| ::
                  multiset(v[i])[c] == if c in flat && c.row.parent == stations[i].id then 1 else 0)
            && (forall i, j | 0 <= i < j < |v| :: !(c in v[i] && c in v[j]))
            && ((exists i | 0 <= i < |v| :: c in v[i]) <==>
                  c in flat && exists st | st in stations :: st.id == c.row.parent)
  {
    var v := Nested(stations, flat);
    OccursOnce(flat, c);
    forall i | 0 <= i < |v|
      ensures multiset(v[i])[c] == if c in flat && c.row.parent == stations[i].id then 1 else 0
      ensures c in v[i] <==> c in flat && c.row.parent == stations[i].id
    {
      SelectCounts(OfStation(stations[i].id), flat, c);
      assert c in v[i] <==> c in multiset(v[i]);
    }
    if c in flat && exists st | st in stations :: st.id == c.row.parent {
      var st :| st in stations && st.id == c.row.parent;
      var i :| 0 <= i < |stations| && stations[i] == st;
      assert c in v[i];
    }
  }

  lemma {:induction false} OccursOnce(flat: seq<Item>, c: Item)
    requires DistinctIds(flat)
    ensures multiset(flat)[c] == if c in flat then 1 else 0
  {
    if flat != [] {
      var init, last := flat[..|flat| - 1], flat[|flat| - 1];
      assert flat == init + [last];
      OccursOnce(init, c);
    }
  }

  /** Each borehole of a response carries its intervals sorted by depth, and exactly the log the interval
      query saw for it. */
  lemma AttachedLogIsTheLog(db: Db, project: Uuid, since: int, headers: seq<Item>, ivs: seq<IntervalItem>, i: nat)
    requires IsIntervalSelect(db, project, since, ivs) && i < |headers|
    requires Selected(db, Key(Boreholes, headers[i].id), project, since)
    ensures var log := NestIntervals(headers, ivs)[i].intervals;
            && (forall x, y | 0 <= x < y < |log| :: log[x].row.lo.SortsUpTo(log[y].row.lo) && log[x].id != log[y].id)
            && forall it: IntervalItem ::
                 it in log <==> it.id in LogOf(db.intervals, headers[i].id)
                                && LogOf(db.intervals, headers[i].id)[it.id] == it.row
  {
    var f := OfBorehole(headers[i].id);
    var at := SelectPositions(f, ivs);
    var log := Select(f, ivs);
    forall it: IntervalItem ensures it in log <==> it in ivs && f(it) {
      SelectCounts(f, ivs, it);
      assert it in log <==> it in multiset(log);
      assert it in ivs <==> it in multiset(ivs);
    }
  }
}
