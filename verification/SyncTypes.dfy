/** The entities of the sync protocol as they travel on the wire, and the tables they are stored in. */
module SyncTypes {
  import opened Wrappers

  /** A parsed UUID. Only equality of ids matters to the protocol. */
  type Uuid = nat

  /** An id as a client sent it: the raw text, and what UUID parsing makes of that text. */
  datatype Ref = Ref(text: string, uuid: Option<Uuid>)

  /** An IEEE double: the protocol rejects the non-finite ones, so they must exist in the model. */
  datatype Float = NaN | NegInf | PosInf | Finite(v: real) {
    /** The language's `<`: false as soon as a NaN is involved. */
    predicate Less(y: Float) {
      match (this, y)
      case (NaN, _) => false
      case (_, NaN) => false
      case (Finite(a), Finite(b)) => a < b
      case (NegInf, _) => y != NegInf
      case (_, NegInf) => false
      case (PosInf, _) => false
      case (_, PosInf) => true
    }

    /** The database's total order used by ORDER BY: NaN sorts above everything. */
    predicate SortsUpTo(y: Float) {
      y == NaN || (this != NaN && !y.Less(this))
    }
  }

  datatype Kind = Stations | Measurements | Samples | Vegetation | Boreholes | Concessions {
    /** Rows that hang off a station; the others hang off a project. */
    predicate IsChild() {
      this in {Measurements, Samples, Vegetation}
    }

    /** Tables with a UNIQUE (parent, code) constraint. */
    predicate HasNaturalKey() {
      this in {Stations, Samples, Boreholes, Concessions}
    }
  }

  datatype Key = Key(kind: Kind, id: Uuid)

  datatype Interval = Interval(id: Ref, lo: Float, hi: Float, body: string)

  /** A pushed entity. `parent` is project_id or station_id, `code` the station or borehole code, the
      measurement type or the sample tag, `body` every column the protocol only copies. */
  datatype Record = Record(id: Ref, parent: Ref, code: string, lat: Float, lon: Float, body: string,
                           stamp: int, deleted: bool, intervals: seq<Interval>)

  datatype Row = Row(parent: Uuid, code: string, lat: Float, lon: Float, body: string,
                     stamp: int, deleted: bool)

  datatype IntervalRow = IntervalRow(borehole: Uuid, lo: Float, hi: Float, body: string)

  /** The database: the six synced tables in one map, the interval table, and the known projects. */
  datatype Db = Db(projects: set<Uuid>, rows: map<Key, Row>, intervals: map<Uuid, IntervalRow>)

  /** Where a statement of one upsert fails for reasons outside the schema. */
  datatype Fault = NoFault | AtBegin | AtUpsert | AtDelete | AtInsert | AtCommit

  /** One entity of one push request, with the table it is meant for and the environment's fault. */
  datatype Write = Write(kind: Kind, project: Ref, rec: Record, fault: Fault)

  /** The lithology log of one borehole: its rows of the interval table, by interval id. */
  function LogOf(t: map<Uuid, IntervalRow>, borehole: Uuid): map<Uuid, IntervalRow> {
    map u | u in t && t[u].borehole == borehole :: t[u]
  }

  lemma EqualLogsEqualTables(t: map<Uuid, IntervalRow>, t': map<Uuid, IntervalRow>)
    requires forall b: Uuid :: LogOf(t, b) == LogOf(t', b)
    ensures t == t'
  {
    forall u: Uuid
      ensures u in t <==> u in t'
      ensures u in t ==> t[u] == t'[u]
    {
      if u in t {
        assert u in LogOf(t, t[u].borehole);
        assert u in LogOf(t', t[u].borehole);
      }
      if u in t' {
        assert u in LogOf(t', t'[u].borehole);
        assert u in LogOf(t, t'[u].borehole);
      }
    }
  }
}
