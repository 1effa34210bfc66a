/** The checks every pushed entity passes before any statement runs (service.go). */
module Validation {
  import opened SyncTypes

  predicate RequireUuid(r: Ref) {
    r.text != "" && r.uuid.Some?
  }

  /** Accepts exactly the finite coordinates inside [-90, 90] x [-180, 180]. */
  predicate ValidLatLng(lat: Float, lon: Float) {
    if lat in {NaN, NegInf, PosInf} || lon in {NaN, NegInf, PosInf} then false
    else if lat.Less(Finite(-90.0)) || Finite(90.0).Less(lat) then false
    else !(lon.Less(Finite(-180.0)) || Finite(180.0).Less(lon))
  }

  predicate ValidInterval(iv: Interval) {
    RequireUuid(iv.id) && !iv.hi.Less(iv.lo)
  }

  /** What a push checks about an entity of each kind, given the project of the batch. */
  predicate ValidRecord(kind: Kind, project: Ref, r: Record) {
    && RequireUuid(r.id)
    && match kind
       case Stations => r.parent == project && r.code != "" && ValidLatLng(r.lat, r.lon)
       case Measurements => RequireUuid(r.parent) && r.code != ""
       case Samples => RequireUuid(r.parent) && r.code != ""
       case Vegetation => RequireUuid(r.parent)
       case Boreholes =>
         && r.parent == project && r.code != "" && ValidLatLng(r.lat, r.lon)
         && forall iv | iv in r.intervals :: ValidInterval(iv)
       case Concessions => false // never pushed by a device
  }

  lemma ValidLatLngIsTheBox(lat: Float, lon: Float)
    ensures ValidLatLng(lat, lon) <==>
              lat.Finite? && lon.Finite? && -90.0 <= lat.v <= 90.0 && -180.0 <= lon.v <= 180.0
  {
  }
}
