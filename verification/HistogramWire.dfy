/** The JSON form a histogram travels in: to_dict and from_dict. */
module HistogramWire {
  import opened Wrappers
  import opened Text
  import opened Buckets
  import opened Histogram
  import opened Percentiles

  const SCHEMA_VERSION := 1

  datatype Wire = Wire(
    version: Option<int>,
    subBits: Option<int>,
    count: nat,
    sum: nat,
    min: Option<nat>,
    max: Option<nat>,
    buckets: seq<(string, nat)>)

  function Written(buckets: map<nat, nat>, keys: seq<nat>): seq<(string, nat)>
    requires forall k :: k in keys ==> k in buckets
  {
    if keys == [] then [] else [(Decimal(keys[0]), buckets[keys[0]])] + Written(buckets, keys[1..])
  }

  /** Bucket numbers back from their JSON keys; a key that is not a number is an error. */
  function ReadBuckets(pairs: seq<(string, nat)>, done: map<nat, nat>): Result<map<nat, nat>, string>
    decreases |pairs|
  {
    if pairs == [] then Ok(done)
    else match ParseInt(pairs[0].0)
      case None => Err("bucket is not a number")
      case Some(k) => if k < 0 then Err("negative bucket") else ReadBuckets(pairs[1..], done[k := pairs[0].1])
  }

  function FromWire(raw: Wire): Result<Sketch, string> {
    if raw.version != Some(SCHEMA_VERSION) then Err("histogram schema version")
    else if raw.subBits.GetOr(SUB_BITS) != SUB_BITS then Err("histogram sub_bits do not match")
    else match ReadBuckets(raw.buckets, map[])
      case Err(e) => Err(e)
      case Ok(buckets) => Ok(Sketch(buckets, raw.count, raw.sum, raw.min, raw.max))
  }

  method ToWire(h: LatencyHistogram) returns (raw: Wire)
    ensures FromWire(raw) == Ok(h.View())
  {
    var keys := SortedKeys(h.buckets.Keys);
    raw := Wire(Some(SCHEMA_VERSION), Some(SUB_BITS), h.count, h.sum, h.min, h.max, Written(h.buckets, keys));
    ReadWritten(h.buckets, keys, map[]);
  }

  /** from_dict(to_dict(h)) loses nothing: what a fleet adds up is what its workers counted. */
  lemma {:induction false} ReadWritten(buckets: map<nat, nat>, keys: seq<nat>, done: map<nat, nat>)
    requires forall k :: k in keys ==> k in buckets
    requires forall k :: k in done ==> k in buckets && done[k] == buckets[k]
    requires forall k :: k in buckets ==> k in done || k in keys
    ensures ReadBuckets(Written(buckets, keys), done) == Ok(buckets)
    decreases |keys|
  {
    if keys == [] {
      assert done == buckets;
    } else {
      ParseDecimal(keys[0]);
      ReadWritten(buckets, keys[1..], done[keys[0] := buckets[keys[0]]]);
    }
  }
}
