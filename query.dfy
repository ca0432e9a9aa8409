/**
 * The `/get/:latitude/:longitude/:provider` handler: parameter check,
 * bounding-box selection, the squared-distance refinement, bucketing by
 * carrier and generation, and the per-bucket summaries.
 */
module Query {
  import opened Wrappers
  import opened Classify
  import opened Stats
  import opened Records

  /** Half the height of the coarse rectangle, in degrees of latitude. */
  const DistanceLat: real := 0.000090909

  /** Half the width of the coarse rectangle, in degrees of longitude. */
  const DistanceLong: real := 0.000125

  /** The route parameters after `Number(...)` (`None` is NaN) and the raw provider. */
  datatype GetParams = GetParams(latitude: Option<real>, longitude: Option<real>, provider: ProviderInput)

  /** A query that passed the check: a point and a filter, -1 for all carriers or an index 1..5. */
  datatype Request = Request(latitude: real, longitude: real, filter: int)

  const GetParamsError: Error := Error(Parameters, "`latitude` and `longitude` parameters must be supplied!")

  /**
   * The parameter check: both coordinates must be numbers, the carrier must
   * normalise to something other than 0, and the point must not have both
   * coordinates negative.
   */
  function CheckGet(p: GetParams): (r: Result<Request, Error>)
    ensures r.Failure? ==> r.error == GetParamsError
    ensures r.Success? ==> r.value.filter == AllCarriers || IsCarrierIndex(r.value.filter)
  {
    var provider := GetProvider(p.provider);
    if p.latitude.None? || p.longitude.None? || provider == 0
       || (p.latitude.value < 0.0 && p.longitude.value < 0.0)
    then Failure(GetParamsError)
    else Success(Request(p.latitude.value, p.longitude.value, provider))
  }

  /** What the check accepts, and the request it builds. */
  lemma CheckGetAccepts(p: GetParams)
    ensures CheckGet(p).Success? <==>
              && p.latitude.Some? && p.longitude.Some?
              && (p.provider.AllLiteral? || IsCarrierIndex(GetProvider(p.provider)))
              && (p.latitude.value >= 0.0 || p.longitude.value >= 0.0)
    ensures CheckGet(p).Success? ==>
              CheckGet(p).value == Request(p.latitude.value, p.longitude.value, GetProvider(p.provider))
  {
  }

  /** Boundary cases: `all` is accepted, and so is a point with only one negative coordinate. */
  lemma CheckGetExamples(lat: real, long: real)
    ensures CheckGet(GetParams(None, Some(long), AllLiteral)).Failure?
    ensures CheckGet(GetParams(Some(lat), None, AllLiteral)).Failure?
    ensures CheckGet(GetParams(Some(lat), Some(long), Other(Some(22006.0)))).Failure?
    ensures CheckGet(GetParams(Some(lat), Some(long), Other(None))).Failure?
    ensures lat < 0.0 && long < 0.0 ==> CheckGet(GetParams(Some(lat), Some(long), AllLiteral)).Failure?
    ensures lat < 0.0 && long >= 0.0 ==>
              CheckGet(GetParams(Some(lat), Some(long), AllLiteral)) == Success(Request(lat, long, -1))
    ensures lat >= 0.0 && long < 0.0 ==>
              CheckGet(GetParams(Some(lat), Some(long), Other(Some(22001.0)))) == Success(Request(lat, long, 1))
  {
  }

  /** The inclusive `BETWEEN` bounds of the store query. */
  predicate InRectangle(q: Request, s: Sample) {
    && q.latitude - DistanceLat <= s.latitude <= q.latitude + DistanceLat
    && q.longitude - DistanceLong <= s.longitude <= q.longitude + DistanceLong
  }

  /** The carrier condition the store query adds for a specific carrier. */
  predicate CarrierMatches(q: Request, s: Sample) {
    q.filter == AllCarriers || s.provider == q.filter
  }

  /**
   * The rows the store returns for the query: every matching row, each copy
   * of a repeated row included; the order is taken to be table order.
   */
  function Select(q: Request, table: seq<Sample>): (rows: seq<Sample>)
    ensures |rows| <= |table|
    ensures forall i :: 0 <= i < |rows| ==> rows[i] in table && InRectangle(q, rows[i]) && CarrierMatches(q, rows[i])
    decreases |table|
  {
    if table == [] then []
    else
      var init := table[..|table| - 1];
      var last := table[|table| - 1];
      var rows := Select(q, init);
      assert forall s :: s in init ==> s in table;
      if InRectangle(q, last) && CarrierMatches(q, last) then rows + [last] else rows
  }

  /** A selected row is exactly a table row inside the rectangle with a matching carrier. */
  lemma {:induction false} SelectMembers(q: Request, table: seq<Sample>, s: Sample)
    ensures s in Select(q, table) <==> s in table && InRectangle(q, s) && CarrierMatches(q, s)
    decreases |table|
  {
    if table != [] {
      var init := table[..|table| - 1];
      SelectMembers(q, init, s);
      assert table == init + [table[|table| - 1]];
    }
  }

  /** The store returns every copy of a matching row and no copy of any other row. */
  lemma {:induction false} SelectCount(q: Request, table: seq<Sample>, s: Sample)
    ensures multiset(Select(q, table))[s] ==
              if InRectangle(q, s) && CarrierMatches(q, s) then multiset(table)[s] else 0
    decreases |table|
  {
    if table != [] {
      var init := table[..|table| - 1];
      var last := table[|table| - 1];
      SelectCount(q, init, s);
      assert table == init + [last];
      assert multiset(table) == multiset(init) + multiset{last};
    }
  }

  /** The inclusive bounds of the rectangle are bounds on the offsets the refinement squares. */
  lemma RectangleOffsets(q: Request, s: Sample)
    ensures InRectangle(q, s) <==>
              && -DistanceLat <= q.latitude - s.latitude <= DistanceLat
              && -DistanceLong <= q.longitude - s.longitude <= DistanceLong
  {
  }

  /** The refinement ("reduce square to circle"): squared offset below `DistanceLat * DistanceLong`. */
  predicate Passes(q: Request, s: Sample) {
    SquaredOffset(q, s) < DistanceLat * DistanceLong
  }

  /** `diffLat * diffLat + diffLong * diffLong` between the query point and a row. */
  function SquaredOffset(q: Request, s: Sample): (d: real)
  {
    var dLat := q.latitude - s.latitude;
    var dLong := q.longitude - s.longitude;
    dLat * dLat + dLong * dLong
  }

  /** A bucket: carrier and generation (both from zero) for `all`, the generation alone otherwise. */
  datatype Key = ByCarrier(carrier: int, gen: int) | ByGen(gen: int)

  /** Where a row goes; `None` for a row of another carrier when one carrier is asked for. */
  function BucketKey(q: Request, s: Sample): (k: Option<Key>)
    ensures k.Some? ==> 0 <= k.value.gen < 4
    ensures k.Some? <==> CarrierMatches(q, s)
    ensures k.Some? ==> (k.value.ByCarrier? <==> q.filter == AllCarriers)
  {
    var gen := TypeToGen(s.radioType) - 1;
    var prov := s.provider - 1;
    if q.filter == AllCarriers then Some(ByCarrier(prov, gen))
    else if prov + 1 == q.filter then Some(ByGen(gen))
    else None
  }

  /** One iteration of `result.forEach`: create the row's bucket if missing, push its `dbm` if it passes. */
  function Step(q: Request, m: map<Key, seq<int>>, s: Sample): (m': map<Key, seq<int>>)
    ensures BucketKey(q, s).None? ==> m' == m
    ensures BucketKey(q, s).Some? ==> m'.Keys == m.Keys + {BucketKey(q, s).value}
    ensures forall k :: k in m && Some(k) != BucketKey(q, s) ==> m'[k] == m[k]
    ensures BucketKey(q, s).Some? ==>
              var k := BucketKey(q, s).value;
              m'[k] == (if k in m then m[k] else []) + (if Passes(q, s) then [s.dbm] else [])
  {
    match BucketKey(q, s)
    case None => m
    case Some(k) =>
      var l := if k in m then m[k] else [];
      m[k := if Passes(q, s) then l + [s.dbm] else l]
  }

  /** The buckets after the whole `forEach`. */
  function Buckets(q: Request, rows: seq<Sample>): map<Key, seq<int>>
    decreases |rows|
  {
    if rows == [] then map[]
    else Step(q, Buckets(q, rows[..|rows| - 1]), rows[|rows| - 1])
  }

  /** The strengths of the rows routed to `k` that pass the refinement, in row order. */
  function Collected(q: Request, rows: seq<Sample>, k: Key): seq<int>
    decreases |rows|
  {
    if rows == [] then []
    else
      var s := rows[|rows| - 1];
      Collected(q, rows[..|rows| - 1], k) + (if BucketKey(q, s) == Some(k) && Passes(q, s) then [s.dbm] else [])
  }

  /** The loop of the handler over the store's rows, filling the buckets. */
  method Aggregate(q: Request, rows: seq<Sample>) returns (res: map<Key, seq<int>>)
    ensures res == Buckets(q, rows)
  {
    res := map[];
    var i := 0;
    while i < |rows|
      invariant 0 <= i <= |rows|
      invariant res == Buckets(q, rows[..i])
    {
      var el := rows[i];
      assert rows[..i + 1][..i] == rows[..i];
      ghost var next := Step(q, res, el);
      assert Buckets(q, rows[..i + 1]) == next;
      var gen := TypeToGen(el.radioType) - 1;
      var prov := el.provider - 1;
      var key: Key;
      if q.filter == AllCarriers {
        key := ByCarrier(prov, gen);
      } else if prov + 1 == q.filter {
        key := ByGen(gen);
      } else {
        i := i + 1;
        continue;
      }
      assert BucketKey(q, el) == Some(key);
      ghost var before := res;
      ghost var l := if key in res then res[key] else [];
      if key !in res {
        res := res[key := []];
      }
      assert res == before[key := l];
      var near := SquaredOffset(q, el) < DistanceLat * DistanceLong;
      if near {
        res := res[key := res[key] + [el.dbm]];
      }
      assert res == before[key := if near then l + [el.dbm] else l];
      i := i + 1;
    }
    assert rows[..|rows|] == rows;
  }

  /**
   * A bucket exists exactly when some row is routed to it, whether or not
   * that row passes the refinement; so a bucket can exist and be empty.
   */
  lemma {:induction false} BucketsDomain(q: Request, rows: seq<Sample>, k: Key)
    ensures k in Buckets(q, rows) <==> exists i :: 0 <= i < |rows| && BucketKey(q, rows[i]) == Some(k)
    decreases |rows|
  {
    if rows != [] {
      var init := rows[..|rows| - 1];
      BucketsDomain(q, init, k);
      assert forall i :: 0 <= i < |init| ==> init[i] == rows[i];
      if exists i :: 0 <= i < |rows| && BucketKey(q, rows[i]) == Some(k) {
        var i :| 0 <= i < |rows| && BucketKey(q, rows[i]) == Some(k);
        if i < |init| {
          assert BucketKey(q, init[i]) == Some(k);
        }
      }
    }
  }

  /** Each bucket holds exactly the strengths of its passing rows, in row order. */
  lemma {:induction false} BucketsContents(q: Request, rows: seq<Sample>, k: Key)
    requires k in Buckets(q, rows)
    ensures Buckets(q, rows)[k] == Collected(q, rows, k)
    decreases |rows|
  {
    var init := rows[..|rows| - 1];
    var s := rows[|rows| - 1];
    if k in Buckets(q, init) {
      BucketsContents(q, init, k);
    } else {
      CollectedOutside(q, init, k);
    }
  }

  /** No row routed to a key means nothing collected for it. */
  lemma {:induction false} CollectedOutside(q: Request, rows: seq<Sample>, k: Key)
    requires k !in Buckets(q, rows)
    ensures Collected(q, rows, k) == []
    decreases |rows|
  {
    if rows != [] {
      var init := rows[..|rows| - 1];
      assert k !in Buckets(q, init);
      CollectedOutside(q, init, k);
    }
  }

  /** A strength is collected for `k` exactly when some row routed to `k` carries it and passes. */
  lemma {:induction false} CollectedMembers(q: Request, rows: seq<Sample>, k: Key, x: int)
    ensures x in Collected(q, rows, k) <==>
              exists i :: 0 <= i < |rows| && BucketKey(q, rows[i]) == Some(k) && Passes(q, rows[i]) && rows[i].dbm == x
    decreases |rows|
  {
    if rows != [] {
      var init := rows[..|rows| - 1];
      CollectedMembers(q, init, k, x);
      assert forall i :: 0 <= i < |init| ==> init[i] == rows[i];
      if exists i :: 0 <= i < |rows| && BucketKey(q, rows[i]) == Some(k) && Passes(q, rows[i]) && rows[i].dbm == x {
        var i :| 0 <= i < |rows| && BucketKey(q, rows[i]) == Some(k) && Passes(q, rows[i]) && rows[i].dbm == x;
        if i < |init| {
          assert BucketKey(q, init[i]) == Some(k) && Passes(q, init[i]) && init[i].dbm == x;
        }
      }
    }
  }

  /** The rows of carrier `c`, in order. */
  function OfCarrier(rows: seq<Sample>, c: int): (r: seq<Sample>)
    ensures forall i :: 0 <= i < |r| ==> r[i].provider == c
    decreases |rows|
  {
    if rows == [] then []
    else
      var s := rows[|rows| - 1];
      OfCarrier(rows[..|rows| - 1], c) + (if s.provider == c then [s] else [])
  }

  /** When one carrier is asked for, rows of every other carrier contribute nothing, not even a bucket. */
  lemma {:induction false} OtherCarriersIgnored(q: Request, rows: seq<Sample>)
    requires q.filter != AllCarriers
    ensures Buckets(q, rows) == Buckets(q, OfCarrier(rows, q.filter))
    decreases |rows|
  {
    if rows != [] {
      var init := rows[..|rows| - 1];
      var s := rows[|rows| - 1];
      OtherCarriersIgnored(q, init);
      if s.provider == q.filter {
        var kept := OfCarrier(init, q.filter) + [s];
        assert OfCarrier(rows, q.filter) == kept;
        assert kept[..|kept| - 1] == OfCarrier(init, q.filter);
        assert Buckets(q, kept) == Step(q, Buckets(q, OfCarrier(init, q.filter)), s);
      } else {
        assert OfCarrier(rows, q.filter) == OfCarrier(init, q.filter);
      }
    }
  }

  /** The buckets are keyed by carrier and generation for `all` and by generation alone otherwise. */
  lemma {:induction false} BucketsKeyShape(q: Request, rows: seq<Sample>, k: Key)
    requires k in Buckets(q, rows)
    ensures 0 <= k.gen < 4
    ensures k.ByCarrier? <==> q.filter == AllCarriers
  {
    BucketsDomain(q, rows, k);
    var i :| 0 <= i < |rows| && BucketKey(q, rows[i]) == Some(k);
  }

  /** The reply body: per carrier then per generation for `all`, per generation otherwise. */
  datatype Response =
    | PerCarrier(carriers: seq<Option<seq<Option<Summary>>>>)
    | PerGeneration(generations: seq<Option<Summary>>)

  /** The summary of bucket `k`; `None` where the JavaScript array has a hole. */
  function Slot(b: map<Key, seq<int>>, k: Key): (r: Option<Summary>)
    ensures r.Some? <==> k in b
  {
    if k in b then Some(Summarise(b[k])) else None
  }

  /** Carrier `c` has an inner array once any of its buckets was created. */
  predicate CarrierPresent(b: map<Key, seq<int>>, c: int) {
    ByCarrier(c, 0) in b || ByCarrier(c, 1) in b || ByCarrier(c, 2) in b || ByCarrier(c, 3) in b
  }

  /** The generation slots of carrier `c`. */
  function CarrierRow(b: map<Key, seq<int>>, c: int): seq<Option<Summary>> {
    seq(4, g => Slot(b, ByCarrier(c, g)))
  }

  /** The mapping of `res` through `operations` into the reply. */
  function ResponseOf(filter: int, b: map<Key, seq<int>>): (r: Response)
    ensures r.PerCarrier? <==> filter == AllCarriers
    ensures r.PerCarrier? ==> |r.carriers| == 5 && forall c :: 0 <= c < 5 && r.carriers[c].Some? ==> |r.carriers[c].value| == 4
    ensures r.PerGeneration? ==> |r.generations| == 4
  {
    if filter == AllCarriers then
      PerCarrier(seq(5, c => if CarrierPresent(b, c) then Some(CarrierRow(b, c)) else None))
    else
      PerGeneration(seq(4, g => Slot(b, ByGen(g))))
  }

  /** The `res.map(...)` step: run `operations` on every bucket there is. */
  method Respond(filter: int, b: map<Key, seq<int>>) returns (r: Response)
    ensures r == ResponseOf(filter, b)
  {
    if filter == AllCarriers {
      var carriers: seq<Option<seq<Option<Summary>>>> := [];
      for c := 0 to 5
        invariant carriers == seq(c, c' => if CarrierPresent(b, c') then Some(CarrierRow(b, c')) else None)
      {
        if CarrierPresent(b, c) {
          var gens: seq<Option<Summary>> := [];
          for g := 0 to 4
            invariant gens == CarrierRow(b, c)[..g]
          {
            var k := ByCarrier(c, g);
            if k in b {
              var s := Operations(b[k]);
              gens := gens + [Some(s)];
            } else {
              gens := gens + [None];
            }
          }
          assert gens == CarrierRow(b, c);
          carriers := carriers + [Some(gens)];
        } else {
          carriers := carriers + [None];
        }
      }
      r := PerCarrier(carriers);
    } else {
      var gens: seq<Option<Summary>> := [];
      for g := 0 to 4
        invariant gens == seq(g, g' => Slot(b, ByGen(g')))
      {
        var k := ByGen(g);
        if k in b {
          var s := Operations(b[k]);
          gens := gens + [Some(s)];
        } else {
          gens := gens + [None];
        }
      }
      r := PerGeneration(gens);
    }
  }

  /** The whole handler, on the store's whole table; `None` is a store that cannot be reached. */
  function GetSpec(p: GetParams, store: Option<seq<Sample>>): Result<Response, Error> {
    match CheckGet(p)
    case Failure(e) => Failure(e)
    case Success(q) =>
      if store.None? then Failure(DatabaseError)
      else Success(ResponseOf(q.filter, Buckets(q, Select(q, store.value))))
  }

  /** The handler: check, query the store, bucket the rows, summarise the buckets. */
  method Get(p: GetParams, store: Option<seq<Sample>>) returns (r: Result<Response, Error>)
    ensures r == GetSpec(p, store)
  {
    var checked := CheckGet(p);
    if checked.Failure? {
      return Failure(checked.error);
    }
    var q := checked.value;
    if store.None? {
      return Failure(DatabaseError);
    }
    var rows := Select(q, store.value);
    var buckets := Aggregate(q, rows);
    var body := Respond(q.filter, buckets);
    r := Success(body);
  }

  /** A store with no row near the point gives every slot empty, in the right shape. */
  lemma EmptySelection(p: GetParams, table: seq<Sample>)
    requires CheckGet(p).Success?
    requires forall i :: 0 <= i < |table| ==> !InRectangle(CheckGet(p).value, table[i])
    ensures GetSpec(p, Some(table)).Success?
    ensures p.provider.AllLiteral? ==> GetSpec(p, Some(table)).value == PerCarrier(seq(5, c => None))
    ensures !p.provider.AllLiteral? ==> GetSpec(p, Some(table)).value == PerGeneration(seq(4, g => None))
  {
  }

  /** A row exactly at the query point (with a matching carrier) always lands in its bucket. */
  lemma PointIncluded(q: Request, table: seq<Sample>, s: Sample)
    requires s in table && s.latitude == q.latitude && s.longitude == q.longitude
    requires CarrierMatches(q, s)
    ensures Passes(q, s)
    ensures var k := BucketKey(q, s).value;
      && k in Buckets(q, Select(q, table))
      && s.dbm in Buckets(q, Select(q, table))[k]
  {
  }

  /**
   * Each of the four corners of the rectangle is inside the inclusive `BETWEEN`
   * bounds but fails the refinement: the row still creates its bucket, which
   * stays empty.
   */
  lemma CornerExcluded(q: Request, s: Sample)
    requires s.latitude == q.latitude + DistanceLat || s.latitude == q.latitude - DistanceLat
    requires s.longitude == q.longitude + DistanceLong || s.longitude == q.longitude - DistanceLong
    requires CarrierMatches(q, s)
    ensures InRectangle(q, s) && !Passes(q, s)
    ensures Buckets(q, [s]) == map[BucketKey(q, s).value := []]
  {
    RectangleOffsets(q, s);
  }

  /**
   * The refinement disc reaches beyond the rectangle along the latitude
   * axis: a row 0.0001 degrees north passes the distance test, yet the
   * store query never returns it.
   */
  lemma RefinementExceedsRectangle(q: Request, s: Sample)
    requires s.latitude == q.latitude + 0.0001 && s.longitude == q.longitude
    ensures Passes(q, s) && !InRectangle(q, s)
  {
  }

  /** Every row the refinement admits along the longitude axis is inside the rectangle. */
  lemma RefinementWithinLongitude(q: Request, s: Sample)
    requires Passes(q, s)
    ensures q.longitude - DistanceLong < s.longitude < q.longitude + DistanceLong
  {
  }

  /**
   * For one carrier the store already filters on `provider`, so the
   * handler's own carrier test drops nothing: every returned row gets a bucket.
   */
  lemma HandlerCarrierTestRedundant(q: Request, table: seq<Sample>, i: int)
    requires 0 <= i < |Select(q, table)|
    ensures BucketKey(q, Select(q, table)[i]).Some?
  {
    assert CarrierMatches(q, Select(q, table)[i]);
  }
}
