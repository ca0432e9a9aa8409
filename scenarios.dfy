/**
 * Properties that span the handlers: what `/post` writes is what `/get`
 * later buckets, and two sample batches.
 */
module Scenarios {
  import opened Wrappers
  import opened JsNumber
  import opened Classify
  import opened Stats
  import opened Records
  import opened Query
  import opened Ingest

  /**
   * With every stored row well formed (as `/post` guarantees), every bucket
   * of an `all` query has a carrier 0..4, so it is shown in the reply.
   */
  lemma WellFormedBucketsShown(q: Request, rows: seq<Sample>, k: Key)
    requires q.filter == AllCarriers && k in Buckets(q, rows)
    requires forall i :: 0 <= i < |rows| ==> WellFormed(rows[i])
    ensures k.ByCarrier? && 0 <= k.carrier < 5 && 0 <= k.gen < 4
    ensures ResponseOf(q.filter, Buckets(q, rows)).carriers[k.carrier] ==
              Some(CarrierRow(Buckets(q, rows), k.carrier))
    ensures CarrierRow(Buckets(q, rows), k.carrier)[k.gen] == Some(Summarise(Buckets(q, rows)[k]))
  {
  }

  /**
   * Round trip: a sample posted with carrier code 22002 and a radio type in
   * bucket 3 is returned by a query for carrier 22002 at its position, under
   * generation index 2.
   */
  lemma PostThenGet(table: seq<Sample>, lat: real, long: real, dbm: real, radioType: real)
    requires lat >= 0.0 && long >= 0.0 && Round(radioType) >= 0 && TypeToGen(Round(radioType)) == 3
    ensures var el := Candidate(Some(lat), Some(long), Some(dbm), Some(radioType), Other(Some(22002.0)));
      var s := Sample(lat, long, Round(dbm), Round(radioType), 2);
      && PostSpec(ArrayBody([el]), true) == Success([s])
      && var reply := GetSpec(GetParams(Some(lat), Some(long), Other(Some(22002.0))), Some(table + [s]));
         var b := Buckets(Request(lat, long, 2), Select(Request(lat, long, 2), table + [s]));
         && reply == Success(PerGeneration(seq(4, g => Slot(b, ByGen(g)))))
         && ByGen(2) in b && Round(dbm) in b[ByGen(2)]
  {
    var el := Candidate(Some(lat), Some(long), Some(dbm), Some(radioType), Other(Some(22002.0)));
    var s := Sample(lat, long, Round(dbm), Round(radioType), 2);
    assert GetProvider(Other(Some(22002.0))) == 2;
    assert Validate(el) == Some(s);
    assert [el][..0] == [];
    assert Accepted([el]) == [s];
    var q := Request(lat, long, 2);
    assert CheckGet(GetParams(Some(lat), Some(long), Other(Some(22002.0)))) == Success(q);
    assert BucketKey(q, s) == Some(ByGen(2));
    PointIncluded(q, table + [s], s);
    assert PostSpec(ArrayBody([el]), true) == Success([s]);
    var b := Buckets(q, Select(q, table + [s]));
    assert GetSpec(GetParams(Some(lat), Some(long), Other(Some(22002.0))), Some(table + [s]))
      == Success(ResponseOf(2, b));
  }

  /** Three objects, one of them with latitude -5: the other two are inserted, in order. */
  lemma BatchWithOneNegativeLatitude(a: Element, b: Element, c: Element)
    requires a == Candidate(Some(44.8), Some(20.4), Some(-80.0), Some(13.0), Other(Some(22001.0)))
    requires b == Candidate(Some(-5.0), Some(20.4), Some(-80.0), Some(13.0), Other(Some(22001.0)))
    requires c == Candidate(Some(44.8), Some(20.5), Some(-91.4), Some(3.0), Other(Some(22003.0)))
    ensures PostSpec(ArrayBody([a, b, c]), true) ==
              Success([Sample(44.8, 20.4, -80, 13, 1), Sample(44.8, 20.5, -91, 3, 3)])
  {
    assert GetProvider(Other(Some(22001.0))) == 1;
    assert GetProvider(Other(Some(22003.0))) == 3;
    assert Validate(a) == Some(Sample(44.8, 20.4, -80, 13, 1));
    assert Validate(b) == None;
    assert Validate(c) == Some(Sample(44.8, 20.5, -91, 3, 3));
    assert [a, b, c][..2] == [a, b] && [a, b][..1] == [a] && [a][..0] == [];
    assert Accepted([a]) == [Sample(44.8, 20.4, -80, 13, 1)];
    assert Accepted([a, b]) == [Sample(44.8, 20.4, -80, 13, 1)];
    assert Accepted([a, b, c]) == [Sample(44.8, 20.4, -80, 13, 1), Sample(44.8, 20.5, -91, 3, 3)];
  }

  /** A batch of malformed objects is a `parameters` error and inserts nothing, even with the store up. */
  lemma BatchAllMalformed(els: seq<Element>)
    requires forall i :: 0 <= i < |els| ==> els[i].NonObject? || (els[i].Candidate? && els[i].latitude.None?)
    ensures PostSpec(ArrayBody(els), true) == Failure(AllInvalidError)
  {
    AcceptedEmpty(els);
  }
}
