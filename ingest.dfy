/**
 * The `/post` handler: per-record validation of a batch of candidate
 * samples and the all-invalid and not-an-array errors.
 */
module Ingest {
  import opened Wrappers
  import opened JsNumber
  import opened Classify
  import opened Records

  /**
   * One element of the posted array. A `Candidate` is an object whose
   * fields went through `Number(...)` (`None` is NaN); `NonObject` is an
   * element whose `typeof` is not `object`.
   */
  datatype Element =
    | Candidate(latitude: Option<real>, longitude: Option<real>, dbm: Option<real>, radioType: Option<real>, provider: ProviderInput)
    | NonObject

  /** The request body: an array of elements, or anything else. */
  datatype Body = ArrayBody(elements: seq<Element>) | OtherBody

  const NotArrayError: Error := Error(Parameters, "Required parameters have not been supplied")
  const AllInvalidError: Error := Error(Parameters, "All objects in supplied array are invalid")

  /** The row an element becomes, or `None` when the element is dropped. */
  function Validate(el: Element): (r: Option<Sample>)
    ensures r.Some? ==> WellFormed(r.value)
    ensures r.Some? ==> el.Candidate? && el.latitude == Some(r.value.latitude) && el.longitude == Some(r.value.longitude)
    ensures r.Some? ==> el.dbm.Some? && r.value.dbm == Round(el.dbm.value)
    ensures r.Some? ==> el.radioType.Some? && r.value.radioType == Round(el.radioType.value)
  {
    match el
    case NonObject => None
    case Candidate(latitude, longitude, dbm, radioType, provider) =>
      var index := GetProvider(provider);
      if latitude.Some? && longitude.Some? && dbm.Some? && radioType.Some?
         && index > 0 && Round(radioType.value) >= 0
         && latitude.value >= 0.0 && longitude.value >= 0.0
      then Some(Sample(latitude.value, longitude.value, Round(dbm.value), Round(radioType.value), index))
      else None
  }

  /**
   * A candidate is kept exactly when every field is a number, the carrier
   * is a concrete index, the rounded type is not negative and both
   * coordinates are not negative; the row holds the rounded strength and
   * type and the carrier index.
   */
  lemma ValidateAccepts(el: Element)
    ensures Validate(el).Some? <==>
              && el.Candidate?
              && el.latitude.Some? && el.longitude.Some? && el.dbm.Some? && el.radioType.Some?
              && IsCarrierIndex(GetProvider(el.provider))
              && Round(el.radioType.value) >= 0
              && el.latitude.value >= 0.0 && el.longitude.value >= 0.0
    ensures Validate(el).Some? ==>
              Validate(el).value ==
                Sample(el.latitude.value, el.longitude.value, Round(el.dbm.value), Round(el.radioType.value), GetProvider(el.provider))
    ensures el.Candidate? && el.provider.AllLiteral? ==> Validate(el).None?
  {
  }

  /** The rows kept from `els`, in order. */
  function Accepted(els: seq<Element>): (rows: seq<Sample>)
    ensures |rows| <= |els|
    ensures forall j :: 0 <= j < |rows| ==> WellFormed(rows[j])
    decreases |els|
  {
    if els == [] then []
    else
      var rows := Accepted(els[..|els| - 1]);
      match Validate(els[|els| - 1])
      case None => rows
      case Some(s) => rows + [s]
  }

  /**
   * The positions of the kept elements: increasing, every valid position
   * among them, and the j-th kept row taken from the j-th position.
   */
  function AcceptedIndices(els: seq<Element>): (idx: seq<nat>)
    ensures |idx| == |Accepted(els)|
    ensures forall j :: 0 <= j < |idx| ==> idx[j] < |els| && Validate(els[idx[j]]) == Some(Accepted(els)[j])
    ensures forall j, j' :: 0 <= j < j' < |idx| ==> idx[j] < idx[j']
    ensures forall i :: 0 <= i < |els| && Validate(els[i]).Some? ==> i in idx
    decreases |els|
  {
    if els == [] then []
    else
      var init := els[..|els| - 1];
      var idx := AcceptedIndices(init);
      assert forall i :: 0 <= i < |init| ==> init[i] == els[i];
      if Validate(els[|els| - 1]).Some? then idx + [|els| - 1] else idx
  }

  /** A row is kept exactly when some element validates to it. */
  lemma AcceptedMembers(els: seq<Element>, s: Sample)
    ensures s in Accepted(els) <==> exists i :: 0 <= i < |els| && Validate(els[i]) == Some(s)
  {
    var idx := AcceptedIndices(els);
    var rows := Accepted(els);
    if s in rows {
      var j :| 0 <= j < |rows| && rows[j] == s;
      assert Validate(els[idx[j]]) == Some(s);
    }
    if exists i :: 0 <= i < |els| && Validate(els[i]) == Some(s) {
      var i :| 0 <= i < |els| && Validate(els[i]) == Some(s);
      var j :| 0 <= j < |idx| && idx[j] == i;
      assert rows[j] == s;
    }
  }

  /** Nothing is kept exactly when no element validates. */
  lemma AcceptedEmpty(els: seq<Element>)
    ensures Accepted(els) == [] <==> forall i :: 0 <= i < |els| ==> Validate(els[i]).None?
  {
  }

  /** The handler's answer: the rows inserted in one statement, or the error sent back. */
  function PostSpec(body: Body, reachable: bool): Result<seq<Sample>, Error> {
    match body
    case OtherBody => Failure(NotArrayError)
    case ArrayBody(els) =>
      var rows := Accepted(els);
      if rows == [] then Failure(AllInvalidError)
      else if !reachable then Failure(DatabaseError)
      else Success(rows)
  }

  /**
   * The handler: the `forEach` that collects the valid elements, the
   * all-invalid check, and the insert (`reachable` is whether the store
   * accepted it).
   */
  method Post(body: Body, reachable: bool) returns (r: Result<seq<Sample>, Error>)
    ensures r == PostSpec(body, reachable)
  {
    if body.OtherBody? {
      return Failure(NotArrayError);
    }
    var els := body.elements;
    var arr: seq<Sample> := [];
    var i := 0;
    while i < |els|
      invariant 0 <= i <= |els|
      invariant arr == Accepted(els[..i])
    {
      assert els[..i + 1][..i] == els[..i];
      var el := els[i];
      if el.Candidate? {
        var latitude, longitude := el.latitude, el.longitude;
        var dbm := if el.dbm.Some? then Some(Round(el.dbm.value)) else None;
        var radioType := if el.radioType.Some? then Some(Round(el.radioType.value)) else None;
        var provider := GetProvider(el.provider);
        if latitude.Some? && longitude.Some? && dbm.Some? && radioType.Some?
           && provider > 0 && radioType.value >= 0
           && latitude.value >= 0.0 && longitude.value >= 0.0
        {
          arr := arr + [Sample(latitude.value, longitude.value, dbm.value, radioType.value, provider)];
        }
      }
      i := i + 1;
    }
    assert els[..|els|] == els;
    if |arr| == 0 {
      return Failure(AllInvalidError);
    }
    if !reachable {
      return Failure(DatabaseError);
    }
    r := Success(arr);
  }

  /**
   * The error paths: a body that is not an array, and a batch with no valid
   * element, are `parameters` errors and insert nothing; otherwise the
   * inserted rows are the kept ones, all well formed.
   */
  lemma PostOutcomes(body: Body, reachable: bool)
    ensures body.OtherBody? ==> PostSpec(body, reachable) == Failure(NotArrayError)
    ensures body.ArrayBody? && (forall i :: 0 <= i < |body.elements| ==> Validate(body.elements[i]).None?) ==>
              PostSpec(body, reachable) == Failure(AllInvalidError)
    ensures PostSpec(body, reachable).Success? ==>
              && body.ArrayBody? && reachable
              && PostSpec(body, reachable).value == Accepted(body.elements) != []
              && |PostSpec(body, reachable).value| <= |body.elements|
  {
    if body.ArrayBody? {
      AcceptedEmpty(body.elements);
    }
  }
}
