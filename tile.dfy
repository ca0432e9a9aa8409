/**
 * The `/tile/:zoom/:x/:y/:gen/:provider` handler: the zoom-scaled window
 * check and the name of the pre-rendered image it serves.
 */
module Tile {
  import opened Wrappers
  import opened JsNumber
  import opened Decimal
  import opened Classify
  import opened Records

  /** The route parameters after `Number(...)` (`None` is NaN) and the raw provider. */
  datatype TileParams = TileParams(zoom: Option<real>, x: Option<real>, y: Option<real>, gen: Option<real>, provider: ProviderInput)

  /** An accepted request: rounded zoom, tile column and row, generation and carrier index. */
  datatype TileId = TileId(zoom: int, x: int, y: int, gen: int, provider: int)

  const MinZoom: int := 12
  const MaxZoom: int := 17

  /** The single tile covered at the lowest zoom. */
  const BaseX: int := 2280
  const BaseY: int := 1476

  const TileParamsError: Error := Error(Parameters, "Parameters must be supplied and valid!")
  const UnknownFileError: Error := Error(Parameters, "Unknown filename")

  /** `Math.round(Number(...))`, with NaN kept as `None`. */
  function RoundParam(o: Option<real>): (r: Option<int>)
    ensures r.Some? <==> o.Some?
    ensures o.Some? ==> r.value == Round(o.value)
  {
    match o
    case None => None
    case Some(v) => Some(Round(v))
  }

  /** At zoom `zoom` the base tile is split into 2^(zoom-12) by 2^(zoom-12) tiles. */
  predicate InWindow(zoom: int, x: int, y: int)
    requires MinZoom <= zoom <= MaxZoom
  {
    var pow := Pow2(zoom - MinZoom);
    && BaseX * pow <= x < (BaseX + 1) * pow
    && BaseY * pow <= y < (BaseY + 1) * pow
  }

  /** The validation: every number present, zoom 12..17, the tile inside the window, a concrete carrier. */
  function CheckTile(p: TileParams): (r: Result<TileId, Error>)
    ensures r.Failure? ==> r.error == TileParamsError
    ensures r.Success? ==> MinZoom <= r.value.zoom <= MaxZoom && InWindow(r.value.zoom, r.value.x, r.value.y)
    ensures r.Success? ==> IsCarrierIndex(r.value.provider)
  {
    var zoom, x, y, gen := RoundParam(p.zoom), RoundParam(p.x), RoundParam(p.y), RoundParam(p.gen);
    var provider := GetProvider(p.provider);
    if zoom.None? || x.None? || y.None? || provider < 1 || gen.None?
       || zoom.value > MaxZoom || zoom.value < MinZoom
       || !InWindow(zoom.value, x.value, y.value)
    then Failure(TileParamsError)
    else Success(TileId(zoom.value, x.value, y.value, gen.value, provider))
  }

  /** The check accepts exactly the requests whose rounded values meet every condition. */
  lemma CheckTileAccepts(p: TileParams)
    ensures CheckTile(p).Success? <==>
              && p.zoom.Some? && p.x.Some? && p.y.Some? && p.gen.Some?
              && MinZoom <= Round(p.zoom.value) <= MaxZoom
              && InWindow(Round(p.zoom.value), Round(p.x.value), Round(p.y.value))
              && IsCarrierIndex(GetProvider(p.provider))
    ensures CheckTile(p).Success? ==>
              CheckTile(p).value ==
                TileId(Round(p.zoom.value), Round(p.x.value), Round(p.y.value), Round(p.gen.value), GetProvider(p.provider))
    ensures p.provider.AllLiteral? ==> CheckTile(p).Failure?
  {
  }

  /** The window at each zoom, written out for the lowest and highest zoom. */
  lemma WindowBounds(x: int, y: int)
    ensures InWindow(12, x, y) <==> x == 2280 && y == 1476
    ensures InWindow(17, x, y) <==> 72960 <= x < 72992 && 47232 <= y < 47264
  {
    assert Pow2(5) == 32 by {
      assert Pow2(1) == 2 && Pow2(2) == 4 && Pow2(3) == 8 && Pow2(4) == 16;
    }
  }

  /** `Math.pow(2, zoom - 12)` for each accepted zoom. */
  lemma ScaleFactors(zoom: int)
    requires MinZoom <= zoom <= MaxZoom
    ensures Pow2(zoom - MinZoom) == [1, 2, 4, 8, 16, 32][zoom - MinZoom]
  {
    assert Pow2(1) == 2 && Pow2(2) == 4 && Pow2(3) == 8 && Pow2(4) == 16 && Pow2(5) == 32;
  }

  /** A tile is in the window exactly when it lies inside the base tile once scaled back to zoom 12. */
  lemma WindowAnchored(zoom: int, x: int, y: int)
    requires MinZoom <= zoom <= MaxZoom
    ensures InWindow(zoom, x, y) <==> x / Pow2(zoom - MinZoom) == BaseX && y / Pow2(zoom - MinZoom) == BaseY
  {
    ScaleFactors(zoom);
  }

  /** Every accepted tile above zoom 12 lies inside an accepted tile one zoom level up. */
  lemma WindowNested(zoom: int, x: int, y: int)
    requires MinZoom < zoom <= MaxZoom && InWindow(zoom, x, y)
    ensures InWindow(zoom - 1, x / 2, y / 2)
  {
  }

  /** The file served for an accepted request: `zoom-x-y-gen-provider.png`. */
  function TileName(t: TileId): string {
    Field(t.zoom, "-", Field(t.x, "-", Field(t.y, "-", Field(t.gen, "-", Field(t.provider, ".png", [])))))
  }

  /** The text of `n` followed by `sep`, ahead of the rest of the name. */
  function Field(n: int, sep: string, rest: string): string {
    IntToString(n) + sep + rest
  }

  /** The name starts with the zoom and a dash and ends with the `.png` extension. */
  lemma TileNameShape(t: TileId)
    ensures var s := TileName(t); |s| > 4 && s[|s| - 4..] == ".png"
    ensures var s, z := TileName(t), IntToString(t.zoom) + "-"; |z| < |s| && s[..|z|] == z
  {
    var s4 := Field(t.provider, ".png", []);
    var s3 := Field(t.gen, "-", s4);
    var s2 := Field(t.y, "-", s3);
    var s1 := Field(t.x, "-", s2);
    assert s4 == IntToString(t.provider) + ".png";
    FieldSuffix(t.gen, "-", s4);
    FieldSuffix(t.y, "-", s3);
    FieldSuffix(t.x, "-", s2);
    FieldSuffix(t.zoom, "-", s1);
    var z := IntToString(t.zoom) + "-";
    assert TileName(t) == z + s1;
  }

  /** A field keeps the last four characters of what follows it. */
  lemma FieldSuffix(n: int, sep: string, rest: string)
    requires |rest| >= 4
    ensures var s := Field(n, sep, rest); |s| > |rest| && s[|s| - 4..] == rest[|rest| - 4..]
  {
    var s := Field(n, sep, rest);
    assert s == (IntToString(n) + sep) + rest;
  }

  /** Reads `i` then the separator `sep` off the front of `s`. */
  function ReadField(s: string, sep: string): Option<(int, string)> {
    match ReadInt(s)
    case None => None
    case Some((v, rest)) =>
      if |rest| >= |sep| && rest[..|sep|] == sep then Some((v, rest[|sep|..])) else None
  }

  /** Reads a tile name back into its five numbers. */
  function ParseTileName(s: string): Option<TileId> {
    match ReadField(s, "-")
    case None => None
    case Some((zoom, s1)) =>
      match ReadField(s1, "-")
      case None => None
      case Some((x, s2)) =>
        match ReadField(s2, "-")
        case None => None
        case Some((y, s3)) =>
          match ReadField(s3, "-")
          case None => None
          case Some((gen, s4)) =>
            match ReadField(s4, ".png")
            case None => None
            case Some((provider, s5)) =>
              if s5 == [] then Some(TileId(zoom, x, y, gen, provider)) else None
  }

  lemma ReadFieldRoundTrip(n: int, sep: string, rest: string)
    requires |sep| > 0 && !IsDigit(sep[0])
    ensures ReadField(Field(n, sep, rest), sep) == Some((n, rest))
  {
    assert Field(n, sep, rest) == IntToString(n) + (sep + rest);
    ReadIntRoundTrip(n, sep + rest);
    assert (sep + rest)[..|sep|] == sep && (sep + rest)[|sep|..] == rest;
  }

  /** The served name determines the request: reading it back gives the same five numbers. */
  lemma TileNameRoundTrip(t: TileId)
    ensures ParseTileName(TileName(t)) == Some(t)
  {
    var s4 := Field(t.provider, ".png", []);
    var s3 := Field(t.gen, "-", s4);
    var s2 := Field(t.y, "-", s3);
    var s1 := Field(t.x, "-", s2);
    ReadFieldRoundTrip(t.zoom, "-", s1);
    ReadFieldRoundTrip(t.x, "-", s2);
    ReadFieldRoundTrip(t.y, "-", s3);
    ReadFieldRoundTrip(t.gen, "-", s4);
    ReadFieldRoundTrip(t.provider, ".png", []);
  }

  /** Two accepted requests are served the same file only when they are the same request. */
  lemma TileNameInjective(a: TileId, b: TileId)
    requires TileName(a) == TileName(b)
    ensures a == b
  {
    TileNameRoundTrip(a);
    TileNameRoundTrip(b);
  }

  /** The handler: the check, then `sendFile` from the tile directory, whose files are `files`. */
  function ServeTile(p: TileParams, files: set<string>): (r: Result<string, Error>)
    ensures r.Success? ==> r.value in files && CheckTile(p).Success? && r.value == TileName(CheckTile(p).value)
    ensures r.Failure? ==> r.error == TileParamsError || r.error == UnknownFileError
    ensures CheckTile(p).Failure? ==> r == Failure(TileParamsError)
    ensures CheckTile(p).Success? ==>
              var name := TileName(CheckTile(p).value);
              r == if name in files then Success(name) else Failure(UnknownFileError)
  {
    match CheckTile(p)
    case Failure(e) => Failure(e)
    case Success(t) =>
      var name := TileName(t);
      if name in files then Success(name) else Failure(UnknownFileError)
  }
}
