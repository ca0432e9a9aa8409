# mapa-signala: signal-strength aggregation, ingestion and tile lookup

This project is a Dafny model of the request logic in `main.js` of mapa-signala. The service collects crowd-sourced readings of cellular signal strength and answers three kinds of request:

- `/get/:latitude/:longitude/:provider` returns the minimum, maximum and average signal strength near a point. The results are split by carrier and radio generation.
- `/post` stores a batch of readings. Invalid records are dropped silently.
- `/tile/:zoom/:x/:y/:gen/:provider` serves a pre-rendered map tile. Its name is `zoom-x-y-gen-provider.png`.

Modules, one per component:

- `Wrappers`: `Option` and `Result`.
- `JsNumber`: `Math.round` as `Floor(x + 0.5)`, the safe-integer bounds, powers of two.
- `Decimal`: integers printed the way a template literal prints them, plus a reader for that text.
- `Records`: the stored `Sample` row, the `{error, reason}` replies, and the store invariant `WellFormed`.
- `Classify`: `getProvider` (`GetProvider`) and `typeToGen` (`TypeToGen`). `TypeToGen` is proved equal to `ReferenceGen`, a lookup in a table of named radio technologies (`Radio`, `Family`), by `TypeToGenIsReference`.
- `Stats`: `operations`. The `Operations` method is the source's loop, proved equal to the specification function `Summarise`.
- `Query`: the `/get` handler. It has three parts:
  - the parameter check `CheckGet`;
  - the inclusive bounding-box selection `Select`, which stands in for the SQL statement;
  - the squared-distance refinement `Passes`.

  The `forEach` loop that fills the buckets is the method `Aggregate`, proved equal to `Buckets`. The `res.map(operations)` step is the method `Respond`, proved equal to `ResponseOf`. The handler `Get` is proved equal to `GetSpec`.
- `Tile`: the `/tile` window check `CheckTile`, the file name `TileName` and the file lookup `ServeTile`. A parser `ParseTileName` proves that the name can be read back.
- `Ingest`: the `/post` handler. `Validate` checks one element and `Accepted` gives the kept rows. The loop is the method `Post`, proved equal to `PostSpec`.
- `Scenarios`: properties that span handlers. For example, a sample posted through `/post` is found by `/get` under the expected generation.

External parts are passed in as parameters:

- The whole `data` table is `Option<seq<Sample>>`. `None` stands for a failed connection or query, which gives the `database` error.
- The outcome of the insert is a `bool`.
- The tile directory is a `set<string>` of file names.
- Parsing with `Number(...)` has already happened: every numeric field is an `Option<real>`, and `None` is NaN.

Behaviour of `main.js` the model keeps on purpose:

- A missing bucket is a hole in the `res` array. `map` skips holes, so the `return -1` at main.js:214 never runs. The model writes `None` for a missing bucket.
- A row inside the rectangle that fails the distance test still creates its bucket (main.js:177-190 run before the test at main.js:194-198). That bucket's list stays empty, and `operations` gives it `{min: 1, max: 1, avg: NaN}` (main.js:103-109). The model gives `Summary(1, 1, None)` (`Query.CornerExcluded`, `Stats.SummariseEmpty`).
- The reply array (main.js:206) has length one more than the highest index that was filled. The model always gives the 5-by-4 shape (or 4 for one carrier), with `None` in every unfilled slot.
- The sentinel checks at main.js:103-108 compare with `MAX_SAFE_INTEGER` and `MIN_SAFE_INTEGER`, so they also fire when a list's true minimum is `MAX_SAFE_INTEGER` or its true maximum is `MIN_SAFE_INTEGER`. The model keeps this (`Stats.SentinelCollision`). The min/max guarantee is therefore stated for strengths strictly between those bounds.
- The distance test at main.js:194-198 draws a disc that is not inside the rectangle of main.js:164-168. Its radius is sqrt(0.000090909 × 0.000125) ≈ 0.000107, more than the rectangle's half-height of 0.000090909. Points that pass the distance test can lie outside the rectangle (`Query.RefinementExceedsRectangle`). The effective region is the disc clipped by the rectangle.

## Model

| member | source | states |
|---|---|---|
| JsNumber.Round | main.js:117 | `Math.round` gives the integer r with r ≤ x + 0.5 < r + 1 |
| Classify.GetProvider | main.js:113-124 | -1 exactly for the literal `all`. An index 1..5 exactly when the rounded number is in 22001..22005, and the index is that number less 22000. Otherwise 0, NaN included |
| Classify.CarrierCodeRoundTrip | main.js:113-124 | Normalising carrier i's wire code 22000+i gives i back. A number normalises to i exactly when it rounds to that code |
| Classify.GetProviderExamples | main.js:113-124 | `all` gives -1, 22003 gives 3, 22004.5 gives 5. 22005.5, 22006, 22000 and NaN give 0 |
| Classify.TypeToGen | main.js:126-144 | The generation bucket is always in 1..4 |
| Classify.TypeToGenIsReference | main.js:126-144 | The switch agrees with the table of named technologies: 2G and 2.5G go to 2, 3G and 3.5G to 3, LTE to 4. A code belongs to bucket 1 exactly when it is no listed technology's code |
| Classify.TypeToGenTable | main.js:126-144 | Codes 16, 1, 2 give 2. Codes 3, 17, 8, 9, 10, 15 give 3. Code 13 gives 4. Every other code gives 1 |
| Classify.FindRadio | main.js:127-143 | The lookup in the reference list finds a technology with the code asked for, or shows that no technology has that code |
| Stats.Operations | main.js:92-111 | The single loop over sum, max and min, with its sentinel resets, computes exactly `Summarise` |
| Stats.SummariseNonEmpty | main.js:92-111 | For a non-empty list strictly inside the safe-integer range: min and max are elements of the list, they bound every element, avg = sum/length, and min ≤ avg ≤ max |
| Stats.SummariseEmpty | main.js:103-109 | For an empty list, min and max fall back to 1 and the average is NaN (`None`) |
| Stats.SentinelCollision | main.js:93-108 | Any non-empty list whose minimum is at least MAX_SAFE_INTEGER reports min 1, and any whose maximum is at most MIN_SAFE_INTEGER reports max 1. Min is 1 exactly when the list is empty, its minimum reaches MAX_SAFE_INTEGER, or its minimum is 1; the same for max |
| Stats.SumBounds | main.js:94-95 | Elements between lo and hi give a sum between length·lo and length·hi |
| Stats.SeqMin | main.js:99-101 | The running minimum is an element of the list and at most every element |
| Stats.SeqMax | main.js:96-98 | The running maximum is an element of the list and at least every element |
| Query.CheckGet | main.js:150-163 | A rejection is the `parameters` error. An accepted request's filter is -1 or a carrier index |
| Query.CheckGetAccepts | main.js:154-163 | Accepted exactly when both coordinates are numbers, the carrier is `all` or a known code, and at least one coordinate is non-negative. The request carries the point and the normalised carrier |
| Query.CheckGetExamples | main.js:154-163 | A NaN coordinate, an unknown code and NaN carrier are rejected, and so is a point with both coordinates negative. `all` is accepted, and so is a point with only one negative coordinate |
| Query.Select | main.js:164-171 | The store returns only table rows inside the inclusive rectangle, and only rows of the requested carrier unless the filter is `all` |
| Query.SelectCount | main.js:164-171 | Each matching row is returned as many times as it occurs in the table; a row that does not match is returned zero times |
| Query.RectangleOffsets | main.js:164-168 | A row is inside the `BETWEEN` rectangle exactly when its offsets from the point are within ±DISTANCE_LAT and ±DISTANCE_LONG, bounds included |
| Query.SelectMembers | main.js:164-171 | Every table row inside the rectangle with a matching carrier is returned, and no other row |
| Query.BucketKey | main.js:174-190 | With `all`, a row is routed by carrier and generation. With one carrier, it is routed by generation alone, and rows of other carriers are skipped. Generation indices are 0..3 |
| Query.Step | main.js:174-204 | One iteration: a row of another carrier changes nothing. Otherwise the row's bucket is added if missing, it gains the row's strength exactly when the row passes the distance test, and every other bucket is unchanged |
| Query.HandlerCarrierTestRedundant | main.js:169-170 | For one carrier the store already filters on `provider`, so every returned row is routed to a bucket and the `return` at main.js:188-189 never runs |
| Query.Aggregate | main.js:172-205 | The `forEach` that creates buckets lazily and pushes passing strengths computes exactly `Buckets` |
| Query.BucketsDomain | main.js:174-190 | A bucket exists exactly when some returned row is routed to it, even if that row fails the distance test |
| Query.BucketsContents | main.js:191-204 | Each bucket holds exactly the strengths of its rows that pass the distance test, in row order (`Collected`) |
| Query.CollectedMembers | main.js:194-203 | A strength is in a bucket exactly when a row routed there carries it and passes the squared-distance test |
| Query.OtherCarriersIgnored | main.js:184-189 | With one carrier requested, the buckets equal the buckets of that carrier's rows alone |
| Query.BucketsKeyShape | main.js:175-187 | Bucket keys have a generation in 0..3. They are per carrier exactly when the filter is `all` |
| Query.Slot | main.js:206-213 | A slot is filled exactly when its bucket exists |
| Query.ResponseOf | main.js:206-215 | With `all`, the reply is per carrier: 5 carrier rows of 4 generation slots. With one carrier, it is 4 generation slots |
| Query.Respond | main.js:206-215 | The mapping through `operations` computes exactly `ResponseOf` |
| Query.Get | main.js:149-218 | The handler computes exactly `GetSpec`: check, store query, bucketing, summaries, or the `parameters`/`database` error |
| Query.EmptySelection | main.js:172-215 | With no row near the point, the reply succeeds with every slot empty, in the right shape for `all` and for one carrier |
| Query.PointIncluded | main.js:191-204 | A row exactly at the query point with a matching carrier passes the squared-distance test (`Passes`, `SquaredOffset`) and always has its strength in its bucket |
| Query.CornerExcluded | main.js:164-204 | Each of the rectangle's four corners (offsets ±DISTANCE_LAT, ±DISTANCE_LONG) is inside the inclusive bounds but fails the squared-distance test (`Passes`). Such a row creates an empty bucket |
| Query.RefinementExceedsRectangle | main.js:191-198 | A row 0.0001° north of the point passes the distance test, yet lies outside the rectangle |
| Query.RefinementWithinLongitude | main.js:191-198 | Along longitude the disc stays strictly inside the rectangle |
| Tile.RoundParam | main.js:225-228 | NaN stays NaN, and a number becomes exactly its `Math.round` |
| Tile.CheckTile | main.js:224-245 | An accepted tile has zoom 12..17, lies inside the scaled window, and has a concrete carrier index. A rejection is the `parameters` error |
| Tile.CheckTileAccepts | main.js:234-245 | Accepted exactly when all five numbers are present, the rounded zoom is 12..17, the rounded x and y are inside the window, and the carrier is a known code (so `all` is rejected). The tile carries the rounded values |
| Tile.WindowBounds | main.js:237-239 | At zoom 12 the window is the single tile (2280, 1476). At zoom 17 it is x in 72960..72991 and y in 47232..47263 |
| Tile.ScaleFactors | main.js:231-233 | `Math.pow(2, zoom - 12)` is 1, 2, 4, 8, 16, 32 for zoom 12..17 |
| Tile.WindowAnchored | main.js:231-239 | A tile is inside the window exactly when dividing x and y by 2^(zoom-12) gives the base tile (2280, 1476) |
| Tile.WindowNested | main.js:231-239 | An accepted tile above zoom 12 lies inside an accepted tile one level up, at (x/2, y/2) |
| Tile.TileNameRoundTrip | main.js:247 | The file name `zoom-x-y-gen-provider.png` reads back to the same five numbers |
| Tile.TileNameInjective | main.js:247 | Different accepted requests are served different files |
| Tile.TileNameShape | main.js:247 | The file name starts with the zoom and a dash and ends with `.png` |
| Tile.ServeTile | main.js:234-257 | A request that fails the check gets the `Parameters must be supplied and valid!` error. A request that passes is served its file `TileName` when the tile directory has it, and gets `Unknown filename` otherwise |
| Ingest.Validate | main.js:269-283 | A kept row is well formed: non-negative coordinates copied from the element, rounded strength and type, and carrier index 1..5 |
| Ingest.ValidateAccepts | main.js:270-279 | An element is kept exactly when it is an object and every field parses, the carrier is a known code, the rounded type is ≥ 0, and both coordinates are ≥ 0. `all` is never kept |
| Ingest.Accepted | main.js:267-285 | No more rows are kept than elements were posted, and every kept row is well formed |
| Ingest.AcceptedIndices | main.js:268-285 | The kept rows come from strictly increasing positions (input order) and every valid position is among them |
| Ingest.AcceptedMembers | main.js:268-285 | A row is kept exactly when some posted element validates to it |
| Ingest.AcceptedEmpty | main.js:286-291 | Nothing is kept exactly when no element validates |
| Ingest.Post | main.js:264-311 | The handler computes exactly `PostSpec`: the rows for the single insert, or the not-an-array, all-invalid or database error |
| Ingest.PostOutcomes | main.js:264-311 | A non-array body and an all-invalid batch are `parameters` errors that insert nothing. A success inserts the non-empty kept rows, at most as many as were posted |
| Scenarios.WellFormedBucketsShown | main.js:174-209 | With well-formed stored rows, every bucket of an `all` query has carrier 0..4 and appears in the reply with its summary |
| Scenarios.PostThenGet | main.js:172-205 | A sample posted with code 22002 and a type in bucket 3 is found by a query for 22002 at its point, under generation index 2 |
| Scenarios.BatchWithOneNegativeLatitude | main.js:268-299 | Three posted objects, one with latitude -5: the other two are inserted, in order, rounded |
| Scenarios.BatchAllMalformed | main.js:286-291 | A batch of malformed elements is a `parameters` error, even with the store up |
| Decimal.IntToString | main.js:247 | The text of an integer starts with `-` exactly when it is negative; the rest is digits, with a leading `0` only for zero itself |
| Decimal.NatToString | main.js:247 | At least one digit, a single digit exactly below 10, and a leading `0` only for zero |
| Decimal.ReadIntRoundTrip | main.js:247 | Reading the decimal text of an integer gives it back and leaves the rest of the string untouched |

## Left out

- HTTPS bootstrap, Express routing and `GET /` (main.js:11-55): I/O plumbing. There is nothing to prove about them.
- `error`, `dbError` and `executeDB` (main.js:57-90): the connection pool and its callbacks are asynchronous and foreign. Only their outcomes are modelled: the `{error, reason}` value and a store that is either reachable or not. The connection's `error` event and connection release are not modelled.
- SQL text (main.js:164-171, 280-297): the statements are not built. The `BETWEEN` rectangle and the `provider=` condition are the in-memory predicates `Query.InRectangle` and `Query.CarrierMatches`. MySQL semantics are not modelled.
- JSON serialisation and sparse JavaScript arrays: reply lengths are fixed at 5-by-4 or 4, and absent slots are `None`. The actual arrays have length one more than the highest filled index, and their holes serialise as `null`. The model fills only carriers 0..4. On well-formed stored rows no bucket falls outside that range (`Scenarios.WellFormedBucketsShown`).
- Floating point: coordinates, the distance test and the average use exact reals, and sums and strengths use unbounded integers. IEEE rounding of `latitude ± DISTANCE_LAT`, of the squares and of the sum is not modelled.
- `Number(...)` string parsing: every field arrives already parsed, with `None` for NaN. Infinities are not represented, although `Number` can produce them and the checks would let a positive infinity through.
- A `null` element posted in `/post`: it counts as an `object`, so reading a field of it throws inside the handler. This is not modelled. Only elements whose `typeof` is not `object` are modelled (`NonObject`).
- Number-to-text conversion for integers of 10^21 or more, which JavaScript prints in exponent form: `Decimal.IntToString` always prints plain digits.
- `sendFile` path resolution under the tile root: the tile directory is a set of file names.
- tiles/scheduler.js: an hourly external process that renders the tiles. It is pure I/O.
- Stats.SummariseNonEmpty: the min/max guarantee is stated only for strengths strictly between the safe-integer bounds. Outside that range, the source's sentinel check replaces the true value by 1 (`Stats.SentinelCollision`).
- Query.Select: the store's row order is taken to be table order. The SQL has no `ORDER BY`, so MySQL may return rows in any order. Only the order of strengths inside a bucket depends on it, and the summaries do not.
- Query.SquaredOffset: no lemma states that the squared offset is zero only at the query point. The solver's nonlinear real arithmetic does not settle it. The lemmas use concrete offsets instead (`PointIncluded`, `CornerExcluded`, `RefinementExceedsRectangle`), plus the bound `RefinementWithinLongitude`.
