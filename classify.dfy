/**
 * Carrier normalisation (`getProvider`) and the radio-type to generation
 * table (`typeToGen`).
 */
module Classify {
  import opened Wrappers
  import opened JsNumber

  /**
   * What `getProvider` receives: the literal text `all`, or anything else,
   * which the handler turns into a number with `Number(...)`; `None` stands
   * for a value that is not a number (NaN).
   */
  datatype ProviderInput = AllLiteral | Other(number: Option<real>)

  /** The wildcard result of `getProvider`: every carrier. */
  const AllCarriers: int := -1

  /** The result of `getProvider` for an unknown carrier. */
  const InvalidCarrier: int := 0

  /** Carrier indices 1..5 are the wire codes 22001..22005 less this base. */
  const CarrierCodeBase: int := 22000

  /** Number of known carriers. */
  const CarrierCount: int := 5

  /** The index of a known carrier. */
  predicate IsCarrierIndex(i: int) {
    1 <= i <= CarrierCount
  }

  /** The wire code of carrier index `i`. */
  function CarrierCode(i: int): (c: int)
    requires IsCarrierIndex(i)
    ensures 22001 <= c <= 22005
  {
    CarrierCodeBase + i
  }

  /**
   * `getProvider`: -1 for `all`; the index 1..5 when the rounded number is a
   * known carrier code; 0 for anything else, NaN included.
   */
  function GetProvider(p: ProviderInput): (r: int)
    ensures r == AllCarriers <==> p.AllLiteral?
    ensures IsCarrierIndex(r) <==>
              p.Other? && p.number.Some? && 22001 <= Round(p.number.value) <= 22005
    ensures IsCarrierIndex(r) ==> CarrierCode(r) == Round(p.number.value)
    ensures r == AllCarriers || r == InvalidCarrier || IsCarrierIndex(r)
  {
    match p
    case AllLiteral => AllCarriers
    case Other(None) => InvalidCarrier
    case Other(Some(x)) =>
      var n := Round(x);
      if n < 22001 || n > 22005 then InvalidCarrier else n - CarrierCodeBase
  }

  /** Normalising the wire code of a carrier gives back its index, and only that code does. */
  lemma CarrierCodeRoundTrip(i: int, x: real)
    requires IsCarrierIndex(i)
    ensures GetProvider(Other(Some(CarrierCode(i) as real))) == i
    ensures GetProvider(Other(Some(x))) == i <==> Round(x) == CarrierCode(i)
  {
  }

  /** Boundary values: `all`, codes inside the range and the codes just outside it. */
  lemma GetProviderExamples()
    ensures GetProvider(AllLiteral) == -1
    ensures GetProvider(Other(Some(22003.0))) == 3
    ensures GetProvider(Other(Some(22004.5))) == 5
    ensures GetProvider(Other(Some(22005.5))) == 0
    ensures GetProvider(Other(Some(22006.0))) == 0
    ensures GetProvider(Other(Some(22000.0))) == 0
    ensures GetProvider(Other(None)) == 0
  {
  }

  /**
   * `typeToGen`: the generation bucket 1..4 of a radio network-type code;
   * codes the table does not list fall into bucket 1.
   */
  function TypeToGen(t: int): (g: int)
    ensures 1 <= g <= 4
  {
    match t
    case 16 | 1 | 2 => 2
    case 3 | 17 | 8 | 9 | 10 | 15 => 3
    case 13 => 4
    case _ => 1
  }

  /** The radio technologies the table lists, with the code a phone reports for each. */
  datatype Radio = Gsm | Gprs | Edge | Umts | TdScdma | Hsdpa | Hsupa | Hspa | Hspap | Lte
  {
    function Code(): int {
      match this
      case Gsm => 16
      case Gprs => 1
      case Edge => 2
      case Umts => 3
      case TdScdma => 17
      case Hsdpa => 8
      case Hsupa => 9
      case Hspa => 10
      case Hspap => 15
      case Lte => 13
    }

    /** The marketing generation of the technology. */
    function Family(): Family {
      match this
      case Gsm => G2
      case Gprs | Edge => G25
      case Umts | TdScdma => G3
      case Hsdpa | Hsupa | Hspa | Hspap => G35
      case Lte => G4
    }
  }

  /** 2G, 2.5G, 3G, 3.5G and 4G. */
  datatype Family = G2 | G25 | G3 | G35 | G4

  /** The bucket a generation belongs to: 2G and 2.5G share one, so do 3G and 3.5G. */
  function FamilyBucket(f: Family): (g: int)
    ensures 2 <= g <= 4
  {
    match f
    case G2 | G25 => 2
    case G3 | G35 => 3
    case G4 => 4
  }

  /** Every radio technology, once each. */
  const KnownRadios: seq<Radio> :=
    [Gsm, Gprs, Edge, Umts, TdScdma, Hsdpa, Hsupa, Hspa, Hspap, Lte]

  /** The first technology in `rs[i..]` that reports code `t`. */
  function FindRadio(rs: seq<Radio>, i: nat, t: int): (r: Option<Radio>)
    requires i <= |rs|
    ensures r.Some? ==> r.value in rs[i..] && r.value.Code() == t
    ensures r.None? ==> forall j :: i <= j < |rs| ==> rs[j].Code() != t
    decreases |rs| - i
  {
    if i == |rs| then None
    else if rs[i].Code() == t then Some(rs[i])
    else FindRadio(rs, i + 1, t)
  }

  /** Reference bucket of a code, read off the named technologies. */
  function ReferenceGen(t: int): int {
    match FindRadio(KnownRadios, 0, t)
    case Some(r) => FamilyBucket(r.Family())
    case None => 1
  }

  /**
   * The switch agrees with the named technologies: a code that belongs to a
   * technology gets that technology's bucket, and every other code bucket 1.
   */
  lemma TypeToGenIsReference(t: int)
    ensures TypeToGen(t) == ReferenceGen(t)
    ensures TypeToGen(t) == 1 <==> forall r: Radio :: r.Code() != t
  {
  }

  /** The groups the switch names, case by case. */
  lemma TypeToGenTable(t: int)
    ensures TypeToGen(t) == 2 <==> t in {16, 1, 2}
    ensures TypeToGen(t) == 3 <==> t in {3, 17, 8, 9, 10, 15}
    ensures TypeToGen(t) == 4 <==> t == 13
    ensures TypeToGen(t) == 1 <==> t !in {16, 1, 2, 3, 17, 8, 9, 10, 15, 13}
  {
  }
}
