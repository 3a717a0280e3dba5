/**
 * When the attribute extraction loop ends. Its body is followed iteration by iteration as it is
 * written, moving on by the length each header declares, with no case for a loop that stands still.
 */
module RadiusTermination {
  import opened Octets
  import opened RadiusAttributes
  import opened RadiusList
  import opened RadiusRoundTrip

  /** Where the loop is: at the octets still to read, past its end, or left by an exception. */
  datatype Progress = Reading(rest: Octets) | Finished | Raised(error: ParseError)

  /** The loop condition and one execution of the body. */
  function Iterate(rest: Octets): Progress
  {
    if rest == [] then Finished
    else match First(rest)
      case Err(e) => Raised(e)
      case Ok((_, length)) => Reading(Slice(rest, length, |rest|))
  }

  /** The loop after n iterations, or where it ended before. */
  function After(data: Octets, n: nat): Progress
    decreases n
  {
    if n == 0 then Reading(data)
    else match Iterate(data)
      case Reading(rest) => After(rest, n - 1)
      case end => end
  }

  /** The octets begin with an EAP-Message header that declares length 0. */
  predicate ZeroHeader(rest: Octets)
  {
    |rest| >= 2 && rest[0] == EAP_MESSAGE && rest[1] == 0
  }

  /** Some iteration stands at such a header. */
  predicate MeetsZeroHeader(data: Octets, n: nat)
  {
    After(data, n).Reading? && ZeroHeader(After(data, n).rest)
  }

  /** An iteration leaves the position where it was exactly at such a header. */
  lemma StandsStillIff(rest: Octets)
    requires rest != []
    ensures Iterate(rest) == Reading(rest) <==> ZeroHeader(rest)
    ensures First(rest).Ok? && First(rest).value.1 == 0 <==> ZeroHeader(rest)
  {
    if |rest| >= 2 && rest[1] == 0 {
      assert Slice(rest, HEADER_SIZE, 0) == [];
      assert Slice(rest, 0, |rest|) == rest;
    }
  }

  lemma {:induction false} AfterAdd(data: Octets, n: nat, k: nat)
    ensures After(data, n + k)
            == match After(data, n)
               case Reading(rest) => After(rest, k)
               case end => end
    decreases n
  {
    if n > 0 && Iterate(data).Reading? {
      AfterAdd(Iterate(data).rest, n - 1, k);
    }
  }

  lemma {:induction false} NeverLeaves(rest: Octets, k: nat)
    requires ZeroHeader(rest)
    ensures After(rest, k) == Reading(rest)
  {
    StandsStillIff(rest);
    if k > 0 {
      NeverLeaves(rest, k - 1);
    }
  }

  /** The loop ends as extraction says, or comes to a header it never leaves. */
  lemma {:induction false} LoopFollowsExtract(data: Octets) returns (n: nat)
    ensures match Extract(data)
            case Ok(_) => After(data, n) == Finished
            case Err(Diverges) => MeetsZeroHeader(data, n)
            case Err(e) => After(data, n) == Raised(e)
    decreases |data|
  {
    n := 1;
    if data != [] {
      StandsStillIff(data);
      if ZeroHeader(data) {
        n := 0;
      } else if First(data).Ok? {
        var rest := Slice(data, First(data).value.1, |data|);
        n := LoopFollowsExtract(rest);
        n := n + 1;
      }
    }
  }

  lemma MeetingNeverEnds(data: Octets, n: nat, m: nat)
    requires MeetsZeroHeader(data, n)
    ensures After(data, m).Reading?
  {
    if m >= n {
      AfterAdd(data, n, m - n);
      NeverLeaves(After(data, n).rest, m - n);
    } else {
      AfterAdd(data, m, n - m);
    }
  }

  /**
   * Extraction diverges if and only if no number of iterations ends the loop, and that is if and
   * only if some iteration stands at an EAP-Message header of length 0.
   */
  lemma DivergesIff(data: Octets)
    ensures Extract(data) == Err(Diverges) <==> forall n: nat :: After(data, n).Reading?
    ensures Extract(data) == Err(Diverges) <==> exists n: nat :: MeetsZeroHeader(data, n)
  {
    var k := LoopFollowsExtract(data);
    if n: nat :| MeetsZeroHeader(data, n) {
      forall m: nat ensures After(data, m).Reading? {
        MeetingNeverEnds(data, n, m);
      }
      assert After(data, k).Reading?;
    }
  }

  /** What one iteration makes of its octets: each error, and the attribute otherwise. */
  lemma HeaderOutcome(rest: Octets)
    requires rest != []
    ensures First(rest) == Err(ShortAttributeHeader) <==> |rest| == 1
    ensures |rest| >= 2 ==>
              var (typ, value) := (rest[0], Slice(rest, 2, rest[1]));
              && (First(rest) == Err(UnknownAttribute(typ)) <==> Lookup(typ).None?)
              && (First(rest) == Err(BadValue(typ)) <==> Lookup(typ).Some? && !IsValidLength(Lookup(typ).value, value))
              && (First(rest).Ok? ==> First(rest).value == (Attribute(typ, Lookup(typ).value, value), rest[1] as nat))
  {
  }

  /** Such octets: a header of length 0 behind any attributes, before anything else. */
  lemma ZeroHeaderDiverges(attrs: Attributes, tail: Octets)
    requires AllValid(attrs) && NoEap(attrs) && Packable(attrs)
    ensures Extract(PackList(attrs) + ([EAP_MESSAGE, 0] + tail)) == Err(Diverges)
    ensures Extract([EAP_MESSAGE, 0]) == Err(Diverges)
  {
    var rest: Octets := [EAP_MESSAGE, 0] + tail;
    StandsStillIff(rest);
    StandsStillIff([EAP_MESSAGE, 0]);
    ExtractPacked(attrs, rest);
  }
}
