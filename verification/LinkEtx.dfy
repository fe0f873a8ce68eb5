/** The smoothed link ETX of a neighbour: an eighth-weight moving average in integer fixed point. */
module LinkEtx {

  const ETX_FIXED_POINT := 128
  const MAX_LINK_METRIC := 512
  const FRESHNESS_MAX := 16

  /** What a frame says about its link: no link quality tag, or a success rate scaled to 0..255. */
  datatype Frame = Untagged | Tagged(lqi: nat)

  ghost predicate ValidFrame(f: Frame) {
    f.Tagged? ==> f.lqi <= 255
  }

  function Sample(f: Frame): (etx: nat)
    requires ValidFrame(f)
    ensures InRange(etx)
    ensures f.Tagged? && f.lqi == 255 ==> etx == ETX_FIXED_POINT
  {
    match f
    case Untagged => ETX_FIXED_POINT
    case Tagged(lqi) =>
      if lqi == 0 then MAX_LINK_METRIC
      else
        var instant := 255 * ETX_FIXED_POINT / lqi;
        SampleAtLeastOne(lqi);
        if instant < MAX_LINK_METRIC then instant else MAX_LINK_METRIC
  }

  lemma SampleAtLeastOne(lqi: nat)
    requires 0 < lqi <= 255
    ensures 255 * ETX_FIXED_POINT / lqi >= ETX_FIXED_POINT
    ensures lqi == 255 ==> 255 * ETX_FIXED_POINT / lqi == ETX_FIXED_POINT
  {
    var q, r := 255 * ETX_FIXED_POINT / lqi, 255 * ETX_FIXED_POINT % lqi;
    assert q * lqi + r == 255 * ETX_FIXED_POINT;
    assert q < ETX_FIXED_POINT ==> q * lqi <= (ETX_FIXED_POINT - 1) * lqi;
  }

  function Smooth(etx: nat, sample: nat): nat {
    etx - etx / 8 + sample / 8
  }

  /** How often a neighbour has been heard, up to a maximum, and the smoothed ETX of its link. */
  datatype Link = Link(freshness: nat, etx: nat)

  const UNHEARD := Link(0, ETX_FIXED_POINT)

  /** The first sample replaces the initial ETX outright. */
  function Refreshed(l: Link, sample: nat): Link {
    var freshness := if l.freshness + 1 < FRESHNESS_MAX then l.freshness + 1 else FRESHNESS_MAX;
    Link(freshness, if freshness <= 1 then sample else Smooth(l.etx, sample))
  }

  predicate InRange(etx: nat) {
    ETX_FIXED_POINT <= etx <= MAX_LINK_METRIC
  }

  /** One neighbour's link record, updated in place by every frame heard. */
  class LinkRecord {
    var freshness: nat
    var etx: nat

    constructor ()
      ensures Current() == UNHEARD
    {
      freshness, etx := 0, ETX_FIXED_POINT;
    }

    function Current(): Link
      reads this
    {
      Link(freshness, etx)
    }

    method Heard(f: Frame)
      requires ValidFrame(f) && InRange(etx) && freshness <= FRESHNESS_MAX
      modifies this
      ensures Current() == Refreshed(old(Current()), Sample(f))
      ensures InRange(etx) && freshness == if old(freshness) < FRESHNESS_MAX then old(freshness) + 1 else FRESHNESS_MAX
      ensures etx == if old(freshness) == 0 then Sample(f) else Smooth(old(etx), Sample(f))
    {
      freshness := if freshness + 1 < FRESHNESS_MAX then freshness + 1 else FRESHNESS_MAX;
      var sample := Sample(f);
      etx := if freshness <= 1 then sample else Smooth(etx, sample);
      SmoothStaysInRange(old(etx), sample);
    }
  }

  lemma SmoothStaysInRange(etx: nat, sample: nat)
    requires InRange(etx) && InRange(sample)
    ensures InRange(Smooth(etx, sample))
  {
  }

  /** A tag is inverted, 255 standing for an ETX of one, and rounded down; 512 caps it and stands for a tag of zero. */
  lemma SampleExactly(f: Frame)
    requires ValidFrame(f)
    ensures match f
            case Untagged => Sample(f) == 128
            case Tagged(lqi) =>
              if lqi * 512 <= 255 * 128 then Sample(f) == 512
              else Sample(f) * lqi <= 255 * 128 < (Sample(f) + 1) * lqi
  {
    if f.Tagged? && f.lqi > 0 {
      var lqi, q, r := f.lqi, 255 * ETX_FIXED_POINT / f.lqi, 255 * ETX_FIXED_POINT % f.lqi;
      assert q * lqi + r == 255 * ETX_FIXED_POINT && (q + 1) * lqi == q * lqi + lqi;
      if lqi * 512 <= 255 * 128 {
        assert q < 512 ==> (q + 1) * lqi <= 512 * lqi;
      } else {
        assert q >= 512 ==> q * lqi >= 512 * lqi;
      }
    }
  }

  /** Seven eighths of the old value and one of the sample, each short of a whole eighth rounded. */
  lemma SmoothIsWeighted(etx: nat, sample: nat)
    ensures 8 * Smooth(etx, sample) == 7 * etx + sample + etx % 8 - sample % 8
  {
  }

  function Iterate(etx: nat, sample: nat, steps: nat): nat {
    if steps == 0 then etx else Smooth(Iterate(etx, sample, steps - 1), sample)
  }

  /** A step under a constant sample moves towards the sample, strictly while the values differ in eighths, and
      never past it; once they agree in eighths it stays put. */
  lemma SmoothApproaches(etx: nat, sample: nat)
    ensures etx / 8 < sample / 8 ==> etx < Smooth(etx, sample) && Smooth(etx, sample) / 8 <= sample / 8
    ensures etx / 8 > sample / 8 ==> Smooth(etx, sample) < etx && Smooth(etx, sample) / 8 >= sample / 8
    ensures etx / 8 == sample / 8 ==> Smooth(etx, sample) == etx
  {
  }

  /** Under a constant sample the filter reaches the sample's value in eighths within as many frames as the two are
      apart, and never leaves it again. */
  lemma {:induction false} ConvergesInEighths(etx: nat, sample: nat, steps: nat)
    requires steps >= Distance(etx, sample)
    ensures Iterate(etx, sample, steps) / 8 == sample / 8
  {
    ProgressAfter(etx, sample, steps);
  }

  function Distance(etx: nat, sample: nat): nat {
    if etx / 8 < sample / 8 then sample / 8 * 8 - etx
    else if etx / 8 > sample / 8 then etx - (sample / 8 * 8 + 7)
    else 0
  }

  lemma {:induction false} ProgressAfter(etx: nat, sample: nat, steps: nat)
    ensures Distance(Iterate(etx, sample, steps), sample) + steps <= Distance(etx, sample)
            || Distance(Iterate(etx, sample, steps), sample) == 0
    ensures etx / 8 <= sample / 8 ==> Iterate(etx, sample, steps) / 8 <= sample / 8
    ensures etx / 8 >= sample / 8 ==> Iterate(etx, sample, steps) / 8 >= sample / 8
  {
    if steps > 0 {
      ProgressAfter(etx, sample, steps - 1);
      SmoothApproaches(Iterate(etx, sample, steps - 1), sample);
    }
  }
}
