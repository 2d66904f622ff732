/** The distance-tiered tariff of `PricingService`: a recommended price for a
    distance, and the `{min, recommended, max}` band offered for a whole ride and
    for a single segment. Doubles are modelled as reals and `Math.round(x)` as
    `floor(x + 0.5)`. */
module Pricing {

  const BaseFare: real := 50.0
  const RatePerKmShort: real := 2.2    // below 100 km
  const RatePerKmMedium: real := 2.0   // 100 km to 300 km inclusive
  const RatePerKmLong: real := 1.8     // above 300 km
  const MinRecommendedPrice: real := 50.0

  /** The constants that differ between the whole-ride band and a segment band. */
  datatype Band = Band(minFactor: real, absoluteMin: real, maxFactor: real, minWidth: real)

  const TotalBand := Band(0.6, 50.0, 1.7, 100.0)
  const SegmentBand := Band(0.5, 30.0, 2.0, 50.0)

  datatype PriceRange = PriceRange(minPrice: real, maxPrice: real, recommendedPrice: real)

  /** A price that is a whole multiple of 10. */
  predicate MultipleOf10(x: real) {
    (x / 10.0).Floor as real * 10.0 == x
  }

  /** Java's `Math.round` on a double, ties rounded up. */
  function Round(x: real): (r: int)
    ensures x - 0.5 < r as real <= x + 0.5
  {
    (x + 0.5).Floor
  }

  /** `roundToNearest10`: the multiple of 10 closest to `price`, ties up. */
  function RoundToNearest10(price: real): (r: real)
    ensures MultipleOf10(r)
    ensures r - 5.0 <= price < r + 5.0
  {
    var k := Round(price / 10.0);
    assert (k as real * 10.0 / 10.0).Floor == k;
    k as real * 10.0
  }

  lemma FloorMonotone(x: real, y: real)
    requires x <= y
    ensures x.Floor <= y.Floor
  {
  }

  /** Rounding to 10 never reverses the order of two prices. */
  lemma RoundToNearest10Monotone(x: real, y: real)
    requires x <= y
    ensures RoundToNearest10(x) <= RoundToNearest10(y)
  {
    FloorMonotone(x / 10.0 + 0.5, y / 10.0 + 0.5);
  }

  /** A multiple of 10 is left unchanged by rounding to 10. */
  lemma RoundToNearest10Fixed(x: real)
    requires MultipleOf10(x)
    ensures RoundToNearest10(x) == x
  {
    var k := (x / 10.0).Floor;
    assert k as real * 10.0 == x;
    assert x / 10.0 == k as real;
    assert (k as real + 0.5).Floor == k;
  }

  /** A value between two multiples of 10 still lies between them once rounded. */
  lemma RoundToNearest10Between(x: real, lo: real, hi: real)
    requires MultipleOf10(lo) && MultipleOf10(hi)
    requires lo <= x <= hi
    ensures lo <= RoundToNearest10(x) <= hi
  {
    RoundToNearest10Monotone(lo, x);
    RoundToNearest10Monotone(x, hi);
    RoundToNearest10Fixed(lo);
    RoundToNearest10Fixed(hi);
  }

  function Max(a: real, b: real): real {
    if a >= b then a else b
  }

  function Min(a: real, b: real): real {
    if a <= b then a else b
  }

  /** The per-km rate of the tier a positive distance falls in. */
  function RateFor(distanceKm: real): real {
    if distanceKm < 100.0 then RatePerKmShort
    else if distanceKm <= 300.0 then RatePerKmMedium
    else RatePerKmLong
  }

  /** `calculateRecommendedPrice`. */
  function RecommendedPrice(distanceKm: real): (r: real)
    ensures MultipleOf10(r)
    ensures r >= MinRecommendedPrice
    ensures distanceKm <= 0.0 ==> r == MinRecommendedPrice
  {
    if distanceKm <= 0.0 then
      assert (MinRecommendedPrice / 10.0).Floor == 5;
      MinRecommendedPrice
    else
      var rounded := RoundToNearest10(BaseFare + distanceKm * RateFor(distanceKm));
      if rounded >= MinRecommendedPrice then rounded
      else
        assert (MinRecommendedPrice / 10.0).Floor == 5;
        MinRecommendedPrice
  }

  /** The band's lower bound for a recommended price. */
  function BandMin(band: Band, recommended: real): real {
    Max(band.absoluteMin, RoundToNearest10(recommended * band.minFactor))
  }

  /** The band's upper bound, kept at least `minWidth` above the lower one. */
  function BandMax(band: Band, minPrice: real, recommended: real): real {
    Max(minPrice + band.minWidth, RoundToNearest10(recommended * band.maxFactor))
  }

  /** The band around a recommended price. */
  function RangeAround(band: Band, recommended: real): PriceRange {
    var minPrice := BandMin(band, recommended);
    PriceRange(minPrice, BandMax(band, minPrice, recommended), recommended)
  }

  /** The band shared by `getTotalPriceRange` and `getSegmentPriceRange`. */
  function RangeFor(band: Band, distanceKm: real): PriceRange {
    RangeAround(band, RecommendedPrice(distanceKm))
  }

  /** `v` is the larger of `floor` and the multiple of 10 nearest to `x` (ties up):
      either `floor` itself, with `x` rounding to at most `floor`, or a multiple of 10
      above `floor` within 5 of `x`. */
  predicate AtLeastNearest10(v: real, floor: real, x: real) {
    (v == floor && x < floor + 5.0) || (v > floor && v - 5.0 <= x < v + 5.0)
  }

  /** Two multiples of 10 that differ are at least 10 apart. */
  lemma MultiplesOf10Apart(v: real, w: real)
    requires MultipleOf10(v) && MultipleOf10(w) && v < w
    ensures w - v >= 10.0
  {
    var kv := (v / 10.0).Floor;
    var kw := (w / 10.0).Floor;
    assert kv as real * 10.0 < kw as real * 10.0;
    assert kv < kw;
  }

  /** The nearest multiple of 10 is unique. */
  lemma Nearest10Unique(x: real, v: real, w: real)
    requires MultipleOf10(v) && MultipleOf10(w)
    requires v - 5.0 <= x < v + 5.0 && w - 5.0 <= x < w + 5.0
    ensures v == w
  {
    if v < w {
      MultiplesOf10Apart(v, w);
    } else if w < v {
      MultiplesOf10Apart(w, v);
    }
  }

  /** `AtLeastNearest10` pins a multiple of 10 down: two candidates for the same
      floor and value coincide. */
  lemma AtLeastNearest10Unique(v: real, w: real, floor: real, x: real)
    requires MultipleOf10(v) && MultipleOf10(w) && MultipleOf10(floor)
    requires AtLeastNearest10(v, floor, x) && AtLeastNearest10(w, floor, x)
    ensures v == w
  {
    if v > floor && w > floor {
      Nearest10Unique(x, v, w);
    } else if v > floor {
      MultiplesOf10Apart(floor, v);
    } else if w > floor {
      MultiplesOf10Apart(floor, w);
    }
  }

  /** A band bound: the floor, raised to the rounded scaled price when that is higher. */
  lemma MaxRoundedIsAtLeastNearest(floor: real, x: real)
    ensures AtLeastNearest10(Max(floor, RoundToNearest10(x)), floor, x)
  {
  }

  /** `getTotalPriceRange`. */
  function TotalPriceRange(totalDistanceKm: real): (r: PriceRange)
    ensures r.recommendedPrice == RecommendedPrice(totalDistanceKm)
    ensures 50.0 <= r.minPrice <= r.recommendedPrice <= r.maxPrice
    ensures r.maxPrice - r.minPrice >= 100.0
    ensures MultipleOf10(r.minPrice) && MultipleOf10(r.recommendedPrice) && MultipleOf10(r.maxPrice)
    ensures AtLeastNearest10(r.minPrice, 50.0, r.recommendedPrice * 0.6)
    ensures AtLeastNearest10(r.maxPrice, r.minPrice + 100.0, r.recommendedPrice * 1.7)
  {
    var rec := RecommendedPrice(totalDistanceKm);
    MaxRoundedIsAtLeastNearest(50.0, rec * 0.6);
    MaxRoundedIsAtLeastNearest(Max(50.0, RoundToNearest10(rec * 0.6)) + 100.0, rec * 1.7);
    ScaledAround(rec, 0.6, 1.7);
    assert MultipleOf10(50.0) && MultipleOf10(100.0) by {
      assert (50.0 / 10.0).Floor == 5 && (100.0 / 10.0).Floor == 10;
    }
    BoundsOrdered(50.0, 100.0, RoundToNearest10(rec * 0.6), RoundToNearest10(rec * 1.7), rec);
    RangeFor(TotalBand, totalDistanceKm)
  }

  /** `getSegmentPriceRange`. */
  function SegmentPriceRange(segmentDistanceKm: real): (r: PriceRange)
    ensures r.recommendedPrice == RecommendedPrice(segmentDistanceKm)
    ensures 30.0 <= r.minPrice <= r.recommendedPrice <= r.maxPrice
    ensures r.maxPrice - r.minPrice >= 50.0
    ensures MultipleOf10(r.minPrice) && MultipleOf10(r.recommendedPrice) && MultipleOf10(r.maxPrice)
    ensures AtLeastNearest10(r.minPrice, 30.0, r.recommendedPrice * 0.5)
    ensures AtLeastNearest10(r.maxPrice, r.minPrice + 50.0, r.recommendedPrice * 2.0)
  {
    var rec := RecommendedPrice(segmentDistanceKm);
    MaxRoundedIsAtLeastNearest(30.0, rec * 0.5);
    MaxRoundedIsAtLeastNearest(Max(30.0, RoundToNearest10(rec * 0.5)) + 50.0, rec * 2.0);
    ScaledAround(rec, 0.5, 2.0);
    assert MultipleOf10(30.0) && MultipleOf10(50.0) by {
      assert (30.0 / 10.0).Floor == 3 && (50.0 / 10.0).Floor == 5;
    }
    BoundsOrdered(30.0, 50.0, RoundToNearest10(rec * 0.5), RoundToNearest10(rec * 2.0), rec);
    RangeFor(SegmentBand, segmentDistanceKm)
  }

  /** The `Math.max` floors keep a lower and an upper candidate around `rec` ordered. */
  lemma BoundsOrdered(absoluteMin: real, width: real, low: real, high: real, rec: real)
    requires MultipleOf10(absoluteMin) && MultipleOf10(width) && MultipleOf10(low) && MultipleOf10(high)
    requires absoluteMin <= rec && low <= rec <= high && width >= 0.0
    ensures var lo := Max(absoluteMin, low);
      var hi := Max(lo + width, high);
      && absoluteMin <= lo <= rec <= hi && hi - lo >= width
      && MultipleOf10(lo) && MultipleOf10(hi)
  {
    MultipleOf10Sum(Max(absoluteMin, low), width);
  }

  /** Scaling a multiple of 10 down then rounding does not exceed it; scaling up does not fall below it. */
  lemma ScaledAround(rec: real, down: real, up: real)
    requires MultipleOf10(rec) && rec >= 0.0
    requires 0.0 <= down <= 1.0 <= up
    ensures RoundToNearest10(rec * down) <= rec <= RoundToNearest10(rec * up)
  {
    assert rec * down <= rec by {
      MulNonNegative(rec, 1.0 - down);
      assert rec * (1.0 - down) == rec - rec * down;
    }
    assert rec <= rec * up by {
      MulNonNegative(rec, up - 1.0);
      assert rec * (up - 1.0) == rec * up - rec;
    }
    RoundToNearest10Monotone(rec * down, rec);
    RoundToNearest10Monotone(rec, rec * up);
    RoundToNearest10Fixed(rec);
  }

  lemma MultipleOf10Sum(a: real, b: real)
    requires MultipleOf10(a) && MultipleOf10(b)
    ensures MultipleOf10(a + b)
  {
    var ka := (a / 10.0).Floor;
    var kb := (b / 10.0).Floor;
    assert a + b == (ka + kb) as real * 10.0;
    assert (a + b) / 10.0 == (ka + kb) as real;
    assert ((ka + kb) as real).Floor == ka + kb;
  }

  lemma MulNonNegative(x: real, y: real)
    requires x >= 0.0 && y >= 0.0
    ensures x * y >= 0.0
  {
  }

  // ---------------------------------------------------------------- tier edges

  /** A positive distance is priced at the tier formula `50 + d * rate`, rounded to the
      nearest 10 (ties up). */
  lemma RecommendedPriceNearTariff(d: real)
    requires d > 0.0
    ensures var raw := BaseFare + d * RateFor(d);
      RecommendedPrice(d) - 5.0 <= raw < RecommendedPrice(d) + 5.0
  {
    assert d * RateFor(d) > 0.0;
  }

  /** A distance of zero or less is always priced at exactly 50. */
  lemma NonPositiveDistanceIsMinimum(d: real)
    requires d <= 0.0
    ensures RecommendedPrice(d) == 50.0
    ensures TotalPriceRange(d) == PriceRange(50.0, 150.0, 50.0)
  {
    assert RoundToNearest10(30.0) == 30.0 by { RoundToNearest10Fixed(30.0); }
    assert RoundToNearest10(85.0) == 90.0 by {
      assert (85.0 / 10.0 + 0.5).Floor == 9;
    }
  }

  /** The tariff is not monotone across the 100 km edge: 99 km costs more than 100 km. */
  lemma NotMonotoneAtFirstTierEdge()
    ensures RecommendedPrice(99.0) == 270.0
    ensures RecommendedPrice(100.0) == 250.0
    ensures RecommendedPrice(99.0) > RecommendedPrice(100.0)
  {
    assert (267.8 / 10.0 + 0.5).Floor == 27;
    assert (250.0 / 10.0 + 0.5).Floor == 25;
  }

  /** The 300 km edge belongs to the middle tier, 301 km to the long tier. */
  lemma ThirdTierEdge()
    ensures RecommendedPrice(300.0) == 650.0
    ensures RecommendedPrice(301.0) == 590.0
  {
    assert (650.0 / 10.0 + 0.5).Floor == 65;
    assert (591.8 / 10.0 + 0.5).Floor == 59;
  }
}
