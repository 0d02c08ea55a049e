/** Market concentration (HHI), competitor landscape, trend and the four-part opportunity score. */
module MarketInsight {
  import opened Common
  import opened Numbers

  datatype Product = Product(price: Option<real>, rating: Option<real>, reviewCount: Option<int>)
  datatype Barrier = LowBarrier | MediumBarrier | HighBarrier
  datatype Direction = Up | Stable | Down
  datatype Recommendation = StrongRecommend | Recommend | Caution | Avoid
  datatype RiskFactor = Concentrated | Declining | NarrowPrices

  datatype Landscape = Landscape(total: nat, hhi: real, low: real, high: real, barrier: Barrier)
  datatype Trend = Trend(direction: Direction, strength: int, confidence: int)
  datatype Opportunity = Opportunity(
    overall: real,
    size: real,
    growth: real,
    competition: real,
    margin: real,
    recommendation: Recommendation,
    risks: seq<RiskFactor>)

  // ----- the index

  function Sum(s: seq<real>): real {
    if s == [] then 0.0 else Sum(s[..|s| - 1]) + s[|s| - 1]
  }

  function Squared(x: real): real { x * x }

  function Squares(s: seq<real>): (q: seq<real>)
    ensures |q| == |s|
  {
    seq(|s|, i requires 0 <= i < |s| => Squared(s[i]))
  }

  function Shares(s: seq<real>): (t: seq<real>)
    requires Sum(s) != 0.0
    ensures |t| == |s|
  {
    seq(|s|, i requires 0 <= i < |s| => s[i] / Sum(s))
  }

  /** A missing count is one review, and no product has fewer than one. */
  function Reviews(products: seq<Product>): (r: seq<real>)
    ensures |r| == |products|
    ensures forall i :: 0 <= i < |r| ==> r[i] >= 1.0
  {
    seq(|products|, i requires 0 <= i < |products| =>
      var c := products[i].reviewCount;
      if c.Some? && c.value >= 1 then c.value as real else 1.0)
  }

  /** The index before rounding. */
  function Concentration(reviews: seq<real>): real
    requires Sum(reviews) != 0.0
  {
    Sum(Squares(Shares(reviews))) * 10000.0
  }

  function Hhi(products: seq<Product>): real {
    if |products| < 2 then 0.0
    else
      SumAtLeast(Reviews(products));
      Round2(Concentration(Reviews(products)))
  }

  // ----- the analysis

  function Present(values: seq<Option<real>>): seq<real> {
    if values == [] then []
    else
      var last := values[|values| - 1];
      Present(values[..|values| - 1]) + (if last.Some? && last.value != 0.0 then [last.value] else [])
  }

  function PriceFields(products: seq<Product>): (v: seq<Option<real>>)
    ensures |v| == |products| && forall i :: 0 <= i < |v| ==> v[i] == products[i].price
  {
    seq(|products|, i requires 0 <= i < |products| => products[i].price)
  }

  function RatingFields(products: seq<Product>): (v: seq<Option<real>>)
    ensures |v| == |products| && forall i :: 0 <= i < |v| ==> v[i] == products[i].rating
  {
    seq(|products|, i requires 0 <= i < |products| => products[i].rating)
  }

  function Prices(products: seq<Product>): seq<real> { Present(PriceFields(products)) }

  function Ratings(products: seq<Product>): seq<real> { Present(RatingFields(products)) }

  function MinOf(s: seq<real>): real
    requires s != []
  {
    if |s| == 1 then s[0] else var m := MinOf(s[1..]); if s[0] <= m then s[0] else m
  }

  function MaxOf(s: seq<real>): real
    requires s != []
  {
    if |s| == 1 then s[0] else var m := MaxOf(s[1..]); if s[0] >= m then s[0] else m
  }

  function BarrierOf(hhi: real): Barrier {
    if hhi > 2000.0 then HighBarrier else if hhi > 1000.0 then MediumBarrier else LowBarrier
  }

  function AnalyzeLandscape(products: seq<Product>): Landscape {
    if products == [] then Landscape(0, 0.0, 0.0, 0.0, MediumBarrier)
    else
      var prices := Prices(products);
      var hhi := Hhi(products);
      var (low, high) := if prices == [] then (0.0, 0.0) else (MinOf(prices), MaxOf(prices));
      Landscape(|products|, hhi, low, high, BarrierOf(hhi))
  }

  function AtLeast(s: seq<real>, bound: real): (n: nat)
    ensures n <= |s|
  {
    if s == [] then 0 else AtLeast(s[1..], bound) + (if s[0] >= bound then 1 else 0)
  }

  function Mean(s: seq<real>): real {
    Sum(s) / (if |s| == 0 then 1 else |s|) as real
  }

  function HighRatingRatio(ratings: seq<real>): real {
    AtLeast(ratings, 4.0) as real / (if |ratings| == 0 then 1 else |ratings|) as real
  }

  function IdentifyTrends(products: seq<Product>): Trend {
    if products == [] then Trend(Stable, 50, 50)
    else
      var ratio := HighRatingRatio(Ratings(products));
      var direction :=
        if ratio > 0.6 && Mean(Prices(products)) > 30.0 then Up
        else if ratio > 0.4 then Stable
        else Down;
      var strength := (ratio * 100.0).Floor;
      var confidence := 50 + |products| / 2;
      Trend(direction, if strength <= 100 then strength else 100, if confidence <= 95 then confidence else 95)
  }

  function CompetitionScore(hhi: real): real {
    if hhi < 1000.0 then 22.0 else if hhi < 2000.0 then 15.0 else if hhi < 3000.0 then 8.0 else 3.0
  }

  function Capped(x: real): real {
    if x <= 25.0 then x else 25.0
  }

  function RecommendationOf(overall: real): Recommendation {
    if overall >= 75.0 then StrongRecommend
    else if overall >= 55.0 then Recommend
    else if overall >= 35.0 then Caution
    else Avoid
  }

  function CalculateOpportunity(som: real, landscape: Landscape, trend: Trend): Opportunity {
    var size := if som > 0.0 then Capped(som / 100000000.0 * 25.0) else 5.0;
    var growth := (trend.strength + trend.confidence) as real / 2.0 / 4.0;
    var competition := CompetitionScore(landscape.hhi);
    var width := landscape.high - landscape.low;
    var margin := if width > 0.0 then Capped(width / 100.0 * 25.0) else 5.0;
    var overall := size + growth + competition + margin;
    Opportunity(overall, size, growth, competition, margin, RecommendationOf(overall),
      (if landscape.hhi > 2500.0 then [Concentrated] else [])
      + (if trend.direction == Down then [Declining] else [])
      + (if width < 20.0 then [NarrowPrices] else []))
  }

  /** Landscape, trend and score of one run over the products found. */
  function Assess(som: real, products: seq<Product>): Opportunity {
    CalculateOpportunity(som, AnalyzeLandscape(products), IdentifyTrends(products))
  }

  lemma {:induction false} SumAtLeast(s: seq<real>)
    requires forall i :: 0 <= i < |s| ==> s[i] >= 1.0
    ensures Sum(s) >= |s| as real
  {
    if s != [] {
      SumAtLeast(s[..|s| - 1]);
    }
  }
}
