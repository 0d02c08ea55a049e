/** The market analysis from the products alone: review counts, prices and ratings in, index, trend and score out. */
module MarketFacts {
  import opened Common
  import opened Numbers
  import opened MarketInsight
  import opened MarketTheory

  // ----- concentration

  /** What a product counts for: its reviews, but at least one. */
  ghost predicate CountsOf(products: seq<Product>, counts: seq<real>) {
    && |counts| == |products|
    && forall i :: 0 <= i < |products| ==>
      counts[i] == match products[i].reviewCount
        case None => 1.0
        case Some(c) => if c < 1 then 1.0 else c as real
  }

  ghost predicate SquaresOf(counts: seq<real>, squares: seq<real>) {
    |squares| == |counts| && forall i :: 0 <= i < |counts| ==> squares[i] == counts[i] * counts[i]
  }

  lemma CountsAreReviews(products: seq<Product>, counts: seq<real>)
    requires CountsOf(products, counts)
    ensures counts == Reviews(products)
  {
  }

  /** The index is 10000 times the sum of the squared counts over the squared sum of counts, to half a hundredth. */
  lemma HhiFromTheCounts(products: seq<Product>, counts: seq<real>, squares: seq<real>,
      total: real, q: real, whole: real)
    requires 2 <= |products| && CountsOf(products, counts) && SquaresOf(counts, squares)
    requires total == Sum(counts) && q == Sum(squares) && whole == total * total
    ensures 0.0 < whole && (Hhi(products) - 0.005) * whole <= 10000.0 * q <= (Hhi(products) + 0.005) * whole
  {
    hide *;
    CountsAreReviews(products, counts);
    SquaresAre(counts, squares);
    HhiIs(products, counts, total);
    ConcentrationIsQuotient(counts, total, q);
    PositiveSquare(total, whole);
    var exact := q / whole * 10000.0;
    Round2Near(exact);
    Scaled(q, whole, exact, Round2(exact));
  }

  lemma SquaresAre(counts: seq<real>, squares: seq<real>)
    requires SquaresOf(counts, squares)
    ensures squares == Squares(counts)
  {
  }

  lemma HhiIs(products: seq<Product>, counts: seq<real>, total: real)
    requires 2 <= |products| && counts == Reviews(products) && total == Sum(counts)
    ensures 2.0 <= total && Hhi(products) == Round2(Concentration(counts))
  {
    SumAtLeast(counts);
    hide Sum, Concentration, Round2;
  }

  lemma PositiveSquare(total: real, whole: real)
    requires 2.0 <= total && whole == total * total
    ensures 0.0 < whole
  {
    ProductStrict(0.0, total, total, total);
  }

  lemma Scaled(q: real, whole: real, exact: real, shown: real)
    requires 0.0 < whole && exact == q / whole * 10000.0 && exact - 0.005 <= shown <= exact + 0.005
    ensures (shown - 0.005) * whole <= 10000.0 * q <= (shown + 0.005) * whole
  {
    var ratio := q / whole;
    assert ratio * whole == q;
    assert exact * whole == 10000.0 * q;
    ProductGap(exact - shown + 0.005, whole);
    ProductGap(shown + 0.005 - exact, whole);
  }

  lemma {:induction false} OneSquare(squares: seq<real>, i: nat, total: real)
    requires i < |squares| && total == Sum(squares) && forall k :: 0 <= k < |squares| ==> 0.0 <= squares[k]
    ensures squares[i] <= total
  {
    var n := |squares| - 1;
    if i < n {
      OneSquare(squares[..n], i, Sum(squares[..n]));
    } else {
      NonNegativeSum(squares[..n]);
    }
  }

  lemma {:induction false} NonNegativeSum(s: seq<real>)
    requires forall k :: 0 <= k < |s| ==> 0.0 <= s[k]
    ensures 0.0 <= Sum(s)
  {
    if s != [] {
      NonNegativeSum(s[..|s| - 1]);
    }
  }

  /** A product holding a share of the counts forces the index up to 10000 times the square of the share. */
  lemma DominantProduct(products: seq<Product>, counts: seq<real>, i: nat, share: real)
    requires 2 <= |products| && CountsOf(products, counts) && i < |products|
    requires 0.0 <= share && counts[i] == share * Sum(counts)
    ensures Hhi(products) >= 10000.0 * (share * share) - 0.005
  {
    hide *;
    var squares, total := Squares(counts), Sum(counts);
    var q, whole := Sum(squares), total * total;
    SquaresExist(counts, squares);
    SameLength(products, counts);
    HhiFromTheCounts(products, counts, squares, total, q, whole);
    SquaresAreNonNegative(counts, squares, i);
    OneSquare(squares, i, q);
    ShareSquared(counts[i], share, total, whole);
    Dominates(q, whole, share * share, Hhi(products));
  }

  lemma SameLength(products: seq<Product>, counts: seq<real>)
    requires CountsOf(products, counts)
    ensures |counts| == |products|
  {
  }

  lemma SquaresExist(counts: seq<real>, squares: seq<real>)
    requires squares == Squares(counts)
    ensures SquaresOf(counts, squares)
  {
  }

  lemma SquaresAreNonNegative(counts: seq<real>, squares: seq<real>, i: nat)
    requires SquaresOf(counts, squares) && i < |counts|
    ensures |squares| == |counts| && squares[i] == counts[i] * counts[i]
    ensures forall k :: 0 <= k < |squares| ==> 0.0 <= squares[k]
  {
    forall k | 0 <= k < |squares|
      ensures 0.0 <= squares[k]
    {
      Square(counts[k]);
    }
  }

  lemma ShareSquared(count: real, share: real, total: real, whole: real)
    requires count == share * total && whole == total * total
    ensures count * count == share * share * whole
  {
  }

  lemma Dominates(q: real, whole: real, squared: real, hhi: real)
    requires 0.0 < whole && squared * whole <= q && 10000.0 * q <= (hhi + 0.005) * whole
    ensures hhi >= 10000.0 * squared - 0.005
  {
    assert whole * (10000.0 * squared) == 10000.0 * (squared * whole);
    CancelOrder(whole, 10000.0 * squared, hhi + 0.005);
  }

  /** A dominant product closes the tiers: at a share of 0.317, 0.448 and 0.548 the score is at most 15, 8 and 3. */
  lemma DominanceCapsTheScore(products: seq<Product>, counts: seq<real>, i: nat, share: real, som: real)
    requires 2 <= |products| && CountsOf(products, counts) && i < |products|
    requires 0.0 <= share && counts[i] == share * Sum(counts)
    ensures 0.317 <= share ==> Assess(som, products).competition <= 15.0 && BarrierOf(Hhi(products)) != LowBarrier
    ensures 0.448 <= share ==> Assess(som, products).competition <= 8.0 && BarrierOf(Hhi(products)) == HighBarrier
    ensures 0.548 <= share ==> Assess(som, products).competition == 3.0
  {
    DominantProduct(products, counts, i, share);
    hide Hhi, Sum, CountsOf, IdentifyTrends, Prices;
    if 0.317 <= share {
      ProductMonotone(0.317, share, 0.317, share);
    }
    if 0.448 <= share {
      ProductMonotone(0.448, share, 0.448, share);
    }
    if 0.548 <= share {
      ProductMonotone(0.548, share, 0.548, share);
    }
  }

  // ----- prices and ratings

  /** A field counts when it is there and not zero. */
  function Counted(field: Option<real>): bool { field.Some? && field.value != 0.0 }

  function HowMany(fields: seq<Option<real>>, atLeast: real): (n: nat)
    ensures n <= |fields|
  {
    if fields == [] then 0
    else
      var last := fields[|fields| - 1];
      HowMany(fields[..|fields| - 1], atLeast) + (if Counted(last) && last.value >= atLeast then 1 else 0)
  }

  lemma {:induction false} PresentMembers(fields: seq<Option<real>>, x: real)
    ensures x in Present(fields) <==> x != 0.0 && Some(x) in fields
  {
    if fields != [] {
      var n := |fields| - 1;
      PresentMembers(fields[..n], x);
      assert fields == fields[..n] + [fields[n]];
    }
  }

  lemma {:induction false} AtLeastSnoc(s: seq<real>, x: real, bound: real)
    ensures AtLeast(s + [x], bound) == AtLeast(s, bound) + (if x >= bound then 1 else 0)
  {
    if s == [] {
      assert s + [x] == [x] && [x][1..] == [];
    } else {
      AtLeastSnoc(s[1..], x, bound);
      assert (s + [x])[1..] == s[1..] + [x];
    }
  }

  /** How many fields count, and their total. */
  function CountedIn(fields: seq<Option<real>>): nat {
    if fields == [] then 0
    else CountedIn(fields[..|fields| - 1]) + (if Counted(fields[|fields| - 1]) then 1 else 0)
  }

  function TotalIn(fields: seq<Option<real>>): real {
    if fields == [] then 0.0
    else
      TotalIn(fields[..|fields| - 1])
      + (if fields[|fields| - 1].Some? then fields[|fields| - 1].value else 0.0)
  }

  lemma {:induction false} CountPresent(fields: seq<Option<real>>, bound: real)
    ensures AtLeast(Present(fields), bound) == HowMany(fields, bound)
    ensures |Present(fields)| == CountedIn(fields) && Sum(Present(fields)) == TotalIn(fields)
  {
    if fields != [] {
      var n := |fields| - 1;
      CountPresent(fields[..n], bound);
      hide AtLeast, Sum;
      if Counted(fields[n]) {
        assert Present(fields) == Present(fields[..n]) + [fields[n].value];
        AtLeastSnoc(Present(fields[..n]), fields[n].value, bound);
        SumOfSnoc(Present(fields[..n]), fields[n].value);
      } else {
        assert Present(fields) == Present(fields[..n]);
      }
    } else {
      NoPriceNoTotal([]);
      NoneAtLeast(bound);
    }
  }

  lemma NoneAtLeast(bound: real)
    ensures AtLeast([], bound) == 0
  {
  }

  lemma SumOfSnoc(s: seq<real>, x: real)
    ensures Sum(s + [x]) == Sum(s) + x
  {
    assert (s + [x])[..|s|] == s;
  }

  /** The landscape's price range is met by products and contains every price there is; without one it is 0 to 0. */
  lemma PriceRangeFromTheProducts(products: seq<Product>)
    ensures var l := AnalyzeLandscape(products);
      && (forall p :: p in products && Counted(p.price) ==> l.low <= p.price.value <= l.high)
      && ((exists p :: p in products && Counted(p.price)) ==>
        (exists p :: p in products && Counted(p.price) && p.price.value == l.low)
        && (exists p :: p in products && Counted(p.price) && p.price.value == l.high))
      && ((forall p :: p in products ==> !Counted(p.price)) ==> l.low == l.high == 0.0)
      && l.total == |products|
  {
    var fields, prices := PriceFields(products), Prices(products);
    hide Hhi, BarrierOf;
    forall p | p in products && Counted(p.price)
      ensures p.price.value in prices
    {
      var i :| 0 <= i < |products| && products[i] == p;
      assert fields[i] == p.price;
      PresentMembers(fields, p.price.value);
    }
    if prices != [] {
      MinBelowMax(prices);
      Priced(products, MinOf(prices));
      Priced(products, MaxOf(prices));
    }
  }

  lemma Priced(products: seq<Product>, x: real)
    requires x in Prices(products)
    ensures exists p :: p in products && Counted(p.price) && p.price.value == x
  {
    var fields := PriceFields(products);
    PresentMembers(fields, x);
    var i :| 0 <= i < |fields| && fields[i] == Some(x);
    assert products[i] in products;
  }

  /** Strength is the percentage of rated products at 4.0 or above, rounded down; half the products add confidence. */
  lemma {:induction false} TrendFromTheProducts(products: seq<Product>,
      ratings: seq<Option<real>>, prices: seq<Option<real>>, rated: nat, high: nat, total: real, priced: nat)
    requires products != [] && |ratings| == |prices| == |products|
    requires forall i :: 0 <= i < |products| ==> ratings[i] == products[i].rating && prices[i] == products[i].price
    requires rated == CountedIn(ratings) && high == HowMany(ratings, 4.0)
    requires total == TotalIn(prices) && priced == CountedIn(prices)
    ensures high <= rated
    ensures var t := IdentifyTrends(products);
      && (rated == 0 ==> t.strength == 0)
      && (rated > 0 ==> t.strength * rated <= 100 * high < (t.strength + 1) * rated)
      && t.confidence == (if |products| / 2 <= 45 then 50 + |products| / 2 else 95)
      && (t.direction == Up <==> 5 * high > 3 * rated && total > 30.0 * priced as real)
      && (t.direction == Down <==> 5 * high <= 2 * rated)
  {
    hide *;
    SameFields(products, ratings, prices);
    CountPresent(ratings, 4.0);
    CountPresent(prices, 4.0);
    NoPriceNoTotal(Present(prices));
    MembersOnly(Present(prices));
    var n, m := if rated == 0 then 1 else rated, if priced == 0 then 1 else priced;
    var ratio, mean := high as real / n as real, total / m as real;
    TrendParts(products, ratings, prices, ratio, mean);
    AtMostAll(ratings);
    StrengthBounds(high, n, ratio, (ratio * 100.0).Floor);
    RatioSides(high, rated, ratio);
    MeanSide(total, priced, mean);
  }

  lemma MembersOnly(s: seq<real>)
    ensures |s| == 0 ==> s == []
  {
  }

  lemma AtMostAll(fields: seq<Option<real>>)
    ensures HowMany(fields, 4.0) <= CountedIn(fields)
  {
    CountPresent(fields, 4.0);
  }

  lemma RatioSides(high: nat, rated: nat, ratio: real)
    requires high <= rated && ratio == high as real / (if rated == 0 then 1 else rated) as real
    ensures 0.0 <= ratio <= 1.0 && (ratio * 100.0).Floor <= 100
    ensures ratio > 0.6 <==> 5 * high > 3 * rated
    ensures ratio > 0.4 <==> 5 * high > 2 * rated
  {
    var whole := (if rated == 0 then 1 else rated) as real;
    RatioRange(high as real, whole, ratio);
    RatioAgainst(high as real, whole, ratio, 0.6);
    RatioAgainst(high as real, whole, ratio, 0.4);
  }

  lemma MeanSide(total: real, priced: nat, mean: real)
    requires mean == total / (if priced == 0 then 1 else priced) as real && (priced == 0 ==> total == 0.0)
    ensures mean > 30.0 <==> total > 30.0 * priced as real
  {
    RatioAgainst(total, (if priced == 0 then 1 else priced) as real, mean, 30.0);
  }

  lemma SameFields(products: seq<Product>, ratings: seq<Option<real>>, prices: seq<Option<real>>)
    requires |ratings| == |prices| == |products|
    requires forall i :: 0 <= i < |products| ==> ratings[i] == products[i].rating && prices[i] == products[i].price
    ensures ratings == RatingFields(products) && prices == PriceFields(products)
  {
  }

  lemma TrendParts(products: seq<Product>, ratings: seq<Option<real>>, prices: seq<Option<real>>,
      ratio: real, mean: real)
    requires products != [] && ratings == RatingFields(products) && prices == PriceFields(products)
    requires ratio == AtLeast(Present(ratings), 4.0) as real
      / (if |Present(ratings)| == 0 then 1 else |Present(ratings)|) as real
    requires mean == Sum(Present(prices)) / (if |Present(prices)| == 0 then 1 else |Present(prices)|) as real
    ensures var t, strength := IdentifyTrends(products), (ratio * 100.0).Floor;
      && t.direction == (if ratio > 0.6 && mean > 30.0 then Up else if ratio > 0.4 then Stable else Down)
      && t.strength == (if strength <= 100 then strength else 100)
      && t.confidence == (if |products| / 2 <= 45 then 50 + |products| / 2 else 95)
  {
    hide Present, Sum, AtLeast, PriceFields, RatingFields;
  }

  lemma NoPriceNoTotal(s: seq<real>)
    ensures s == [] ==> Sum(s) == 0.0
  {
  }

  lemma RatioAgainst(part: real, whole: real, ratio: real, limit: real)
    requires 0.0 < whole && ratio == part / whole
    ensures ratio > limit <==> part > limit * whole
  {
    assert ratio * whole == part;
    if ratio > limit {
      ProductGap(ratio - limit, whole);
    } else {
      ProductGap(limit - ratio, whole);
    }
  }

  lemma StrengthBounds(high: nat, n: nat, ratio: real, strength: int)
    requires 0 < n && ratio == high as real / n as real && strength == (ratio * 100.0).Floor
    ensures strength * n <= 100 * high < (strength + 1) * n
  {
    var whole, whole100 := n as real, 100.0 * high as real;
    assert ratio * whole == high as real;
    var below, above := ratio * 100.0 - strength as real, (strength + 1) as real - ratio * 100.0;
    ProductGap(below, whole);
    ProductGap(above, whole);
    assert below * whole == whole100 - strength as real * whole;
    assert above * whole == (strength + 1) as real * whole - whole100;
    AsReals(strength, n, strength as real * whole);
    AsReals(strength + 1, n, (strength + 1) as real * whole);
  }

  lemma AsReals(a: int, n: nat, product: real)
    requires product == a as real * n as real
    ensures product == (a * n) as real
  {
  }

  // ----- the score

  /** The four parts, the total, the recommendation and the risks, with every limit written out. */
  lemma ScoreFromTheAnalysis(som: real, landscape: Landscape, trend: Trend)
    ensures var o := CalculateOpportunity(som, landscape, trend);
      && (som <= 0.0 ==> o.size == 5.0) && (0.0 < som <= 100000000.0 ==> o.size * 4000000.0 == som)
      && (100000000.0 <= som ==> o.size == 25.0)
      && o.growth * 8.0 == (trend.strength + trend.confidence) as real
      && o.competition == (if landscape.hhi < 1000.0 then 22.0 else if landscape.hhi < 2000.0 then 15.0
        else if landscape.hhi < 3000.0 then 8.0 else 3.0)
      && o.overall == o.size + o.growth + o.competition + o.margin
    ensures var o, width := CalculateOpportunity(som, landscape, trend), landscape.high - landscape.low;
      && (width <= 0.0 ==> o.margin == 5.0) && (0.0 < width <= 100.0 ==> o.margin * 4.0 == width)
      && (100.0 <= width ==> o.margin == 25.0)
      && (Concentrated in o.risks <==> landscape.hhi > 2500.0) && (Declining in o.risks <==> trend.direction == Down)
      && (NarrowPrices in o.risks <==> width < 20.0)
    ensures var o := CalculateOpportunity(som, landscape, trend);
      && (o.recommendation == StrongRecommend <==> 75.0 <= o.overall)
      && (o.recommendation == Recommend <==> 55.0 <= o.overall < 75.0)
      && (o.recommendation == Caution <==> 35.0 <= o.overall < 55.0)
      && (o.recommendation == Avoid <==> o.overall < 35.0)
  {
  }

  /** The entry barrier of a run, and the parts its score rests on. */
  lemma RunFromTheProducts(som: real, products: seq<Product>)
    ensures Assess(som, products) == CalculateOpportunity(som, AnalyzeLandscape(products), IdentifyTrends(products))
    ensures products != [] ==> (
      var l := AnalyzeLandscape(products);
      && l.hhi == Hhi(products)
      && (l.barrier == HighBarrier <==> l.hhi > 2000.0) && (l.barrier == LowBarrier <==> l.hhi <= 1000.0))
    ensures products == [] ==> (
      && AnalyzeLandscape(products) == Landscape(0, 0.0, 0.0, 0.0, MediumBarrier)
      && IdentifyTrends(products) == Trend(Stable, 50, 50))
  {
    hide Hhi, Prices, CalculateOpportunity;
  }
}
