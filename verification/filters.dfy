/** The snippet helpers: the year of a free-text snippet and the coarse
    year/price screen a snippet must pass before a listing is kept. */
module SnippetFilter {
  import opened Options
  import opened Text
  import opened Numerals
  import opened Criteria
  import opened Scans

  /** `extract_year`: the first standalone 19xx/20xx token, none for the
      empty text. */
  function ExtractYear(text: string): (r: Option<int>)
    ensures text == "" ==> r.None?
    ensures r.Some? ==> 1900 <= r.value <= 2099
  {
    if text == "" then None
    else match FirstYearFrom(text, 0)
      case Some(p) => Some(YearAt(text, p))
      case None => None
  }

  /** A year is found exactly when the text holds a token, and it is the
      value of the leftmost token. */
  lemma ExtractYearFirstToken(text: string)
    ensures ExtractYear(text).Some? <==> exists p :: YearTokenAt(text, p)
    ensures ExtractYear(text).Some? ==>
              exists p :: YearTokenAt(text, p) && ExtractYear(text).value == YearAt(text, p)
                          && forall q :: 0 <= q < p ==> !YearTokenAt(text, q)
  {
    if text != "" {
      match FirstYearFrom(text, 0)
      case Some(p) =>
      case None =>
    }
  }

  // ---------------------------------------------------------------------
  // The year check.

  /** The year check passes: no truthy `year_min`, or some year token is
      at least `year_min`. A snippet without year tokens fails it. */
  ghost predicate YearCheck(s: string, c: Criteria) {
    !TruthyInt(c.yearMin)
    || exists p :: YearTokenAt(s, p) && YearAt(s, p) >= c.yearMin.value
  }

  /** `any(y >= year_min for y in years)` over the found years. */
  predicate AnyAtLeast(ys: seq<int>, m: int) {
    exists k :: 0 <= k < |ys| && ys[k] >= m
  }

  lemma YearsAtLeast(s: string, m: int)
    ensures AnyAtLeast(Years(s), m) <==> exists p :: YearTokenAt(s, p) && YearAt(s, p) >= m
  {
    var ps := YearPositionsFrom(s, 0);
    if exists p :: YearTokenAt(s, p) && YearAt(s, p) >= m {
      var p :| YearTokenAt(s, p) && YearAt(s, p) >= m;
      assert p in ps;
      var k :| 0 <= k < |ps| && ps[k] == p;
      assert Years(s)[k] >= m;
    }
  }

  // ---------------------------------------------------------------------
  // The price check.

  /** `int(g.replace(",", ""))` for a captured `[\d,]+` amount: an amount
      of commas alone leaves the empty string, and `int("")` raises. */
  function AmountValue(g: string): (r: Result<int>)
    ensures r.Raised? <==> forall k :: 0 <= k < |g| ==> g[k] == ','
    ensures r.Ok? ==> r.value >= 0
  {
    ReplaceDeletesAll(g, ',');
    var digits := Replace(g, ',', "");
    if digits == "" then Raised("ValueError: invalid literal for int()") else Ok(DigitsValue(digits))
  }

  /** `[int(p.replace(",", "")) for p in groups]`: raises at the first
      amount that does. */
  function AmountValues(gs: seq<string>): (r: Result<seq<int>>)
    ensures r.Raised? <==> exists k :: 0 <= k < |gs| && AmountValue(gs[k]).Raised?
    ensures r.Ok? ==> |r.value| == |gs|
    ensures r.Ok? ==> forall k :: 0 <= k < |gs| ==> r.value[k] == AmountValue(gs[k]).value
  {
    if |gs| == 0 then Ok([])
    else
      var v :- AmountValue(gs[0]);
      var rest :- AmountValues(gs[1..]);
      assert forall k :: 1 <= k < |gs| ==> gs[k] == gs[1..][k - 1];
      Ok([v] + rest)
  }

  /** `all(p > price_max for p in prices)` */
  predicate AllAbove(ps: seq<int>, m: int) {
    forall k :: 0 <= k < |ps| ==> ps[k] > m
  }

  /** The standalone-number fallback candidates, in order. */
  function NumberValues(s: string): (r: seq<int>)
    ensures var ps := NumberPositionsFrom(s, 0);
            |r| == |ps| && forall k :: 0 <= k < |r| ==> r[k] == NumberAt(s, ps[k])
  {
    var ps := NumberPositionsFrom(s, 0);
    seq(|ps|, k requires 0 <= k < |ps| => NumberAt(s, ps[k]))
  }

  /** The year stage rejects: `year_min` is truthy and no found year
      reaches it (in particular when none is found). */
  predicate YearRejects(snippet: string, c: Criteria) {
    var years := Years(snippet);
    TruthyInt(c.yearMin) && (|years| == 0 || !AnyAtLeast(years, c.yearMin.value))
  }

  /** The price stage for a truthy `price_max`: the `$` amounts are the
      candidates, the standalone 4-6 digit numbers only when there is no
      `$` amount, and no candidate means no rejection. */
  function PriceStage(snippet: string, priceMax: int): Result<bool> {
    var dollars := DollarAmounts(snippet);
    if |dollars| > 0 then
      var prices :- AmountValues(dollars);
      Ok(!AllAbove(prices, priceMax))
    else
      var numbers := NumberValues(snippet);
      Ok(!(|numbers| > 0 && AllAbove(numbers, priceMax)))
  }

  /** `filter_snippet_by_criteria`. The year stage runs first and can
      reject before any amount is read. */
  function FilterSnippet(snippet: string, c: Criteria): Result<bool> {
    if YearRejects(snippet, c) then Ok(false)
    else if TruthyInt(c.priceMax) then PriceStage(snippet, c.priceMax.value)
    else Ok(true)
  }

  /** The snippet has a `$` amount made of commas only. */
  ghost predicate BadDollar(s: string) {
    exists p :: DollarAt(s, p) && forall k :: 0 <= k < |DollarGroup(s, p)| ==> DollarGroup(s, p)[k] == ','
  }

  /** The value of a `$` amount that has a digit. */
  function DollarValue(s: string, p: int): int
    requires DollarAt(s, p)
  {
    DigitsValue(Replace(DollarGroup(s, p), ',', ""))
  }

  /** The price check passes: no truthy `price_max`; or, when the snippet
      has `$` amounts, one of them is at most `price_max`; or, when it has
      none, it has no standalone number or one at most `price_max`. */
  ghost predicate PriceCheck(s: string, c: Criteria) {
    !TruthyInt(c.priceMax)
    || (if exists p :: DollarAt(s, p)
        then exists p :: DollarAt(s, p) && DollarValue(s, p) <= c.priceMax.value
        else (forall p :: !NumberTokenAt(s, p))
             || exists p :: NumberTokenAt(s, p) && NumberAt(s, p) <= c.priceMax.value)
  }

  /** Without a comma-only amount, every `$` amount converts, each to the
      value read at its position. */
  lemma DollarValuesRead(s: string)
    requires !BadDollar(s)
    ensures var ps := DollarPositionsFrom(s, 0);
            var r := AmountValues(DollarAmounts(s));
            r.Ok? && |r.value| == |ps| && forall k :: 0 <= k < |ps| ==> r.value[k] == DollarValue(s, ps[k])
  {
    var ps := DollarPositionsFrom(s, 0);
    var gs := DollarAmounts(s);
    forall k | 0 <= k < |gs| ensures AmountValue(gs[k]).Ok? && AmountValue(gs[k]).value == DollarValue(s, ps[k]) {
      ReplaceDeletesAll(gs[k], ',');
    }
  }

  lemma DollarCheck(s: string, m: int)
    requires !BadDollar(s)
    ensures AmountValues(DollarAmounts(s)).Ok?
            && (!AllAbove(AmountValues(DollarAmounts(s)).value, m)
                <==> exists p :: DollarAt(s, p) && DollarValue(s, p) <= m)
  {
    DollarValuesRead(s);
    DollarValuesBound(s, m, AmountValues(DollarAmounts(s)).value);
  }

  /** Values read at the `$` positions are not all above `m` exactly when
      some `$` amount is at most `m`. */
  lemma DollarValuesBound(s: string, m: int, vs: seq<int>)
    requires var ps := DollarPositionsFrom(s, 0);
             |vs| == |ps| && forall k :: 0 <= k < |ps| ==> vs[k] == DollarValue(s, ps[k])
    ensures !AllAbove(vs, m) <==> exists p :: DollarAt(s, p) && DollarValue(s, p) <= m
  {
    var ps := DollarPositionsFrom(s, 0);
    if exists p :: DollarAt(s, p) && DollarValue(s, p) <= m {
      var p :| DollarAt(s, p) && DollarValue(s, p) <= m;
      assert p in ps;
      var k :| 0 <= k < |ps| && ps[k] == p;
      assert vs[k] <= m;
    }
  }

  lemma NumberCheck(s: string, m: int)
    ensures |NumberValues(s)| > 0 <==> exists p :: NumberTokenAt(s, p)
    ensures !AllAbove(NumberValues(s), m) <==> exists p :: NumberTokenAt(s, p) && NumberAt(s, p) <= m
  {
    var ps := NumberPositionsFrom(s, 0);
    assert |NumberValues(s)| == |ps|;
    if |ps| > 0 {
      assert NumberTokenAt(s, ps[0]);
    }
    if exists p :: NumberTokenAt(s, p) {
      var p :| NumberTokenAt(s, p);
      assert p in ps;
    }
    if exists p :: NumberTokenAt(s, p) && NumberAt(s, p) <= m {
      var p :| NumberTokenAt(s, p) && NumberAt(s, p) <= m;
      assert p in ps;
      var k :| 0 <= k < |ps| && ps[k] == p;
      assert NumberValues(s)[k] <= m;
    }
  }

  lemma DollarsPresent(s: string)
    ensures |DollarAmounts(s)| > 0 <==> exists p :: DollarAt(s, p)
  {
    var ps := DollarPositionsFrom(s, 0);
    assert |DollarAmounts(s)| == |ps|;
    if |ps| > 0 {
      assert DollarAt(s, ps[0]);
    }
    if exists p :: DollarAt(s, p) {
      var p :| DollarAt(s, p);
      assert p in ps;
    }
  }

  lemma YearStageSpec(s: string, c: Criteria)
    ensures YearRejects(s, c) <==> !YearCheck(s, c)
  {
    if TruthyInt(c.yearMin) {
      YearsAtLeast(s, c.yearMin.value);
    }
  }

  lemma PriceStageBad(s: string, m: int)
    requires BadDollar(s)
    ensures PriceStage(s, m).Raised?
  {
    DollarsPresent(s);
    var p :| DollarAt(s, p) && forall k :: 0 <= k < |DollarGroup(s, p)| ==> DollarGroup(s, p)[k] == ',';
    var ps := DollarPositionsFrom(s, 0);
    assert p in ps;
    var k :| 0 <= k < |ps| && ps[k] == p;
    assert AmountValue(DollarAmounts(s)[k]).Raised?;
  }

  lemma PriceStageDollars(s: string, m: int)
    requires !BadDollar(s) && exists p :: DollarAt(s, p)
    ensures PriceStage(s, m).Ok?
    ensures PriceStage(s, m).value <==> exists p :: DollarAt(s, p) && DollarValue(s, p) <= m
  {
    DollarsPresent(s);
    DollarCheck(s, m);
  }

  lemma PriceStageNumbers(s: string, m: int)
    requires forall p :: !DollarAt(s, p)
    ensures PriceStage(s, m).Ok?
    ensures PriceStage(s, m).value
            <==> (forall p :: !NumberTokenAt(s, p)) || exists p :: NumberTokenAt(s, p) && NumberAt(s, p) <= m
  {
    DollarsPresent(s);
    NumberCheck(s, m);
  }

  lemma PriceStageSpec(s: string, c: Criteria)
    requires TruthyInt(c.priceMax)
    ensures PriceStage(s, c.priceMax.value).Raised? <==> BadDollar(s)
    ensures PriceStage(s, c.priceMax.value).Ok? ==> (PriceStage(s, c.priceMax.value).value <==> PriceCheck(s, c))
  {
    var m := c.priceMax.value;
    if BadDollar(s) {
      PriceStageBad(s, m);
    } else if exists p :: DollarAt(s, p) {
      PriceStageDollars(s, m);
    } else {
      PriceStageNumbers(s, m);
    }
  }

  /** The filter raises exactly when the year check passes, `price_max` is
      truthy and some `$` amount is commas alone; otherwise it accepts
      exactly the snippets that pass both checks. */
  lemma FilterSnippetSpec(s: string, c: Criteria)
    ensures FilterSnippet(s, c).Raised? <==> YearCheck(s, c) && TruthyInt(c.priceMax) && BadDollar(s)
    ensures FilterSnippet(s, c).Ok? ==> (FilterSnippet(s, c).value <==> YearCheck(s, c) && PriceCheck(s, c))
  {
    YearStageSpec(s, c);
    if TruthyInt(c.priceMax) {
      PriceStageSpec(s, c);
    }
  }

  /** With neither `year_min` nor `price_max` truthy every snippet passes. */
  lemma NoLimitsAcceptAll(s: string, c: Criteria)
    requires !TruthyInt(c.yearMin) && !TruthyInt(c.priceMax)
    ensures FilterSnippet(s, c) == Ok(true)
  {
  }
}
