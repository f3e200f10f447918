/** One listing's detail page: the field parsers, the record the scraper
    builds from the page, and the post-scrape criteria check. The fetched
    and parsed page is an abstract `Document`: which CSS selectors hit (and
    the text of the first element each selects), the first `h1` and
    `title` elements, and the text of the whole page. */
module DetailPage {
  import opened Options
  import opened Text
  import opened Numerals
  import opened Criteria
  import opened Scans
  import opened SnippetFilter

  /** A selected element: `get_text()` and `get_text(strip=True)`. */
  datatype Element = Element(text: string, strippedText: string)

  /** A parsed page. A selector absent from `selected` selects nothing. */
  datatype Document = Document(
    selected: map<string, Element>,
    heading: Option<Element>,
    title: Option<Element>,
    text: string)

  const PriceSelectors: seq<string> :=
    ["[data-testid=\"price\"]", ".price", ".listing-price", "span:contains(\"$\")", "[class*=\"price\"]"]

  const MileageSelectors: seq<string> :=
    ["[data-testid=\"mileage\"]", ".mileage", "[class*=\"km\"]", "[class*=\"mileage\"]"]

  const LocationSelectors: seq<string> :=
    ["[data-testid=\"location\"]", ".location", "[class*=\"location\"]"]

  /** The index of the first of `sels[from..]` that selects an element. */
  function FirstHit(doc: Document, sels: seq<string>, from: nat): (r: Option<nat>)
    ensures r.Some? ==> from <= r.value < |sels| && sels[r.value] in doc.selected
    ensures r.Some? ==> forall k :: from <= k < r.value ==> sels[k] !in doc.selected
    ensures r.None? ==> forall k :: from <= k < |sels| ==> sels[k] !in doc.selected
    decreases |sels| - from
  {
    if from >= |sels| then None
    else if sels[from] in doc.selected then Some(from)
    else FirstHit(doc, sels, from + 1)
  }

  // ---------------------------------------------------------------------
  // Price.

  /** `parse_price`: every `k` becomes `000`, then the leftmost
      `[\$]?([\d,]+\.?\d*)` match is read with its commas removed. The
      capture starts at the first digit or comma. `int` raises when the
      capture holds a decimal point or no digit at all. */
  function ParsePrice(text: string): (r: Result<int>)
    ensures r.Ok? ==> r.value >= 0
  {
    var t := Replace(text, 'k', "000");
    match FirstAmountFrom(t, 0)
    case None => Ok(0)
    case Some(j) =>
      var e := AmountEnd(t, j);
      if e < |t| && t[e] == '.' then Raised("ValueError: invalid literal for int()")
      else
        var digits := Replace(t[j..e], ',', "");
        if digits == "" then Raised("ValueError: invalid literal for int()")
        else Ok(DigitsValue(digits))
  }

  /** A text with no digit, comma or `k` has no price: 0. */
  lemma ParsePriceNone(text: string)
    requires forall k :: 0 <= k < |text| ==> !IsAmountChar(text[k]) && text[k] != 'k'
    ensures ParsePrice(text) == Ok(0)
  {
    ReplaceAbsent(text, 'k', "000");
  }

  /** Expanding `k` first changes nothing: the parser already does it. */
  lemma ParsePriceExpandsK(text: string)
    ensures ParsePrice(Replace(text, 'k', "000")) == ParsePrice(text)
  {
    ReplaceRemoves(text, 'k', "000");
    ReplaceAbsent(Replace(text, 'k', "000"), 'k', "000");
  }

  /** A `$`-prefixed, comma-grouped price reads back as its value. */
  lemma ParsePriceWithCommas(n: nat)
    ensures ParsePrice("$" + WithCommas(n)) == Ok(n)
  {
    var w := WithCommas(n);
    var s := "$" + w;
    assert 'k' !in s by {
      assert forall i :: 0 <= i < |s| ==> s[i] == '$' || IsDigit(s[i]) || s[i] == ',';
    }
    ReplaceAbsent(s, 'k', "000");
    assert s[1] == w[0];
    assert FirstAmountFrom(s, 1) == Some(1);
    assert FirstAmountFrom(s, 0) == Some(1);
    assert forall i :: 1 <= i < |s| ==> IsAmountChar(s[i]);
    assert AmountEnd(s, 1) == |s|;
    assert s[1..|s|] == w;
    WithCommasRoundTrip(n);
    ReplaceDeletesAll(w, ',');
  }

  /** Reading digits followed by three zeros multiplies by 1000. */
  lemma ThousandsValue(d: string)
    ensures DigitsValue(d + "000") == DigitsValue(d) * 1000
  {
    DigitsValueAppend(d, "000");
    assert "000"[..2][..1] == "0" && "000"[..2] == "00" && "0"[..0] == "";
    assert DigitsValue("000") == 0;
    assert Pow10(3) == 1000;
  }

  /** A number of thousands written with `k` reads as that many thousands. */
  lemma ParsePriceThousands(n: nat)
    ensures ParsePrice(NatToString(n) + "k") == Ok(n * 1000)
  {
    var d := NatToString(n);
    ReplaceAbsent(d, 'k', "000");
    ReplaceAppend(d, "k", 'k', "000");
    assert Replace("k", 'k', "000") == "000";
    var t := d + "000";
    assert Replace(d + "k", 'k', "000") == t;
    assert forall i :: 0 <= i < |t| ==> IsDigit(t[i]);
    assert FirstAmountFrom(t, 0) == Some(0);
    AmountEndAt(t, 0, |t|);
    assert t[0..|t|] == t;
    assert ',' !in t;
    ReplaceAbsent(t, ',', "");
    ThousandsValue(d);
    NatToStringRoundTrip(n);
  }

  /** A decimal price such as "26,470.00" makes `int` raise. */
  lemma ParsePriceDecimalRaises(a: nat, cents: string)
    requires forall i :: 0 <= i < |cents| ==> IsDigit(cents[i])
    ensures ParsePrice(WithCommas(a) + "." + cents).Raised?
  {
    var w := WithCommas(a);
    var t := w + "." + cents;
    assert 'k' !in t by {
      assert forall i :: 0 <= i < |t| ==> IsDigit(t[i]) || t[i] == ',' || t[i] == '.';
    }
    ReplaceAbsent(t, 'k', "000");
    assert FirstAmountFrom(t, 0) == Some(0);
    assert t[|w|] == '.';
    AmountEndAt(t, 0, |w|);
  }

  /** A capture of commas alone ("$,") makes `int("")` raise. */
  lemma ParsePriceCommasRaise(commas: nat)
    requires commas >= 1
    ensures ParsePrice("$" + seq(commas, _ => ',')).Raised?
  {
    var t := "$" + seq(commas, _ => ',');
    assert 'k' !in t by {
      assert forall i :: 0 <= i < |t| ==> t[i] == '$' || t[i] == ',';
    }
    ReplaceAbsent(t, 'k', "000");
    assert FirstAmountFrom(t, 1) == Some(1);
    assert FirstAmountFrom(t, 0) == Some(1);
    assert forall i :: 1 <= i < |t| ==> IsAmountChar(t[i]);
    assert AmountEnd(t, 1) == |t|;
    ReplaceDeletesAll(t[1..|t|], ',');
  }

  // ---------------------------------------------------------------------
  // Year.

  /** `extract_year_from_title`: the first standalone 19xx/20xx token, 0
      when there is none. */
  function ExtractYearFromTitle(text: string): (r: int)
    ensures r == 0 || 1900 <= r <= 2099
  {
    match FirstYearFrom(text, 0)
    case Some(p) => YearAt(text, p)
    case None => 0
  }

  /** The title parser and the snippet helper `extract_year` agree: the
      title parser is the helper with 0 for "no year". */
  lemma TitleYearAgreesWithSnippetYear(text: string)
    ensures ExtractYearFromTitle(text) == ExtractYear(text).GetOr(0)
  {
    if text == "" {
      assert FirstYearFrom(text, 0).None?;
    }
  }

  /** A title that starts with a year reads that year ("2022 Mazda" gives 2022). */
  lemma TitleYearRoundTrip(y: int, rest: string)
    requires 1900 <= y <= 2099
    requires rest == "" || !IsWordChar(rest[0])
    ensures ExtractYearFromTitle(NatToString(y) + rest) == y
  {
    var d := NatToString(y);
    var s := d + rest;
    YearString(y);
    assert s[..4] == d;
    assert AllDigits(d);
    assert IsDigit(s[2]) && IsDigit(s[3]);
    assert YearTokenAt(s, 0);
    assert s[0..4] == d;
    NatToStringRoundTrip(y);
  }

  // ---------------------------------------------------------------------
  // Mileage.

  /** The mileage from the selectors from `from` on: the first selecting
      element whose text has a digit; one without a digit is passed over. */
  function MileageFromSelectors(doc: Document, from: nat): (r: Option<nat>)
    decreases |MileageSelectors| - from
  {
    match FirstHit(doc, MileageSelectors, from)
    case None => None
    case Some(k) =>
      var text := doc.selected[MileageSelectors[k]].text;
      match FirstDigitFrom(text, 0)
      case Some(j) => Some(MileageAt(text, j))
      case None => MileageFromSelectors(doc, k + 1)
  }

  /** `parse_mileage`: the selectors first, then the first "N km" in the
      page text, else 0. */
  function ParseMileage(doc: Document): nat {
    match MileageFromSelectors(doc, 0)
    case Some(m) => m
    case None =>
      match FirstKmFrom(doc.text, 0)
      case Some(j) => MileageAt(doc.text, j)
      case None => 0
  }

  lemma NatToStringShort(n: nat)
    requires n < 1000
    ensures |NatToString(n)| <= 3
  {
    if n >= 10 {
      NatToStringShort(n / 10);
      if n >= 100 {
        assert NatToString(n / 10) == NatToString(n / 100) + [DigitChar(n / 10 % 10)];
      }
    }
  }

  /** Over a comma-grouped number, the lead `\d{1,3}` stops at the first
      comma and the `,ddd` groups then run to the number's end. */
  lemma {:induction false} MileageEndWithCommas(n: nat, tail: string)
    requires tail == "" || !IsDigit(tail[0])
    ensures var s := WithCommas(n) + tail;
            IsDigit(s[0]) && GroupsEnd(s, LeadEnd(s, 0)) == GroupsEnd(s, |WithCommas(n)|)
    decreases n
  {
    var w := WithCommas(n);
    var s := w + tail;
    if n < 1000 {
      ShortMileageEnd(n, tail);
    } else {
      var head := WithCommas(n / 1000);
      var p := Pad3(n % 1000);
      MileageEndWithCommas(n / 1000, "," + p + tail);
      GroupsStep(head, p, tail);
    }
  }

  /** The step of `MileageEndWithCommas`: a `,ddd` group appended to a
      number whose greedy match runs to its end extends the match by it. */
  lemma GroupsStep(head: string, p: string, tail: string)
    requires |p| == 3 && AllDigits(p)
    requires var s := head + ("," + p + tail);
             |head| > 0 && IsDigit(s[0]) && GroupsEnd(s, LeadEnd(s, 0)) == GroupsEnd(s, |head|)
    ensures var s := (head + "," + p) + tail;
            IsDigit(s[0]) && GroupsEnd(s, LeadEnd(s, 0)) == GroupsEnd(s, |head| + 4)
  {
    var s := head + ("," + p + tail);
    RegroupComma(head, p, tail);
    GroupAfter(head, p, tail);
    assert GroupsEnd(s, |head|) == GroupsEnd(s, |head| + 4);
  }

  lemma RegroupComma(head: string, p: string, tail: string)
    ensures (head + "," + p) + tail == head + ("," + p + tail)
  {
  }

  /** A number below 1000 is a lead of at most three digits with no group
      after it. */
  lemma ShortMileageEnd(n: nat, tail: string)
    requires n < 1000
    requires tail == "" || !IsDigit(tail[0])
    ensures var s := WithCommas(n) + tail;
            IsDigit(s[0]) && GroupsEnd(s, LeadEnd(s, 0)) == GroupsEnd(s, |WithCommas(n)|)
  {
    var w := WithCommas(n);
    var s := w + tail;
    NatToStringShort(n);
    assert forall i :: 0 <= i < |w| ==> IsDigit(s[i]);
    DigitRunEndAt(s, 0, |w|);
  }

  /** A comma and three digits after `head` form a `,ddd` group there. */
  lemma GroupAfter(head: string, p: string, tail: string)
    requires |p| == 3 && AllDigits(p)
    ensures GroupAt(head + ("," + p + tail), |head|)
  {
    var s := head + ("," + p + tail);
    assert s[|head|] == ',' && s[|head| + 1] == p[0] && s[|head| + 2] == p[1] && s[|head| + 3] == p[2];
  }

  /** A page whose only mileage is "N km" with `N` comma-grouped reads `N`. */
  lemma MileageRoundTrip(n: nat, rest: string)
    ensures var doc := Document(map[], None, None, WithCommas(n) + " km" + rest);
            ParseMileage(doc) == n
  {
    var w := WithCommas(n);
    var s := w + " km" + rest;
    var doc := Document(map[], None, None, s);
    assert FirstHit(doc, MileageSelectors, 0).None?;
    assert s == w + (" km" + rest);
    MileageEndWithCommas(n, " km" + rest);
    assert !GroupAt(s, |w|);
    assert GroupsEnd(s, |w|) == |w|;
    assert MileageEnd(s, 0) == |w|;
    assert SpacesEnd(s, |w| + 1) == |w| + 1;
    assert SpacesEnd(s, |w|) == |w| + 1;
    assert KmAt(s, 0);
    assert FirstKmFrom(s, 0) == Some(0);
    assert s[0..|w|] == w;
    WithCommasRoundTrip(n);
  }

  /** An element found by the first mileage selector whose text opens with
      a comma-grouped number gives that number, whatever the page text
      says. */
  lemma SelectedMileageWins(doc: Document, n: nat, tail: string)
    requires MileageSelectors[0] in doc.selected
    requires doc.selected[MileageSelectors[0]].text == WithCommas(n) + tail
    requires tail == "" || (!IsDigit(tail[0]) && tail[0] != ',')
    ensures ParseMileage(doc) == n
  {
    var w := WithCommas(n);
    var s := w + tail;
    assert FirstHit(doc, MileageSelectors, 0) == Some(0);
    assert FirstDigitFrom(s, 0) == Some(0);
    MileageEndWithCommas(n, tail);
    assert !GroupAt(s, |w|);
    assert GroupsEnd(s, |w|) == |w|;
    assert MileageEnd(s, 0) == |w|;
    assert s[0..|w|] == w;
    WithCommasRoundTrip(n);
  }

  // ---------------------------------------------------------------------
  // Location.

  /** `parse_location`: the first selecting element's stripped text, upper
      cased (possibly empty), else "VIC". */
  function ParseLocation(doc: Document): string {
    match FirstHit(doc, LocationSelectors, 0)
    case Some(k) => Upper(doc.selected[LocationSelectors[k]].strippedText)
    case None => "VIC"
  }

  /** No location element gives "VIC"; otherwise the location is the
      first selecting element's stripped text, upper-cased. */
  lemma ParseLocationSpec(doc: Document)
    ensures (forall k :: 0 <= k < |LocationSelectors| ==> LocationSelectors[k] !in doc.selected)
            ==> ParseLocation(doc) == "VIC"
    ensures forall k :: 0 <= k < |LocationSelectors| && LocationSelectors[k] in doc.selected
                        && (forall j :: 0 <= j < k ==> LocationSelectors[j] !in doc.selected)
                        ==> ParseLocation(doc) == Upper(doc.selected[LocationSelectors[k]].strippedText)
  {
    forall k | 0 <= k < |LocationSelectors| && LocationSelectors[k] in doc.selected
               && (forall j :: 0 <= j < k ==> LocationSelectors[j] !in doc.selected)
      ensures FirstHit(doc, LocationSelectors, 0) == Some(k)
    {
      FirstHitIsFirst(doc, LocationSelectors, k);
    }
  }

  /** The first selector that selects is the one `FirstHit` returns. */
  lemma FirstHitIsFirst(doc: Document, sels: seq<string>, k: nat)
    requires k < |sels| && sels[k] in doc.selected
    requires forall j :: 0 <= j < k ==> sels[j] !in doc.selected
    ensures FirstHit(doc, sels, 0) == Some(k)
  {
  }

  /** The record's location: the first location element's stripped text
      upper-cased, "VIC" when that text is empty or there is no such
      element. */
  lemma ScrapedLocation(url: string, pages: map<string, Document>)
    requires ScrapeDetailPage(url, pages).Ok?
    ensures var doc := pages[url];
            var loc := ScrapeDetailPage(url, pages).value.location;
            && ((forall k :: 0 <= k < |LocationSelectors| ==> LocationSelectors[k] !in doc.selected) ==> loc == "VIC")
            && (forall k :: 0 <= k < |LocationSelectors| && LocationSelectors[k] in doc.selected
                           && (forall j :: 0 <= j < k ==> LocationSelectors[j] !in doc.selected)
                           ==> loc == (if doc.selected[LocationSelectors[k]].strippedText == "" then "VIC"
                                       else Upper(doc.selected[LocationSelectors[k]].strippedText)))
  {
    ParseLocationSpec(pages[url]);
  }

  // ---------------------------------------------------------------------
  // The record.

  /** The listing name: the first `h1`, else the `title`, else "Unknown". */
  function PageName(doc: Document): string {
    if doc.heading.Some? then doc.heading.value.strippedText
    else if doc.title.Some? then doc.title.value.strippedText
    else "Unknown"
  }

  /** The text the price is read from: the first selecting element's
      stripped text, else "". */
  function PriceText(doc: Document): string {
    match FirstHit(doc, PriceSelectors, 0)
    case Some(k) => doc.selected[PriceSelectors[k]].strippedText
    case None => ""
  }

  /** `scrape_detail_page`: fetching the page fails when `url` is not in
      `pages`; the price parser can raise; everything else has a default. */
  function ScrapeDetailPage(url: string, pages: map<string, Document>): (r: Result<Listing>)
    ensures r.Raised? <==> url !in pages || ParsePrice(PriceText(pages[url])).Raised?
    ensures r.Ok? ==> r.value.url == url && r.value.source == "drive.com.au"
    ensures r.Ok? ==> r.value.location != "" && r.value.price >= 0 && r.value.mileage >= 0
    ensures r.Ok? ==> r.value.year == 0 || 1900 <= r.value.year <= 2099
    ensures r.Ok? ==> r.value.name == PageName(pages[url])
                      && r.value.price == ParsePrice(PriceText(pages[url])).value
                      && r.value.year == ExtractYearFromTitle(r.value.name)
                      && r.value.mileage == ParseMileage(pages[url])
    ensures r.Ok? ==> r.value.location == (if ParseLocation(pages[url]) == "" then "VIC" else ParseLocation(pages[url]))
  {
    if url !in pages then Raised("requests.exceptions.RequestException")
    else
      var doc := pages[url];
      var name := PageName(doc);
      var price :- ParsePrice(PriceText(doc));
      var location := ParseLocation(doc);
      Ok(Listing(
        name := name,
        price := price,
        year := ExtractYearFromTitle(name),
        mileage := ParseMileage(doc),
        location := if location == "" then "VIC" else location,
        url := url,
        source := "drive.com.au"))
  }

  /** A page without name, price, mileage or location elements gives the
      defaults: "Unknown", 0, 0 and "VIC". */
  lemma BarePageDefaults(url: string, text: string)
    requires forall k :: 0 <= k < |text| ==> !IsDigit(text[k])
    ensures var r := ScrapeDetailPage(url, map[url := Document(map[], None, None, text)]);
            r == Ok(Listing("Unknown", 0, 0, 0, "VIC", url, "drive.com.au"))
  {
    var doc := Document(map[], None, None, text);
    assert FirstHit(doc, PriceSelectors, 0).None?;
    assert FirstHit(doc, MileageSelectors, 0).None?;
    assert FirstHit(doc, LocationSelectors, 0).None?;
    assert FirstKmFrom(text, 0).None?;
    assert FirstYearFrom("Unknown", 0).None?;
  }

  // ---------------------------------------------------------------------
  // Post-scrape check.

  /** `matches_criteria`: a truthy `year_min` above the year rejects, as
      does a truthy `price_max` below the price. */
  predicate MatchesCriteria(l: Listing, c: Criteria) {
    !(TruthyInt(c.yearMin) && l.year < c.yearMin.value)
    && !(TruthyInt(c.priceMax) && l.price > c.priceMax.value)
  }

  /** An unknown year (0) fails every positive `year_min`. */
  lemma UnknownYearFailsYearMin(l: Listing, c: Criteria)
    requires l.year == 0 && c.yearMin.Some? && c.yearMin.value > 0
    ensures !MatchesCriteria(l, c)
  {
  }

  /** Only `year_min` and `price_max` matter, and falsy ones impose nothing. */
  lemma MatchesOnlyYearAndPrice(l: Listing, c: Criteria)
    ensures MatchesCriteria(l, c)
            == MatchesCriteria(l, NoCriteria.(yearMin := if TruthyInt(c.yearMin) then c.yearMin else None,
                                              priceMax := if TruthyInt(c.priceMax) then c.priceMax else None))
  {
  }

  /** Tightening a limit never admits more: a listing that passes
      `year_min` = a and `price_max` = b also passes any a' <= a and b' >= b. */
  lemma MatchesMonotone(l: Listing, c: Criteria, a: int, b: int, a': int, b': int)
    requires 0 < a' <= a && 0 < b <= b'
    requires MatchesCriteria(l, c.(yearMin := Some(a), priceMax := Some(b)))
    ensures MatchesCriteria(l, c.(yearMin := Some(a'), priceMax := Some(b')))
  {
  }
}
