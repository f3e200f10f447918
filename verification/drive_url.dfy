/** The search-results URL for a criteria dict: a path naming listing type,
    region, make and model, and a `#` fragment carrying the site's filters. */
module DriveUrl {
  import opened Options
  import opened Text
  import opened Numerals
  import opened Criteria
  import opened Constants

  /** The region code: the lower-cased location looked up in the table,
      "vic" when the location is absent, falsy or unknown. */
  function StateSegment(location: Option<string>): (r: string)
    ensures r in StateCodes
  {
    StateMapCodes();
    var raw := Lower(TextOr(location, ""));
    if raw in StateMap then StateMap[raw] else DefaultState
  }

  /** The listing type, trimmed and lower-cased, "all" when falsy. */
  function ListingTypeSegment(listingType: Option<string>): string {
    Lower(Strip(TextOr(listingType, "all")))
  }

  /** A make or model as a path segment: lower-cased, spaces made hyphens. */
  function Slug(s: string): (r: string)
    ensures ' ' !in r
    ensures |r| == 0 <==> |s| == 0
  {
    ReplaceRemoves(Lower(s), ' ', "-");
    Replace(Lower(s), ' ', "-")
  }

  /** The path below the search base: listing type, region, then make and
      model when there is a make. */
  function PathFor(lt: string, st: string, make: string, model: string): string {
    if make != "" then
      if model != "" then lt + "/" + st + "/all/" + make + "/" + model + "/"
      else lt + "/" + st + "/all/" + make + "/"
    else lt + "/" + st + "/"
  }

  function SearchPath(c: Criteria): string {
    PathFor(ListingTypeSegment(c.listingType), StateSegment(c.location),
            Slug(TextOr(c.make, "")), Slug(TextOr(c.model, "")))
  }

  /** The criteria fields the fragment encodes. */
  datatype Filters = Filters(
    yearMin: Option<int>,
    yearMax: Option<int>,
    priceMin: Option<int>,
    priceMax: Option<int>,
    transmission: Option<string>,
    mileageMax: Option<int>)

  function FiltersOf(c: Criteria): Filters {
    Filters(c.yearMin, c.yearMax, c.priceMin, c.priceMax, c.transmission, c.mileageMax)
  }

  /** One `key=value` part of the fragment. */
  datatype Param = Param(key: string, value: string)

  function Render(p: Param): string {
    p.key + "=" + p.value
  }

  function RenderAll(ps: seq<Param>): (r: seq<string>)
    ensures |r| == |ps| && forall k :: 0 <= k < |ps| ==> r[k] == Render(ps[k])
  {
    seq(|ps|, k requires 0 <= k < |ps| => Render(ps[k]))
  }

  /** The key of a rendered part: the text before its first `=`. */
  function PartKey(p: string): string {
    BeforeFirst(p, '=')
  }

  /** Position of a key in the fixed order year, price, transmission, kms, sortBy. */
  function KeyRank(key: string): nat {
    if key == "year" then 0
    else if key == "price" then 1
    else if key == "transmission" then 2
    else if key == "kms" then 3
    else 4
  }

  /** A bracketed pair `[a,b]` of integers. */
  function Range(lo: int, hi: int): string {
    "[" + IntToString(lo) + "," + IntToString(hi) + "]"
  }

  function YearParam(c: Filters): Param {
    Param("year", Range(IntOr(c.yearMin, 0), IntOr(c.yearMax, 0)))
  }

  function PriceParam(c: Filters): Param {
    Param("price", Range(IntOr(c.priceMin, 0), IntOr(c.priceMax, 0)))
  }

  const TransmissionParam := Param("transmission", "auto")

  function KmsParam(c: Filters): Param {
    Param("kms", Range(0, IntOr(c.mileageMax, 0)))
  }

  const SortParam := Param("sortBy", "recommended")

  predicate WantsYear(c: Filters) {
    TruthyInt(c.yearMin) || TruthyInt(c.yearMax)
  }

  predicate WantsPrice(c: Filters) {
    TruthyInt(c.priceMin) || TruthyInt(c.priceMax)
  }

  predicate WantsAutomatic(c: Filters) {
    TruthyText(c.transmission) && Lower(c.transmission.value) in {"auto", "automatic"}
  }

  predicate WantsKms(c: Filters) {
    TruthyInt(c.mileageMax)
  }

  lemma RangeChars(lo: int, hi: int)
    ensures '&' !in Range(lo, hi) && '#' !in Range(lo, hi)
  {
    var a, b := IntToString(lo), IntToString(hi);
    assert '&' !in a && '#' !in a;
    assert '&' !in b && '#' !in b;
  }

  /** A part whose key has no `=` reads its key back. */
  lemma RenderKey(p: Param)
    requires '=' !in p.key
    ensures PartKey(Render(p)) == p.key
  {
    BeforeFirstAt(p.key, '=', p.value);
    assert Render(p) == p.key + ['='] + p.value;
  }

  /** Parts in strictly increasing key rank. */
  predicate Ranked(ps: seq<Param>) {
    forall i, j :: 0 <= i < j < |ps| ==> KeyRank(ps[i].key) < KeyRank(ps[j].key)
  }

  /** A part that neither holds `&` nor `#` in its key or value. */
  predicate Clean(p: Param) {
    '&' !in p.key && '#' !in p.key && '&' !in p.value && '#' !in p.value
  }

  /** `[x]` when `wanted`, else nothing. */
  function When(wanted: bool, x: Param): seq<Param> {
    if wanted then [x] else []
  }

  predicate AllClean(ps: seq<Param>) {
    forall k :: 0 <= k < |ps| ==> Clean(ps[k])
  }

  /** Every key of `ps` ranks above `rank`. */
  predicate RanksAbove(rank: nat, ps: seq<Param>) {
    forall k :: 0 <= k < |ps| ==> rank < KeyRank(ps[k].key)
  }

  /** One step of building the fragment: prepending an optional part whose
      key ranks below the rest keeps the order, and the part is present
      exactly when wanted. */
  lemma Prepend(wanted: bool, x: Param, rest: seq<Param>)
    requires Ranked(rest) && RanksAbove(KeyRank(x.key), rest)
    requires Clean(x) && AllClean(rest)
    ensures Ranked(When(wanted, x) + rest) && AllClean(When(wanted, x) + rest)
    ensures forall n: nat :: n < KeyRank(x.key) ==> RanksAbove(n, When(wanted, x) + rest)
    ensures forall q :: q in When(wanted, x) + rest <==> (wanted && q == x) || q in rest
    ensures x in When(wanted, x) + rest <==> wanted
  {
  }

  /** The fixed keys rank in order and no part holds `&` or `#`. */
  lemma ParamFacts(c: Filters)
    ensures KeyRank(YearParam(c).key) == 0 && KeyRank(PriceParam(c).key) == 1
    ensures KeyRank(TransmissionParam.key) == 2 && KeyRank(KmsParam(c).key) == 3
    ensures KeyRank(SortParam.key) == 4
    ensures Clean(YearParam(c)) && Clean(PriceParam(c)) && Clean(KmsParam(c))
    ensures Clean(TransmissionParam) && Clean(SortParam)
  {
    RangeChars(IntOr(c.yearMin, 0), IntOr(c.yearMax, 0));
    RangeChars(IntOr(c.priceMin, 0), IntOr(c.priceMax, 0));
    RangeChars(0, IntOr(c.mileageMax, 0));
  }

  /** The filter parts of the fragment, in the fixed order year, price,
      transmission, kms, with the sort directive last. */
  function HashParams(c: Filters): (r: seq<Param>)
    ensures |r| >= 1 && r[|r| - 1] == SortParam
  {
    When(WantsYear(c), YearParam(c))
      + (When(WantsPrice(c), PriceParam(c))
      + (When(WantsAutomatic(c), TransmissionParam)
      + (When(WantsKms(c), KmsParam(c))
      + [SortParam])))
  }

  /** Each filter part appears exactly when its criteria fields ask for it,
      every key at most once and in the fixed order, and no part holds `&`
      or `#`, so the fragment splits back into them. */
  lemma HashParamsFacts(c: Filters)
    ensures YearParam(c) in HashParams(c) <==> WantsYear(c)
    ensures PriceParam(c) in HashParams(c) <==> WantsPrice(c)
    ensures TransmissionParam in HashParams(c) <==> WantsAutomatic(c)
    ensures KmsParam(c) in HashParams(c) <==> WantsKms(c)
    ensures Ranked(HashParams(c))
    ensures AllClean(HashParams(c))
  {
    ParamFacts(c);
    var y, p, t, k, s := YearParam(c), PriceParam(c), TransmissionParam, KmsParam(c), SortParam;
    assert y != p && y != t && y != k && p != t && p != k && t != k;
    var r4 := [s];
    assert Ranked(r4) && AllClean(r4) && RanksAbove(3, r4);
    assert y !in r4 && p !in r4 && t !in r4;
    Prepend(WantsKms(c), k, r4);
    var r3 := When(WantsKms(c), k) + r4;
    assert y in r3 <==> y in r4;
    assert p in r3 <==> p in r4;
    assert t in r3 <==> t in r4;
    Prepend(WantsAutomatic(c), t, r3);
    var r2 := When(WantsAutomatic(c), t) + r3;
    assert y in r2 <==> y in r3;
    assert p in r2 <==> p in r3;
    assert k in r2 <==> k in r3;
    Prepend(WantsPrice(c), p, r2);
    var r1 := When(WantsPrice(c), p) + r2;
    assert y in r1 <==> y in r2;
    assert t in r1 <==> t in r2;
    assert k in r1 <==> k in r2;
    Prepend(WantsYear(c), y, r1);
    var r0 := When(WantsYear(c), y) + r1;
    assert p in r0 <==> p in r1;
    assert t in r0 <==> t in r1;
    assert k in r0 <==> k in r1;
    assert HashParams(c) == r0;
  }

  /** The fragment's parts as text. */
  function HashParts(c: Filters): seq<string> {
    RenderAll(HashParams(c))
  }

  /** `build_drive_url`: never fails, for every criteria dict. */
  function BuildDriveUrl(c: Criteria): string {
    DriveSearchBase + SearchPath(c) + "#" + Join('&', HashParts(FiltersOf(c)))
  }

  /** The filters the URL carries: the text after the last `#`, split on `&`. */
  function FragmentParts(url: string): seq<string> {
    var h := RFind(url, '#');
    if h < 0 then [] else Split('&', url[h + 1..])
  }

  /** A prefix, `#`, then `&`-joined parts free of `#` and `&`: the parts
      read back from the text after the last `#`. */
  lemma FragmentRoundTrip(prefix: string, parts: seq<string>)
    requires |parts| >= 1
    requires forall k :: 0 <= k < |parts| ==> '&' !in parts[k] && '#' !in parts[k]
    ensures StartsWith(prefix + "#" + Join('&', parts), prefix)
    ensures FragmentParts(prefix + "#" + Join('&', parts)) == parts
  {
    var frag := Join('&', parts);
    var url := prefix + "#" + frag;
    assert url[..|prefix|] == prefix;
    JoinAvoids('&', parts, '#');
    assert url[|prefix|] == '#';
    assert url[|prefix| + 1..] == frag;
    assert RFind(url, '#') == |prefix|;
    SplitJoin('&', parts);
  }

  /** The URL is the search base, then the path, then a fragment from which
      the filter parts read back exactly. */
  lemma BuildDriveUrlShape(c: Criteria)
    ensures StartsWith(BuildDriveUrl(c), DriveSearchBase + SearchPath(c))
    ensures FragmentParts(BuildDriveUrl(c)) == HashParts(FiltersOf(c))
  {
    var parts := HashParts(FiltersOf(c));
    HashParamsFacts(FiltersOf(c));
    forall k | 0 <= k < |parts| ensures '&' !in parts[k] && '#' !in parts[k] {
      var p := HashParams(FiltersOf(c))[k];
      assert Clean(p);
      assert parts[k] == p.key + "=" + p.value;
    }
    FragmentRoundTrip(DriveSearchBase + SearchPath(c), parts);
  }

  /** A model without a make is dropped from the path. */
  lemma ModelNeedsMake(c: Criteria, model: Option<string>)
    requires !TruthyText(c.make)
    ensures BuildDriveUrl(c.(model := model)) == BuildDriveUrl(c)
  {
    assert FiltersOf(c.(model := model)) == FiltersOf(c);
  }

  /** "manual" (and any transmission other than auto/automatic) adds nothing. */
  lemma ManualAddsNothing(c: Criteria)
    ensures BuildDriveUrl(c.(transmission := Some("manual"))) == BuildDriveUrl(c.(transmission := None))
  {
    var f1, f2 := FiltersOf(c.(transmission := Some("manual"))), FiltersOf(c.(transmission := None));
    assert Lower("manual") == "manual";
    assert !WantsAutomatic(f1) && !WantsAutomatic(f2);
    assert HashParts(f1) == HashParts(f2);
  }

  /** Locations differing only in letter case give the same URL. */
  lemma LocationCaseInsensitive(c: Criteria, loc1: string, loc2: string)
    requires Lower(loc1) == Lower(loc2)
    ensures BuildDriveUrl(c.(location := Some(loc1))) == BuildDriveUrl(c.(location := Some(loc2)))
  {
    assert StateSegment(Some(loc1)) == StateSegment(Some(loc2));
    assert FiltersOf(c.(location := Some(loc1))) == FiltersOf(c.(location := Some(loc2)));
  }

  /** An absent or unrecognised location searches Victoria. */
  lemma UnknownLocationIsVictoria(c: Criteria)
    requires Lower(TextOr(c.location, "")) !in StateMap
    ensures BuildDriveUrl(c) == BuildDriveUrl(c.(location := Some("Victoria")))
  {
    assert Lower("Victoria") == "victoria";
    assert StateSegment(Some("Victoria")) == "vic" == StateSegment(c.location);
    assert FiltersOf(c.(location := Some("Victoria"))) == FiltersOf(c);
  }

  /** The path for each combination of make and model. */
  lemma SearchPathCases(c: Criteria)
    ensures var lt, st := ListingTypeSegment(c.listingType), StateSegment(c.location);
            var make, model := Slug(TextOr(c.make, "")), Slug(TextOr(c.model, ""));
            && (TruthyText(c.make) && TruthyText(c.model) ==>
                  SearchPath(c) == lt + "/" + st + "/all/" + make + "/" + model + "/")
            && (TruthyText(c.make) && !TruthyText(c.model) ==>
                  SearchPath(c) == lt + "/" + st + "/all/" + make + "/")
            && (!TruthyText(c.make) ==> SearchPath(c) == lt + "/" + st + "/")
  {
  }

  /** The empty criteria dict: every listing in Victoria, only the sort
      directive in the fragment. */
  lemma EmptyCriteriaUrl()
    ensures SearchPath(NoCriteria) == "all/vic/"
    ensures HashParams(FiltersOf(NoCriteria)) == [SortParam]
    ensures BuildDriveUrl(NoCriteria) == DriveSearchBase + "all/vic/" + "#" + Render(SortParam)
  {
    EmptyCriteriaPath();
    assert HashParts(FiltersOf(NoCriteria)) == [Render(SortParam)];
  }

  lemma EmptyCriteriaPath()
    ensures SearchPath(NoCriteria) == "all/vic/"
  {
    DefaultListingType();
    assert StateSegment(None) == "vic" by {
      assert Lower("") == "";
      assert "" !in StateMap;
    }
  }

  /** An absent listing type is "all". */
  lemma DefaultListingType()
    ensures ListingTypeSegment(None) == "all"
  {
    assert LeadingSpaces("all") == 0 && TrailingSpaces("all") == 0;
    assert Strip("all") == "all";
    assert Lower("all") == "all";
  }


}
