/** The regular-expression scans of the scraper and the snippet filter,
    written out over ASCII text. Each regex is described by a predicate on
    a match position, and each `re.search` by the first position where the
    predicate holds; each `re.findall` by every such position in order,
    which is what the left-to-right non-overlapping scan returns because
    two matches of these patterns can never overlap. */
module Scans {
  import opened Options
  import opened Text
  import opened Numerals

  // ---------------------------------------------------------------------
  // Year tokens: `\b(19|20)\d{2}\b`, `\b(20\d{2}|19\d{2})\b` and
  // `\b19\d{2}\b|\b20\d{2}\b` all match the same four characters.

  /** A standalone four-digit token starting "19" or "20" begins at `i`. */
  predicate YearTokenAt(s: string, i: int) {
    0 <= i && i + 4 <= |s|
    && ((s[i] == '1' && s[i + 1] == '9') || (s[i] == '2' && s[i + 1] == '0'))
    && IsDigit(s[i + 2]) && IsDigit(s[i + 3])
    && WordBoundary(s, i) && WordBoundary(s, i + 4)
  }

  /** A four-digit string reads as its place-value sum. */
  lemma FourDigits(t: string)
    requires |t| == 4
    ensures DigitsValue(t)
            == 1000 * DigitOf(t[0]) + 100 * DigitOf(t[1]) + 10 * DigitOf(t[2]) + DigitOf(t[3])
  {
    assert t[..3][..2] == t[..2] && t[..2][..1] == t[..1];
    assert DigitsValue(t[..1]) == DigitOf(t[0]) by {
      assert t[..1][..0] == [];
    }
    assert DigitsValue(t[..2]) == 10 * DigitOf(t[0]) + DigitOf(t[1]);
    assert DigitsValue(t[..3]) == 100 * DigitOf(t[0]) + 10 * DigitOf(t[1]) + DigitOf(t[2]);
  }

  /** `int(...)` of the token at `i`: a year of the 1900s or 2000s. */
  function YearAt(s: string, i: int): (y: int)
    requires YearTokenAt(s, i)
    ensures 1900 <= y <= 2099
  {
    FourDigits(s[i..i + 4]);
    DigitsValue(s[i..i + 4])
  }

  /** Two year tokens never overlap: a token's inner positions are not word
      boundaries. This is why `findall` returns a token at every position
      where one starts. */
  lemma YearTokensDisjoint(s: string, p: int, q: int)
    requires YearTokenAt(s, p) && YearTokenAt(s, q) && p < q
    ensures p + 4 <= q
  {
  }

  /** `re.search` for a year token from position `i` on: the first token. */
  function FirstYearFrom(s: string, i: nat): (r: Option<nat>)
    ensures r.Some? ==> i <= r.value && YearTokenAt(s, r.value)
    ensures r.Some? ==> forall q :: i <= q < r.value ==> !YearTokenAt(s, q)
    ensures r.None? ==> forall q :: i <= q ==> !YearTokenAt(s, q)
    decreases |s| - i
  {
    if i + 4 > |s| then None
    else if YearTokenAt(s, i) then Some(i)
    else FirstYearFrom(s, i + 1)
  }

  /** `re.findall` for year tokens from position `i` on: the positions of
      all tokens, in increasing order. */
  function YearPositionsFrom(s: string, i: nat): (r: seq<nat>)
    ensures forall p :: p in r <==> i <= p && YearTokenAt(s, p)
    ensures forall k :: 0 <= k < |r| ==> YearTokenAt(s, r[k])
    ensures forall k, l :: 0 <= k < l < |r| ==> r[k] < r[l]
    decreases |s| - i
  {
    if i + 4 > |s| then []
    else
      var rest := YearPositionsFrom(s, i + 1);
      if YearTokenAt(s, i) then [i] + rest else rest
  }

  /** The integer values of the tokens at `ps`. */
  function YearsAt(s: string, ps: seq<nat>): (r: seq<int>)
    requires forall k :: 0 <= k < |ps| ==> YearTokenAt(s, ps[k])
    ensures |r| == |ps| && forall k :: 0 <= k < |ps| ==> r[k] == YearAt(s, ps[k])
  {
    seq(|ps|, k requires 0 <= k < |ps| => YearAt(s, ps[k]))
  }

  /** `[int(y) for y in re.findall(...)]` */
  function Years(s: string): seq<int> {
    YearsAt(s, YearPositionsFrom(s, 0))
  }

  // ---------------------------------------------------------------------
  // Digit and comma runs.

  /** A `[\d,]` character. */
  predicate IsAmountChar(c: char) {
    IsDigit(c) || c == ','
  }

  /** The end of the maximal run of `[\d,]` characters starting at `j`. */
  function AmountEnd(s: string, j: nat): (e: nat)
    requires j <= |s|
    ensures j <= e <= |s|
    ensures forall k :: j <= k < e ==> IsAmountChar(s[k])
    ensures e < |s| ==> !IsAmountChar(s[e])
    decreases |s| - j
  {
    if j < |s| && IsAmountChar(s[j]) then AmountEnd(s, j + 1) else j
  }

  /** The end of the maximal run of digits starting at `j`. */
  function DigitRunEnd(s: string, j: nat): (e: nat)
    requires j <= |s|
    ensures j <= e <= |s|
    ensures forall k :: j <= k < e ==> IsDigit(s[k])
    ensures e < |s| ==> !IsDigit(s[e])
    decreases |s| - j
  {
    if j < |s| && IsDigit(s[j]) then DigitRunEnd(s, j + 1) else j
  }

  /** A run of `[\d,]` characters that stops at a non-amount character
      (or the end) is the maximal run. */
  lemma AmountEndAt(s: string, j: nat, e: nat)
    requires j <= e <= |s|
    requires forall k :: j <= k < e ==> IsAmountChar(s[k])
    requires e < |s| ==> !IsAmountChar(s[e])
    ensures AmountEnd(s, j) == e
  {
  }

  /** A run of digits that stops at a non-digit (or the end) is the
      maximal run. */
  lemma DigitRunEndAt(s: string, j: nat, e: nat)
    requires j <= e <= |s|
    requires forall k :: j <= k < e ==> IsDigit(s[k])
    requires e < |s| ==> !IsDigit(s[e])
    ensures DigitRunEnd(s, j) == e
  {
  }

  /** The end of the maximal run of whitespace starting at `j` (`\s*`). */
  function SpacesEnd(s: string, j: nat): (e: nat)
    requires j <= |s|
    ensures j <= e <= |s|
    ensures forall k :: j <= k < e ==> IsSpace(s[k])
    ensures e < |s| ==> !IsSpace(s[e])
    decreases |s| - j
  {
    if j < |s| && IsSpace(s[j]) then SpacesEnd(s, j + 1) else j
  }

  // ---------------------------------------------------------------------
  // Dollar amounts: `\$\s?([\d,]+)`.

  /** Where the amount after a `$` at `i` starts: `\s?` takes one
      whitespace character when there is one. */
  function DollarGroupStart(s: string, i: nat): (j: nat)
    requires i < |s|
    ensures i + 1 <= j <= |s|
  {
    if i + 1 < |s| && IsSpace(s[i + 1]) then i + 2 else i + 1
  }

  /** The pattern matches at `i`. When `\s?` took a whitespace character
      and no amount follows it, backtracking to the empty `\s?` leaves the
      whitespace itself as the first amount character, so it fails too. */
  predicate DollarAt(s: string, i: int) {
    0 <= i < |s| && s[i] == '$'
    && DollarGroupStart(s, i) < |s| && IsAmountChar(s[DollarGroupStart(s, i)])
  }

  /** The captured amount of the match at `i`. */
  function DollarGroup(s: string, i: int): (g: string)
    requires DollarAt(s, i)
    ensures |g| >= 1 && forall k :: 0 <= k < |g| ==> IsAmountChar(g[k])
  {
    var j := DollarGroupStart(s, i);
    s[j..AmountEnd(s, j)]
  }

  /** Positions of all matches from `i` on, in increasing order. A match
      consumes only `$`, whitespace and `[\d,]` characters after its `$`,
      so the next `$` is never inside it. */
  function DollarPositionsFrom(s: string, i: nat): (r: seq<nat>)
    ensures forall p :: p in r <==> i <= p && DollarAt(s, p)
    ensures forall k :: 0 <= k < |r| ==> DollarAt(s, r[k])
    decreases |s| - i
  {
    if i >= |s| then []
    else
      var rest := DollarPositionsFrom(s, i + 1);
      if DollarAt(s, i) then [i] + rest else rest
  }

  /** `re.findall(r"\$\s?([\d,]+)", s)`: the captured amounts in order. */
  function DollarAmounts(s: string): (r: seq<string>)
    ensures var ps := DollarPositionsFrom(s, 0);
            |r| == |ps| && forall k :: 0 <= k < |r| ==> r[k] == DollarGroup(s, ps[k])
  {
    var ps := DollarPositionsFrom(s, 0);
    seq(|ps|, k requires 0 <= k < |ps| => DollarGroup(s, ps[k]))
  }

  // ---------------------------------------------------------------------
  // Standalone numbers: `\b\d{4,6}\b`.

  /** The pattern matches at `i`: a whole run of four to six digits, with
      no word character on either side. A longer run, or a run glued to a
      letter, has no word boundary at any of the lengths 4 to 6. */
  predicate NumberTokenAt(s: string, i: int) {
    0 <= i < |s| && IsDigit(s[i]) && (i == 0 || !IsWordChar(s[i - 1]))
    && 4 <= DigitRunEnd(s, i) - i <= 6
    && (DigitRunEnd(s, i) == |s| || !IsWordChar(s[DigitRunEnd(s, i)]))
  }

  /** Positions of all standalone numbers from `i` on, in increasing order. */
  function NumberPositionsFrom(s: string, i: nat): (r: seq<nat>)
    ensures forall p :: p in r <==> i <= p && NumberTokenAt(s, p)
    ensures forall k :: 0 <= k < |r| ==> NumberTokenAt(s, r[k])
    decreases |s| - i
  {
    if i >= |s| then []
    else
      var rest := NumberPositionsFrom(s, i + 1);
      if NumberTokenAt(s, i) then [i] + rest else rest
  }

  /** `int(...)` of the standalone number at `i`. */
  function NumberAt(s: string, i: int): nat
    requires NumberTokenAt(s, i)
  {
    DigitsValue(s[i..DigitRunEnd(s, i)])
  }

  // ---------------------------------------------------------------------
  // Mileage tokens: `\d{1,3}(?:,\d{3})*`.

  /** `,ddd` starts at `p`. */
  predicate GroupAt(s: string, p: int) {
    0 <= p && p + 4 <= |s| && s[p] == ',' && IsDigit(s[p + 1]) && IsDigit(s[p + 2]) && IsDigit(s[p + 3])
  }

  /** The end of the greedy `(?:,\d{3})*` from `p`. */
  function GroupsEnd(s: string, p: nat): (e: nat)
    requires p <= |s|
    ensures p <= e <= |s| && !GroupAt(s, e)
    decreases |s| - p
  {
    if GroupAt(s, p) then GroupsEnd(s, p + 4) else p
  }

  /** The end of the greedy match from the digit at `j`: up to three
      leading digits, then every following `,ddd` group. */
  function MileageEnd(s: string, j: nat): (e: nat)
    requires j < |s| && IsDigit(s[j])
    ensures j < e <= |s|
  {
    GroupsEnd(s, LeadEnd(s, j))
  }

  /** The end of `\d{1,3}` from the digit at `j`: at most three digits. */
  function LeadEnd(s: string, j: nat): (e: nat)
    requires j < |s| && IsDigit(s[j])
    ensures j < e <= j + 3 && e <= |s|
  {
    var run := DigitRunEnd(s, j);
    if run - j <= 3 then run else j + 3
  }

  /** `int(match.replace(",", ""))` of the token at `j`. */
  function MileageAt(s: string, j: nat): nat
    requires j < |s| && IsDigit(s[j])
  {
    DigitsValue(Replace(s[j..MileageEnd(s, j)], ',', ""))
  }

  /** The first digit at or after `i`: where `re.search` of the mileage
      pattern starts, since any digit begins a match. */
  function FirstDigitFrom(s: string, i: nat): (r: Option<nat>)
    ensures r.Some? ==> i <= r.value < |s| && IsDigit(s[r.value])
    ensures r.Some? ==> forall q :: i <= q < r.value ==> !IsDigit(s[q])
    ensures r.None? ==> forall q :: i <= q < |s| ==> !IsDigit(s[q])
    decreases |s| - i
  {
    if i >= |s| then None
    else if IsDigit(s[i]) then Some(i)
    else FirstDigitFrom(s, i + 1)
  }

  // ---------------------------------------------------------------------
  // Mileage followed by km: `(\d{1,3}(?:,\d{3})*)\s*km` with `re.I`.

  /** `k` under `re.I`, which also matches the Kelvin sign. */
  predicate IsKChar(c: char) {
    c == 'k' || c == 'K' || c == 'K'
  }

  predicate IsMChar(c: char) {
    c == 'm' || c == 'M'
  }

  /** The pattern matches at `j`. Only the greedy token can be followed by
      `\s*km`: a shorter lead stops before a digit and fewer groups stop
      before a comma, and neither is whitespace or `k`. */
  predicate KmAt(s: string, j: int) {
    0 <= j < |s| && IsDigit(s[j])
    && var f := SpacesEnd(s, MileageEnd(s, j));
    f + 2 <= |s| && IsKChar(s[f]) && IsMChar(s[f + 1])
  }

  /** `re.search` of the km pattern from `i` on. */
  function FirstKmFrom(s: string, i: nat): (r: Option<nat>)
    ensures r.Some? ==> i <= r.value && KmAt(s, r.value)
    ensures r.Some? ==> forall q :: i <= q < r.value ==> !KmAt(s, q)
    ensures r.None? ==> forall q :: i <= q ==> !KmAt(s, q)
    decreases |s| - i
  {
    if i >= |s| then None
    else if KmAt(s, i) then Some(i)
    else FirstKmFrom(s, i + 1)
  }

  // ---------------------------------------------------------------------
  // The price pattern `[\$]?([\d,]+\.?\d*)`.

  /** The first `[\d,]` character at or after `i`. The price pattern's
      leftmost match always captures from there: an earlier start would
      need a `$` directly before an amount character. */
  function FirstAmountFrom(s: string, i: nat): (r: Option<nat>)
    ensures r.Some? ==> i <= r.value < |s| && IsAmountChar(s[r.value])
    ensures r.Some? ==> forall q :: i <= q < r.value ==> !IsAmountChar(s[q])
    ensures r.None? ==> forall q :: i <= q < |s| ==> !IsAmountChar(s[q])
    decreases |s| - i
  {
    if i >= |s| then None
    else if IsAmountChar(s[i]) then Some(i)
    else FirstAmountFrom(s, i + 1)
  }
}
