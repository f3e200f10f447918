/** The conversation agent: the criteria summary, the results digest, and
    the three-state conversation (INITIAL, ASK_UPDATE_TYPE, ASK_SCHEDULE)
    that turns messages into a search or a recurring delivery. The
    extraction service, storage and scheduler are inputs and recorded
    calls; the listing pipeline is `DriveScraper.ScrapeDrive`. */
module Agent {
  import opened Options
  import opened Text
  import opened Numerals
  import opened Criteria
  import opened DriveScraper
  import DetailPage

  // ---------------------------------------------------------------------
  // The criteria summary.

  /** The year phrase, when either bound is truthy. */
  function YearPhrase(c: Criteria): Option<string> {
    if TruthyInt(c.yearMin) && TruthyInt(c.yearMax) then
      Some(IntToString(c.yearMin.value) + "-" + IntToString(c.yearMax.value))
    else if TruthyInt(c.yearMin) then Some(IntToString(c.yearMin.value) + " or newer")
    else if TruthyInt(c.yearMax) then Some("up to " + IntToString(c.yearMax.value))
    else None
  }

  function PricePhrase(p: int): string {
    "under $" + IntWithCommas(p)
  }

  function MileagePhrase(m: int): string {
    "under " + IntWithCommas(m) + " km"
  }

  function PlacePhrase(loc: string): string {
    "in " + loc
  }

  /** `[x]` when the condition holds, else `[]`. */
  function If(cond: bool, x: string): (r: seq<string>)
    ensures |r| <= 1 && (cond <==> x in r)
    ensures cond ==> r == [x]
  {
    if cond then [x] else []
  }

  /** The phrases of `format_criteria`, in order: make, model, years, price
      ceiling, mileage ceiling, location; a falsy field adds nothing. */
  function CriteriaParts(c: Criteria): seq<string> {
    If(TruthyText(c.make), c.make.GetOr(""))
    + If(TruthyText(c.model), c.model.GetOr(""))
    + If(YearPhrase(c).Some?, YearPhrase(c).GetOr(""))
    + If(TruthyInt(c.priceMax), PricePhrase(c.priceMax.GetOr(0)))
    + If(TruthyInt(c.mileageMax), MileagePhrase(c.mileageMax.GetOr(0)))
    + If(TruthyText(c.location), PlacePhrase(c.location.GetOr("")))
  }

  /** `format_criteria`: the phrases joined by single spaces. */
  function FormatCriteria(c: Criteria): string {
    Join(' ', CriteriaParts(c))
  }

  /** The fields the summary can mention. */
  predicate HasShownField(c: Criteria) {
    TruthyText(c.make) || TruthyText(c.model) || TruthyInt(c.yearMin) || TruthyInt(c.yearMax)
    || TruthyInt(c.priceMax) || TruthyInt(c.mileageMax) || TruthyText(c.location)
  }

  /** The criteria with every field the summary ignores cleared: price
      floor, transmission, listing type, and every falsy field. */
  function Shown(c: Criteria): (r: Criteria)
    ensures HasShownField(r) <==> HasShownField(c)
  {
    Criteria(
      if TruthyText(c.make) then c.make else None,
      if TruthyText(c.model) then c.model else None,
      if TruthyInt(c.yearMin) then c.yearMin else None,
      if TruthyInt(c.yearMax) then c.yearMax else None,
      if TruthyInt(c.mileageMax) then c.mileageMax else None,
      if TruthyInt(c.priceMax) then c.priceMax else None,
      None,
      if TruthyText(c.location) then c.location else None,
      None,
      None)
  }

  /** The summary depends only on the truthy make, model, year bounds,
      price ceiling, mileage ceiling and location. */
  lemma FormatCriteriaReadsShownFields(c: Criteria)
    ensures FormatCriteria(c) == FormatCriteria(Shown(c))
  {
    assert CriteriaParts(c) == CriteriaParts(Shown(c));
  }

  /** The summary is empty exactly when no field it can mention is truthy. */
  lemma FormatCriteriaEmpty(c: Criteria)
    ensures FormatCriteria(c) == "" <==> !HasShownField(c)
  {
    var parts := CriteriaParts(c);
    if HasShownField(c) {
      assert |parts| >= 1;
      assert parts[0] != "" by {
        if TruthyText(c.make) {
        } else if TruthyText(c.model) {
        } else if YearPhrase(c).Some? {
        } else if TruthyInt(c.priceMax) {
        } else if TruthyInt(c.mileageMax) {
        } else {
        }
      }
      JoinStartsWith(' ', parts);
    } else {
      assert parts == [];
    }
  }

  /** Each truthy field the summary can mention appears in it, in its
      phrase. */
  lemma FormatCriteriaMentions(c: Criteria)
    ensures TruthyText(c.make) ==> Contains(FormatCriteria(c), c.make.value)
    ensures TruthyText(c.model) ==> Contains(FormatCriteria(c), c.model.value)
    ensures YearPhrase(c).Some? ==> Contains(FormatCriteria(c), YearPhrase(c).value)
    ensures TruthyInt(c.priceMax) ==> Contains(FormatCriteria(c), PricePhrase(c.priceMax.value))
    ensures TruthyInt(c.mileageMax) ==> Contains(FormatCriteria(c), MileagePhrase(c.mileageMax.value))
    ensures TruthyText(c.location) ==> Contains(FormatCriteria(c), PlacePhrase(c.location.value))
  {
    var parts := CriteriaParts(c);
    forall x | x in parts ensures Contains(FormatCriteria(c), x) {
      var k :| 0 <= k < |parts| && parts[k] == x;
      JoinContains(' ', parts, k);
    }
  }

  /** With every field it can mention truthy, the summary is make, model,
      years, price ceiling, mileage ceiling and location, in that order,
      separated by single spaces. */
  lemma FormatCriteriaInOrder(c: Criteria)
    requires TruthyText(c.make) && TruthyText(c.model) && YearPhrase(c).Some?
    requires TruthyInt(c.priceMax) && TruthyInt(c.mileageMax) && TruthyText(c.location)
    ensures FormatCriteria(c)
            == c.make.value + " " + c.model.value + " " + YearPhrase(c).value + " "
               + PricePhrase(c.priceMax.value) + " " + MileagePhrase(c.mileageMax.value) + " "
               + PlacePhrase(c.location.value)
  {
    var a, b, y := c.make.value, c.model.value, YearPhrase(c).value;
    var p, m, l := PricePhrase(c.priceMax.value), MileagePhrase(c.mileageMax.value), PlacePhrase(c.location.value);
    assert CriteriaParts(c) == [a, b, y, p, m, l];
    JoinSix(a, b, y, p, m, l);
  }

  /** Six parts joined by spaces. */
  lemma JoinSix(a: string, b: string, y: string, p: string, m: string, l: string)
    ensures Join(' ', [a, b, y, p, m, l]) == a + " " + b + " " + y + " " + p + " " + m + " " + l
  {
    JoinCons(' ', m, [l]);
    assert [m, l] == [m] + [l];
    JoinCons(' ', p, [m, l]);
    assert [p, m, l] == [p] + [m, l];
    JoinCons(' ', y, [p, m, l]);
    assert [y, p, m, l] == [y] + [p, m, l];
    JoinCons(' ', b, [y, p, m, l]);
    assert [b, y, p, m, l] == [b] + [y, p, m, l];
    JoinCons(' ', a, [b, y, p, m, l]);
    assert [a, b, y, p, m, l] == [a] + [b, y, p, m, l];
  }

  // ---------------------------------------------------------------------
  // The results digest.

  const NoListings := "No listings found matching your criteria."

  /** At most this many listings are written out. */
  const MaxShown := 10

  function Header(n: int): string {
    "Found " + IntToString(n) + " listings:\n"
  }

  /** One numbered entry; every field of a scraped record is present, and
      its price is an `int`, so no `N/A` is ever written. */
  function Entry(i: int, car: Listing): string {
    IntToString(i) + ". " + car.name + "\n"
    + "   Price: $" + IntWithCommas(car.price) + "\n"
    + "   Mileage: " + IntToString(car.mileage) + " km\n"
    + "   Year: " + IntToString(car.year) + "\n"
    + "   Location: " + car.location + "\n"
    + "   URL: " + car.url + "\n"
  }

  function MoreLine(n: int): string {
    "... and " + IntToString(n - MaxShown) + " more listings"
  }

  function Min(a: int, b: int): int {
    if a <= b then a else b
  }

  /** The lines `format_results` joins: the header, the first ten entries
      numbered from 1, and the overflow line when there are more. */
  function ResultLines(results: seq<Listing>): seq<string> {
    var n := |results|;
    [Header(n)] + Entries(results[..Min(n, MaxShown)]) + If(n > MaxShown, MoreLine(n))
  }

  /** The entries of `cars`, numbered from 1. */
  function Entries(cars: seq<Listing>): (r: seq<string>)
    ensures |r| == |cars| && forall k :: 0 <= k < |cars| ==> r[k] == Entry(k + 1, cars[k])
  {
    seq(|cars|, k requires 0 <= k < |cars| => Entry(k + 1, cars[k]))
  }

  /** `format_results` */
  function FormatResults(results: seq<Listing>): string {
    if |results| == 0 then NoListings else Join('\n', ResultLines(results))
  }

  /** The digest says "no listings" exactly when there are none, and
      otherwise opens with the number found. */
  lemma FormatResultsHeader(results: seq<Listing>)
    ensures FormatResults(results) == NoListings <==> |results| == 0
    ensures |results| > 0 ==> StartsWith(FormatResults(results), Header(|results|))
  {
    if |results| > 0 {
      JoinStartsWith('\n', ResultLines(results));
      assert FormatResults(results)[0] == 'F' != NoListings[0];
    }
  }

  /** Each of the first ten listings is written out, numbered from 1, and
      the overflow line is written when there are more than ten. */
  lemma FormatResultsShowsFirstTen(results: seq<Listing>)
    requires |results| > 0
    ensures forall k :: 0 <= k < Min(|results|, MaxShown) ==>
              Contains(FormatResults(results), Entry(k + 1, results[k]))
    ensures |results| > MaxShown ==> Contains(FormatResults(results), MoreLine(|results|))
  {
    forall k | 0 <= k < Min(|results|, MaxShown)
      ensures Contains(FormatResults(results), Entry(k + 1, results[k]))
    {
      ResultLineShown(results, k + 1);
    }
    if |results| > MaxShown {
      ResultLineShown(results, |ResultLines(results)| - 1);
    }
  }

  /** Each line of the digest is written into it; the lines are the
      header, one entry per shown listing, and the overflow line when there
      are more than ten. */
  lemma ResultLineShown(results: seq<Listing>, k: int)
    requires |results| > 0
    requires 0 <= k < |ResultLines(results)|
    ensures Contains(FormatResults(results), ResultLines(results)[k])
    ensures |ResultLines(results)| == 1 + Min(|results|, MaxShown) + (if |results| > MaxShown then 1 else 0)
    ensures 1 <= k <= Min(|results|, MaxShown) ==> ResultLines(results)[k] == Entry(k, results[k - 1])
    ensures |results| > MaxShown && k == |ResultLines(results)| - 1 ==> ResultLines(results)[k] == MoreLine(|results|)
  {
    JoinContains('\n', ResultLines(results), k);
  }

  /** Listings after the tenth affect only the count: two result lists of
      the same length that agree on their first ten give the same digest. */
  lemma FormatResultsOnlyFirstTen(a: seq<Listing>, b: seq<Listing>)
    requires |a| == |b|
    requires a[..Min(|a|, MaxShown)] == b[..Min(|b|, MaxShown)]
    ensures FormatResults(a) == FormatResults(b)
  {
    assert ResultLines(a) == ResultLines(b);
  }

  /** The price written in an entry reads back as the listing's price. */
  lemma EntryPriceReadsBack(car: Listing)
    requires car.price >= 0
    ensures DetailPage.ParsePrice("$" + IntWithCommas(car.price)) == Ok(car.price)
  {
    DetailPage.ParsePriceWithCommas(car.price);
  }

  // ---------------------------------------------------------------------
  // The conversation.

  /** The session dict: its `state` and `criteria` keys, each possibly
      absent. */
  datatype Session = Session(state: Option<string>, criteria: Option<Criteria>)

  /** `{}` */
  const EmptySession := Session(None, None)

  datatype Action = Continue | Complete | Restart

  /** Calls into storage and the scheduler. */
  datatype Call =
    | StoreSearch(user: string, criteria: Criteria, results: seq<Listing>, kind: string)
    | StoreRecurring(user: string, criteria: Criteria, schedule: Schedule)
    | CreateSchedule(queryId: string, schedule: Schedule)

  /** The returned dict, with the calls the turn made. */
  datatype Reply = Reply(response: string, session: Session, action: Action, calls: seq<Call>)

  /** What the turn's collaborators answer: the extraction service's
      criteria and schedule for this message, the web, and, when cloud
      services are enabled, the id storage returns for a recurring query. */
  datatype Services = Services(
    extracted: Criteria,
    schedule: Schedule,
    web: Web,
    storage: Option<Option<string>>)

  const Initial := "INITIAL"
  const AskUpdateType := "ASK_UPDATE_TYPE"
  const AskSchedule := "ASK_SCHEDULE"

  const UpdatePrompt :=
    "Would you like this to be:\n"
    + "1. A one-time search (I'll show results right away)\n"
    + "2. Regular updates (I'll email you new listings periodically)\n\n"
    + "Please specify 1 or 2."

  const UnderstoodLead := "Got it! You're looking for: "

  function Understood(c: Criteria): string {
    UnderstoodLead + FormatCriteria(c) + "\n\n" + UpdatePrompt
  }

  const NotUnderstood :=
    "I couldn't understand your search criteria. Example: '2018 Toyota Camry under $25,000 in Sydney'."

  const ResultsIntro := "Here are the results:\n\n"

  const SchedulePrompt :=
    "Please provide:\n"
    + "1) How often? (daily/weekly/every 3 days)\n"
    + "2) Your email\n"
    + "3) Optional end date (YYYY-MM-DD)\n\n"
    + "Example: 'Send me daily updates to john@example.com, stop after 2025-12-31'"

  const ChooseAgain := "Please choose 1 (one-time) or 2 (regular updates)."

  const NeedBoth := "I need both your email and frequency (e.g., daily/weekly)."

  function SetUp(s: Schedule): string {
    "Set up " + s.frequency.GetOr("") + " updates to " + s.email.GetOr("") + "."
  }

  const StartOver := "Something went wrong. Let's start over. What car are you looking for?"

  const OneTimeAnswers: set<string> := {"1", "one", "one time", "one-time"}
  const RegularAnswers: set<string> := {"2", "regular", "updates", "regular updates"}

  /** The session's `state`, `INITIAL` when absent. */
  function StateOf(session: Session): string {
    session.state.GetOr(Initial)
  }

  /** The criteria the turn works with: the session's, overridden key by
      key by a non-empty latest extraction. */
  function TurnCriteria(session: Session, latest: Criteria): Criteria {
    var stale := session.criteria.GetOr(NoCriteria);
    if IsEmpty(latest) then stale else Merge(stale, latest)
  }

  /** The turn's criteria are the dict union of the session's and the
      fresh extraction, whether or not the extraction is empty. */
  lemma TurnCriteriaMerges(session: Session, latest: Criteria)
    ensures AsDict(TurnCriteria(session, latest)) == AsDict(session.criteria.GetOr(NoCriteria)) + AsDict(latest)
  {
    var stale := session.criteria.GetOr(NoCriteria);
    if IsEmpty(latest) {
      IsEmptyIffNoKeys(latest);
      assert AsDict(stale) + map[] == AsDict(stale);
    } else {
      MergeIsDictUnion(stale, latest);
    }
  }

  /** The first turn, or any turn whose criteria are still empty. */
  function StartTurn(session: Session, latest: Criteria): Reply {
    if !IsEmpty(latest) then
      var criteria := TurnCriteria(session, latest);
      Reply(Understood(criteria), Session(Some(AskUpdateType), Some(criteria)), Continue, [])
    else Reply(NotUnderstood, session, Continue, [])
  }

  /** `scrape_cars`: the pipeline with at most three results, read from
      the first result page only. It raises exactly when a search page
      cannot be fetched, and every listing it returns matches. */
  function ScrapeCars(web: Web, c: Criteria): (r: Result<seq<Listing>>)
    ensures r.Raised? <==> GetUniqueListingUrls(c, web, 1).Raised?
    ensures r.Ok? ==> |r.value| <= 3
    ensures r.Ok? ==> forall k :: 0 <= k < |r.value| ==> DetailPage.MatchesCriteria(r.value[k], c)
  {
    ScrapeDrive(c, web, 3, 1)
  }

  /** The answer to the one-time-or-regular question. A one-time search
      scrapes the session's stored criteria (a missing key raises
      `KeyError`) and stores it when storage is enabled. */
  function UpdateTypeTurn(user: string, message: string, session: Session, svc: Services,
                          scrape: Criteria -> Result<seq<Listing>>): Result<Reply> {
    var msg := Strip(Lower(message));
    if msg in OneTimeAnswers then
      if session.criteria.None? then Raised("KeyError: 'criteria'")
      else
        var criteria := session.criteria.value;
        var results :- scrape(criteria);
        var calls := if svc.storage.Some? then [StoreSearch(user, criteria, results, "one-time")] else [];
        Ok(Reply(ResultsIntro + FormatResults(results), EmptySession, Complete, calls))
    else if msg in RegularAnswers then
      Ok(Reply(SchedulePrompt, session.(state := Some(AskSchedule)), Continue, []))
    else Ok(Reply(ChooseAgain, session, Continue, []))
  }

  /** The schedule details. With storage enabled the query is stored under
      the session's criteria (a missing key raises `KeyError`), and a
      truthy returned id is scheduled. */
  function ScheduleTurn(user: string, session: Session, svc: Services): Result<Reply> {
    var sched := svc.schedule;
    if !ScheduleComplete(sched) then Ok(Reply(NeedBoth, session, Continue, []))
    else if svc.storage.None? then Ok(Reply(SetUp(sched), EmptySession, Complete, []))
    else if session.criteria.None? then Raised("KeyError: 'criteria'")
    else
      var queryId := svc.storage.value;
      var stored := [StoreRecurring(user, session.criteria.value, sched)];
      var scheduled := if TruthyText(queryId) then [CreateSchedule(queryId.value, sched)] else [];
      Ok(Reply(SetUp(sched), EmptySession, Complete, stored + scheduled))
  }

  /** One message in, one reply out, for any scraper standing in for
      `scrape_cars`. The conversation ends only with an empty session,
      only an ending turn calls out, and only a missing `criteria` key or
      the scraper raises. */
  function Respond(user: string, message: string, session: Session, svc: Services,
                   scrape: Criteria -> Result<seq<Listing>>): (r: Result<Reply>)
    ensures r.Ok? && r.value.action != Continue ==> r.value.session == EmptySession
    ensures r.Ok? && |r.value.calls| > 0 ==> r.value.action == Complete
    ensures r.Raised? ==> session.criteria.None? || StateOf(session) == AskUpdateType
  {
    var state := StateOf(session);
    var criteria := TurnCriteria(session, svc.extracted);
    if state == Initial || IsEmpty(criteria) then Ok(StartTurn(session, svc.extracted))
    else if state == AskUpdateType then UpdateTypeTurn(user, message, session, svc, scrape)
    else if state == AskSchedule then ScheduleTurn(user, session, svc)
    else Ok(Reply(StartOver, EmptySession, Restart, []))
  }

  /** `process_conversation`: the agent's own scraper plugged in. */
  function ProcessConversation(user: string, message: string, session: Session, svc: Services): Result<Reply> {
    Respond(user, message, session, svc, c => ScrapeCars(svc.web, c))
  }

  // ---------------------------------------------------------------------
  // Properties of the conversation. They hold for every scraper, and so
  // for `ProcessConversation` in particular.

  /** A session without a `state` key is in the initial state: the reply
      is the one for `INITIAL`, except that a session echoed back keeps
      its missing key. */
  lemma MissingStateIsInitial(user: string, message: string, session: Session, svc: Services,
                              scrape: Criteria -> Result<seq<Listing>>)
    ensures var r := Respond(user, message, session.(state := None), svc, scrape);
            var q := Respond(user, message, session.(state := Some(Initial)), svc, scrape);
            && r.Ok? && q.Ok?
            && r.value.response == q.value.response && r.value.action == q.value.action
            && r.value.calls == q.value.calls && r.value.session.criteria == q.value.session.criteria
  {
  }

  /** The first turn, or any turn whose merged criteria are empty: a
      non-empty extraction is merged into the session's criteria,
      acknowledged with their summary, stored, and followed by the
      one-time-or-regular question; an empty one leaves the session as it
      was. Nothing is scraped or stored either way. */
  lemma FirstTurn(user: string, message: string, session: Session, svc: Services,
                  scrape: Criteria -> Result<seq<Listing>>)
    requires StateOf(session) == Initial || IsEmpty(TurnCriteria(session, svc.extracted))
    ensures var r := Respond(user, message, session, svc, scrape);
            && r.Ok? && r.value.action == Continue && r.value.calls == []
            && (IsEmpty(svc.extracted) ==> r.value == Reply(NotUnderstood, session, Continue, []))
            && (!IsEmpty(svc.extracted) ==>
                  && r.value.session.state == Some(AskUpdateType)
                  && r.value.session.criteria.Some?
                  && AsDict(r.value.session.criteria.value)
                     == AsDict(session.criteria.GetOr(NoCriteria)) + AsDict(svc.extracted)
                  && r.value.response == Understood(r.value.session.criteria.value))
  {
    TurnCriteriaMerges(session, svc.extracted);
  }

  /** Once the session holds non-empty criteria past the first turn, what
      the extraction service finds in later messages changes nothing: the
      merged criteria are only tested for emptiness and never stored or
      searched. */
  lemma LaterExtractionIgnored(user: string, message: string, session: Session, svc: Services,
                               scrape: Criteria -> Result<seq<Listing>>, other: Criteria)
    requires StateOf(session) != Initial
    requires session.criteria.Some? && !IsEmpty(session.criteria.value)
    ensures Respond(user, message, session, svc, scrape)
            == Respond(user, message, session, svc.(extracted := other), scrape)
  {
  }

  /** Choosing a one-time search scrapes the stored criteria: the turn
      raises exactly when the scraper does, and otherwise shows the digest
      of what it found, ends the conversation and stores the search
      exactly when storage is enabled. */
  lemma OneTimeSearch(user: string, message: string, session: Session, svc: Services,
                      scrape: Criteria -> Result<seq<Listing>>)
    requires StateOf(session) == AskUpdateType
    requires session.criteria.Some? && !IsEmpty(session.criteria.value)
    requires Strip(Lower(message)) in OneTimeAnswers
    ensures var r := Respond(user, message, session, svc, scrape);
            var scraped := scrape(session.criteria.value);
            && (r.Raised? <==> scraped.Raised?)
            && (r.Ok? ==>
                  && r.value.response == ResultsIntro + FormatResults(scraped.value)
                  && r.value.session == EmptySession && r.value.action == Complete
                  && (svc.storage.Some? <==> StoreSearch(user, session.criteria.value, scraped.value, "one-time") in r.value.calls)
                  && |r.value.calls| <= 1)
  {
  }

  /** Choosing regular updates moves to the schedule question and keeps
      the session's criteria; any other answer asks again and changes
      nothing. */
  lemma ChooseRegularOrAgain(user: string, message: string, session: Session, svc: Services,
                             scrape: Criteria -> Result<seq<Listing>>)
    requires StateOf(session) == AskUpdateType
    requires session.criteria.Some? && !IsEmpty(session.criteria.value)
    requires Strip(Lower(message)) !in OneTimeAnswers
    ensures var r := Respond(user, message, session, svc, scrape);
            && r.Ok? && r.value.action == Continue && r.value.calls == []
            && r.value.session.criteria == session.criteria
            && (Strip(Lower(message)) in RegularAnswers <==> r.value.session.state == Some(AskSchedule))
            && (Strip(Lower(message)) !in RegularAnswers ==> r.value == Reply(ChooseAgain, session, Continue, []))
  {
  }

  /** The schedule turn: without both a truthy email and frequency it asks
      again; with both it confirms and ends the conversation, stores the
      recurring query exactly when storage is enabled, and creates a
      schedule exactly when storage returned a truthy id. */
  lemma ScheduleAnswer(user: string, message: string, session: Session, svc: Services,
                       scrape: Criteria -> Result<seq<Listing>>)
    requires StateOf(session) == AskSchedule
    requires session.criteria.Some? && !IsEmpty(session.criteria.value)
    ensures var r := Respond(user, message, session, svc, scrape);
            && r.Ok?
            && (!ScheduleComplete(svc.schedule) ==> r.value == Reply(NeedBoth, session, Continue, []))
            && (ScheduleComplete(svc.schedule) ==>
                  && r.value.response == SetUp(svc.schedule)
                  && r.value.session == EmptySession && r.value.action == Complete
                  && (svc.storage.Some? <==> StoreRecurring(user, session.criteria.value, svc.schedule) in r.value.calls)
                  && (forall q :: CreateSchedule(q, svc.schedule) in r.value.calls
                        <==> svc.storage.Some? && svc.storage.value == Some(q) && q != ""))
  {
  }

  /** A session in a state the agent does not know is discarded. */
  lemma UnknownStateRestarts(user: string, message: string, session: Session, svc: Services,
                             scrape: Criteria -> Result<seq<Listing>>)
    requires StateOf(session) !in {Initial, AskUpdateType, AskSchedule}
    requires session.criteria.Some? && !IsEmpty(session.criteria.value)
    ensures Respond(user, message, session, svc, scrape) == Ok(Reply(StartOver, EmptySession, Restart, []))
  {
  }

  /** A full recurring-delivery conversation from an empty session: a
      message the extraction service understands, then "2", then complete
      schedule details, with storage disabled. The criteria found in the
      first message survive to the last turn, which confirms and ends. */
  lemma RegularUpdatesConversation(user: string, m1: string, m2: string, m3: string,
                                   svc1: Services, svc2: Services, svc3: Services,
                                   scrape: Criteria -> Result<seq<Listing>>)
    requires !IsEmpty(svc1.extracted)
    requires Strip(Lower(m2)) == "2"
    requires ScheduleComplete(svc3.schedule) && svc3.storage.None?
    ensures var r1 := Respond(user, m1, EmptySession, svc1, scrape);
            && r1.Ok? && r1.value.session == Session(Some(AskUpdateType), Some(svc1.extracted))
            && var r2 := Respond(user, m2, r1.value.session, svc2, scrape);
               && r2.Ok? && r2.value.session == Session(Some(AskSchedule), Some(svc1.extracted))
               && Respond(user, m3, r2.value.session, svc3, scrape)
                  == Ok(Reply(SetUp(svc3.schedule), EmptySession, Complete, []))
  {
    MergeIdentity(svc1.extracted);
    var s1 := Session(Some(AskUpdateType), Some(svc1.extracted));
    ChooseRegularOrAgain(user, m2, s1, svc2, scrape);
    ScheduleAnswer(user, m3, s1.(state := Some(AskSchedule)), svc3, scrape);
  }

  /** With the agent's own scraper, a completed one-time search shows at
      most three listings, each matching the stored criteria. */
  lemma OneTimeSearchShowsMatches(user: string, message: string, session: Session, svc: Services)
    requires StateOf(session) == AskUpdateType
    requires session.criteria.Some? && !IsEmpty(session.criteria.value)
    requires Strip(Lower(message)) in OneTimeAnswers
    ensures var r := ProcessConversation(user, message, session, svc);
            var scraped := ScrapeCars(svc.web, session.criteria.value);
            && (r.Raised? <==> GetUniqueListingUrls(session.criteria.value, svc.web, 1).Raised?)
            && (r.Ok? ==>
                  && r.value.response == ResultsIntro + FormatResults(scraped.value)
                  && |scraped.value| <= 3
                  && forall k :: 0 <= k < |scraped.value| ==> DetailPage.MatchesCriteria(scraped.value[k], session.criteria.value))
  {
    OneTimeSearch(user, message, session, svc, c => ScrapeCars(svc.web, c));
  }
}
