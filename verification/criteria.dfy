/** The records the agent passes around: search criteria, schedule details
    and listing records. Criteria travel in the source as plain dicts whose
    keys are present only when the extraction service found a value; here
    each key is an optional field and `AsDict` gives back the dict view. */
module Criteria {
  import opened Options

  /** A car search. `priceMin` is not among the fields the extraction schema
      declares, but the URL builder reads it. */
  datatype Criteria = Criteria(
    make: Option<string>,
    model: Option<string>,
    yearMin: Option<int>,
    yearMax: Option<int>,
    mileageMax: Option<int>,
    priceMax: Option<int>,
    priceMin: Option<int>,
    location: Option<string>,
    transmission: Option<string>,
    listingType: Option<string>)

  /** The empty dict `{}`. */
  const NoCriteria := Criteria(None, None, None, None, None, None, None, None, None, None)

  /** Recurring-delivery details; `frequency` is a schedule expression. */
  datatype Schedule = Schedule(email: Option<string>, frequency: Option<string>, endDate: Option<string>)

  /** A listing as the scraper builds it from one detail page. */
  datatype Listing = Listing(
    name: string,
    price: int,
    year: int,
    mileage: int,
    location: string,
    url: string,
    source: string)

  /** The keys of a criteria dict. */
  datatype Key = Make | Model | YearMin | YearMax | MileageMax | PriceMax | PriceMin
               | Location | Transmission | ListingType

  const AllKeys: set<Key> :=
    {Make, Model, YearMin, YearMax, MileageMax, PriceMax, PriceMin, Location, Transmission, ListingType}

  datatype Value = Text(text: string) | Number(number: int)

  function TextValue(o: Option<string>): Option<Value> {
    if o.Some? then Some(Text(o.value)) else None
  }

  function NumberValue(o: Option<int>): Option<Value> {
    if o.Some? then Some(Number(o.value)) else None
  }

  /** `criteria.get(key)` */
  function Get(c: Criteria, k: Key): Option<Value> {
    match k
    case Make => TextValue(c.make)
    case Model => TextValue(c.model)
    case YearMin => NumberValue(c.yearMin)
    case YearMax => NumberValue(c.yearMax)
    case MileageMax => NumberValue(c.mileageMax)
    case PriceMax => NumberValue(c.priceMax)
    case PriceMin => NumberValue(c.priceMin)
    case Location => TextValue(c.location)
    case Transmission => TextValue(c.transmission)
    case ListingType => TextValue(c.listingType)
  }

  /** The dict the source holds: exactly the present keys with their values. */
  function AsDict(c: Criteria): map<Key, Value> {
    map k | k in AllKeys && Get(c, k).Some? :: Get(c, k).value
  }

  /** `not criteria`: the dict has no keys at all. A key holding 0 or ""
      still makes the dict non-empty. */
  predicate IsEmpty(c: Criteria) {
    c == NoCriteria
  }

  lemma IsEmptyIffNoKeys(c: Criteria)
    ensures IsEmpty(c) <==> AsDict(c) == map[]
  {
    if AsDict(c) == map[] {
      forall k | k in AllKeys ensures Get(c, k).None? {
        assert k !in AsDict(c);
      }
      assert Get(c, Make).None? && Get(c, Model).None? && Get(c, YearMin).None?;
      assert Get(c, YearMax).None? && Get(c, MileageMax).None? && Get(c, PriceMax).None?;
      assert Get(c, PriceMin).None? && Get(c, Location).None? && Get(c, Transmission).None?;
      assert Get(c, ListingType).None?;
    }
  }

  function Override<T>(stale: Option<T>, latest: Option<T>): Option<T> {
    if latest.Some? then latest else stale
  }

  /** `{**stale, **latest}`, field by field; it is empty only when both
      are. */
  function Merge(stale: Criteria, latest: Criteria): (r: Criteria)
    ensures IsEmpty(r) <==> IsEmpty(stale) && IsEmpty(latest)
  {
    Criteria(
      Override(stale.make, latest.make),
      Override(stale.model, latest.model),
      Override(stale.yearMin, latest.yearMin),
      Override(stale.yearMax, latest.yearMax),
      Override(stale.mileageMax, latest.mileageMax),
      Override(stale.priceMax, latest.priceMax),
      Override(stale.priceMin, latest.priceMin),
      Override(stale.location, latest.location),
      Override(stale.transmission, latest.transmission),
      Override(stale.listingType, latest.listingType))
  }

  /** The merge is the dict union: every key of `latest` overrides, every
      other key keeps its earlier value. */
  lemma MergeIsDictUnion(stale: Criteria, latest: Criteria)
    ensures AsDict(Merge(stale, latest)) == AsDict(stale) + AsDict(latest)
  {
    var r := Merge(stale, latest);
    assert forall k :: Get(r, k) == (if Get(latest, k).Some? then Get(latest, k) else Get(stale, k));
  }

  /** Merging across turns composes: merging two turns one after the other is
      merging their combined extraction once. */
  lemma MergeAssociative(a: Criteria, b: Criteria, c: Criteria)
    ensures Merge(Merge(a, b), c) == Merge(a, Merge(b, c))
  {
  }

  /** Merging nothing changes nothing, and merging into `{}` copies. */
  lemma MergeIdentity(c: Criteria)
    ensures Merge(c, NoCriteria) == c && Merge(NoCriteria, c) == c
  {
  }

  /** The schedule is complete when both email and frequency are truthy. */
  predicate ScheduleComplete(s: Schedule) {
    TruthyText(s.email) && TruthyText(s.frequency)
  }
}
