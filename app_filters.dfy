/** The two result filters of the newer tool (app/hooks/useFilters.ts) and the
    test a candidate must pass to be shown. */
module AppFilters {
  import opened Common
  import opened Text
  import opened Domain

  datatype AvailabilityFilter = AllAvailability | AvailableOnly
  datatype TldFilter = AllTlds | ComOnly

  datatype FilterState = FilterState(availabilityFilter: AvailabilityFilter, tldFilter: TldFilter)

  /** Both filters start at `'all'`. */
  const InitialFilters := FilterState(AllAvailability, AllTlds)

  /** `result && !result.loading && result.data?.isAvailable === true`. */
  predicate KnownAvailable(domain: string, results: map<string, DomainResult>) {
    domain in results && !results[domain].loading
    && results[domain].data.Some? && results[domain].data.value.Answer?
    && results[domain].data.value.whois.isAvailable == Some(true)
  }

  /** `checkDomainAgainstFilters`. */
  function CheckDomainAgainstFilters(filters: FilterState, domain: string, results: map<string, DomainResult>): (ok: bool)
    ensures filters.availabilityFilter == AvailableOnly && ok ==> domain in results && !results[domain].loading
    ensures ok <==>
      (filters.availabilityFilter == AvailableOnly ==> KnownAvailable(domain, results))
      && (filters.tldFilter == ComOnly ==> EndsWith(domain, ".com"))
  {
    var isAvailableOk := if filters.availabilityFilter == AvailableOnly then KnownAvailable(domain, results) else true;
    var isTldOk := if filters.tldFilter == ComOnly then EndsWith(domain, ".com") else true;
    isAvailableOk && isTldOk
  }

  /** With the initial filters every candidate is shown, whatever the results. */
  lemma InitialShowsAll(domain: string, results: map<string, DomainResult>)
    ensures CheckDomainAgainstFilters(InitialFilters, domain, results)
  {
  }

  /** A missing or still-loading entry never passes the availability filter. */
  lemma PendingHidden(filters: FilterState, domain: string, results: map<string, DomainResult>)
    requires filters.availabilityFilter == AvailableOnly
    requires domain !in results || results[domain].loading
    ensures !CheckDomainAgainstFilters(filters, domain, results)
  {
  }

  /** The strictest setting passes only what every setting passes. */
  lemma StrictestIsStrongest(other: FilterState, domain: string, results: map<string, DomainResult>)
    requires CheckDomainAgainstFilters(FilterState(AvailableOnly, ComOnly), domain, results)
    ensures CheckDomainAgainstFilters(other, domain, results)
  {
  }
}
