/** The newer tool's search state (app/hooks/useDomainState.ts): the typed text,
    the searched domain, the candidate list, and the results map that every
    availability lookup writes into.

    React state setters become field assignments. The lookups scheduled with
    `setTimeout` are events: a lookup outcome is an input, and the events may
    be delivered in any order. Each `handleSubmit` creates its own completion
    counter (a closure), kept here as one `Batch` per submission. */
module AppDomainState {
  import opened Common
  import opened Text
  import opened Domain
  import opened Sanitizer
  import opened AppDomainHelpers

  const EmptyDomainError := "Please enter a domain"

  /** What a settled lookup writes for its domain: the service's data, or a
      WHOIS-shaped record built from the error. */
  function SettledEntry(d: string, outcome: Outcome): (r: DomainResult)
    ensures !r.loading
    ensures outcome.Succeeded? ==> r.data == outcome.data
    ensures outcome.Threw? ==> r.data == Some(Answer(WhoIs(d, Some(false), Some(outcome.message))))
  {
    match outcome
    case Succeeded(data) => DomainResult(false, data)
    case Threw(message) => DomainResult(false, Some(Answer(WhoIs(d, Some(false), Some(message)))))
  }

  class DomainState {
    var domain: string
    var sanitizedDomain: string
    var displayDomain: string
    var domainVariations: seq<DomainParts>
    var domainResults: map<string, DomainResult>
    var loading: bool
    var error: Option<string>
    /** The completion counters of all submissions so far. */
    var batches: seq<Batch>
    /** Which lookups of each submission have settled. */
    ghost var settled: seq<set<nat>>

    /** Each submission's counter is the number of its lookups that settled. */
    ghost predicate Valid()
      reads this
    {
      BatchesCounted(batches, settled)
    }

    /** The initial `useState` values. */
    constructor ()
      ensures Valid()
      ensures domain == "" && sanitizedDomain == "" && displayDomain == ""
      ensures domainVariations == [] && domainResults == map[] && !loading && error == None
      ensures batches == []
    {
      domain := "";
      sanitizedDomain := "";
      displayDomain := "";
      domainVariations := [];
      domainResults := map[];
      loading := false;
      error := None;
      batches := [];
      settled := [];
    }

    /** The mount effect: the candidate list becomes the featured records, and
        the results map is replaced by `{ loading: true }` for each of them. */
    method CheckFeaturedDomains(featured: seq<string>)
      modifies this`domainVariations, this`domainResults
      ensures domainVariations == seq(|featured|, i requires 0 <= i < |featured| => ParseFeaturedDomain(featured[i]))
      ensures domainResults == PendingFor(Domains(domainVariations))
    {
      var featuredVariations := seq(|featured|, i requires 0 <= i < |featured| => ParseFeaturedDomain(featured[i]));
      domainVariations := featuredVariations;
      domainResults := InitialResults(featuredVariations);
    }

    /** `handleDomainChange`: the typed text and its sanitized form. */
    method SetDomain(value: string)
      modifies this`domain, this`sanitizedDomain
      ensures domain == value && sanitizedDomain == SanitizeDomain(value)
    {
      var sanitized := Sanitize(value);
      domain := value;
      sanitizedDomain := sanitized;
    }

    /** `checkSingleDomain`: write the lookup's outcome under its domain, and
        hand a thrown error back to the caller. */
    method CheckSingleDomain(d: string, outcome: Outcome) returns (rethrown: Option<string>)
      modifies this`domainResults
      ensures domainResults == old(domainResults)[d := SettledEntry(d, outcome)]
      ensures rethrown == if outcome.Threw? then Some(outcome.message) else None
    {
      match outcome {
        case Succeeded(data) =>
          domainResults := domainResults[d := DomainResult(false, data)];
          rethrown := None;
        case Threw(message) =>
          domainResults := domainResults[d := DomainResult(false, Some(Answer(WhoIs(d, Some(false), Some(message)))))];
          rethrown := Some(message);
      }
    }

    /** First half of `retryDomainCheck`, up to its `await`: only the retried
        domain goes back to `{ loading: true }`. */
    method BeginRetry(d: string)
      modifies this`domainResults
      ensures domainResults == old(domainResults)[d := Pending]
    {
      domainResults := domainResults[d := Pending];
    }

    /** Second half of `retryDomainCheck`: the lookup settles as in
        `checkSingleDomain`, and its error is swallowed. */
    method CompleteRetry(d: string, outcome: Outcome)
      modifies this`domainResults
      ensures domainResults == old(domainResults)[d := SettledEntry(d, outcome)]
    {
      var _ := CheckSingleDomain(d, outcome);
    }

    /** `handleSubmit`. The search candidates come from a generator that is not
        part of this model, so they are a parameter, as are the featured names. */
    method HandleSubmit(searchVariations: seq<DomainParts>, featured: seq<string>)
      requires Valid()
      modifies this`displayDomain, this`loading, this`error, this`domainVariations
      modifies this`domainResults, this`batches, this`settled
      ensures Valid()
      // An empty text only sets the error.
      ensures old(domain) == "" ==>
        error == Some(EmptyDomainError) && loading == old(loading)
        && displayDomain == old(displayDomain) && domainVariations == old(domainVariations)
        && domainResults == old(domainResults) && batches == old(batches) && settled == old(settled)
      // Searching again for the domain on display changes nothing.
      ensures old(domain) != "" && old(sanitizedDomain) == old(displayDomain) && |old(domainVariations)| > 0 ==>
        error == old(error) && loading == old(loading)
        && displayDomain == old(displayDomain) && domainVariations == old(domainVariations)
        && domainResults == old(domainResults) && batches == old(batches) && settled == old(settled)
      // Otherwise a new search starts.
      ensures old(domain) != "" && !(old(sanitizedDomain) == old(displayDomain) && |old(domainVariations)| > 0) ==>
        displayDomain == old(sanitizedDomain) && loading && error == None
        && domainVariations == searchVariations + seq(|featured|, i requires 0 <= i < |featured| => ParseFeaturedDomain(featured[i]))
        && domainResults == old(domainResults) + PendingFor(Domains(searchVariations))
        && batches == old(batches) + [Batch(Domains(searchVariations), 0)]
        && settled == old(settled) + [{}]
    {
      if domain == "" {
        error := Some(EmptyDomainError);
        return;
      }
      if sanitizedDomain == displayDomain && |domainVariations| > 0 {
        return;
      }
      displayDomain := sanitizedDomain;
      loading := true;
      error := None;
      var featuredVariations := seq(|featured|, i requires 0 <= i < |featured| => ParseFeaturedDomain(featured[i]));
      domainVariations := searchVariations + featuredVariations;
      var initialResults := InitialResults(searchVariations);
      domainResults := domainResults + initialResults;
      BatchesCountedAppend(batches, settled, Domains(searchVariations));
      batches := batches + [Batch(Domains(searchVariations), 0)];
      settled := settled + [{}];
    }

    /** The `i`-th lookup of submission `b` settles: `checkSingleDomain` writes
        its outcome, then the `finally` callback counts it and clears `loading`
        when the count reaches the submission's number of lookups. */
    method SettleSearchLookup(b: nat, i: nat, outcome: Outcome)
      requires Valid()
      requires b < |batches| && i < |batches[b].domains| && i !in settled[b]
      modifies this`domainResults, this`batches, this`settled, this`loading
      ensures Valid()
      ensures domainResults == old(domainResults)[old(batches[b].domains[i]) := SettledEntry(old(batches[b].domains[i]), outcome)]
      ensures settled == old(settled)[b := old(settled[b]) + {i}]
      ensures |batches| == |old(batches)| && batches[b].domains == old(batches[b].domains)
      ensures forall c :: 0 <= c < |batches| && c != b ==> batches[c] == old(batches[c])
      ensures loading == if forall j :: 0 <= j < |batches[b].domains| ==> j in settled[b] then false else old(loading)
    {
      var _ := CheckSingleDomain(batches[b].domains[i], outcome);
      var count := batches[b].completedCount + 1;
      batches := batches[b := batches[b].(completedCount := count)];
      settled := settled[b := settled[b] + {i}];
      SettledBounded(settled[b], |batches[b].domains|);
      if count == |batches[b].domains| {
        loading := false;
      }
    }
  }
}
