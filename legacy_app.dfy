/** The older tool's page state (src/App.tsx): the typed text, the searched
    domain, the candidate list, the AI suggestions, and the results map that
    every availability lookup writes into.

    React state setters become field assignments. The lookups scheduled with
    `setTimeout` are events: a lookup outcome is an input, and the events may
    be delivered in any order. Each `handleSubmit` creates its own completion
    counter (a closure), kept here as one `Batch` per submission. */
module LegacyApp {
  import opened Common
  import opened Text
  import opened Seqs
  import opened Domain
  import opened Sanitizer
  import opened LegacyDomainUtils
  import opened AppAISuggestions

  const EmptyDomainError := "Please enter a domain"
  const RequestFailed := "Request failed"
  const RetryFailed := "Retry failed"

  /** What a settled lookup writes for its domain: the service's data, or an
      `{ error }` object with the thrown message, or `fallback` when that
      message is empty. */
  function SettledEntry(outcome: Outcome, fallback: string): (r: DomainResult)
    ensures !r.loading
    ensures outcome.Succeeded? ==> r.data == outcome.data
    ensures outcome.Threw? && outcome.message != "" ==> r.data == Some(ErrorData(outcome.message))
    ensures outcome.Threw? && outcome.message == "" ==> r.data == Some(ErrorData(fallback))
  {
    match outcome
    case Succeeded(data) => DomainResult(false, data)
    case Threw(message) => DomainResult(false, Some(ErrorData(if message != "" then message else fallback)))
  }

  /** The record of the searched domain itself. */
  predicate IsMain(v: DomainParts, displayDomain: string) {
    v.domain == displayDomain
  }

  predicate IsAlternativeExtension(v: DomainParts, displayDomain: string) {
    v.prefix.None? && v.suffix.None? && v.domain != displayDomain
  }

  predicate IsAlternativeSuggestion(v: DomainParts) {
    v.prefix.Some? || v.suffix.Some?
  }

  /** `getMainDomain`: the first candidate for the displayed domain; `null` and
      `undefined` are both `None`. */
  function MainDomain(variations: seq<DomainParts>, displayDomain: string): (r: Option<DomainParts>)
    ensures r.Some? ==>
      exists k :: 0 <= k < |variations| && variations[k] == r.value && IsMain(r.value, displayDomain)
        && forall j :: 0 <= j < k ==> !IsMain(variations[j], displayDomain)
    ensures r.None? <==> forall k :: 0 <= k < |variations| ==> !IsMain(variations[k], displayDomain)
  {
    if |variations| == 0 then None
    else
      match FindIndex(variations, v => IsMain(v, displayDomain))
      case Some(k) => Some(variations[k])
      case None => None
  }

  /** `getAlternativeExtensions`. */
  function AlternativeExtensions(variations: seq<DomainParts>, displayDomain: string): (r: seq<DomainParts>)
    ensures forall v :: v in r <==> v in variations && IsAlternativeExtension(v, displayDomain)
  {
    if |variations| == 0 then [] else Filter(variations, v => IsAlternativeExtension(v, displayDomain))
  }

  /** `getAlternativeSuggestions`. */
  function AlternativeSuggestions(variations: seq<DomainParts>): (r: seq<DomainParts>)
    ensures forall v :: v in r <==> v in variations && IsAlternativeSuggestion(v)
  {
    if |variations| == 0 then [] else Filter(variations, IsAlternativeSuggestion)
  }

  /** The records neither list takes: affix-less records of the displayed
      domain. */
  predicate IsMainUnadorned(v: DomainParts, displayDomain: string) {
    IsMain(v, displayDomain) && v.prefix.None? && v.suffix.None?
  }

  /** The two lists never share a record, and with the affix-less records of
      the displayed domain they account for every candidate exactly once. */
  lemma {:induction false} ListsPartition(variations: seq<DomainParts>, displayDomain: string)
    ensures forall v :: v in AlternativeExtensions(variations, displayDomain) ==> v !in AlternativeSuggestions(variations)
    ensures |AlternativeExtensions(variations, displayDomain)| + |AlternativeSuggestions(variations)|
      + |Filter(variations, v => IsMainUnadorned(v, displayDomain))| == |variations|
  {
    if |variations| > 0 {
      ListsPartition(variations[1..], displayDomain);
    }
  }

  /** A search for a catalog extension always finds its main record among
      the generated candidates. */
  lemma MainOfCatalogSearch(nameOnly: string, userInput: string, i: nat)
    requires i < |CommonTlds|
    ensures MainDomain(Variations(nameOnly, userInput), nameOnly + CommonTlds[i]).Some?
  {
    var r := Variations(nameOnly, userInput);
    SearchedDomainIncluded(nameOnly, userInput, r, i);
    assert IsMain(r[i], nameOnly + CommonTlds[i]);
  }

  class App {
    var domain: string
    var sanitizedDomain: string
    var displayDomain: string
    var domainVariations: seq<DomainParts>
    var aiSuggestions: seq<DomainParts>
    var domainResults: map<string, DomainResult>
    var loading: bool
    var error: Option<string>
    var isGeneratingAI: bool
    /** The completion counters of all submissions so far. */
    var batches: seq<Batch>
    /** Which lookups of each submission have settled. */
    ghost var settled: seq<set<nat>>

    /** Each submission's counter is the number of its lookups that settled. */
    ghost predicate Valid()
      reads this
    {
      BatchesCounted(batches, settled)
    }

    /** The initial `useState` values. */
    constructor ()
      ensures Valid()
      ensures domain == "" && sanitizedDomain == "" && displayDomain == ""
      ensures domainVariations == [] && aiSuggestions == [] && domainResults == map[]
      ensures !loading && error == None && !isGeneratingAI && batches == []
    {
      domain := "";
      sanitizedDomain := "";
      displayDomain := "";
      domainVariations := [];
      aiSuggestions := [];
      domainResults := map[];
      loading := false;
      error := None;
      isGeneratingAI := false;
      batches := [];
      settled := [];
    }

    /** `handleDomainChange`: the typed text and its sanitized form. */
    method SetDomain(value: string)
      modifies this`domain, this`sanitizedDomain
      ensures domain == value && sanitizedDomain == SanitizeDomain(value)
    {
      var sanitized := Sanitize(value);
      domain := value;
      sanitizedDomain := sanitized;
    }

    /** `checkSingleDomain`: write the lookup's outcome under its domain, and
        hand a thrown error back to the caller. */
    method CheckSingleDomain(d: string, outcome: Outcome) returns (rethrown: Option<string>)
      modifies this`domainResults
      ensures domainResults == old(domainResults)[d := SettledEntry(outcome, RequestFailed)]
      ensures rethrown == if outcome.Threw? then Some(outcome.message) else None
    {
      match outcome {
        case Succeeded(data) =>
          domainResults := domainResults[d := DomainResult(false, data)];
          rethrown := None;
        case Threw(message) =>
          domainResults := domainResults[d := DomainResult(false, Some(ErrorData(if message != "" then message else RequestFailed)))];
          rethrown := Some(message);
      }
    }

    /** First half of `retryDomainCheck`, up to its `await`: only the retried
        domain goes back to `{ loading: true }`. */
    method BeginRetry(d: string)
      modifies this`domainResults
      ensures domainResults == old(domainResults)[d := Pending]
    {
      domainResults := domainResults[d := Pending];
    }

    /** Second half of `retryDomainCheck`: the lookup's data, or its error
        with `Retry failed` for an empty message; nothing is rethrown. */
    method CompleteRetry(d: string, outcome: Outcome)
      modifies this`domainResults
      ensures domainResults == old(domainResults)[d := SettledEntry(outcome, RetryFailed)]
    {
      match outcome {
        case Succeeded(data) =>
          domainResults := domainResults[d := DomainResult(false, data)];
        case Threw(message) =>
          domainResults := domainResults[d := DomainResult(false, Some(ErrorData(if message != "" then message else RetryFailed)))];
      }
    }

    /** `handleSubmit`: an empty text only sets the error; otherwise the
        candidates are generated and the results map is replaced, not merged,
        by `{ loading: true }` for each of them. */
    method HandleSubmit()
      requires Valid()
      modifies this`displayDomain, this`loading, this`error, this`domainVariations
      modifies this`domainResults, this`batches, this`settled
      ensures Valid()
      ensures old(domain) == "" ==>
        error == Some(EmptyDomainError) && loading == old(loading)
        && displayDomain == old(displayDomain) && domainVariations == old(domainVariations)
        && domainResults == old(domainResults) && batches == old(batches) && settled == old(settled)
      ensures old(domain) != "" ==>
        displayDomain == old(sanitizedDomain) && loading && error == None
        && domainVariations == Variations(BeforeFirst(old(sanitizedDomain), '.'), old(domain))
        && domainResults == PendingFor(Domains(domainVariations))
        && batches == old(batches) + [Batch(Domains(domainVariations), 0)]
        && settled == old(settled) + [{}]
    {
      if domain == "" {
        error := Some(EmptyDomainError);
        return;
      }
      displayDomain := sanitizedDomain;
      loading := true;
      error := None;
      var variations := GenerateDomainVariations(sanitizedDomain, domain);
      domainVariations := variations;
      domainResults := InitialResults(variations);
      BatchesCountedAppend(batches, settled, Domains(variations));
      batches := batches + [Batch(Domains(variations), 0)];
      settled := settled + [{}];
    }

    /** The `i`-th lookup of submission `b` settles: `checkSingleDomain` writes
        its outcome, then the `finally` callback counts it and clears `loading`
        when the count reaches the number of candidates. */
    method SettleSearchLookup(b: nat, i: nat, outcome: Outcome)
      requires Valid()
      requires b < |batches| && i < |batches[b].domains| && i !in settled[b]
      modifies this`domainResults, this`batches, this`settled, this`loading
      ensures Valid()
      ensures domainResults == old(domainResults)[old(batches[b].domains[i]) := SettledEntry(outcome, RequestFailed)]
      ensures settled == old(settled)[b := old(settled[b]) + {i}]
      ensures |batches| == |old(batches)| && batches[b].domains == old(batches[b].domains)
      ensures forall c :: 0 <= c < |batches| && c != b ==> batches[c] == old(batches[c])
      ensures loading == if forall j :: 0 <= j < |batches[b].domains| ==> j in settled[b] then false else old(loading)
    {
      var _ := CheckSingleDomain(batches[b].domains[i], outcome);
      var count := batches[b].completedCount + 1;
      batches := batches[b := batches[b].(completedCount := count)];
      settled := settled[b := settled[b] + {i}];
      SettledBounded(settled[b], |batches[b].domains|);
      if count == |batches[b].domains| {
        loading := false;
      }
    }

    /** `handleGenerateAI`. The generator is a parameter (`None` for a thrown
        error); `toCheck` are the domains whose availability check is
        scheduled afterwards. Suggestions are deduplicated against the
        candidates and the earlier suggestions together. */
    method HandleGenerateAI(generate: (string, bool) -> Option<seq<DomainParts>>) returns (toCheck: seq<string>)
      modifies this`aiSuggestions, this`isGeneratingAI, this`error, this`domainResults
      // Without a sanitized domain nothing happens.
      ensures old(sanitizedDomain) == "" ==>
        aiSuggestions == old(aiSuggestions) && domainResults == old(domainResults)
        && error == old(error) && isGeneratingAI == old(isGeneratingAI) && toCheck == []
      ensures old(sanitizedDomain) != "" ==> !isGeneratingAI
      // A thrown generation reports the failure.
      ensures old(sanitizedDomain) != "" && generate(old(sanitizedDomain), |old(aiSuggestions)| == 0).None? ==>
        error == Some(GenerationFailedError) && aiSuggestions == old(aiSuggestions)
        && domainResults == old(domainResults) && toCheck == []
      // A batch with nothing new reports that.
      ensures (old(sanitizedDomain) != "" && generate(old(sanitizedDomain), |old(aiSuggestions)| == 0).Some?
        && NewSuggestions(generate(old(sanitizedDomain), |old(aiSuggestions)| == 0).value,
                          old(domainVariations) + old(aiSuggestions)) == []) ==>
        error == Some(NothingNewError) && aiSuggestions == old(aiSuggestions)
        && domainResults == old(domainResults) && toCheck == []
      // Otherwise the new ones are appended and merged into the map as pending.
      ensures (old(sanitizedDomain) != "" && generate(old(sanitizedDomain), |old(aiSuggestions)| == 0).Some?
        && NewSuggestions(generate(old(sanitizedDomain), |old(aiSuggestions)| == 0).value,
                          old(domainVariations) + old(aiSuggestions)) != []) ==>
        error == None
        && aiSuggestions == old(aiSuggestions) + NewSuggestions(generate(old(sanitizedDomain), |old(aiSuggestions)| == 0).value,
                                                                 old(domainVariations) + old(aiSuggestions))
        && domainResults == old(domainResults) + PendingFor(toCheck)
        && toCheck == Domains(NewSuggestions(generate(old(sanitizedDomain), |old(aiSuggestions)| == 0).value,
                                             old(domainVariations) + old(aiSuggestions)))
    {
      toCheck := [];
      if sanitizedDomain == "" {
        return;
      }
      isGeneratingAI := true;
      error := None;
      var generated := generate(sanitizedDomain, |aiSuggestions| == 0);
      match generated {
        case None =>
          error := Some(GenerationFailedError);
        case Some(suggestions) =>
          var newSuggestions := NewSuggestions(suggestions, domainVariations + aiSuggestions);
          if |newSuggestions| == 0 {
            error := Some(NothingNewError);
          } else {
            aiSuggestions := aiSuggestions + newSuggestions;
            toCheck := Domains(newSuggestions);
            domainResults := domainResults + PendingFor(toCheck);
          }
      }
      isGeneratingAI := false;
    }
  }

  /** After a generation that appends, no suggestion's domain was already a
      candidate or an earlier suggestion. */
  lemma AppendedSuggestionsAreNew(variations: seq<DomainParts>, before: seq<DomainParts>, batch: seq<DomainParts>, s: DomainParts)
    requires s in NewSuggestions(batch, variations + before)
    ensures s.domain !in Domains(variations) && s.domain !in Domains(before)
  {
    assert Domains(variations + before) == Domains(variations) + Domains(before);
  }
}
