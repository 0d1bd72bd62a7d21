/** The newer tool's AI suggestion list (app/hooks/useAISuggestions.ts): each
    run asks the generator for names, keeps those whose domain is not listed
    yet, and appends them.

    The generator is a parameter; `None` stands for a thrown error. The shown
    generator (`GenerateAIDomainSuggestions`) catches its own failures, so
    through it a run never throws (`ShownGeneratorNeverThrows`). The staggered
    availability checks of the new suggestions are returned as the list of
    domains to check, in order. */
module AppAISuggestions {
  import opened Common
  import opened Text
  import opened Seqs
  import opened Domain
  import opened AppDomainUtils

  const NothingNewError := "No new unique suggestions generated. Try again for different variations."
  const GenerationFailedError := "Failed to generate AI suggestions. Please try again."

  /** The suggestions of a fresh batch whose domain is not among `existing`,
      in the batch's order. */
  function NewSuggestions(suggestions: seq<DomainParts>, existing: seq<DomainParts>): (r: seq<DomainParts>)
    ensures |r| <= |suggestions|
    ensures forall s :: s in r <==> s in suggestions && s.domain !in Domains(existing)
  {
    Filter(suggestions, (s: DomainParts) => s.domain !in Domains(existing))
  }

  /** Against an empty list every suggestion is new, repeated ones included:
      the batch is not deduplicated within itself. */
  lemma FirstBatchKeepsAll(suggestions: seq<DomainParts>)
    ensures NewSuggestions(suggestions, []) == suggestions
  {
    FilterAll(suggestions, (s: DomainParts) => s.domain !in Domains([]));
  }

  /** A batch made only of already listed domains brings nothing new. */
  lemma KnownBatchIsNothingNew(suggestions: seq<DomainParts>, existing: seq<DomainParts>)
    requires forall i :: 0 <= i < |suggestions| ==> suggestions[i].domain in Domains(existing)
    ensures NewSuggestions(suggestions, existing) == []
  {
    FilterNone(suggestions, (s: DomainParts) => s.domain !in Domains(existing));
  }

  /** Two equal new suggestions in one batch are both kept. */
  lemma RepeatedSuggestionKept(x: DomainParts, existing: seq<DomainParts>)
    requires x.domain !in Domains(existing)
    ensures NewSuggestions([x, x], existing) == [x, x]
  {
    FilterAll([x, x], (s: DomainParts) => s.domain !in Domains(existing));
  }

  /** The shown generator, as a generator parameter: it always returns a list. */
  function ShownGenerator(ai: Prompt -> AIReply): (string, bool) -> Option<seq<DomainParts>> {
    (domain: string, isFirstTime: bool) => Some(GenerateAIDomainSuggestions(domain, isFirstTime, ai))
  }

  lemma ShownGeneratorNeverThrows(ai: Prompt -> AIReply, domain: string, isFirstTime: bool)
    ensures ShownGenerator(ai)(domain, isFirstTime).Some?
    ensures ai(SuggestNames(BeforeFirst(domain, '.'), isFirstTime)).Failed? ==>
      ShownGenerator(ai)(domain, isFirstTime) == Some([])
  {
  }

  class AISuggestions {
    var aiSuggestions: seq<DomainParts>
    var isGeneratingAI: bool
    var error: Option<string>

    constructor ()
      ensures aiSuggestions == [] && !isGeneratingAI && error == None
    {
      aiSuggestions := [];
      isGeneratingAI := false;
      error := None;
    }

    /** `handleGenerateAI`. `toCheck` are the domains whose availability check
        is scheduled afterwards. */
    method HandleGenerateAI(domain: string, generate: (string, bool) -> Option<seq<DomainParts>>)
      returns (toCheck: seq<string>)
      modifies this
      // An empty domain changes nothing.
      ensures domain == "" ==>
        aiSuggestions == old(aiSuggestions) && isGeneratingAI == old(isGeneratingAI)
        && error == old(error) && toCheck == []
      // Every real run ends with the flag down.
      ensures domain != "" ==> !isGeneratingAI
      // A thrown generation reports the failure.
      ensures domain != "" && generate(domain, |old(aiSuggestions)| == 0).None? ==>
        error == Some(GenerationFailedError) && aiSuggestions == old(aiSuggestions) && toCheck == []
      // A batch with nothing new reports that.
      ensures (domain != "" && generate(domain, |old(aiSuggestions)| == 0).Some?
        && NewSuggestions(generate(domain, |old(aiSuggestions)| == 0).value, old(aiSuggestions)) == []) ==>
        error == Some(NothingNewError) && aiSuggestions == old(aiSuggestions) && toCheck == []
      // Otherwise the new suggestions are appended and checked.
      ensures (domain != "" && generate(domain, |old(aiSuggestions)| == 0).Some?
        && NewSuggestions(generate(domain, |old(aiSuggestions)| == 0).value, old(aiSuggestions)) != []) ==>
        error == None
        && aiSuggestions == old(aiSuggestions) + NewSuggestions(generate(domain, |old(aiSuggestions)| == 0).value, old(aiSuggestions))
        && toCheck == Domains(NewSuggestions(generate(domain, |old(aiSuggestions)| == 0).value, old(aiSuggestions)))
    {
      toCheck := [];
      if domain == "" {
        return;
      }
      isGeneratingAI := true;
      error := None;
      var generated := generate(domain, |aiSuggestions| == 0);
      match generated {
        case None =>
          error := Some(GenerationFailedError);
        case Some(suggestions) =>
          var newSuggestions := NewSuggestions(suggestions, aiSuggestions);
          if |newSuggestions| == 0 {
            error := Some(NothingNewError);
          } else {
            aiSuggestions := aiSuggestions + newSuggestions;
            toCheck := Domains(newSuggestions);
          }
      }
      isGeneratingAI := false;
    }
  }

  /** After a run that appends, every listed suggestion is an old one or from
      the batch, and the domain of every batch suggestion is now listed. */
  lemma AppendedRunCovers(before: seq<DomainParts>, batch: seq<DomainParts>, now: seq<DomainParts>)
    requires now == before + NewSuggestions(batch, before)
    ensures forall s :: s in now ==> s in before || s in batch
    ensures forall s :: s in batch ==> s.domain in Domains(now)
  {
    forall s | s in batch
      ensures s.domain in Domains(now)
    {
      if s.domain in Domains(before) {
        var i :| 0 <= i < |before| && Domains(before)[i] == s.domain;
        assert Domains(now)[i] == s.domain;
      } else {
        assert s in NewSuggestions(batch, before);
        var j :| 0 <= j < |NewSuggestions(batch, before)| && NewSuggestions(batch, before)[j] == s;
        assert now[|before| + j] == s;
        assert Domains(now)[|before| + j] == s.domain;
      }
    }
  }
}
