/** The older tool's name score (src/utils/domainScore.ts): a length score and
    a characters score, each weighted one half, and the messages worth
    showing.

    The weights are `0.5`; here the running total is kept in hundredths with
    the weight as 50 hundredths, and `Math.round` is written out, so the
    exactness of the floating-point sum is a lemma (`TotalIsExact`) rather than
    an assumption. */
module LegacyDomainScore {
  import opened Text
  import opened Seqs

  /** What a criterion's `evaluate` returns. */
  datatype Scored = Scored(score: int, message: string)

  /** One `details` entry, in insertion order (`Object.entries` keeps it). */
  datatype Entry = Entry(id: string, result: Scored)

  datatype Criterion = LengthCriterion | CharactersCriterion {
    function Id(): string {
      match this
      case LengthCriterion => "length"
      case CharactersCriterion => "characters"
    }
  }

  /** `scoringCriteria`, in order. */
  const ScoringCriteria: seq<Criterion> := [LengthCriterion, CharactersCriterion]

  /** Each criterion's weight, in hundredths (`0.5`). */
  const WeightHundredths := 50

  const CleanName := "Clean name"
  const Separator := " • "

  function NameOnly(domain: string): string {
    BeforeFirst(domain, '.')
  }

  /** The length criterion: 100 up to five characters, 70 up to eight, 40 up
      to ten, 10 beyond. */
  function LengthScore(domain: string): (r: Scored)
    ensures r.score in {100, 70, 40, 10}
    ensures r.score == 100 <==> |NameOnly(domain)| <= 5
    ensures r.score == 70 <==> 5 < |NameOnly(domain)| <= 8
    ensures r.score == 40 <==> 8 < |NameOnly(domain)| <= 10
    ensures r.score == 10 <==> |NameOnly(domain)| > 10
    ensures r.score == 100 <==> r.message == "Perfect length"
    ensures r.score == 70 <==> r.message == "Good length"
    ensures r.score == 40 <==> r.message == "Acceptable length"
    ensures r.score == 10 <==> r.message == "Too long"
  {
    var n := |NameOnly(domain)|;
    if n <= 5 then Scored(100, "Perfect length")
    else if n <= 8 then Scored(70, "Good length")
    else if n <= 10 then Scored(40, "Acceptable length")
    else Scored(10, "Too long")
  }

  /** A longer name never scores higher. */
  lemma LengthScoreNonIncreasing(a: string, b: string)
    requires |NameOnly(a)| <= |NameOnly(b)|
    ensures LengthScore(a).score >= LengthScore(b).score
  {
  }

  /** The messages the characters criterion pushes, in order. */
  function CharacterWarnings(name: string): (r: seq<string>)
    ensures ("Avoid hyphens" in r <==> '-' in name) && ("Avoid numbers" in r <==> HasDigit(name))
    ensures |r| <= 2 && (|r| == 2 ==> r == ["Avoid hyphens", "Avoid numbers"])
  {
    (if '-' in name then ["Avoid hyphens"] else []) + (if HasDigit(name) then ["Avoid numbers"] else [])
  }

  /** `messages.join(' • ')` for at most two messages. */
  function JoinMessages(messages: seq<string>): string
    requires |messages| <= 2
  {
    if |messages| == 0 then ""
    else if |messages| == 1 then messages[0]
    else messages[0] + Separator + messages[1]
  }

  /** The characters criterion, as the value its steps compute: 100 less 50
      for any hyphen and 50 for any digit, and the warnings joined, or
      `Clean name` when there are none. */
  function CharactersScore(domain: string): (r: Scored)
    ensures r.score in {0, 50, 100}
    ensures r.score == 100 - (if '-' in NameOnly(domain) then 50 else 0) - (if HasDigit(NameOnly(domain)) then 50 else 0)
    ensures r.message == CleanName <==> '-' !in NameOnly(domain) && !HasDigit(NameOnly(domain))
    ensures '-' in NameOnly(domain) && HasDigit(NameOnly(domain)) ==> r.message == "Avoid hyphens • Avoid numbers"
    ensures '-' in NameOnly(domain) && !HasDigit(NameOnly(domain)) ==> r.message == "Avoid hyphens"
    ensures '-' !in NameOnly(domain) && HasDigit(NameOnly(domain)) ==> r.message == "Avoid numbers"
  {
    var warnings := CharacterWarnings(NameOnly(domain));
    WarningsMessage(NameOnly(domain));
    Scored(100 - 50 * |warnings|, if |warnings| > 0 then JoinMessages(warnings) else CleanName)
  }

  /** Joined warnings never read `Clean name`. */
  lemma WarningsMessage(name: string)
    ensures |CharacterWarnings(name)| > 0 ==> JoinMessages(CharacterWarnings(name)) != CleanName
    ensures |CharacterWarnings(name)| == 2 ==> JoinMessages(CharacterWarnings(name)) == "Avoid hyphens • Avoid numbers"
  {
    var warnings := CharacterWarnings(name);
    if |warnings| > 0 {
      assert JoinMessages(warnings)[0] == 'A' != CleanName[0];
    }
  }

  /** The characters criterion's `evaluate`, step by step. */
  method EvaluateCharacters(domain: string) returns (r: Scored)
    ensures r == CharactersScore(domain)
  {
    var nameOnly := NameOnly(domain);
    var score := 100;
    var messages: seq<string> := [];
    if '-' in nameOnly {
      score := score - 50;
      messages := messages + ["Avoid hyphens"];
    }
    if HasDigit(nameOnly) {
      score := score - 50;
      messages := messages + ["Avoid numbers"];
    }
    assert messages == CharacterWarnings(nameOnly);
    r := Scored(score, if |messages| > 0 then JoinMessages(messages) else CleanName);
  }

  /** A criterion's `evaluate`, as a value. */
  function Evaluate(c: Criterion, domain: string): Scored {
    match c
    case LengthCriterion => LengthScore(domain)
    case CharactersCriterion => CharactersScore(domain)
  }

  /** `Math.round` of a non-negative amount given in hundredths. */
  function RoundHundredths(hundredths: nat): nat {
    (hundredths + 50) / 100
  }

  /** The weighted sum, in hundredths, of the given criteria' scores. */
  function WeightedSum(criteria: seq<Criterion>, domain: string): int {
    if |criteria| == 0 then 0
    else WeightedSum(criteria[..|criteria| - 1], domain) + Evaluate(criteria[|criteria| - 1], domain).score * WeightHundredths
  }

  /** `criterion.evaluate(domain)`. */
  method RunCriterion(criterion: Criterion, domain: string) returns (result: Scored)
    ensures result == Evaluate(criterion, domain)
  {
    if criterion == LengthCriterion {
      result := LengthScore(domain);
    } else {
      result := EvaluateCharacters(domain);
    }
  }

  /** `calculateDomainScore`: evaluate each criterion in order, record its
      result under its id, and add its weighted score to the total. */
  method CalculateDomainScore(domain: string) returns (score: int, details: seq<Entry>)
    ensures details == [Entry("length", LengthScore(domain)), Entry("characters", CharactersScore(domain))]
    ensures 2 * score == LengthScore(domain).score + CharactersScore(domain).score
  {
    details := [];
    var totalHundredths := 0;
    for i := 0 to |ScoringCriteria|
      invariant details == seq(i, j requires 0 <= j < i => Entry(ScoringCriteria[j].Id(), Evaluate(ScoringCriteria[j], domain)))
      invariant totalHundredths == WeightedSum(ScoringCriteria[..i], domain)
    {
      var criterion := ScoringCriteria[i];
      var result := RunCriterion(criterion, domain);
      details := details + [Entry(criterion.Id(), result)];
      assert ScoringCriteria[..i + 1][..i] == ScoringCriteria[..i];
      assert WeightedSum(ScoringCriteria[..i + 1], domain) == totalHundredths + result.score * WeightHundredths;
      totalHundredths := totalHundredths + result.score * WeightHundredths;
    }
    assert ScoringCriteria[..2] == ScoringCriteria;
    assert ScoringCriteria[..1] == [LengthCriterion];
    TotalIsExact(domain);
    score := RoundHundredths(totalHundredths);
  }

  /** Both scores are multiples of ten, so the weighted total is a whole
      number and rounding changes nothing: the score is exactly the mean of
      the two, a multiple of five between 5 and 100. */
  lemma TotalIsExact(domain: string)
    ensures WeightedSum(ScoringCriteria, domain) == 50 * (LengthScore(domain).score + CharactersScore(domain).score)
    ensures (LengthScore(domain).score + CharactersScore(domain).score) % 2 == 0
    ensures RoundHundredths(WeightedSum(ScoringCriteria, domain)) * 2 == LengthScore(domain).score + CharactersScore(domain).score
    ensures 5 <= (LengthScore(domain).score + CharactersScore(domain).score) / 2 <= 100
    ensures (LengthScore(domain).score + CharactersScore(domain).score) / 2 % 5 == 0
  {
    WeightedSumPair(LengthCriterion, CharactersCriterion, domain);
    MeanOfScores(LengthScore(domain).score, CharactersScore(domain).score);
  }

  lemma WeightedSumPair(first: Criterion, second: Criterion, domain: string)
    ensures WeightedSum([first, second], domain) == 50 * (Evaluate(first, domain).score + Evaluate(second, domain).score)
  {
    assert [first, second][..1] == [first];
    assert [first][..0] == [];
    assert WeightedSum([first], domain) == Evaluate(first, domain).score * WeightHundredths;
  }

  /** Any length score and characters score average to a whole multiple of
      five, so the rounding of their weighted sum is exact. */
  lemma MeanOfScores(lengthScore: int, charactersScore: int)
    requires lengthScore in {100, 70, 40, 10} && charactersScore in {0, 50, 100}
    ensures (lengthScore + charactersScore) % 2 == 0
    ensures RoundHundredths(50 * (lengthScore + charactersScore)) * 2 == lengthScore + charactersScore
    ensures 5 <= (lengthScore + charactersScore) / 2 <= 100
    ensures (lengthScore + charactersScore) / 2 % 5 == 0
  {
  }

  /** `getCriteriaMessages`: the detail messages other than `Clean name`, in
      order. */
  function GetCriteriaMessages(details: seq<Entry>): (r: seq<string>)
    ensures forall m :: m in r <==> m != CleanName && exists k :: 0 <= k < |details| && details[k].result.message == m
  {
    var messages := Map(details, (e: Entry) => e.result.message);
    Filter(messages, (m: string) => m != CleanName)
  }

  /** For a computed score the messages are the length message, then the
      characters message unless the name is clean. */
  lemma MessagesOfScore(domain: string)
    ensures GetCriteriaMessages([Entry("length", LengthScore(domain)), Entry("characters", CharactersScore(domain))])
      == [LengthScore(domain).message]
        + (if CharactersScore(domain).message == CleanName then [] else [CharactersScore(domain).message])
  {
    var details := [Entry("length", LengthScore(domain)), Entry("characters", CharactersScore(domain))];
    var messages := Map(details, (e: Entry) => e.result.message);
    assert messages == [LengthScore(domain).message] + [CharactersScore(domain).message];
    FilterAppend([LengthScore(domain).message], [CharactersScore(domain).message], (m: string) => m != CleanName);
  }
}
