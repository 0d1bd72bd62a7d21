/** The newer tool's name checklist (app/utils/domainScore.ts): three pass/fail
    criteria on the name part of a domain, and the record of their results. */
module AppDomainScore {
  import opened Text

  /** What a criterion's `evaluate` returns. */
  datatype Evaluation = Evaluation(passed: bool, message: string)

  datatype Criterion = Length | NoHyphens | NoNumbers {
    /** The key of the criterion in `details`. */
    function Id(): string {
      match this
      case Length => "length"
      case NoHyphens => "noHyphens"
      case NoNumbers => "noNumbers"
    }

    /** The label shown next to the criterion. */
    function Name(): string {
      match this
      case Length => "< 10 characters"
      case NoHyphens => "no hyphens"
      case NoNumbers => "no numbers"
    }
  }

  /** `domainCriteria`, in order. */
  const DomainCriteria: seq<Criterion> := [Length, NoHyphens, NoNumbers]

  /** The text before the first dot, the only part any criterion looks at. */
  function NameOnly(domain: string): (r: string)
    ensures '.' !in r
  {
    BeforeFirst(domain, '.')
  }

  /** A criterion's `evaluate`. */
  function Evaluate(c: Criterion, domain: string): (r: Evaluation)
    ensures c == Length ==> (r.passed <==> |NameOnly(domain)| <= 10)
    ensures c == NoHyphens ==> (r.passed <==> '-' !in NameOnly(domain))
    ensures c == NoNumbers ==> (r.passed <==> !HasDigit(NameOnly(domain)))
  {
    var nameOnly := NameOnly(domain);
    match c
    case Length =>
      var passed := |nameOnly| <= 10;
      Evaluation(passed, if passed then "Good length" else "Too long")
    case NoHyphens =>
      var passed := '-' !in nameOnly;
      Evaluation(passed, if passed then "No hyphens" else "Contains hyphens")
    case NoNumbers =>
      var passed := !HasDigit(nameOnly);
      Evaluation(passed, if passed then "No numbers" else "Contains numbers")
  }

  /** Each message depends only on whether the criterion passed, and the two
      messages of a criterion differ. */
  lemma MessageFollowsVerdict(c: Criterion, a: string, b: string)
    ensures Evaluate(c, a).passed == Evaluate(c, b).passed <==> Evaluate(c, a).message == Evaluate(c, b).message
  {
  }

  /** Only the name part is examined: the extension never changes a verdict,
      whatever hyphens or digits it holds. */
  lemma ExtensionIgnored(c: Criterion, name: string, ext1: string, ext2: string)
    requires '.' !in name
    ensures Evaluate(c, name + "." + ext1) == Evaluate(c, name + "." + ext2)
  {
    assert name + "." + ext1 == name + ['.'] + ext1;
    assert name + "." + ext2 == name + ['.'] + ext2;
    BeforeFirstOfJoined(name, '.', ext1);
    BeforeFirstOfJoined(name, '.', ext2);
  }

  /** The label says fewer than ten characters, but a ten-character name
      passes. */
  lemma TenCharactersPass(domain: string)
    requires domain == "abcdefghij.com"
    ensures Evaluate(Length, domain).passed
  {
    assert domain == "abcdefghij" + ['.'] + "com";
    BeforeFirstOfJoined("abcdefghij", '.', "com");
  }

  /** `checkDomainCriteria`: one entry per criterion, under its id. */
  method CheckDomainCriteria(domain: string) returns (details: map<string, Evaluation>)
    ensures details.Keys == {"length", "noHyphens", "noNumbers"}
    ensures forall c: Criterion :: details[c.Id()] == Evaluate(c, domain)
  {
    details := map[];
    for i := 0 to |DomainCriteria|
      invariant details.Keys == set j | 0 <= j < i :: DomainCriteria[j].Id()
      invariant forall j :: 0 <= j < i ==> details[DomainCriteria[j].Id()] == Evaluate(DomainCriteria[j], domain)
    {
      var criterion := DomainCriteria[i];
      details := details[criterion.Id() := Evaluate(criterion, domain)];
    }
    assert DomainCriteria[0].Id() in details && DomainCriteria[1].Id() in details && DomainCriteria[2].Id() in details;
    forall c: Criterion
      ensures details[c.Id()] == Evaluate(c, domain)
    {
      match c
      case Length => assert c == DomainCriteria[0];
      case NoHyphens => assert c == DomainCriteria[1];
      case NoNumbers => assert c == DomainCriteria[2];
    }
  }
}
