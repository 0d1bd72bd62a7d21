/** The older tool's domain helpers (src/utils/domainUtils.ts): the single
    candidate generator over three catalogs, the parked-domain heuristic, the
    choice between the text generator's verdict and the heuristic, and the
    clean-up of a preview's description. Fetching a preview and the HTML
    scraping are not part of this model; a preview is an input value. */
module LegacyDomainUtils {
  import opened Common
  import opened Text
  import opened Domain
  import opened Affixes
  import opened Seqs

  /** `commonTlds`, with their dots, in declared order. */
  const CommonTlds: seq<string> := [
    ".com", ".net", ".org", ".io", ".co", ".app", ".dev", ".ai", ".me", ".info",
    ".pro", ".cc", ".tech", ".site", ".xyz", ".online", ".store", ".blog", ".cloud"]

  /** `prefixes` and `suffixes`, in declared order. */
  const Prefixes: seq<string> := ["get", "try", "use", "hey", "join", "go", "the", "my"]
  const Suffixes: seq<string> := [
    "app", "hq", "hub", "studio", "labs", "way", "me", "tools",
    "kit", "tech", "cloud", "works", "space", "plus", "pro", "base"]

  /** The two catalogs as the default sort orders them. */
  const SortedPrefixes: seq<string> := ["get", "go", "hey", "join", "my", "the", "try", "use"]
  const SortedSuffixes: seq<string> := [
    "app", "base", "cloud", "hq", "hub", "kit", "labs", "me",
    "plus", "pro", "space", "studio", "tech", "tools", "way", "works"]

  /** `perm` sends each position of `sorted` to a different position of
      `declared` holding the same text: `sorted` is `declared` reordered. */
  predicate Reorders(sorted: seq<string>, declared: seq<string>, perm: seq<nat>) {
    |perm| == |sorted| == |declared|
    && (forall k :: 0 <= k < |perm| ==> perm[k] < |declared| && sorted[k] == declared[perm[k]])
    && (forall j, k :: 0 <= j < k < |perm| ==> perm[j] != perm[k])
  }

  /** The positions the default sort takes the declared catalogs' texts from. */
  const PrefixOrder: seq<nat> := [0, 5, 3, 4, 7, 6, 1, 2]
  const SuffixOrder: seq<nat> := [0, 15, 10, 1, 2, 8, 4, 6, 13, 14, 12, 3, 9, 7, 5, 11]

  /** The sorted catalogs are the declared ones, reordered by the default sort. */
  lemma SortedCatalogs()
    ensures Reorders(SortedPrefixes, Prefixes, PrefixOrder) && StrictlySorted(SortedPrefixes)
    ensures Reorders(SortedSuffixes, Suffixes, SuffixOrder) && StrictlySorted(SortedSuffixes)
  {
    PrefixesSorted();
    PrefixesReordered();
    SuffixesSortedLow();
    SuffixesSortedHigh();
    SuffixesReordered();
  }

  lemma PrefixesReordered()
    ensures Reorders(SortedPrefixes, Prefixes, PrefixOrder)
  {
  }

  lemma SuffixesReordered()
    ensures Reorders(SortedSuffixes, Suffixes, SuffixOrder)
  {
    SuffixesTaken(0, 8);
    SuffixesTaken(8, 16);
    SuffixOrderDistinct();
  }

  lemma SuffixesTaken(lo: nat, hi: nat)
    requires (lo == 0 && hi == 8) || (lo == 8 && hi == 16)
    ensures forall k :: lo <= k < hi ==> SuffixOrder[k] < |Suffixes| && SortedSuffixes[k] == Suffixes[SuffixOrder[k]]
  {
  }

  lemma SuffixOrderDistinct()
    ensures forall j, k :: 0 <= j < k < |SuffixOrder| ==> SuffixOrder[j] != SuffixOrder[k]
  {
  }

  lemma PrefixesSorted()
    ensures StrictlySorted(SortedPrefixes)
  {
    LessBySecond("get", "go");
    LessByFirst("go", "hey");
    LessByFirst("hey", "join");
    LessByFirst("join", "my");
    LessByFirst("my", "the");
    LessBySecond("the", "try");
    LessByFirst("try", "use");
  }

  lemma SuffixesSortedLow()
    ensures forall i :: 0 <= i < 8 ==> Less(SortedSuffixes[i], SortedSuffixes[i + 1])
  {
    LessByFirst("app", "base");
    LessByFirst("base", "cloud");
    LessByFirst("cloud", "hq");
    LessBySecond("hq", "hub");
    LessByFirst("hub", "kit");
    LessByFirst("kit", "labs");
    LessByFirst("labs", "me");
    LessByFirst("me", "plus");
  }

  lemma SuffixesSortedHigh()
    ensures forall i :: 8 <= i < 15 ==> Less(SortedSuffixes[i], SortedSuffixes[i + 1])
  {
    LessBySecond("plus", "pro");
    LessByFirst("pro", "space");
    LessBySecond("space", "studio");
    LessByFirst("studio", "tech");
    LessBySecond("tech", "tools");
    LessByFirst("tools", "way");
    LessBySecond("way", "works");
  }

  /** The record pushed for one catalog extension: the name under it, with the
      extension's dot dropped for `ext`. */
  function TldRecord(nameOnly: string, tld: string, userInput: string): (r: DomainParts)
    requires |tld| > 0
    ensures r.domain == nameOnly + tld && r.base == nameOnly && r.ext == tld[1..]
    ensures r.input == Some(userInput) && r.prefix.None? && r.suffix.None?
  {
    Plain(nameOnly + tld, nameOnly, tld[1..], userInput)
  }

  /** The records the extension loop has pushed after visiting `tlds`. */
  function TldRecordsOver(tlds: seq<string>, nameOnly: string, userInput: string): seq<DomainParts>
    requires forall i :: 0 <= i < |tlds| ==> |tlds[i]| > 0
  {
    if |tlds| == 0 then []
    else TldRecordsOver(tlds[..|tlds| - 1], nameOnly, userInput) + [TldRecord(nameOnly, tlds[|tlds| - 1], userInput)]
  }

  lemma {:induction false} TldRecordsPointwise(tlds: seq<string>, nameOnly: string, userInput: string)
    requires forall i :: 0 <= i < |tlds| ==> |tlds[i]| > 0
    ensures |TldRecordsOver(tlds, nameOnly, userInput)| == |tlds|
    ensures forall i :: 0 <= i < |tlds| ==> TldRecordsOver(tlds, nameOnly, userInput)[i] == TldRecord(nameOnly, tlds[i], userInput)
  {
    if |tlds| > 0 {
      TldRecordsPointwise(tlds[..|tlds| - 1], nameOnly, userInput);
    }
  }

  /** The extension loop: push one record per catalog extension. */
  method PushTldRecords(variations: seq<DomainParts>, tlds: seq<string>, nameOnly: string, userInput: string)
    returns (pushed: seq<DomainParts>)
    requires forall i :: 0 <= i < |tlds| ==> |tlds[i]| > 0
    ensures pushed == variations + TldRecordsOver(tlds, nameOnly, userInput)
  {
    pushed := variations;
    var i := 0;
    while i < |tlds|
      invariant 0 <= i <= |tlds|
      invariant pushed == variations + TldRecordsOver(tlds[..i], nameOnly, userInput)
    {
      var tld := tlds[i];
      assert tlds[..i + 1][..i] == tlds[..i];
      pushed := pushed + [Plain(nameOnly + tld, nameOnly, tld[1..], userInput)];
      i := i + 1;
    }
    assert tlds[..i] == tlds;
  }

  lemma CatalogTldsDotted()
    ensures forall i :: 0 <= i < |CommonTlds| ==> |CommonTlds[i]| > 0
  {
  }

  /** The records the generator lists for a name. */
  function Variations(nameOnly: string, userInput: string): seq<DomainParts> {
    TldRecordsOver(CommonTlds, nameOnly, userInput)
    + PrefixedOver(SortedPrefixes, nameOnly, Some(userInput))
    + SuffixedOver(SortedSuffixes, nameOnly, Some(userInput))
  }

  /** `generateDomainVariations`: every extension of the catalog, then the
      sorted prefixes, then the sorted suffixes, all for the text before the
      first dot. */
  method GenerateDomainVariations(baseName: string, userInput: string) returns (variations: seq<DomainParts>)
    ensures variations == Variations(BeforeFirst(baseName, '.'), userInput)
  {
    var nameOnly := Split(baseName, '.')[0];
    SplitFirstIsBeforeFirst(baseName, '.');
    CatalogTldsDotted();
    variations := PushTldRecords([], CommonTlds, nameOnly, userInput);
    variations := PushPrefixed(variations, SortedPrefixes, nameOnly, Some(userInput));
    variations := PushSuffixed(variations, SortedSuffixes, nameOnly, Some(userInput));
  }

  /** There are 19 + 8 + 16 = 43 records: first the name under each catalog
      extension, then each sorted prefix, then each sorted suffix. */
  lemma VariationsLayout(nameOnly: string, userInput: string, r: seq<DomainParts>)
    requires r == Variations(nameOnly, userInput)
    ensures |r| == 43
    ensures forall i :: 0 <= i < 19 ==> r[i] == TldRecord(nameOnly, CommonTlds[i], userInput)
    ensures forall j :: 0 <= j < 8 ==> r[19 + j] == PrefixRecord(nameOnly, SortedPrefixes[j], Some(userInput))
    ensures forall j :: 0 <= j < 16 ==> r[27 + j] == SuffixRecord(nameOnly, SortedSuffixes[j], Some(userInput))
  {
    var tlds, prefixed, suffixed := CommonTlds, SortedPrefixes, SortedSuffixes;
    ThreeParts(TldRecordsOver(tlds, nameOnly, userInput), PrefixedOver(prefixed, nameOnly, Some(userInput)),
      SuffixedOver(suffixed, nameOnly, Some(userInput)), r);
    TldRecordsPointwise(tlds, nameOnly, userInput);
    PrefixedPointwise(prefixed, nameOnly, Some(userInput));
    SuffixedPointwise(suffixed, nameOnly, Some(userInput));
  }

  /** Nothing is skipped: a search for `name.tld` with a catalog extension gets
      a record for that very domain among the extension records. */
  lemma SearchedDomainIncluded(nameOnly: string, userInput: string, r: seq<DomainParts>, i: nat)
    requires r == Variations(nameOnly, userInput)
    requires i < |CommonTlds|
    ensures i < |r| && r[i].domain == nameOnly + CommonTlds[i] && r[i].ext == CommonTlds[i][1..]
  {
    VariationsLayout(nameOnly, userInput, r);
  }

  /** What a preview fetch returns: whether it succeeded, the page title and
      description, and the meta-refresh target when the page has one. */
  datatype Preview = Preview(success: bool, title: string, description: string, metaRefresh: Option<string>)

  /** `preview.metaRefresh?.url` is truthy. */
  predicate HasRedirect(preview: Preview) {
    preview.metaRefresh.Some? && preview.metaRefresh.value != ""
  }

  /** The reseller sites a redirect may point to. */
  const ResellerDomains: seq<string> := ["sedo.com", "afternic.com", "godaddy.com", "dan.com", "hugedomains.com"]

  /** The phrases that mark a parked or for-sale page, in order. */
  const ForSaleKeywords: seq<string> := [
    "domain for sale", "buy this domain", "domain is for sale", "purchase this domain",
    "acquire this domain", "domain parking", "parked domain", "domain marketplace",
    "this domain may be for sale", "inquire about this domain", "sedo", "hugedomains",
    "uniregistry", "afternic", "domains for sale", "premium domain",
    "this web page is parked", "the domain", "domainmarket", "domainholder", "dan.com"]

  /** `texts.some(t => s.includes(t))`. */
  predicate ContainsAny(s: string, texts: seq<string>) {
    exists k :: 0 <= k < |texts| && Contains(s, texts[k])
  }

  /** The redirect target, lowered, names a reseller or ends in a landing
      path. */
  predicate RedirectsToSale(url: string) {
    var target := ToLower(url);
    ContainsAny(target, ResellerDomains) || EndsWith(target, "/lander") || EndsWith(target, "/listing")
  }

  /** The text the keywords are looked for in: title, a space, description,
      lowered. */
  function ContentToCheck(preview: Preview): string {
    ToLower(preview.title + " " + preview.description)
  }

  /** Some keyword of `keywords`, lowered, occurs in the content. */
  predicate ContainsAnyLowered(content: string, keywords: seq<string>) {
    exists k :: 0 <= k < |keywords| && Contains(content, ToLower(keywords[k]))
  }

  /** Some for-sale keyword, lowered, occurs in the content. */
  predicate KeywordHit(content: string) {
    ContainsAnyLowered(content, ForSaleKeywords)
  }

  /** The title phrases checked after the keywords. */
  predicate TitleHit(preview: Preview) {
    Contains(preview.title, "Domain for sale")
    || Contains(preview.title, "Parking")
    || (Contains(preview.title, "GoDaddy") && Contains(preview.description, "hosting"))
    || Contains(preview.title, "This domain is for sale")
  }

  /** The heuristic verdict: the domain is in use unless it redirects to a sale
      page, its content holds a for-sale keyword, or its title a parking
      phrase. */
  predicate UsageHeuristic(preview: Preview) {
    !(HasRedirect(preview) && RedirectsToSale(preview.metaRefresh.value))
    && !KeywordHit(ContentToCheck(preview))
    && !TitleHit(preview)
  }

  /** `inferDomainUsageHeuristics`, step by step: the redirect checks, then the
      keywords one at a time with an early return, then the title phrases. */
  method InferDomainUsageHeuristics(preview: Preview) returns (used: bool)
    ensures used == UsageHeuristic(preview)
  {
    if HasRedirect(preview) {
      var redirectUrl := ToLower(preview.metaRefresh.value);
      if ContainsAny(redirectUrl, ResellerDomains) {
        return false;
      }
      if EndsWith(redirectUrl, "/lander") || EndsWith(redirectUrl, "/listing") {
        return false;
      }
    }
    var contentToCheck := ToLower(preview.title + " " + preview.description);
    for i := 0 to |ForSaleKeywords|
      invariant forall j :: 0 <= j < i ==> !Contains(contentToCheck, ToLower(ForSaleKeywords[j]))
    {
      if Contains(contentToCheck, ToLower(ForSaleKeywords[i])) {
        return false;
      }
    }
    if TitleHit(preview) {
      return false;
    }
    return true;
  }

  /** A title phrase whose lowered form holds a keyword makes the keyword
      loop return, whatever the description. */
  lemma TitlePhraseFlagged(preview: Preview, phrase: string, keywords: seq<string>, k: nat)
    requires k < |keywords| && Contains(preview.title, phrase)
    requires Contains(ToLower(phrase), ToLower(keywords[k]))
    ensures ContainsAnyLowered(ContentToCheck(preview), keywords)
  {
    var content := preview.title + " " + preview.description;
    ContainsAppend(preview.title, " " + preview.description, phrase);
    assert content == preview.title + (" " + preview.description);
    ContainsLowered(content, phrase);
    ContainsTransitive(ContentToCheck(preview), ToLower(phrase), ToLower(keywords[k]));
  }

  /** The first and last title phrases can never decide: a title holding
      either already holds a keyword, so the keyword loop has returned. */
  lemma TitleSaleChecksRedundant(preview: Preview)
    requires Contains(preview.title, "Domain for sale") || Contains(preview.title, "This domain is for sale")
    ensures KeywordHit(ContentToCheck(preview))
  {
    if Contains(preview.title, "Domain for sale") {
      CapitalOnlyDiffers("Domain for sale", ForSaleKeywords[0]);
      TitlePhraseFlagged(preview, "Domain for sale", ForSaleKeywords, 0);
    } else {
      SentenceHoldsKeyword("This domain is for sale", "his ", ForSaleKeywords[2]);
      TitlePhraseFlagged(preview, "This domain is for sale", ForSaleKeywords, 2);
    }
  }

  /** `Domain for sale` is the first keyword with a capital. */
  lemma CapitalOnlyDiffers(phrase: string, keyword: string)
    requires phrase == "Domain for sale" && keyword == "domain for sale"
    ensures Contains(ToLower(phrase), ToLower(keyword))
  {
    var rest := "omain for sale";
    assert phrase == ['D'] + rest && keyword == ['d'] + rest;
    LowerIgnoresFirstCase('D', 'd', rest);
    ContainsSelf(ToLower(keyword));
  }

  lemma LowerIgnoresFirstCase(c: char, d: char, rest: string)
    requires LowerChar(c) == LowerChar(d)
    ensures ToLower([c] + rest) == ToLower([d] + rest)
  {
  }

  /** `This domain is for sale` holds the third keyword. */
  lemma SentenceHoldsKeyword(phrase: string, middle: string, keyword: string)
    requires phrase == "This domain is for sale" && middle == "his " && keyword == "domain is for sale"
    ensures Contains(ToLower(phrase), ToLower(keyword))
  {
    assert phrase == ['T'] + middle + keyword;
    LoweredSuffixContained(['T'] + middle, keyword);
  }

  lemma LoweredSuffixContained(head: string, keyword: string)
    ensures Contains(ToLower(head + keyword), ToLower(keyword))
  {
    ToLowerAppend(head, keyword);
    ContainsMiddle(ToLower(head), ToLower(keyword), "");
    assert ToLower(head) + ToLower(keyword) + "" == ToLower(head + keyword);
  }

  /** The keyword `the domain` is broad: an ordinary page whose title merely
      mentions "the domain" is judged parked. */
  lemma BroadKeyword(preview: Preview, before: string, after: string)
    requires preview.title == before + "the domain" + after
    ensures !UsageHeuristic(preview)
  {
    assert ForSaleKeywords[17] == "the domain";
    ContainsMiddle(before, ForSaleKeywords[17], after);
    ContainsSelf(ToLower(ForSaleKeywords[17]));
    TitlePhraseFlagged(preview, ForSaleKeywords[17], ForSaleKeywords, 17);
  }

  /** A redirect to a landing path is caught whatever its case. */
  lemma LanderRedirect(preview: Preview)
    requires preview.metaRefresh == Some("x.com/LANDER")
    ensures !UsageHeuristic(preview)
  {
    assert ToLower("x.com/LANDER") == "x.com/" + "lander";
  }

  /** The prompt asking the provider for a verdict on a preview; the redirect
      target is mentioned only when there is one. */
  function JudgePrompt(preview: Preview): Prompt {
    JudgeUsage(preview.title, preview.description, if HasRedirect(preview) then preview.metaRefresh else None)
  }

  /** `inferDomainUsageAI`'s reading of the provider's answer: `true` or
      `false` after lowering and trimming, anything else or a thrown error
      none. */
  function AIAnswer(reply: AIReply): (r: Option<bool>)
    ensures r.Some? ==> reply.Reply?
    ensures r == Some(true) <==> reply.Reply? && Trim(ToLower(reply.text)) == "true"
    ensures r == Some(false) <==> reply.Reply? && Trim(ToLower(reply.text)) == "false"
  {
    match reply
    case Failed(_) => None
    case Reply(text) =>
      var result := Trim(ToLower(text));
      if result == "true" then Some(true)
      else if result == "false" then Some(false)
      else None
  }

  /** Case and surrounding blanks do not matter to the reading. */
  lemma ShoutedAnswer(reply: AIReply)
    requires reply == Reply(" FALSE\n")
    ensures AIAnswer(reply) == Some(false)
  {
    assert ToLower(reply.text) == " false\n";
    assert TrimEnd(" false\n") == " false";
    assert TrimStart(" false") == "false";
  }

  /** A sentence around the word is not an answer. */
  lemma SentenceIsNoAnswer(reply: AIReply)
    requires reply == Reply("true.")
    ensures AIAnswer(reply) == None
  {
    assert ToLower(reply.text) == "true.";
  }

  /** `inferDomainUsage`: an unsuccessful preview is unused; otherwise the
      provider's clear answer decides, and without one the heuristic does. */
  function InferDomainUsage(preview: Preview, ai: Prompt -> AIReply): (used: bool)
    ensures !preview.success ==> !used
    ensures preview.success && AIAnswer(ai(JudgePrompt(preview))).Some? ==> used == AIAnswer(ai(JudgePrompt(preview))).value
    ensures preview.success && AIAnswer(ai(JudgePrompt(preview))).None? ==> used == UsageHeuristic(preview)
  {
    if !preview.success then false
    else
      match AIAnswer(ai(JudgePrompt(preview)))
      case Some(verdict) => verdict
      case None => UsageHeuristic(preview)
  }

  /** A failed preview never reaches the provider: every provider gives the
      same verdict. */
  lemma UnsuccessfulIgnoresProvider(preview: Preview, ai1: Prompt -> AIReply, ai2: Prompt -> AIReply)
    requires !preview.success
    ensures InferDomainUsage(preview, ai1) == InferDomainUsage(preview, ai2) == false
  {
  }

  /** A provider that fails on this preview leaves the verdict to the
      heuristic, as one that never answers does. */
  lemma FailingProviderFallsBack(preview: Preview, ai: Prompt -> AIReply, message: string)
    requires preview.success && ai(JudgePrompt(preview)) == Failed(message)
    ensures InferDomainUsage(preview, ai) == UsageHeuristic(preview)
  {
  }

  /** The description a successful preview carries: the fallback text when the
      page has none, cut to 197 characters and an ellipsis when longer than
      200. */
  function PreviewDescription(domain: string, description: string): (r: string)
    ensures |r| <= 200
    ensures 0 < |description| <= 200 ==> r == description
    ensures |description| > 200 ==> |r| == 200 && r == description[..197] + "..."
    ensures description == "" ==>
      var visit := "Visit " + domain + " to learn more";
      (|visit| <= 200 ==> r == visit) && (|visit| > 200 ==> r == visit[..197] + "...")
  {
    var text := if description == "" then "Visit " + domain + " to learn more" else description;
    if |text| > 200 then text[..197] + "..." else text
  }

  /** Applying the clean-up again changes nothing. */
  lemma PreviewDescriptionIdempotent(domain: string, description: string)
    ensures PreviewDescription(domain, PreviewDescription(domain, description)) == PreviewDescription(domain, description)
  {
    assert |PreviewDescription(domain, description)| > 0;
  }
}
