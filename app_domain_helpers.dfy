/** Sorting the newer tool's candidate list into the four groups the page shows
    (app/utils/domainHelpers.ts), and the record made for a featured name. */
module AppDomainHelpers {
  import opened Common
  import opened Text
  import opened Seqs
  import opened Domain

  /** What `categorizeResults` returns; `null` and `undefined` for the main
      domain are both `None`. */
  datatype Categories = Categories(
    mainDomain: Option<DomainParts>,
    alternativeExtensions: seq<DomainParts>,
    alternativeSuggestions: seq<DomainParts>,
    featuredDomains: seq<DomainParts>)

  /** The record the search produced for the searched domain itself. */
  predicate IsMain(v: DomainParts, displayDomain: string) {
    !v.isFeatured && v.domain == displayDomain
  }

  predicate IsAlternativeExtension(v: DomainParts, displayDomain: string) {
    !v.isFeatured && v.prefix.None? && v.suffix.None? && v.domain != displayDomain
  }

  predicate IsAlternativeSuggestion(v: DomainParts) {
    !v.isFeatured && (v.prefix.Some? || v.suffix.Some?)
  }

  /** The tests `categorizeResults` hands to `find` and `filter`. */
  function MainTest(displayDomain: string): DomainParts -> bool {
    v => IsMain(v, displayDomain)
  }

  function ExtensionTest(displayDomain: string): DomainParts -> bool {
    v => IsAlternativeExtension(v, displayDomain)
  }

  predicate IsFeatured(v: DomainParts) {
    v.isFeatured
  }

  /** `categorizeResults`. */
  function CategorizeResults(variations: seq<DomainParts>, displayDomain: string): (r: Categories)
    ensures |variations| == 0 ==> r == Categories(None, [], [], [])
    ensures r.mainDomain.Some? ==> r.mainDomain.value in variations && IsMain(r.mainDomain.value, displayDomain)
    ensures r.mainDomain.Some? ==>
      exists k :: 0 <= k < |variations| && variations[k] == r.mainDomain.value
        && forall j :: 0 <= j < k ==> !IsMain(variations[j], displayDomain)
    ensures r.mainDomain.None? ==> forall k :: 0 <= k < |variations| ==> !IsMain(variations[k], displayDomain)
    ensures forall v :: v in r.alternativeExtensions <==> v in variations && IsAlternativeExtension(v, displayDomain)
    ensures forall v :: v in r.alternativeSuggestions <==> v in variations && IsAlternativeSuggestion(v)
    ensures forall v :: v in r.featuredDomains <==> v in variations && v.isFeatured
  {
    if |variations| == 0 then Categories(None, [], [], [])
    else
      var main := FindIndex(variations, MainTest(displayDomain));
      Categories(
        if main.Some? then Some(variations[main.value]) else None,
        Filter(variations, ExtensionTest(displayDomain)),
        Filter(variations, IsAlternativeSuggestion),
        Filter(variations, IsFeatured))
  }

  /** No record is in two lists, and the main record is neither an alternative
      extension nor featured. (It can be an alternative suggestion too, when a
      prefixed or suffixed candidate happens to be the searched domain.) */
  lemma CategoriesDisjoint(variations: seq<DomainParts>, displayDomain: string, r: Categories)
    requires r == CategorizeResults(variations, displayDomain)
    ensures forall v :: v in r.alternativeExtensions ==> v !in r.alternativeSuggestions && v !in r.featuredDomains
    ensures forall v :: v in r.alternativeSuggestions ==> v !in r.featuredDomains
    ensures r.mainDomain.Some? ==>
      r.mainDomain.value !in r.alternativeExtensions && r.mainDomain.value !in r.featuredDomains
  {
  }

  /** Every record falls in exactly one list, except the non-featured,
      affix-less records for the searched domain; so the lists' lengths plus
      the number of those records is the number of candidates. */
  lemma {:induction false} CategoriesCover(variations: seq<DomainParts>, displayDomain: string)
    ensures |Filter(variations, ExtensionTest(displayDomain))|
      + |Filter(variations, IsAlternativeSuggestion)|
      + |Filter(variations, IsFeatured)|
      + |Filter(variations, v => IsMainUnadorned(v, displayDomain))| == |variations|
  {
    if |variations| > 0 {
      CategoriesCover(variations[1..], displayDomain);
    }
  }

  /** The records no list takes. */
  predicate IsMainUnadorned(v: DomainParts, displayDomain: string) {
    IsMain(v, displayDomain) && v.prefix.None? && v.suffix.None?
  }

  /** Categorizing a joined list categorizes each part: every list is the
      first part's list followed by the second part's, and the main record
      is the first part's when it has one. */
  lemma CategoriesKeepOrder(a: seq<DomainParts>, b: seq<DomainParts>, displayDomain: string)
    requires |a| > 0 && |b| > 0
    ensures CategorizeResults(a + b, displayDomain).alternativeExtensions
      == CategorizeResults(a, displayDomain).alternativeExtensions + CategorizeResults(b, displayDomain).alternativeExtensions
    ensures CategorizeResults(a + b, displayDomain).alternativeSuggestions
      == CategorizeResults(a, displayDomain).alternativeSuggestions + CategorizeResults(b, displayDomain).alternativeSuggestions
    ensures CategorizeResults(a + b, displayDomain).featuredDomains
      == CategorizeResults(a, displayDomain).featuredDomains + CategorizeResults(b, displayDomain).featuredDomains
    ensures CategorizeResults(a + b, displayDomain).mainDomain ==
      if CategorizeResults(a, displayDomain).mainDomain.Some? then CategorizeResults(a, displayDomain).mainDomain
      else CategorizeResults(b, displayDomain).mainDomain
  {
    FilterAppend(a, b, ExtensionTest(displayDomain));
    FilterAppend(a, b, IsAlternativeSuggestion);
    FilterAppend(a, b, IsFeatured);
    FindIndexAppend(a, b, MainTest(displayDomain));
    var m := FindIndex(a, MainTest(displayDomain));
    if m.None? && FindIndex(b, MainTest(displayDomain)).Some? {
      var k := FindIndex(b, MainTest(displayDomain)).value;
      assert (a + b)[|a| + k] == b[k];
    }
  }

  /** `parseFeaturedDomain`: the input without whitespace under `.com`, with
      empty (but present) prefix and suffix. */
  function ParseFeaturedDomain(input: string): (r: DomainParts)
    ensures r.domain == r.base + ".com" && r.ext == "com"
    ensures forall i :: 0 <= i < |r.base| ==> !IsWhitespace(r.base[i]) && r.base[i] in input
    ensures r.prefix == Some("") && r.suffix == Some("")
    ensures r.input == Some(input) && r.isFeatured && !r.isAISuggestion
  {
    var base := RemoveWhitespace(input);
    DomainParts(base + ".com", base, "com", Some(""), Some(""), Some(input), true, false)
  }

  /** A featured name already without whitespace is kept as the base. */
  lemma {:induction false} FeaturedKeepsCleanName(input: string)
    requires forall i :: 0 <= i < |input| ==> !IsWhitespace(input[i])
    ensures ParseFeaturedDomain(input).domain == input + ".com"
  {
    RemoveWhitespaceKeeps(input);
  }

  /** Every character of the name that is not whitespace is in the base. */
  lemma FeaturedKeepsCharacters(input: string, c: char)
    requires c in input && !IsWhitespace(c)
    ensures c in ParseFeaturedDomain(input).base
  {
    RemoveWhitespaceKeepsCharacters(input, c);
  }

  /** The base is built piece by piece: the name's parts give the base's
      parts, in order. */
  lemma FeaturedBaseAppend(a: string, b: string)
    ensures ParseFeaturedDomain(a + b).base == ParseFeaturedDomain(a).base + ParseFeaturedDomain(b).base
  {
    RemoveWhitespaceAppend(a, b);
  }

  /** A space inside a featured name is squeezed out. */
  lemma {:induction false} FeaturedSqueezesSpace(a: string, b: string)
    requires forall i :: 0 <= i < |a| ==> !IsWhitespace(a[i])
    requires forall i :: 0 <= i < |b| ==> !IsWhitespace(b[i])
    ensures ParseFeaturedDomain(a + " " + b).domain == a + b + ".com"
  {
    RemoveWhitespaceKeeps(a);
    RemoveWhitespaceKeeps(b);
    var space := " ";
    assert RemoveWhitespace(space) == "" by { RemoveWhitespaceChar(' '); }
    RemoveWhitespaceAppend(a, space);
    assert RemoveWhitespace(a + space) == a;
    RemoveWhitespaceAppend(a + space, b);
    assert RemoveWhitespace(a + space + b) == a + b;
  }

  lemma MySiteExample(input: string)
    requires input == "My Site"
    ensures ParseFeaturedDomain(input).domain == "MySite.com"
  {
    var a, b := "My", "Site";
    assert input == a + " " + b;
    assert a + b + ".com" == "MySite.com";
    FeaturedSqueezesSpace(a, b);
  }

  /** A featured record counts as having affixes (they are empty texts, not
      absent), so only the featured test keeps it out of the suggestions: it
      is in the featured list and in no other. */
  lemma FeaturedOnlyFeatured(variations: seq<DomainParts>, displayDomain: string, f: DomainParts, r: Categories)
    requires f in variations && f.isFeatured && f.prefix == Some("") && f.suffix == Some("")
    requires r == CategorizeResults(variations, displayDomain)
    ensures IsAlternativeSuggestion(f.(isFeatured := false))
    ensures f in r.featuredDomains && f !in r.alternativeSuggestions && f !in r.alternativeExtensions
    ensures r.mainDomain != Some(f)
  {
  }
}
