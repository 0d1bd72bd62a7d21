/** The candidate generators of the newer tool (app/utils/domainUtils.ts): the
    main domain, the same name under the other catalog extensions, the
    prefix/suffix `.com` names, and the clean-up of the names a text generator
    proposes. */
module AppDomainUtils {
  import opened Common
  import opened Text
  import opened Domain
  import opened Affixes
  import opened Seqs

  /** `commonTlds`, without dots, in declared order. */
  const CommonTlds: seq<string> :=
    ["com", "net", "org", "io", "co", "app", "dev", "ai", "me", "cc", "tech", "studio", "xyz"]

  /** `prefixes`: every entry is commented out. */
  const Prefixes: seq<string> := []

  /** `suffixes`, in declared order. */
  const Suffixes: seq<string> := ["app", "hq", "studio", "labs"]

  /** `[...prefixes].sort()` and `[...suffixes].sort()`: the default sort
      compares code units, which puts the suffixes in this order. */
  const SortedPrefixes: seq<string> := []
  const SortedSuffixes: seq<string> := ["app", "hq", "labs", "studio"]

  /** The sorted catalogs are the declared ones, reordered by the default sort. */
  lemma SortedCatalogs()
    ensures multiset(SortedPrefixes) == multiset(Prefixes) && StrictlySorted(SortedPrefixes)
    ensures multiset(SortedSuffixes) == multiset(Suffixes) && StrictlySorted(SortedSuffixes)
  {
    SuffixesSorted();
    SuffixesPermuted();
  }

  lemma SuffixesSorted()
    ensures StrictlySorted(SortedSuffixes)
  {
    LessByFirst("app", "hq");
    LessByFirst("hq", "labs");
    LessByFirst("labs", "studio");
  }

  lemma SuffixesPermuted()
    ensures multiset(SortedSuffixes) == multiset(Suffixes)
  {
    assert Suffixes == ["app", "hq"] + ["studio"] + ["labs"];
    assert SortedSuffixes == ["app", "hq"] + ["labs"] + ["studio"];
  }

  /** No two catalog extensions are the same, and none holds a dot. */
  lemma CatalogTldsDistinct()
    ensures forall i, j :: 0 <= i < j < |CommonTlds| ==> CommonTlds[i] != CommonTlds[j]
    ensures forall i :: 0 <= i < |CommonTlds| ==> |CommonTlds[i]| > 0 && '.' !in CommonTlds[i]
  {
  }

  /** `generateMainDomain`: one record for the domain as searched. */
  function GenerateMainDomain(baseName: string, userInput: string): (r: seq<DomainParts>)
    ensures |r| == 1
    ensures r[0].domain == baseName && r[0].input == Some(userInput)
    ensures r[0].base == BeforeFirst(baseName, '.')
    ensures var second := BeforeFirst(AfterFirst(baseName, '.'), '.');
      r[0].ext == if second != "" then second else "com"
    ensures r[0].prefix.None? && r[0].suffix.None? && !r[0].isFeatured
  {
    var parts := Split(baseName, '.');
    SplitFirstIsBeforeFirst(baseName, '.');
    if '.' in baseName then
      SplitAfterFirst(baseName, '.');
      SplitFirstIsBeforeFirst(AfterFirst(baseName, '.'), '.');
      assert parts[1] == Split(AfterFirst(baseName, '.'), '.')[0];
      [Plain(baseName, parts[0], if parts[1] != "" then parts[1] else "com", userInput)]
    else
      SplitWithout(baseName, '.');
      [Plain(baseName, parts[0], "com", userInput)]
  }

  /** The record pushed for one extension. When the name itself ends with the
      extension's letters they are cut off the name (and off the user input). */
  function ExtensionRecord(nameOnly: string, tld: string, userInput: string): (r: DomainParts)
    requires |tld| > 0
    ensures r.ext == tld && r.domain == r.base + "." + tld
    ensures EndsWith(nameOnly, tld) ==> nameOnly == r.base + tld && r.input == Some(DropLast(userInput, |tld|))
    ensures !EndsWith(nameOnly, tld) ==> r.base == nameOnly && r.input == Some(userInput)
    ensures r.prefix.None? && r.suffix.None? && !r.isFeatured && !r.isAISuggestion
  {
    if EndsWith(nameOnly, tld) then
      var base := DropLast(nameOnly, |tld|);
      Plain(base + "." + tld, base, tld, DropLast(userInput, |tld|))
    else
      Plain(nameOnly + "." + tld, nameOnly, tld, userInput)
  }

  /** The list `generateAlternativeExtensions` has built after visiting `tlds`:
      each extension whose `nameOnly.tld` is not the searched domain adds its
      record at the end. */
  function ExtensionsOver(tlds: seq<string>, baseName: string, userInput: string): seq<DomainParts>
    requires forall i :: 0 <= i < |tlds| ==> |tlds[i]| > 0
  {
    if |tlds| == 0 then []
    else
      var nameOnly := BeforeFirst(baseName, '.');
      var tld := tlds[|tlds| - 1];
      var earlier := ExtensionsOver(tlds[..|tlds| - 1], baseName, userInput);
      if nameOnly + "." + tld != baseName then earlier + [ExtensionRecord(nameOnly, tld, userInput)]
      else earlier
  }

  /** `generateAlternativeExtensions`. */
  method GenerateAlternativeExtensions(baseName: string, userInput: string)
    returns (variations: seq<DomainParts>)
    ensures variations == ExtensionsOver(CommonTlds, baseName, userInput)
  {
    CatalogTldsDistinct();
    var nameOnly := Split(baseName, '.')[0];
    SplitFirstIsBeforeFirst(baseName, '.');
    variations := PushExtensions(CommonTlds, nameOnly, baseName, userInput);
  }

  /** The loop of `generateAlternativeExtensions` over `tlds`. */
  method PushExtensions(tlds: seq<string>, nameOnly: string, baseName: string, userInput: string)
    returns (variations: seq<DomainParts>)
    requires forall i :: 0 <= i < |tlds| ==> |tlds[i]| > 0
    requires nameOnly == BeforeFirst(baseName, '.')
    ensures variations == ExtensionsOver(tlds, baseName, userInput)
  {
    variations := [];
    var i := 0;
    while i < |tlds|
      invariant 0 <= i <= |tlds|
      invariant variations == ExtensionsOver(tlds[..i], baseName, userInput)
    {
      var tld := tlds[i];
      assert tlds[..i + 1][..i] == tlds[..i];
      var targetDomain := nameOnly + "." + tld;
      if targetDomain != baseName {
        if EndsWith(nameOnly, tld) {
          var base := DropLast(nameOnly, |tld|);
          var userInputWithoutTld := DropLast(userInput, |tld|);
          variations := variations + [Plain(base + "." + tld, base, tld, userInputWithoutTld)];
        } else {
          variations := variations + [Plain(nameOnly + "." + tld, nameOnly, tld, userInput)];
        }
      }
      i := i + 1;
    }
    assert tlds[..i] == tlds;
  }

  /** Every emitted record is some visited extension's record, and its base holds
      no dot. */
  lemma {:induction false} ExtensionsFromCatalog(tlds: seq<string>, baseName: string, userInput: string)
    requires forall i :: 0 <= i < |tlds| ==> |tlds[i]| > 0 && '.' !in tlds[i]
    ensures forall k :: 0 <= k < |ExtensionsOver(tlds, baseName, userInput)| ==>
      EmittedFor(ExtensionsOver(tlds, baseName, userInput)[k], tlds, baseName, userInput)
  {
    if |tlds| > 0 {
      var init := tlds[..|tlds| - 1];
      var last := tlds[|tlds| - 1];
      ExtensionsFromCatalog(init, baseName, userInput);
      var nameOnly := BeforeFirst(baseName, '.');
      var earlier := ExtensionsOver(init, baseName, userInput);
      var r := ExtensionsOver(tlds, baseName, userInput);
      forall k | 0 <= k < |r|
        ensures EmittedFor(r[k], tlds, baseName, userInput)
      {
        if k < |earlier| {
          assert r[k] == earlier[k];
          assert EmittedFor(earlier[k], init, baseName, userInput);
          var i :| 0 <= i < |init| && EmittedAt(earlier[k], init, i, baseName, userInput);
          assert init[i] == tlds[i];
          assert EmittedAt(r[k], tlds, i, baseName, userInput);
        } else {
          var rec := ExtensionRecord(nameOnly, last, userInput);
          assert r[k] == rec;
          if EndsWith(nameOnly, last) {
            assert forall j :: 0 <= j < |rec.base| ==> rec.base[j] == nameOnly[j];
          }
          assert EmittedAt(r[k], tlds, |tlds| - 1, baseName, userInput);
        }
      }
    }
  }

  /** `rec` is the record of the `i`-th extension, which was not skipped. */
  ghost predicate EmittedAt(rec: DomainParts, tlds: seq<string>, i: int, baseName: string, userInput: string)
    requires forall i :: 0 <= i < |tlds| ==> |tlds[i]| > 0
  {
    var nameOnly := BeforeFirst(baseName, '.');
    0 <= i < |tlds| && rec == ExtensionRecord(nameOnly, tlds[i], userInput)
    && nameOnly + "." + tlds[i] != baseName && '.' !in rec.base && '.' !in rec.ext
  }

  ghost predicate EmittedFor(rec: DomainParts, tlds: seq<string>, baseName: string, userInput: string)
    requires forall i :: 0 <= i < |tlds| ==> |tlds[i]| > 0
  {
    exists i :: 0 <= i < |tlds| && EmittedAt(rec, tlds, i, baseName, userInput)
  }

  /** The searched domain itself is never among the alternatives. */
  lemma NeverTheSearchedDomain(baseName: string, userInput: string)
    ensures forall k :: 0 <= k < |ExtensionsOver(CommonTlds, baseName, userInput)| ==>
      ExtensionsOver(CommonTlds, baseName, userInput)[k].domain != baseName
  {
    CatalogTldsDistinct();
    ExtensionsFromCatalog(CommonTlds, baseName, userInput);
    var r := ExtensionsOver(CommonTlds, baseName, userInput);
    var nameOnly := BeforeFirst(baseName, '.');
    forall k | 0 <= k < |r|
      ensures r[k].domain != baseName
    {
      assert EmittedFor(r[k], CommonTlds, baseName, userInput);
      var i :| 0 <= i < |CommonTlds| && EmittedAt(r[k], CommonTlds, i, baseName, userInput);
      var tld := CommonTlds[i];
      BeforeFirstOfJoined(r[k].base, '.', tld);
      if EndsWith(nameOnly, tld) {
        // The cut name is shorter than the searched name.
        assert |r[k].base| < |nameOnly|;
        assert BeforeFirst(r[k].domain, '.') != BeforeFirst(baseName, '.');
      } else {
        assert r[k].domain == nameOnly + "." + tld;
      }
    }
  }

  /** Two `name.ext` texts with dot-free names and different extensions differ. */
  lemma DottedDiffer(a: string, x: string, b: string, y: string)
    requires '.' !in a && '.' !in b
    requires x != y
    ensures a + "." + x != b + "." + y
  {
    AfterFirstOfJoined(a, '.', x);
    AfterFirstOfJoined(b, '.', y);
  }

  /** The searched domain is the name under one of `tlds`. */
  ghost predicate NamesCatalogTld(baseName: string, tlds: seq<string>) {
    exists i :: 0 <= i < |tlds| && baseName == BeforeFirst(baseName, '.') + "." + tlds[i]
  }

  /** At most one extension is skipped, and one is skipped exactly when the
      searched domain is the name under a catalog extension. */
  lemma {:induction false} ExtensionsCount(tlds: seq<string>, baseName: string, userInput: string)
    requires forall i :: 0 <= i < |tlds| ==> |tlds[i]| > 0
    requires forall i, j :: 0 <= i < j < |tlds| ==> tlds[i] != tlds[j]
    ensures |ExtensionsOver(tlds, baseName, userInput)| ==
      |tlds| - if NamesCatalogTld(baseName, tlds) then 1 else 0
  {
    if |tlds| > 0 {
      var init := tlds[..|tlds| - 1];
      var last := tlds[|tlds| - 1];
      var nameOnly := BeforeFirst(baseName, '.');
      ExtensionsCount(init, baseName, userInput);
      if baseName == nameOnly + "." + last {
        LastNamesCatalogTld(tlds, baseName);
      } else {
        EarlierNamesCatalogTld(tlds, baseName);
      }
    }
  }

  /** When the last extension names the searched domain, no earlier one does. */
  lemma LastNamesCatalogTld(tlds: seq<string>, baseName: string)
    requires |tlds| > 0
    requires forall i, j :: 0 <= i < j < |tlds| ==> tlds[i] != tlds[j]
    requires baseName == BeforeFirst(baseName, '.') + "." + tlds[|tlds| - 1]
    ensures NamesCatalogTld(baseName, tlds) && !NamesCatalogTld(baseName, tlds[..|tlds| - 1])
  {
    var init := tlds[..|tlds| - 1];
    var last := tlds[|tlds| - 1];
    var nameOnly := BeforeFirst(baseName, '.');
    forall i | 0 <= i < |init|
      ensures baseName != nameOnly + "." + init[i]
    {
      assert init[i] == tlds[i] != last;
      SameNameDifferentExt(nameOnly, init[i], last);
    }
  }

  /** When the last extension does not name the searched domain, the earlier
      ones decide. */
  lemma EarlierNamesCatalogTld(tlds: seq<string>, baseName: string)
    requires |tlds| > 0
    requires baseName != BeforeFirst(baseName, '.') + "." + tlds[|tlds| - 1]
    ensures NamesCatalogTld(baseName, tlds) == NamesCatalogTld(baseName, tlds[..|tlds| - 1])
  {
    var init := tlds[..|tlds| - 1];
    var nameOnly := BeforeFirst(baseName, '.');
    if NamesCatalogTld(baseName, tlds) {
      var i :| 0 <= i < |tlds| && baseName == nameOnly + "." + tlds[i];
      assert i < |init| && init[i] == tlds[i];
    }
    if NamesCatalogTld(baseName, init) {
      var i :| 0 <= i < |init| && baseName == nameOnly + "." + init[i];
      assert init[i] == tlds[i];
    }
  }

  lemma SameNameDifferentExt(n: string, x: string, y: string)
    requires x != y
    ensures n + "." + x != n + "." + y
  {
    assert (n + "." + x)[|n| + 1..] == x;
    assert (n + "." + y)[|n| + 1..] == y;
  }

  /** The alternatives have pairwise different domains. */
  lemma {:induction false} ExtensionsDistinct(tlds: seq<string>, baseName: string, userInput: string)
    requires forall i :: 0 <= i < |tlds| ==> |tlds[i]| > 0 && '.' !in tlds[i]
    requires forall i, j :: 0 <= i < j < |tlds| ==> tlds[i] != tlds[j]
    ensures forall k, m :: 0 <= k < m < |ExtensionsOver(tlds, baseName, userInput)| ==>
      ExtensionsOver(tlds, baseName, userInput)[k].domain != ExtensionsOver(tlds, baseName, userInput)[m].domain
  {
    if |tlds| > 0 {
      var init := tlds[..|tlds| - 1];
      var last := tlds[|tlds| - 1];
      var nameOnly := BeforeFirst(baseName, '.');
      ExtensionsDistinct(init, baseName, userInput);
      ExtensionsFromCatalog(init, baseName, userInput);
      ExtensionsFromCatalog(tlds, baseName, userInput);
      var earlier := ExtensionsOver(init, baseName, userInput);
      var r := ExtensionsOver(tlds, baseName, userInput);
      if nameOnly + "." + last != baseName {
        var rec := r[|r| - 1];
        assert rec == ExtensionRecord(nameOnly, last, userInput);
        assert EmittedFor(rec, tlds, baseName, userInput);
        forall k | 0 <= k < |earlier|
          ensures earlier[k].domain != rec.domain
        {
          assert EmittedFor(earlier[k], init, baseName, userInput);
          var i :| 0 <= i < |init| && EmittedAt(earlier[k], init, i, baseName, userInput);
          assert init[i] == tlds[i] != last;
          DottedDiffer(earlier[k].base, init[i], rec.base, last);
        }
        assert r == earlier + [rec];
      }
    }
  }

  /** The alternatives of the catalog: 13 records, or 12 when the search was for
      the name under a catalog extension, no two alike, none the search itself. */
  lemma AlternativeExtensionsFacts(baseName: string, userInput: string)
    ensures |ExtensionsOver(CommonTlds, baseName, userInput)| ==
      13 - if NamesCatalogTld(baseName, CommonTlds) then 1 else 0
    ensures forall k, m :: 0 <= k < m < |ExtensionsOver(CommonTlds, baseName, userInput)| ==>
      ExtensionsOver(CommonTlds, baseName, userInput)[k].domain != ExtensionsOver(CommonTlds, baseName, userInput)[m].domain
    ensures forall k :: 0 <= k < |ExtensionsOver(CommonTlds, baseName, userInput)| ==>
      ExtensionsOver(CommonTlds, baseName, userInput)[k].domain != baseName
  {
    CatalogTldsDistinct();
    ExtensionsCount(CommonTlds, baseName, userInput);
    ExtensionsDistinct(CommonTlds, baseName, userInput);
    NeverTheSearchedDomain(baseName, userInput);
  }

  /** An extension that is not skipped contributes its record. */
  lemma {:induction false} ExtensionsInclude(tlds: seq<string>, baseName: string, userInput: string, i: nat)
    requires forall j :: 0 <= j < |tlds| ==> |tlds[j]| > 0
    requires i < |tlds| && BeforeFirst(baseName, '.') + "." + tlds[i] != baseName
    ensures ExtensionRecord(BeforeFirst(baseName, '.'), tlds[i], userInput) in ExtensionsOver(tlds, baseName, userInput)
  {
    var init := tlds[..|tlds| - 1];
    if i < |tlds| - 1 {
      assert init[i] == tlds[i];
      ExtensionsInclude(init, baseName, userInput, i);
    }
  }

  /** For `mystudio.com` the name ends with `studio`, so that alternative is
      `my.studio`. */
  lemma MyStudioExample(baseName: string, name: string, ext: string, userInput: string)
    requires baseName == "mystudio.com" && name == "mystudio" && ext == "studio"
    ensures ExtensionRecord(name, ext, userInput) in ExtensionsOver(CommonTlds, baseName, userInput)
    ensures ExtensionRecord(name, ext, userInput).domain == "my.studio"
  {
    MyStudioParts(baseName, name, ext);
    AlternativeIncluded(name, ext, baseName, userInput, 11);
    CutExtension(name, "my", ext, userInput);
  }

  lemma MyStudioParts(baseName: string, name: string, ext: string)
    requires baseName == "mystudio.com" && name == "mystudio" && ext == "studio"
    ensures '.' !in name && baseName == name + "." + "com"
    ensures CommonTlds[11] == ext && ext != "com"
    ensures name == "my" + ext && "my" + "." + ext == "my.studio"
  {
  }

  /** It also ends with `io`, so that alternative is `mystud.io`. */
  lemma MyStudIoExample(baseName: string, name: string, ext: string, userInput: string)
    requires baseName == "mystudio.com" && name == "mystudio" && ext == "io"
    ensures ExtensionRecord(name, ext, userInput) in ExtensionsOver(CommonTlds, baseName, userInput)
    ensures ExtensionRecord(name, ext, userInput).domain == "mystud.io"
  {
    MyStudIoParts(baseName, name, ext);
    AlternativeIncluded(name, ext, baseName, userInput, 3);
    CutExtension(name, "mystud", ext, userInput);
  }

  lemma MyStudIoParts(baseName: string, name: string, ext: string)
    requires baseName == "mystudio.com" && name == "mystudio" && ext == "io"
    ensures '.' !in name && baseName == name + "." + "com"
    ensures CommonTlds[3] == ext && ext != "com"
    ensures name == "mystud" + ext && "mystud" + "." + ext == "mystud.io"
  {
  }

  /** A name ending in the extension is cut before it. */
  lemma CutExtension(name: string, base: string, ext: string, userInput: string)
    requires |ext| > 0 && name == base + ext
    ensures ExtensionRecord(name, ext, userInput).domain == base + "." + ext
  {
    assert name[|name| - |ext|..] == ext;
    assert DropLast(name, |ext|) == base;
  }

  /** For a `.com` search, every other catalog extension contributes its
      record. */
  lemma AlternativeIncluded(name: string, ext: string, baseName: string, userInput: string, i: nat)
    requires '.' !in name && baseName == name + "." + "com"
    requires i < |CommonTlds| && CommonTlds[i] == ext && ext != "com"
    ensures ExtensionRecord(name, ext, userInput) in ExtensionsOver(CommonTlds, baseName, userInput)
  {
    CatalogTldsDistinct();
    NameOfDotted(name, "com", baseName);
    SameNameDifferentExt(name, ext, "com");
    ExtensionsInclude(CommonTlds, baseName, userInput, i);
  }

  /** For `ai.com` the whole name is the extension `ai`: the base becomes empty
      and the alternative is `.ai`. */
  lemma AiExample(baseName: string, name: string, userInput: string)
    requires baseName == "ai.com" && name == "ai"
    ensures ExtensionRecord(name, name, userInput) in ExtensionsOver(CommonTlds, baseName, userInput)
    ensures ExtensionRecord(name, name, userInput).domain == ".ai"
    ensures ExtensionRecord(name, name, userInput).base == ""
  {
    AiParts(baseName, name);
    AlternativeIncluded(name, name, baseName, userInput, 7);
    CutExtension(name, "", name, userInput);
  }

  lemma AiParts(baseName: string, name: string)
    requires baseName == "ai.com" && name == "ai"
    ensures '.' !in name && baseName == name + "." + "com"
    ensures CommonTlds[7] == name && name != "com"
    ensures name == "" + name && "" + "." + name == ".ai"
  {
  }

  lemma NameOfDotted(name: string, ext: string, baseName: string)
    requires '.' !in name && baseName == name + "." + ext
    ensures BeforeFirst(baseName, '.') == name
  {
    BeforeFirstOfJoined(name, '.', ext);
  }

  /** `generateAlternativeSuggestions`: the sorted prefixes, then the sorted
      suffixes, each as a `.com` name. */
  method GenerateAlternativeSuggestions(baseName: string, userInput: string)
    returns (variations: seq<DomainParts>)
    ensures variations == PrefixedOver(SortedPrefixes, BeforeFirst(baseName, '.'), Some(userInput))
      + SuffixedOver(SortedSuffixes, BeforeFirst(baseName, '.'), Some(userInput))
  {
    var nameOnly := Split(baseName, '.')[0];
    SplitFirstIsBeforeFirst(baseName, '.');
    variations := PushPrefixed([], SortedPrefixes, nameOnly, Some(userInput));
    variations := PushSuffixed(variations, SortedSuffixes, nameOnly, Some(userInput));
  }

  /** The prefix/suffix suggestions: as many as there are catalog entries (4),
      each `name + suffix + ".com"` with the sorted suffixes in order, all with
      extension `com` and no prefix, since the prefix catalog is empty. */
  lemma AlternativeSuggestionsFacts(nameOnly: string, userInput: string)
    ensures |PrefixedOver(SortedPrefixes, nameOnly, Some(userInput)) + SuffixedOver(SortedSuffixes, nameOnly, Some(userInput))|
      == |Prefixes| + |Suffixes| == 4
    ensures forall i :: 0 <= i < 4 ==>
      (PrefixedOver(SortedPrefixes, nameOnly, Some(userInput)) + SuffixedOver(SortedSuffixes, nameOnly, Some(userInput)))[i]
      == SuffixRecord(nameOnly, SortedSuffixes[i], Some(userInput))
  {
    SuffixedPointwise(SortedSuffixes, nameOnly, Some(userInput));
    assert PrefixedOver(SortedPrefixes, nameOnly, Some(userInput)) == [];
  }

  /** The record made of one line of the generator's answer: the text before the
      line's first dot, under `.com`. */
  function AIRecord(line: string): (r: DomainParts)
    ensures r.base == BeforeFirst(line, '.') && '.' !in r.base
    ensures r.domain == r.base + ".com" && r.ext == "com" && r.input == Some(r.domain)
    ensures r.isAISuggestion && !r.isFeatured && r.prefix.None? && r.suffix.None?
  {
    var domainWithoutExt := Split(line, '.')[0];
    SplitFirstIsBeforeFirst(line, '.');
    DomainParts(domainWithoutExt + ".com", domainWithoutExt, "com", None, None,
      Some(domainWithoutExt + ".com"), false, true)
  }

  /** `base.toLowerCase().endsWith('com')`. */
  predicate EndsInCom(base: string) {
    EndsWith(ToLower(base), "com")
  }

  /** `base.split(/[^a-zA-Z0-9]/).filter(Boolean).length`. */
  function WordCount(base: string): nat {
    |Filter(SplitNonAlnum(base), NonEmpty)|
  }

  /** `filter(Boolean)` on texts. */
  predicate NonEmpty(text: string) {
    text != ""
  }

  /** `base.length <= 10 || wordCount <= 3`. */
  predicate ShortEnough(base: string) {
    |base| <= 10 || WordCount(base) <= 3
  }

  predicate NameNotEndingInCom(s: DomainParts) {
    !EndsInCom(s.base)
  }

  predicate NameShortEnough(s: DomainParts) {
    ShortEnough(s.base)
  }

  /** A line is kept when it is not empty and its name passes both filters. */
  predicate Accepted(line: string) {
    line != "" && !EndsInCom(BeforeFirst(line, '.')) && ShortEnough(BeforeFirst(line, '.'))
  }

  /** The non-empty lines of the answer, as records. */
  function LineRecords(response: string): seq<DomainParts> {
    Map(Filter(Split(response, '\n'), NonEmpty), AIRecord)
  }

  /** The `split('\n').filter(Boolean).map(...).filter(...).filter(...)` chain. */
  function ParseSuggestions(response: string): seq<DomainParts> {
    Filter(Filter(LineRecords(response), NameNotEndingInCom), NameShortEnough)
  }

  /** Everything kept comes from an accepted line of the answer. */
  lemma ParsedFromAcceptedLines(response: string)
    ensures forall k :: 0 <= k < |ParseSuggestions(response)| ==>
      exists line :: line in Split(response, '\n') && Accepted(line) && ParseSuggestions(response)[k] == AIRecord(line)
  {
    var lines := Filter(Split(response, '\n'), NonEmpty);
    var records := LineRecords(response);
    var notCom := Filter(records, NameNotEndingInCom);
    var r := ParseSuggestions(response);
    forall k | 0 <= k < |r|
      ensures exists line :: line in Split(response, '\n') && Accepted(line) && r[k] == AIRecord(line)
    {
      assert r[k] in notCom && NameShortEnough(r[k]);
      assert r[k] in records && NameNotEndingInCom(r[k]);
      var j :| 0 <= j < |records| && records[j] == r[k];
      assert lines[j] in Split(response, '\n') && NonEmpty(lines[j]);
      assert Accepted(lines[j]);
    }
  }

  /** Every accepted line of the answer is kept. */
  lemma AcceptedLinesKept(response: string, line: string)
    requires line in Split(response, '\n') && Accepted(line)
    ensures AIRecord(line) in ParseSuggestions(response)
  {
    var lines := Filter(Split(response, '\n'), NonEmpty);
    var records := LineRecords(response);
    var notCom := Filter(records, NameNotEndingInCom);
    assert line in lines;
    var j :| 0 <= j < |lines| && lines[j] == line;
    assert records[j] == AIRecord(line);
    assert AIRecord(line) in notCom;
  }

  /** A single line (no line break) gives its record when accepted, and nothing
      otherwise. */
  lemma ParseOneLine(line: string)
    requires '\n' !in line
    ensures ParseSuggestions(line) == if Accepted(line) then [AIRecord(line)] else []
  {
    SplitWithout(line, '\n');
    var lines := Filter([line], NonEmpty);
    assert lines == if line != "" then [line] else [];
    assert LineRecords(line) == if line != "" then [AIRecord(line)] else [];
  }

  /** Lines are processed one by one: the records of a first line are followed
      by those of the rest. There is therefore no deduplication. */
  lemma ParseLineByLine(line: string, rest: string)
    requires '\n' !in line
    ensures ParseSuggestions(line + "\n" + rest) == ParseSuggestions(line) + ParseSuggestions(rest)
  {
    SplitAtFirst(line, '\n', rest);
    SplitWithout(line, '\n');
    FilterAppend([line], Split(rest, '\n'), NonEmpty);
    MapAppend(Filter([line], NonEmpty), Filter(Split(rest, '\n'), NonEmpty), AIRecord);
    var a := LineRecords(line);
    var b := LineRecords(rest);
    assert LineRecords(line + "\n" + rest) == a + b;
    FilterAppend(a, b, NameNotEndingInCom);
    FilterAppend(Filter(a, NameNotEndingInCom), Filter(b, NameNotEndingInCom), NameShortEnough);
  }

  /** A repeated line is kept twice. */
  lemma NoDeduplication(line: string)
    requires '\n' !in line && Accepted(line)
    ensures ParseSuggestions(line + "\n" + line) == [AIRecord(line), AIRecord(line)]
  {
    ParseLineByLine(line, line);
    ParseOneLine(line);
  }

  /** `fooCom.com` is dropped: its name ends in `com` once lower-cased. */
  lemma FooComRejected(line: string)
    requires line == "fooCom.com"
    ensures ParseSuggestions(line) == []
  {
    SingleLine(line);
    FooComNotAccepted(line);
    ParseOneLine(line);
  }

  lemma FooComNotAccepted(line: string)
    requires line == "fooCom.com"
    ensures !Accepted(line)
  {
    var head, tail := "foo", "Com";
    assert line == head + tail + "." + "com";
    NameOfDotted(head + tail, "com", line);
    ToLowerAppend(head, tail);
    LowerCom(tail);
    assert ToLower(head + tail)[|head|..] == "com";
  }

  lemma LowerCom(tail: string)
    requires tail == "Com"
    ensures ToLower(tail) == "com"
  {
  }

  /** `get-it-done-now.com` is dropped: 15 characters and four words. */
  lemma LongManyWordsRejected(line: string)
    requires line == "get-it-done-now.com"
    ensures ParseSuggestions(line) == []
  {
    SingleLine(line);
    LongManyWordsNotAccepted(line);
    ParseOneLine(line);
  }

  lemma LongManyWordsNotAccepted(line: string)
    requires line == "get-it-done-now.com"
    ensures !Accepted(line)
  {
    var name := "get-it-done-now";
    NameOfDotted(name, "com", line);
    FourWords(name);
  }

  lemma SingleLine(line: string)
    requires line == "get-it-done-now.com" || line == "zap.com" || line == "fooCom.com"
    ensures '\n' !in line
  {
  }

  lemma FourWords(name: string)
    requires name == "get-it-done-now"
    ensures WordCount(name) == 4
  {
    FourPieces(name);
    FilterAll(["get", "it", "done", "now"], NonEmpty);
  }

  lemma FourPieces(name: string)
    requires name == "get-it-done-now"
    ensures SplitNonAlnum(name) == ["get", "it", "done", "now"]
  {
    FourPiecesParts(name, "get", "it", "done", "now");
    FourHyphenated("get", "it", "done", "now");
  }

  lemma FourPiecesParts(name: string, w1: string, w2: string, w3: string, w4: string)
    requires name == "get-it-done-now" && w1 == "get" && w2 == "it" && w3 == "done" && w4 == "now"
    ensures name == w1 + ['-'] + (w2 + ['-'] + (w3 + ['-'] + w4))
    ensures forall i :: 0 <= i < |w1| ==> IsAlnum(w1[i])
    ensures forall i :: 0 <= i < |w2| ==> IsAlnum(w2[i])
    ensures forall i :: 0 <= i < |w3| ==> IsAlnum(w3[i])
    ensures forall i :: 0 <= i < |w4| ==> IsAlnum(w4[i])
  {
  }

  /** Four alphanumeric runs joined by hyphens split into those four runs. */
  lemma FourHyphenated(w1: string, w2: string, w3: string, w4: string)
    requires forall i :: 0 <= i < |w1| ==> IsAlnum(w1[i])
    requires forall i :: 0 <= i < |w2| ==> IsAlnum(w2[i])
    requires forall i :: 0 <= i < |w3| ==> IsAlnum(w3[i])
    requires forall i :: 0 <= i < |w4| ==> IsAlnum(w4[i])
    ensures SplitNonAlnum(w1 + ['-'] + (w2 + ['-'] + (w3 + ['-'] + w4))) == [w1, w2, w3, w4]
  {
    var t3 := w3 + ['-'] + w4;
    var t2 := w2 + ['-'] + t3;
    SplitNonAlnumRun(w4);
    SplitNonAlnumAt(w3, '-', w4);
    SplitNonAlnumAt(w2, '-', t3);
    SplitNonAlnumAt(w1, '-', t2);
  }

  /** `zap.com` is kept as `zap.com`. */
  lemma ZapKept(line: string)
    requires line == "zap.com"
    ensures ParseSuggestions(line) == [AIRecord(line)] && AIRecord(line).domain == "zap.com"
  {
    SingleLine(line);
    ZapAccepted(line);
    ParseOneLine(line);
    ZapDomain(line);
  }

  lemma ZapDomain(line: string)
    requires line == "zap.com"
    ensures AIRecord(line).domain == "zap.com"
  {
    ZapAccepted(line);
  }

  lemma ZapAccepted(line: string)
    requires line == "zap.com"
    ensures Accepted(line) && BeforeFirst(line, '.') == "zap"
  {
    NameOfDotted("zap", "com", line);
    ZapNotCom("zap");
  }

  lemma ZapNotCom(name: string)
    requires name == "zap"
    ensures !EndsInCom(name) && ShortEnough(name)
  {
    assert ToLower(name)[0] == 'z';
  }

  /** `generateAIDomainSuggestions`: ask for names for the text before the first
      dot (with the first-time wording or the "more" wording), then keep the
      accepted lines; a failed request gives no suggestions. */
  function GenerateAIDomainSuggestions(baseName: string, isFirstTime: bool, ai: Prompt -> AIReply): (r: seq<DomainParts>)
    ensures ai(SuggestNames(BeforeFirst(baseName, '.'), isFirstTime)).Failed? ==> r == []
    ensures ai(SuggestNames(BeforeFirst(baseName, '.'), isFirstTime)).Reply? ==>
      r == ParseSuggestions(ai(SuggestNames(BeforeFirst(baseName, '.'), isFirstTime)).text)
    ensures forall k :: 0 <= k < |r| ==>
      r[k].isAISuggestion && r[k].ext == "com" && r[k].domain == r[k].base + ".com"
      && !EndsInCom(r[k].base) && ShortEnough(r[k].base)
  {
    var nameOnly := Split(baseName, '.')[0];
    SplitFirstIsBeforeFirst(baseName, '.');
    match ai(SuggestNames(nameOnly, isFirstTime))
    case Reply(response) =>
      ParsedFromAcceptedLines(response);
      ParseSuggestions(response)
    case Failed(_) => []
  }
}
