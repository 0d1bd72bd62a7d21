# Domain name search tool — verified model

A Dafny model of the deterministic core of a domain-name search tool, in both of
its generations: the newer Next.js tool under `app/` and the older
create-react-app tool under `src/` (with its oldest JavaScript files). The model
covers:

- turning what the user typed into the domain that is searched (`sanitizeDomain`,
  four identical copies, modelled once as `Sanitizer.SanitizeDomain`);
- expanding a name into ordered candidate records or texts over the fixed
  catalogs of extensions, prefixes and suffixes;
- the post-processing of the AI provider's answer into suggestions;
- sorting candidates into the groups the page shows, and the filter predicate;
- the results map that every availability lookup writes into, with the
  `loading` flag that clears when a submission's last lookup settles;
- the AI suggestion list and its deduplication;
- the name scores, the logo text helpers, the parked-domain heuristic, the
  memoising price cache and the price lookup;
- the oldest single-domain page: its HTTP-status messages and the
  user-facing error classification.

Each source file is one module. React state becomes the fields of a class whose
methods are the handlers; loops that push into a local array are methods with
loop invariants proved against a function that states the result. Availability
lookups, AI answers, WHOIS answers and price tables are inputs; lookups
scheduled with `setTimeout` are events that can be delivered in any order.
Strings are sequences of characters; `toLowerCase`/`toUpperCase` act on ASCII
letters, while `\s` and `trim` use the full JavaScript whitespace set.

## Model

| member | source | states |
|---|---|---|
| Domain.Plain | app/hooks/useDomainState.ts:145-147 | a search record carries the given domain, base, extension and input, with no prefix, no suffix and neither origin flag |
| Domain.Domains | app/hooks/useDomainState.ts:152-154 | the domains of a candidate list, one per record and in the list's order |
| Domain.PendingFor | app/hooks/useDomainState.ts:151-155 | the map holds exactly the given domains, each as `{ loading: true }` |
| Domain.InitialResults | app/hooks/useDomainState.ts:151-154 | the `forEach` loop builds exactly the pending map of the candidates' domains |
| Domain.BatchesCountedAppend | app/hooks/useDomainState.ts:158-159 | a new submission whose counter starts at 0 keeps every counter equal to its number of settled lookups |
| Domain.SettledBounded | app/hooks/useDomainState.ts:158-170 | a counter of settled lookups never exceeds `totalToCheck`, and equals it exactly when every lookup has settled, in whatever order they arrive |
| Affixes.PrefixRecord | app/utils/domainUtils.ts:219-228 | the record has the given name as base, the given prefix, no suffix, the domain prefix + name + `.com`, extension `com`, the input kept, and is neither featured nor an AI suggestion |
| Affixes.SuffixRecord | app/utils/domainUtils.ts:231-241 | the record has the given name as base, the given suffix, no prefix, the domain name + suffix + `.com`, extension `com`, the input kept, and is neither featured nor an AI suggestion |
| Affixes.PushPrefixed | app/utils/domainUtils.ts:219-228 | the prefix loop appends to the list exactly one prefix record per catalog word, in catalog order |
| Affixes.PushSuffixed | app/utils/domainUtils.ts:231-241 | the suffix loop appends to the list exactly one suffix record per catalog word, in catalog order |
| Affixes.PrefixedPointwise | app/utils/domainUtils.ts:219-228 | the prefix loop's output has one entry per prefix, and entry i is the record for prefix i |
| Affixes.SuffixedPointwise | app/utils/domainUtils.ts:231-241 | the suffix loop's output has one entry per suffix, and entry i is the record for suffix i |
| AppAISuggestions.NewSuggestions | app/hooks/useAISuggestions.ts:35-36 | the batch's suggestions whose domain is not yet listed, and only those; never longer than the batch |
| AppAISuggestions.FirstBatchKeepsAll | app/hooks/useAISuggestions.ts:33-36 | against an empty list the whole batch is new, repeats included |
| AppAISuggestions.KnownBatchIsNothingNew | app/hooks/useAISuggestions.ts:35-41 | a batch of already listed domains yields nothing new |
| AppAISuggestions.RepeatedSuggestionKept | app/hooks/useAISuggestions.ts:35-36 | a batch is not deduplicated within itself: two equal new suggestions are both kept |
| AppAISuggestions.ShownGeneratorNeverThrows | app/utils/domainUtils.ts:117-146 | the generator the page uses never throws, and a failed AI call yields an empty list |
| AppAISuggestions.AISuggestions.constructor | app/hooks/useAISuggestions.ts:19-21 | the list starts empty, the flag down and no error |
| AppAISuggestions.AISuggestions.HandleGenerateAI | app/hooks/useAISuggestions.ts:23-57 | an empty domain changes nothing; otherwise the flag ends down, and a thrown generation, a batch with nothing new, and a batch with new names each set their own error or append exactly the new names and schedule their checks in order |
| AppAISuggestions.AppendedRunCovers | app/hooks/useAISuggestions.ts:35-43 | after an appending run the list holds only old or batch suggestions, and every batch domain is listed |
| AppDomainHelpers.CategorizeResults | app/utils/domainHelpers.ts:3-40 | an empty list gives empty groups; the main domain is the first non-featured record for the searched domain, or none if there is none; each other group holds exactly the records that pass its test |
| AppDomainHelpers.CategoriesDisjoint | app/utils/domainHelpers.ts:15-32 | no record is in two of the three lists, and the main record is neither an alternative extension nor featured |
| AppDomainHelpers.CategoriesCover | app/utils/domainHelpers.ts:19-32 | the three lists, plus the plain records for the searched domain, together account for every candidate exactly once |
| AppDomainHelpers.CategoriesKeepOrder | app/utils/domainHelpers.ts:15-32 | categorizing a joined list gives, for each of the three lists, the first part's list followed by the second part's, and the first part's main record when it has one, else the second part's |
| AppDomainHelpers.ParseFeaturedDomain | app/utils/domainHelpers.ts:42-54 | a featured record is its name without whitespace under `.com`, with empty prefix and suffix present, and it is marked featured |
| AppDomainHelpers.FeaturedKeepsCleanName | app/utils/domainHelpers.ts:42-46 | a featured name without whitespace becomes that name plus `.com` |
| AppDomainHelpers.FeaturedKeepsCharacters | app/utils/domainHelpers.ts:43 | every character of a featured name that is not whitespace is in its base |
| AppDomainHelpers.FeaturedBaseAppend | app/utils/domainHelpers.ts:43 | the base of a joined name is the joined bases of its parts, in order |
| AppDomainHelpers.FeaturedSqueezesSpace | app/utils/domainHelpers.ts:42-46 | two whitespace-free words around a space become the two words joined, under `.com` |
| AppDomainHelpers.MySiteExample | app/utils/domainHelpers.ts:42-46 | `My Site` becomes `MySite.com` |
| AppDomainHelpers.FeaturedOnlyFeatured | app/utils/domainHelpers.ts:27-32 | a featured record with empty affixes would count as a suggestion if it were not featured; it lands in the featured list only, and is never the main domain |
| AppDomainState.SettledEntry | app/hooks/useDomainState.ts:90-113 | a settled entry is no longer loading and holds the service's data, or a WHOIS record built from the error (unavailable, with the error message as its status) |
| AppDomainState.DomainState.constructor | app/hooks/useDomainState.ts:26-32 | the initial state: empty texts, no candidates, an empty results map, not loading, no error |
| AppDomainState.DomainState.CheckFeaturedDomains | app/hooks/useDomainState.ts:35-58 | changes only the candidates and the results: the candidates become the featured records and the results map is replaced by their pending entries |
| AppDomainState.DomainState.SetDomain | app/hooks/useDomainState.ts:85-88 | changes only the typed text and its sanitized form |
| AppDomainState.DomainState.CheckSingleDomain | app/hooks/useDomainState.ts:90-113 | changes only the checked domain's entry, to its settled entry, and hands a thrown error back |
| AppDomainState.DomainState.BeginRetry | app/hooks/useDomainState.ts:115-119 | only the retried domain goes back to `{ loading: true }` |
| AppDomainState.DomainState.CompleteRetry | app/hooks/useDomainState.ts:121-125 | the retried domain's entry becomes its settled entry; the error is swallowed |
| AppDomainState.DomainState.HandleSubmit | app/hooks/useDomainState.ts:128-170 | an empty text only sets the error; searching again for the domain on display changes nothing; otherwise it shows the new domain, starts loading, lists the candidates then the featured records, adds pending entries while keeping the other results, and starts a new counter at 0 |
| AppDomainState.DomainState.SettleSearchLookup | app/hooks/useDomainState.ts:161-169 | one lookup writes its entry and is counted in its own submission only; `loading` clears exactly when every lookup of that submission has settled |
| AppDomainScore.NameOnly | app/utils/domainScore.ts:15 | the part a criterion looks at holds no dot |
| AppDomainScore.Evaluate | app/utils/domainScore.ts:10-47 | the length criterion passes exactly when the name part has at most 10 characters, the hyphen criterion exactly when it has no `-`, the number criterion exactly when it has no digit |
| AppDomainScore.MessageFollowsVerdict | app/utils/domainScore.ts:17-20 | two evaluations of one criterion give the same message exactly when they give the same verdict |
| AppDomainScore.ExtensionIgnored | app/utils/domainScore.ts:15-16 | the extension never changes a verdict, whatever it holds |
| AppDomainScore.TenCharactersPass | app/utils/domainScore.ts:13-16 | a ten-character name passes the criterion labelled `< 10 characters` |
| AppDomainScore.CheckDomainCriteria | app/utils/domainScore.ts:59-67 | the details have exactly the three criterion ids as keys, each holding that criterion's evaluation |
| AppDomainUtils.SortedCatalogs | app/utils/domainUtils.ts:220-232 | the sorted catalogs are strictly ordered rearrangements of the declared prefixes and suffixes |
| AppDomainUtils.CatalogTldsDistinct | app/utils/domainUtils.ts:7-28 | the extension catalog has no repeats, and every entry is non-empty and has no dot |
| AppDomainUtils.GenerateMainDomain | app/utils/domainUtils.ts:155-164 | one record for the searched domain: the base is the text before the first dot, the extension the text between the first and second dots or `com` when that is empty; the input is kept |
| AppDomainUtils.ExtensionRecord | app/utils/domainUtils.ts:181-199 | the record is `base.tld`; when the name ends with the extension's letters, the base is the name with those letters cut off, and so is the input; otherwise the name and input are kept |
| AppDomainUtils.GenerateAlternativeExtensions | app/utils/domainUtils.ts:172-204 | the loop builds exactly the catalog's records in catalog order, skipping the one whose `name.tld` is the searched domain |
| AppDomainUtils.PushExtensions | app/utils/domainUtils.ts:180-201 | the `forEach` over any extension list builds exactly the records of the extensions not skipped |
| AppDomainUtils.ExtensionsFromCatalog | app/utils/domainUtils.ts:180-201 | every emitted record is the record of a visited, not skipped extension, and its base and extension hold no dot |
| AppDomainUtils.NeverTheSearchedDomain | app/utils/domainUtils.ts:181-182 | no alternative is the searched domain itself, even after a name is cut |
| AppDomainUtils.ExtensionsCount | app/utils/domainUtils.ts:180-201 | over distinct extensions, exactly one record is dropped when the search was the name under one of them, and none otherwise |
| AppDomainUtils.ExtensionsDistinct | app/utils/domainUtils.ts:180-201 | the alternatives have pairwise different domains |
| AppDomainUtils.AlternativeExtensionsFacts | app/utils/domainUtils.ts:172-204 | 13 alternatives, or 12 when the search was the name under a catalog extension; no two alike; none the search itself |
| AppDomainUtils.ExtensionsInclude | app/utils/domainUtils.ts:180-201 | an extension that is not skipped contributes its record |
| AppDomainUtils.MyStudioExample | app/utils/domainUtils.ts:183-191 | for `mystudio.com` the `studio` alternative is `my.studio` |
| AppDomainUtils.MyStudIoExample | app/utils/domainUtils.ts:183-191 | for `mystudio.com` the `io` alternative is `mystud.io` |
| AppDomainUtils.AiExample | app/utils/domainUtils.ts:183-191 | for `ai.com` the `ai` alternative has an empty base and is `.ai` |
| AppDomainUtils.GenerateAlternativeSuggestions | app/utils/domainUtils.ts:212-244 | the sorted prefixes' records, then the sorted suffixes' records, all for the name before the first dot |
| AppDomainUtils.AlternativeSuggestionsFacts | app/utils/domainUtils.ts:31-60 | with these catalogs there are exactly 4 suggestions, the suffix records of `app`, `hq`, `labs`, `studio` in that order |
| AppDomainUtils.AIRecord | app/utils/domainUtils.ts:122-132 | an answer line becomes a `.com` AI suggestion whose base is the line's text before its first dot, with the domain as its input |
| AppDomainUtils.ParsedFromAcceptedLines | app/utils/domainUtils.ts:119-140 | every kept suggestion is the record of an answer line that is non-empty, does not end in `com` once lower-cased, and is short enough |
| AppDomainUtils.AcceptedLinesKept | app/utils/domainUtils.ts:119-140 | every such accepted line is kept |
| AppDomainUtils.ParseOneLine | app/utils/domainUtils.ts:119-140 | a single line gives its record when accepted and nothing otherwise |
| AppDomainUtils.ParseLineByLine | app/utils/domainUtils.ts:119-140 | the suggestions of `line`, a line break and the rest are those of `line` followed by those of the rest |
| AppDomainUtils.NoDeduplication | app/utils/domainUtils.ts:119-140 | a repeated accepted line is kept twice |
| AppDomainUtils.FooComRejected | app/utils/domainUtils.ts:134 | `fooCom.com` is dropped, since `foocom` ends in `com` |
| AppDomainUtils.LongManyWordsRejected | app/utils/domainUtils.ts:136-140 | `get-it-done-now.com` is dropped: 15 characters and four words |
| AppDomainUtils.ZapKept | app/utils/domainUtils.ts:119-140 | `zap.com` is kept as `zap.com` |
| AppDomainUtils.GenerateAIDomainSuggestions | app/utils/domainUtils.ts:94-147 | the names are asked for the text before the first dot; a failed request gives no suggestions, a reply gives exactly its parsed, accepted lines; every suggestion is a `.com` AI suggestion whose name does not end in `com` and is short enough |
| AppFilters.CheckDomainAgainstFilters | app/hooks/useFilters.ts:13-28 | a candidate passes exactly when, under "available only", its entry exists, is not loading and reports it available, and, under ".com only", it ends with `.com` |
| AppFilters.InitialShowsAll | app/hooks/useFilters.ts:10-11 | with both filters at their initial `'all'` every candidate is shown, whatever the results |
| AppFilters.PendingHidden | app/hooks/useFilters.ts:15-19 | under "available only" a missing or still-loading entry is never shown |
| AppFilters.StrictestIsStrongest | app/hooks/useFilters.ts:13-28 | what passes the strictest setting passes every setting |
| LogoText.GetColorForText | app/components/LogoPreview.tsx:10-27 | the colour is always one of the eight palette colours |
| LogoText.CharSumAppend | app/components/LogoPreview.tsx:24 | the character sum of two joined texts is the sum of their character sums |
| LogoText.SwappedPartsSameColor | app/components/LogoPreview.tsx:24-26 | swapping two parts of a text keeps its colour |
| LogoText.SplitKeepingSeparators | app/components/LogoPreview.tsx:36 | splitting with a captured separator always gives at least one piece |
| LogoText.CapitalizeWord | app/components/LogoPreview.tsx:37-39 | capitalising a piece keeps its length |
| LogoText.SplitAtSeparator | app/components/LogoPreview.tsx:36 | a run, a separator and a rest split into the run, the separator alone, and the pieces of the rest |
| LogoText.CapitalizeAtSeparator | app/components/LogoPreview.tsx:35-40 | a run is capitalised on its own, the separator after it is kept, and the rest is capitalised independently |
| LogoText.CapitalizeRun | app/components/LogoPreview.tsx:35-40 | a single run gets only its first character raised |
| LogoText.CapitalizeWordsPointwise | app/components/LogoPreview.tsx:35-40 | capitalisation keeps the length, raises exactly the characters that begin an alphanumeric run, and keeps every other character |
| LogoText.CapitalizeWordsIdempotent | app/components/LogoPreview.tsx:35-40 | capitalising twice is capitalising once |
| AppLogoPreview.CapitalizeLabel | app/components/LogoPreview.tsx:30-41 | `io` and `ai` are written in capitals; every other text is capitalised word by word |
| AppLogoPreview.IoAndAiInCapitals | app/components/LogoPreview.tsx:32-34 | the labels of `io` and `ai` are `IO` and `AI` |
| AppLogoPreview.IoWithoutSpecialCase | app/components/LogoPreview.tsx:35-40 | without the special case `io` would only become `Io` |
| AppLogoPreview.CapitalizeLabelIdempotent | app/components/LogoPreview.tsx:30-41 | writing a label twice gives the same label as writing it once |
| AppLogoPreview.Substitute | app/components/LogoPreview.tsx:43-53 | a text without `and` is kept; otherwise only its first `and` becomes `&`, so the text is two characters shorter |
| AppLogoPreview.AndAndExample | app/components/LogoPreview.tsx:50-52 | `andand` becomes `&and` |
| AppLogoPreview.LogoSpans | app/components/LogoPreview.tsx:57-76 | two spans: a non-empty prefix highlighted before the name, else a non-empty suffix highlighted after it, else the extension highlighted after it |
| AppLogoPreview.OneHighlight | app/components/LogoPreview.tsx:59-76 | exactly one of the two spans is highlighted, in a palette colour |
| AppLogoPreview.FeaturedShowsExtension | app/components/LogoPreview.tsx:71-75 | a record with empty prefix and suffix, like a featured one, highlights its extension |
| AppLogoPreview.NameIgnoresExtension | app/components/LogoPreview.tsx:57 | the shown name depends only on the input's text before its first dot |
| LegacyApp.SettledEntry | src/App.tsx:57-77 | a settled entry is no longer loading and holds the service's data, or `{ error }` with the thrown message, or the fallback text when that message is empty |
| LegacyApp.MainDomain | src/App.tsx:151-155 | the first candidate for the displayed domain; none exactly when no candidate is for it |
| LegacyApp.AlternativeExtensions | src/App.tsx:157-166 | exactly the candidates without prefix or suffix that are not the displayed domain |
| LegacyApp.AlternativeSuggestions | src/App.tsx:168-174 | exactly the candidates with a prefix or a suffix |
| LegacyApp.ListsPartition | src/App.tsx:151-174 | the two lists share no record, and together with the plain records of the displayed domain they account for every candidate exactly once |
| LegacyApp.MainOfCatalogSearch | src/App.tsx:151-155 | a search for a name under a catalog extension always finds its main record among the generated candidates |
| LegacyApp.App.constructor | src/App.tsx:15-25 | the initial state: empty texts and lists, an empty results map, no loading, no error, no generation running |
| LegacyApp.App.SetDomain | src/App.tsx:79-83 | changes only the typed text and its sanitized form |
| LegacyApp.App.CheckSingleDomain | src/App.tsx:57-77 | changes only the checked domain's entry (with `Request failed` for an empty error message) and hands a thrown error back |
| LegacyApp.App.BeginRetry | src/App.tsx:28-33 | only the retried domain goes back to `{ loading: true }` |
| LegacyApp.App.CompleteRetry | src/App.tsx:35-53 | only the retried domain's entry changes, to its data or its error (with `Retry failed` for an empty message); nothing is rethrown |
| LegacyApp.App.HandleSubmit | src/App.tsx:85-131 | an empty text only sets the error; otherwise it shows the sanitized domain, starts loading, generates the candidates, replaces the whole results map by their pending entries, and starts a new counter at 0 |
| LegacyApp.App.SettleSearchLookup | src/App.tsx:120-130 | one lookup writes its entry and is counted in its own submission only; `loading` clears exactly when every lookup of that submission has settled |
| LegacyApp.App.HandleGenerateAI | src/App.tsx:180-219 | without a sanitized domain nothing changes; otherwise the flag ends down, and a thrown generation, a batch with nothing new (against the candidates and earlier suggestions together), and a batch with new names each set their own error, or append exactly the new names and add their pending entries |
| LegacyApp.AppendedSuggestionsAreNew | src/App.tsx:190-191 | an appended suggestion's domain was neither a candidate nor an earlier suggestion |
| LegacyDomainScore.LengthScore | src/utils/domainScore.ts:16-26 | the score is 100 exactly for names of at most 5 characters, 70 for 6 to 8, 40 for 9 or 10 and 10 beyond, with `Perfect length`, `Good length`, `Acceptable length` and `Too long` as the respective messages |
| LegacyDomainScore.LengthScoreNonIncreasing | src/utils/domainScore.ts:16-26 | a longer name never scores higher |
| LegacyDomainScore.CharacterWarnings | src/utils/domainScore.ts:37-49 | the hyphen warning is pushed exactly when the name has a hyphen, the number warning exactly when it has a digit, in that order |
| LegacyDomainScore.CharactersScore | src/utils/domainScore.ts:32-55 | the score is 100 less 50 for any hyphen and 50 for any digit; the message is `Clean name` exactly when there is neither, `Avoid hyphens` for a hyphen alone, `Avoid numbers` for a digit alone, and both warnings joined by ` • ` when there are both |
| LegacyDomainScore.WarningsMessage | src/utils/domainScore.ts:53 | joined warnings never read `Clean name` |
| LegacyDomainScore.EvaluateCharacters | src/utils/domainScore.ts:32-55 | the step-by-step evaluation gives the characters score |
| LegacyDomainScore.CalculateDomainScore | src/utils/domainScore.ts:70-84 | the details are the length entry then the characters entry, and the score is exactly the mean of the two criterion scores |
| LegacyDomainScore.TotalIsExact | src/utils/domainScore.ts:74-82 | the weighted total is a whole number, so rounding changes nothing: the score is the mean of the two scores, a multiple of five between 5 and 100 |
| LegacyDomainScore.MeanOfScores | src/utils/domainScore.ts:16-55 | any possible length and characters scores average to a whole multiple of five that rounding keeps |
| LegacyDomainScore.GetCriteriaMessages | src/utils/domainScore.ts:87-91 | the messages are exactly the detail messages other than `Clean name` |
| LegacyDomainScore.MessagesOfScore | src/utils/domainScore.ts:87-91 | for a computed score the messages are the length message, then the characters message unless the name is clean |
| LegacyDomainUtils.SortedCatalogs | src/utils/domainUtils.ts:6-49 | the sorted prefix and suffix catalogs are strictly ordered rearrangements of the declared ones, with the reordering given position by position |
| LegacyDomainUtils.TldRecord | src/utils/domainUtils.ts:71-78 | the record of an extension is the name followed by the dotted extension, with the extension without its dot and the input kept |
| LegacyDomainUtils.TldRecordsPointwise | src/utils/domainUtils.ts:71-78 | the extension loop emits one record per extension, record i for extension i |
| LegacyDomainUtils.PushTldRecords | src/utils/domainUtils.ts:71-78 | the loop appends exactly the records of the visited extensions, in order |
| LegacyDomainUtils.GenerateDomainVariations | src/utils/domainUtils.ts:66-105 | the candidates are every catalog extension's record, then the sorted prefixes', then the sorted suffixes', all for the text before the first dot |
| LegacyDomainUtils.VariationsLayout | src/utils/domainUtils.ts:66-105 | 43 candidates: the 19 extension records at 0-18, the 8 prefix records at 19-26 and the 16 suffix records at 27-42, each in catalog order |
| LegacyDomainUtils.SearchedDomainIncluded | src/utils/domainUtils.ts:71-78 | nothing is skipped: the name under a catalog extension is always among the candidates |
| LegacyDomainUtils.InferDomainUsageHeuristics | src/utils/domainUtils.ts:301-373 | the step-by-step check with its early returns gives the heuristic verdict: in use unless a redirect names a reseller or a landing path, the lowered title and description hold a keyword, or the title holds a parking phrase |
| LegacyDomainUtils.TitlePhraseFlagged | src/utils/domainUtils.ts:354-360 | a title phrase that holds a keyword once lowered makes the keyword loop return, whatever the description |
| LegacyDomainUtils.TitleSaleChecksRedundant | src/utils/domainUtils.ts:363-370 | the first and last title phrases can never decide, because the keyword loop has already returned for them |
| LegacyDomainUtils.BroadKeyword | src/utils/domainUtils.ts:347 | any page whose title mentions "the domain" is judged parked |
| LegacyDomainUtils.LanderRedirect | src/utils/domainUtils.ts:307-325 | a redirect to a landing path is caught whatever its letter case |
| LegacyDomainUtils.AIAnswer | src/utils/domainUtils.ts:276-299 | a verdict comes only from a reply; it is true or false exactly when the lowered, trimmed reply is `true` or `false`, and there is none otherwise |
| LegacyDomainUtils.ShoutedAnswer | src/utils/domainUtils.ts:290-293 | the reply ` FALSE` with a line break reads as false |
| LegacyDomainUtils.SentenceIsNoAnswer | src/utils/domainUtils.ts:290-294 | the reply `true.` gives no verdict |
| LegacyDomainUtils.InferDomainUsage | src/utils/domainUtils.ts:375-393 | an unsuccessful preview is unused; otherwise a clear provider verdict decides, and without one the heuristic does |
| LegacyDomainUtils.UnsuccessfulIgnoresProvider | src/utils/domainUtils.ts:381-383 | a failed preview is judged unused whatever the provider would say |
| LegacyDomainUtils.FailingProviderFallsBack | src/utils/domainUtils.ts:295-298 | a provider that throws leaves the verdict to the heuristic |
| LegacyDomainUtils.PreviewDescription | src/utils/domainUtils.ts:241-249 | a description of 1 to 200 characters is kept, a longer one is cut to 197 characters plus `...`, and an empty one becomes the visit text, itself cut when too long; the result never exceeds 200 characters |
| LegacyDomainUtils.PreviewDescriptionIdempotent | src/utils/domainUtils.ts:241-249 | cleaning a cleaned description changes nothing |
| LegacyLogoPreview.LogoSpans | src/components/LogoPreview.tsx:42-61 | two spans: a non-empty prefix highlighted before the whole input, else a non-empty suffix highlighted after it, else the extension highlighted after it |
| LegacyLogoPreview.NameKeepsInput | src/components/LogoPreview.tsx:30-37 | the shown name has the input's length and keeps its dots and other separators, so the extension stays in it |
| OldestApp.StatusError | src/App.js:155-165 | status 429 gives the rate-limit message, 401 and 403 the unauthorized message, 404 the not-found message, and any other status `API error: ` with the status and its text |
| OldestApp.StatusReadable | src/App.js:163 | the generic message names the status: its digits follow the `API error: ` prefix, read back as the status, and are followed by a space |
| OldestApp.ClassifyError | src/App.js:188-196 | the shown message is never empty: the network message for a network failure, else the time-out message when the error mentions `timed out`, else the error's own message, or the unexpected-error message when that is empty |
| OldestApp.ClassifyIdempotent | src/App.js:188-196 | classifying a shown message again shows the same message |
| OldestApp.TimeoutMessageRemarkable | src/App.js:193 | the time-out message mentions `timed out` and no network failure |
| OldestApp.AbortReportedAsTimeout | src/App.js:98-104 | a request aborted by the timer is shown as the time-out message |
| OldestApp.MissingKeyShown | src/App.js:131-133 | the missing-key message is shown exactly as thrown |
| OldestApp.StatusMessagesShown | src/App.js:155-165 | the rate-limit, unauthorized and not-found messages are shown exactly as thrown |
| OldestApp.BodyInfo | src/App.js:167-184 | the parsed body is shown exactly when it parses to a truthy value with at least one key; otherwise the raw text is shown as `{ response }` |
| OldestApp.OutcomeCases | src/App.js:127-198 | a submission ends with an error exactly when the key is missing or the answer is not OK, and that error is never empty; a missing key, an abort and the four special statuses show their own messages |
| OldestApp.App.constructor | src/App.js:56-60 | the initial state: empty texts, no data, not loading, no error |
| OldestApp.App.SetDomain | src/App.js:219 | changes only the typed text, unsanitized |
| OldestApp.App.HandleSubmit | src/App.js:107-202 | an empty field only sets the error and makes no request; otherwise the sanitized domain is recorded, looked up once when there is a key, loading ends down, and exactly one of the data and the error is shown, as the submission's outcome says |
| OldestApp.App.Submit | src/App.js:116-201 | for an already sanitized domain: it is recorded, requested when there is a key, loading ends down, and the data or the classified error of the outcome is shown |
| OldestApp.Attempt | src/App.js:127-184 | the `try` block either throws or yields data, never both; the data is the outcome's data, and the classification of what it throws is the outcome's error message |
| OldestDomainUtils.PrefixedNames | src/utils/domainUtils.js:27-29 | one text per prefix, in order: the prefix, the name, then `.com` |
| OldestDomainUtils.SuffixedNames | src/utils/domainUtils.js:32-34 | one text per suffix, in order: the name, the suffix, then `.com` |
| OldestDomainUtils.PushPrefixed | src/utils/domainUtils.js:27-29 | the prefix loop appends exactly the prefixed names |
| OldestDomainUtils.PushSuffixed | src/utils/domainUtils.js:32-34 | the suffix loop appends exactly the suffixed names |
| OldestDomainUtils.GenerateDomainVariations | src/utils/domainUtils.js:17-37 | the name before the first dot under `.com`, then the prefixed names, then the suffixed names |
| OldestDomainUtils.VariationsLayout | src/utils/domainUtils.js:1-37 | 26 texts: the name at 0, the 9 prefixed names at 1-9 and the 16 suffixed names at 10-25 in declared order, all ending in `.com` |
| OldestDomainUtils.OtherExtensionFirstAsCom | src/utils/domainUtils.js:19-24 | the searched extension is dropped: `foo.io` is first offered as `foo.com` |
| OldestDomainUtils.AppTwice | src/utils/domainUtils.js:1-10 | `app` is both the last prefix and the first suffix, so for the name `app` or an empty name positions 9 and 10 hold the same text |
| OldestDomainUtils.AppAppTwice | src/utils/domainUtils.js:1-10 | for the name `app`, `appapp.com` is listed twice |
| OldestDomainUtils.EmptyNameAppTwice | src/utils/domainUtils.js:1-10 | for an empty name, `app.com` is listed twice |
| Pricing.TablePrice | src/services/porkbunService.ts:24-32 | a price exists exactly when the list's status is `SUCCESS`, it has prices and it lists the extension; it is then the listed price of the asked kind |
| PorkbunCache.PriceCache.constructor | src/services/porkbunService.ts:4-7 | both dictionaries start empty |
| PorkbunCache.PriceCache.GetPricing | src/services/porkbunService.ts:14-41 | changes only the registration dictionary: an empty extension gives no price and remembers nothing; any other extension gets the list's price (a remembered `null` included), and a new answer is remembered, so every remembered answer stays the list's answer |
| PorkbunCache.PriceCache.GetRenewalPrice | src/services/porkbunService.ts:48-75 | the same over the renewal dictionary and renewal prices |
| PorkbunLookup.ExtractTldIsAfterFirst | src/services/porkbunService.js:13 | the pieces after the first, joined back with dots, are the text after the first dot, and empty when there is no dot |
| PorkbunLookup.CoUkExample | src/services/porkbunService.js:13 | a multi-label extension is kept whole: `a.co.uk` gives `co.uk` |
| PorkbunLookup.GetPrice | src/services/porkbunService.js:8-53 | an empty domain has no price; any other gets the list's price for the text after its first dot, with nothing remembered |
| PorkbunLookup.SameExtensionSamePrice | src/services/porkbunService.js:8-53 | domains with the same extension get the same price, whatever their names |
| Sanitizer.StripProtocolAndWww | app/utils/domainUtils.ts:80 | removing the optional protocol and `www.` leaves a suffix of the text |
| Sanitizer.Clean | app/utils/domainUtils.ts:69-72 | after trimming, dropping whitespace and lower-casing, no character is whitespace or an upper-case letter |
| Sanitizer.CleanKeepsCharacters | app/utils/domainUtils.ts:69-72 | every character of the input that is not whitespace is in the result, lower-cased |
| Sanitizer.CleanChar | app/utils/domainUtils.ts:69-72 | a single whitespace character cleans to nothing, any other to its lower-case form |
| Sanitizer.CleanIgnoresTrim | app/utils/domainUtils.ts:69 | the trim changes nothing: cleaning is lower-casing the input with its whitespace removed |
| Sanitizer.CleanAppend | app/utils/domainUtils.ts:69-72 | cleaning a joined text cleans each part and keeps their order |
| Sanitizer.WithExtension | app/utils/domainUtils.ts:75-77 | a dotted text is kept; an undotted one gets `.com` appended |
| Sanitizer.SanitizeDomain | app/utils/domainUtils.ts:67-86 | the sanitized domain has no whitespace, no upper-case letter and no `/` |
| Sanitizer.Sanitize | app/utils/domainUtils.ts:67-86 | the statement-by-statement reassignment of the local computes the sanitized domain |
| Sanitizer.SanitizeKeepsBareDomain | app/utils/domainUtils.ts:67-86 | a bare, dotted, lower-case domain with no protocol, no `www.` and no path is kept as it is |
| Sanitizer.SanitizePaddedExample | app/utils/domainUtils.ts:69-72 | `  Foo.Bar  ` becomes `foo.bar` |
| Sanitizer.SanitizeBareNameExample | app/utils/domainUtils.ts:75-77 | `MyName` becomes `myname.com` |
| Sanitizer.SanitizeUrlExample | app/utils/domainUtils.ts:80-83 | `https://www.Example.com/path` becomes `example.com` |
| Sanitizer.SanitizeEmptyExample | app/utils/domainUtils.ts:67-86 | the empty input becomes `.com` |
| Sanitizer.NoProtocolNoWww | app/utils/domainUtils.ts:80 | a text starting with neither `h` nor `w`, in any case, loses nothing to the protocol pattern |
| Sanitizer.SanitizeHttpPathQuirk | app/utils/domainUtils.ts:74-83 | `.com` is added before the protocol and path are removed, so `http://a/b` becomes `a`, with no dot |
| Sanitizer.SanitizeNotIdempotent | app/utils/domainUtils.ts:80 | only one `www.` is removed: `www.www.a.com` becomes `www.a.com`, which sanitizes again to `a.com` |
| Sanitizer.SanitizeDropsOneWww | app/utils/domainUtils.ts:67-86 | a clean dotted host behind one `www.` loses exactly that `www.` |
| Sanitizer.StripsOneWww | app/utils/domainUtils.ts:80 | exactly one leading `www.` is removed |
| Seqs.Filter | app/utils/domainHelpers.ts:19-32 | the result keeps exactly the elements that pass the test, and every kept element comes from the input |
| Seqs.FilterAppend | app/utils/domainHelpers.ts:19-32 | filtering a joined list filters each part and keeps their order |
| Seqs.FindIndex | app/utils/domainHelpers.ts:15-17 | the index found holds the first element passing the test; no index means no element passes |
| Seqs.FindIndexAppend | app/utils/domainHelpers.ts:15-17 | searching a joined list finds the first part's match, else the second part's shifted past the first part, else nothing |
| Text.RemoveWhitespace | app/utils/domainHelpers.ts:43 | the result has no whitespace, uses only characters of the input and is no longer |
| Text.RemoveWhitespaceKeepsCharacters | app/utils/domainHelpers.ts:43 | every character that is not whitespace survives |
| Text.RemoveWhitespaceAppend | app/utils/domainHelpers.ts:43 | removing whitespace from a joined text removes it from each part and keeps their order |
| Text.RemoveWhitespaceChar | app/utils/domainHelpers.ts:43 | a single character is dropped exactly when it is whitespace |
| Text.RemoveWhitespaceTrimmed | app/utils/domainUtils.ts:69 | trimming before removing whitespace changes nothing |
| Text.RemoveWhitespaceKeeps | app/utils/domainHelpers.ts:43 | a text with no whitespace comes out of the whitespace removal unchanged |
| Text.BeforeFirst | app/utils/domainScore.ts:15 | the piece before the first separator is a prefix without the separator, followed by the separator when there is one |
| Text.SplitFirstIsBeforeFirst | app/utils/domainScore.ts:15 | the first piece of a split is the text before the first separator |
| Text.JoinSplit | src/services/porkbunService.js:13 | joining the pieces of a split with the same separator rebuilds the text |
| Text.IndexOfFindsOccurrence | src/utils/domainUtils.ts:357 | a search succeeds exactly when the text contains the pattern, and the position found holds the pattern |
| Text.IndexOfIsFirst | app/components/LogoPreview.tsx:43-53 | no occurrence starts before the position found |
| Text.ContainsTransitive | src/utils/domainUtils.ts:354-357 | a text holding another holds everything that one holds |
| Text.DecimalRoundTrip | src/App.js:155-165 | reading the decimal rendering of a number gives the number back |

## Left out

- Timers: the staggered lookup delays and the backup timer (app/hooks/useDomainState.ts:176-184, src/App.tsx:136-147) are not modelled; lookups are results delivered in any order.
- The network: fetch, the timeout wrapper, the WHOIS service, page scraping and the AI provider are parameters, and their replies are inputs.
- Console logging has no effect on state and is not modelled.
- The API key comes from the environment; it is a parameter here.
- Strings are sequences of code points; case mapping covers ASCII letters only, so JavaScript's full Unicode `toLowerCase` is not modelled.
- `Array.prototype.sort` on the constant extension catalogues is modelled as catalogues given already sorted, with a lemma that the given order is the sorted one.
- Floating-point weights in the scoring are kept in hundredths, as integers.
- The catch blocks around the lookup loops (app/hooks/useDomainState.ts:171-174, src/App.tsx:132-135) cannot be reached and are not modelled.
- `JSON.parse` results are inputs reduced to whether they are truthy and which keys they carry.
- The URL query effect and the input debounce (app/hooks/useDomainState.ts:60-83) belong to the browser and are not modelled.
- `generateDomainVariations`, which the newer search calls, is not defined in app/utils/domainUtils.ts; its result is an input of the search.
- The wording of the prompts sent to the AI provider is not modelled; a prompt is the data it is built from.
- The price caches are plain JavaScript objects; lookups of keys such as `__proto__` are not modelled.
- AppLogoPreview.LogoSpans: requires the record's `input`, which the source type marks optional; every record the model builds carries it, and the preview of a record without one, where the source would throw, is not modelled.
- LegacyApp.App.HandleGenerateAI: the generator src/App.tsx imports, `generateAIDomainSuggestions`, is not defined in src/utils/domainUtils.ts; it is a parameter here, so the model covers any generator, including one that always throws.
