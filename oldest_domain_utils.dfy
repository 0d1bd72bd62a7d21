/** The oldest candidate generator (src/utils/domainUtils.js): plain `.com`
    texts for the name, each prefix before it and each suffix after it. Its
    `sanitizeDomain` has the same body as the other copies and is
    `Sanitizer.SanitizeDomain`. */
module OldestDomainUtils {
  import opened Text

  /** `prefixes`, in declared order. */
  const Prefixes: seq<string> := ["get", "try", "use", "hey", "join", "go", "the", "my", "app"]

  /** `suffixes`, in declared order. */
  const Suffixes: seq<string> := [
    "app", "hq", "hub", "studio", "labs", "way", "me", "tools",
    "kit", "tech", "cloud", "works", "space", "plus", "pro", "base"]

  /** `${prefix}${nameOnly}.com` for each prefix, in order. */
  function PrefixedNames(prefixes: seq<string>, nameOnly: string): (r: seq<string>)
    ensures |r| == |prefixes|
    ensures forall i :: 0 <= i < |r| ==> r[i] == prefixes[i] + nameOnly + ".com"
  {
    if |prefixes| == 0 then []
    else PrefixedNames(prefixes[..|prefixes| - 1], nameOnly) + [prefixes[|prefixes| - 1] + nameOnly + ".com"]
  }

  /** `${nameOnly}${suffix}.com` for each suffix, in order. */
  function SuffixedNames(suffixes: seq<string>, nameOnly: string): (r: seq<string>)
    ensures |r| == |suffixes|
    ensures forall i :: 0 <= i < |r| ==> r[i] == nameOnly + suffixes[i] + ".com"
  {
    if |suffixes| == 0 then []
    else SuffixedNames(suffixes[..|suffixes| - 1], nameOnly) + [nameOnly + suffixes[|suffixes| - 1] + ".com"]
  }

  /** The list `generateDomainVariations` returns for a name: the name under
      `.com`, then the prefixed names, then the suffixed names. */
  function Variations(nameOnly: string): seq<string> {
    [nameOnly + ".com"] + PrefixedNames(Prefixes, nameOnly) + SuffixedNames(Suffixes, nameOnly)
  }

  /** The prefix loop: push `${prefix}${nameOnly}.com` for each prefix. */
  method PushPrefixed(variations: seq<string>, prefixes: seq<string>, nameOnly: string)
    returns (pushed: seq<string>)
    ensures pushed == variations + PrefixedNames(prefixes, nameOnly)
  {
    pushed := variations;
    for i := 0 to |prefixes|
      invariant pushed == variations + PrefixedNames(prefixes[..i], nameOnly)
    {
      assert prefixes[..i + 1][..i] == prefixes[..i];
      pushed := pushed + [prefixes[i] + nameOnly + ".com"];
    }
    assert prefixes[..|prefixes|] == prefixes;
  }

  /** The suffix loop: push `${nameOnly}${suffix}.com` for each suffix. */
  method PushSuffixed(variations: seq<string>, suffixes: seq<string>, nameOnly: string)
    returns (pushed: seq<string>)
    ensures pushed == variations + SuffixedNames(suffixes, nameOnly)
  {
    pushed := variations;
    for i := 0 to |suffixes|
      invariant pushed == variations + SuffixedNames(suffixes[..i], nameOnly)
    {
      assert suffixes[..i + 1][..i] == suffixes[..i];
      pushed := pushed + [nameOnly + suffixes[i] + ".com"];
    }
    assert suffixes[..|suffixes|] == suffixes;
  }

  /** `generateDomainVariations`: the name is the text before the first dot. */
  method GenerateDomainVariations(baseName: string) returns (variations: seq<string>)
    ensures variations == Variations(BeforeFirst(baseName, '.'))
  {
    var nameOnly := Split(baseName, '.')[0];
    SplitFirstIsBeforeFirst(baseName, '.');
    variations := [nameOnly + ".com"];
    variations := PushPrefixed(variations, Prefixes, nameOnly);
    variations := PushSuffixed(variations, Suffixes, nameOnly);
  }

  /** Twenty-six texts: the name first, the prefixed names at positions 1 to 9
      in declared order, the suffixed names at 10 to 25 in declared order; all
      end in `.com`. */
  lemma VariationsLayout(nameOnly: string)
    ensures |Variations(nameOnly)| == 26
    ensures Variations(nameOnly)[0] == nameOnly + ".com"
    ensures forall i :: 0 <= i < 9 ==> Variations(nameOnly)[1 + i] == Prefixes[i] + nameOnly + ".com"
    ensures forall i :: 0 <= i < 16 ==> Variations(nameOnly)[10 + i] == nameOnly + Suffixes[i] + ".com"
    ensures forall k :: 0 <= k < 26 ==> EndsWith(Variations(nameOnly)[k], ".com")
  {
    var v := Variations(nameOnly);
    var p, s := PrefixedNames(Prefixes, nameOnly), SuffixedNames(Suffixes, nameOnly);
    assert v == [nameOnly + ".com"] + p + s;
    forall k | 0 <= k < 26
      ensures EndsWith(v[k], ".com")
    {
      var head := if k == 0 then nameOnly else if k < 10 then Prefixes[k - 1] + nameOnly else nameOnly + Suffixes[k - 10];
      assert v[k] == head + ".com";
      assert (head + ".com")[|head|..] == ".com";
    }
  }

  /** The extension searched for is dropped: `foo.io` is first offered as
      `foo.com`. */
  lemma OtherExtensionFirstAsCom(baseName: string, name: string)
    requires baseName == "foo.io" && name == "foo"
    ensures Variations(BeforeFirst(baseName, '.'))[0] == "foo.com"
  {
    FooIoParts(baseName, name);
    BeforeFirstOfJoined(name, '.', "io");
  }

  lemma FooIoParts(baseName: string, name: string)
    requires baseName == "foo.io" && name == "foo"
    ensures '.' !in name && baseName == name + ['.'] + "io" && name + ".com" == "foo.com"
  {
  }

  /** `app` is both the last prefix and the first suffix, so positions 9 and
      10 hold `app` + name and name + `app`: the same text when the name is
      `app` (`appapp.com` twice) or empty (`app.com` twice). */
  lemma AppTwice(nameOnly: string, app: string)
    requires app == "app" && (nameOnly == app || nameOnly == "")
    ensures Variations(nameOnly)[9] == Variations(nameOnly)[10] == app + nameOnly + ".com"
  {
    VariationsLayout(nameOnly);
    assert Prefixes[8] == app && Suffixes[0] == app;
    assert app + nameOnly == nameOnly + app;
  }

  lemma AppAppTwice(nameOnly: string)
    requires nameOnly == "app"
    ensures Variations(nameOnly)[9] == Variations(nameOnly)[10] == "appapp.com"
  {
    AppTwice(nameOnly, nameOnly);
  }

  lemma EmptyNameAppTwice(nameOnly: string)
    requires nameOnly == ""
    ensures Variations(nameOnly)[9] == Variations(nameOnly)[10] == "app.com"
  {
    AppTwice(nameOnly, "app");
  }
}
