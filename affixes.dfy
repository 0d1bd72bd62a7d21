/** The prefix and suffix loops shared by the candidate generators of both
    generations of the tool: every catalog word gives one `.com` name, pushed
    in catalog order. */
module Affixes {
  import opened Common
  import opened Domain

  /** `{ prefix, base: nameOnly, ext: 'com', domain: prefix + nameOnly + '.com', input }`. */
  function PrefixRecord(nameOnly: string, prefix: string, input: Option<string>): (r: DomainParts)
    ensures r.prefix.Some? && r.domain == r.prefix.value + r.base + ".com" && r.ext == "com" && r.suffix.None?
    ensures r.base == nameOnly && r.prefix == Some(prefix) && r.input == input
    ensures !r.isFeatured && !r.isAISuggestion
  {
    DomainParts(prefix + nameOnly + ".com", nameOnly, "com", Some(prefix), None, input, false, false)
  }

  /** `{ base: nameOnly, suffix, ext: 'com', domain: nameOnly + suffix + '.com', input }`. */
  function SuffixRecord(nameOnly: string, suffix: string, input: Option<string>): (r: DomainParts)
    ensures r.suffix.Some? && r.domain == r.base + r.suffix.value + ".com" && r.ext == "com" && r.prefix.None?
    ensures r.base == nameOnly && r.suffix == Some(suffix) && r.input == input
    ensures !r.isFeatured && !r.isAISuggestion
  {
    DomainParts(nameOnly + suffix + ".com", nameOnly, "com", None, Some(suffix), input, false, false)
  }

  /** The records the prefix loop has pushed after visiting `prefixes`. */
  function PrefixedOver(prefixes: seq<string>, nameOnly: string, input: Option<string>): seq<DomainParts> {
    if |prefixes| == 0 then []
    else
      PrefixedOver(prefixes[..|prefixes| - 1], nameOnly, input)
      + [PrefixRecord(nameOnly, prefixes[|prefixes| - 1], input)]
  }

  /** The records the suffix loop has pushed after visiting `suffixes`. */
  function SuffixedOver(suffixes: seq<string>, nameOnly: string, input: Option<string>): seq<DomainParts> {
    if |suffixes| == 0 then []
    else
      SuffixedOver(suffixes[..|suffixes| - 1], nameOnly, input)
      + [SuffixRecord(nameOnly, suffixes[|suffixes| - 1], input)]
  }

  /** `prefixes.forEach(prefix => variations.push(...))`. */
  method PushPrefixed(variations: seq<DomainParts>, prefixes: seq<string>, nameOnly: string, input: Option<string>)
    returns (r: seq<DomainParts>)
    ensures r == variations + PrefixedOver(prefixes, nameOnly, input)
  {
    r := variations;
    var i := 0;
    while i < |prefixes|
      invariant 0 <= i <= |prefixes|
      invariant r == variations + PrefixedOver(prefixes[..i], nameOnly, input)
    {
      assert prefixes[..i + 1][..i] == prefixes[..i];
      var prefix := prefixes[i];
      r := r + [DomainParts(prefix + nameOnly + ".com", nameOnly, "com", Some(prefix), None, input, false, false)];
      i := i + 1;
    }
    assert prefixes[..i] == prefixes;
  }

  /** `suffixes.forEach(suffix => variations.push(...))`. */
  method PushSuffixed(variations: seq<DomainParts>, suffixes: seq<string>, nameOnly: string, input: Option<string>)
    returns (r: seq<DomainParts>)
    ensures r == variations + SuffixedOver(suffixes, nameOnly, input)
  {
    r := variations;
    var i := 0;
    while i < |suffixes|
      invariant 0 <= i <= |suffixes|
      invariant r == variations + SuffixedOver(suffixes[..i], nameOnly, input)
    {
      assert suffixes[..i + 1][..i] == suffixes[..i];
      var suffix := suffixes[i];
      r := r + [DomainParts(nameOnly + suffix + ".com", nameOnly, "com", None, Some(suffix), input, false, false)];
      i := i + 1;
    }
    assert suffixes[..i] == suffixes;
  }

  /** The prefix loop pushes one record per prefix, in the order visited. */
  lemma {:induction false} PrefixedPointwise(prefixes: seq<string>, nameOnly: string, input: Option<string>)
    ensures |PrefixedOver(prefixes, nameOnly, input)| == |prefixes|
    ensures forall i :: 0 <= i < |prefixes| ==>
      PrefixedOver(prefixes, nameOnly, input)[i] == PrefixRecord(nameOnly, prefixes[i], input)
  {
    if |prefixes| > 0 {
      PrefixedPointwise(prefixes[..|prefixes| - 1], nameOnly, input);
    }
  }

  /** The suffix loop pushes one record per suffix, in the order visited. */
  lemma {:induction false} SuffixedPointwise(suffixes: seq<string>, nameOnly: string, input: Option<string>)
    ensures |SuffixedOver(suffixes, nameOnly, input)| == |suffixes|
    ensures forall i :: 0 <= i < |suffixes| ==>
      SuffixedOver(suffixes, nameOnly, input)[i] == SuffixRecord(nameOnly, suffixes[i], input)
  {
    if |suffixes| > 0 {
      SuffixedPointwise(suffixes[..|suffixes| - 1], nameOnly, input);
    }
  }
}
