/** The newer tool's logo preview (app/components/LogoPreview.tsx): which part of
    a candidate is highlighted, and how the texts are written. Only the texts
    and the highlight colour are modelled; fonts and markup are not. */
module AppLogoPreview {
  import opened Common
  import opened Text
  import opened Domain
  import opened LogoText

  /** `capitalizeWords` of the newer preview: `io` and `ai` are written in
      capitals, everything else as in `CapitalizeWords`. */
  function CapitalizeLabel(text: string): (r: string)
    ensures text == "io" || text == "ai" ==> r == ToUpper(text)
    ensures text != "io" && text != "ai" ==> r == CapitalizeWords(text)
  {
    if text == "io" || text == "ai" then ToUpper(text) else CapitalizeWords(text)
  }

  lemma IoAndAiInCapitals(io: string, ai: string)
    requires io == "io" && ai == "ai"
    ensures CapitalizeLabel(io) == "IO" && CapitalizeLabel(ai) == "AI"
  {
  }

  /** Without the special case `io` would only get its first letter raised. */
  lemma IoWithoutSpecialCase(io: string)
    requires io == "io"
    ensures CapitalizeWords(io) == "Io"
  {
    CapitalizeRun(io);
  }

  /** The special case keeps `CapitalizeLabel` idempotent: an output of
      `CapitalizeWords` never is `io` or `ai`, whose first letter is lower case
      at the start of a run. */
  lemma CapitalizeLabelIdempotent(text: string)
    ensures CapitalizeLabel(CapitalizeLabel(text)) == CapitalizeLabel(text)
  {
    if text == "io" || text == "ai" {
      var up := ToUpper(text);
      CapitalizeWordsPointwise(up);
      assert up[0] == UpperChar(text[0]) && up[1] == UpperChar(text[1]);
      assert CapitalizeWords(up) == up;
    } else {
      var t := CapitalizeWords(text);
      CapitalizeWordsPointwise(text);
      CapitalizeWordsIdempotent(text);
      if |text| == 2 && IsAlnum(text[0]) {
        assert StartsWord(text, 0);
        assert t[0] != 'i' && t[0] != 'a';
      }
      assert t != "io" && t != "ai";
    }
  }

  /** `substitute`: `String.prototype.replace` with a text pattern changes only
      the first `and`, into `&`. */
  function Substitute(text: string): (r: string)
    ensures !Contains(text, "and") ==> r == text
    ensures Contains(text, "and") ==>
      |r| == |text| - 2
      && exists k :: (0 <= k < |r| && r[k] == '&' && text == r[..k] + "and" + r[k + 1..]
                      && forall j :: 0 <= j < k ==> !StartsWith(text[j..], "and"))
  {
    IndexOfFindsOccurrence(text, "and");
    match IndexOf(text, "and")
    case None => text
    case Some(k) =>
      IndexOfIsFirst(text, "and");
      var r := text[..k] + "&" + text[k + 3..];
      assert r[k] == '&' && r[..k] == text[..k] && r[k + 1..] == text[k + 3..];
      assert text == r[..k] + "and" + r[k + 1..];
      r
  }

  /** Only the first of two occurrences is replaced. */
  lemma AndAndExample(text: string)
    requires text == "andand"
    ensures Substitute(text) == "&and"
  {
    assert StartsWith(text, "and");
  }

  /** The name the preview shows: the record's input before its first dot, with
      `and` replaced and capitalised. */
  function ShownName(parts: DomainParts): string
    requires parts.input.Some?
  {
    CapitalizeLabel(Substitute(BeforeFirst(parts.input.value, '.')))
  }

  /** The two spans of the preview: a truthy prefix before the name, else a
      truthy suffix after it, else the extension after it. The record's
      `input` must be present, since the preview splits it. */
  function LogoSpans(parts: DomainParts): (r: seq<Span>)
    requires parts.input.Some?
    ensures |r| == 2
    ensures Truthy(parts.prefix) ==>
      r[0] == Highlighted(CapitalizeLabel(parts.prefix.value), GetColorForText(parts.prefix.value))
      && r[1] == Plain(ShownName(parts))
    ensures !Truthy(parts.prefix) && Truthy(parts.suffix) ==>
      r[0] == Plain(ShownName(parts))
      && r[1] == Highlighted(CapitalizeLabel(parts.suffix.value), GetColorForText(parts.suffix.value))
    ensures !Truthy(parts.prefix) && !Truthy(parts.suffix) ==>
      r[0] == Plain(ShownName(parts))
      && r[1] == Highlighted(CapitalizeLabel(parts.ext), GetColorForText(parts.ext))
  {
    if Truthy(parts.prefix) then
      [Highlighted(CapitalizeLabel(parts.prefix.value), GetColorForText(parts.prefix.value)), Plain(ShownName(parts))]
    else if Truthy(parts.suffix) then
      [Plain(ShownName(parts)), Highlighted(CapitalizeLabel(parts.suffix.value), GetColorForText(parts.suffix.value))]
    else
      [Plain(ShownName(parts)), Highlighted(CapitalizeLabel(parts.ext), GetColorForText(parts.ext))]
  }

  /** Exactly one span is highlighted, and its colour is one of the palette. */
  lemma OneHighlight(parts: DomainParts)
    requires parts.input.Some?
    ensures LogoSpans(parts)[0].Highlighted? != LogoSpans(parts)[1].Highlighted?
    ensures forall k :: 0 <= k < 2 && LogoSpans(parts)[k].Highlighted? ==> LogoSpans(parts)[k].color in Colors
  {
  }

  /** Featured records carry empty affixes, so they show their extension. */
  lemma FeaturedShowsExtension(parts: DomainParts)
    requires parts.input.Some? && parts.prefix == Some("") && parts.suffix == Some("")
    ensures LogoSpans(parts)[1] == Highlighted(CapitalizeLabel(parts.ext), GetColorForText(parts.ext))
  {
  }

  /** The shown name is the same for every extension of one input. */
  lemma NameIgnoresExtension(parts: DomainParts, name: string, ext: string)
    requires '.' !in name && parts.input == Some(name + "." + ext)
    ensures ShownName(parts) == CapitalizeLabel(Substitute(name))
  {
    assert name + "." + ext == name + ['.'] + ext;
    BeforeFirstOfJoined(name, '.', ext);
  }
}
