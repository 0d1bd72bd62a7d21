/** The older tool's logo preview (src/components/LogoPreview.tsx): the same
    layout rule as the newer one, but the whole `input` is shown as the name,
    without `and` replacement and without the `io`/`ai` capitals. */
module LegacyLogoPreview {
  import opened Common
  import opened Text
  import opened Domain
  import opened LogoText

  /** The two spans: a truthy prefix before the input, else a truthy suffix
      after it, else the extension after it. Older records always carry their
      input. */
  function LogoSpans(parts: DomainParts): (r: seq<Span>)
    requires parts.input.Some?
    ensures |r| == 2
    ensures Truthy(parts.prefix) ==>
      r[0] == Highlighted(CapitalizeWords(parts.prefix.value), GetColorForText(parts.prefix.value))
      && r[1] == Plain(CapitalizeWords(parts.input.value))
    ensures !Truthy(parts.prefix) && Truthy(parts.suffix) ==>
      r[0] == Plain(CapitalizeWords(parts.input.value))
      && r[1] == Highlighted(CapitalizeWords(parts.suffix.value), GetColorForText(parts.suffix.value))
    ensures !Truthy(parts.prefix) && !Truthy(parts.suffix) ==>
      r[0] == Plain(CapitalizeWords(parts.input.value))
      && r[1] == Highlighted(CapitalizeWords(parts.ext), GetColorForText(parts.ext))
  {
    var name := Plain(CapitalizeWords(parts.input.value));
    if Truthy(parts.prefix) then
      [Highlighted(CapitalizeWords(parts.prefix.value), GetColorForText(parts.prefix.value)), name]
    else if Truthy(parts.suffix) then
      [name, Highlighted(CapitalizeWords(parts.suffix.value), GetColorForText(parts.suffix.value))]
    else
      [name, Highlighted(CapitalizeWords(parts.ext), GetColorForText(parts.ext))]
  }

  /** The shown name keeps the input's length and its dots and other
      separators; so, unlike the newer preview, it still has the extension in
      it. */
  lemma NameKeepsInput(parts: DomainParts, k: nat)
    requires parts.input.Some? && k < |parts.input.value| && !IsAlnum(parts.input.value[k])
    ensures forall j :: 0 <= j < 2 && LogoSpans(parts)[j].Plain? ==>
      |LogoSpans(parts)[j].text| == |parts.input.value|
      && LogoSpans(parts)[j].text[k] == parts.input.value[k]
  {
    CapitalizeWordsPointwise(parts.input.value);
  }
}
