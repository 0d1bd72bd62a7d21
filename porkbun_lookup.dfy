/** The oldest price lookup (src/services/porkbunService.js): the extension is
    everything after the first dot of the domain, looked up in the price list
    on every call, with nothing remembered. */
module PorkbunLookup {
  import opened Common
  import opened Text
  import opened Pricing

  /** `domain.split('.').slice(1).join('.')`. */
  function ExtractTld(domain: string): string {
    Join(Split(domain, '.')[1..], ".")
  }

  /** The pieces after the first, joined back, are the text after the first
      dot; a domain without a dot has the empty extension. */
  lemma ExtractTldIsAfterFirst(domain: string)
    ensures ExtractTld(domain) == AfterFirst(domain, '.')
  {
    if '.' in domain {
      SplitAfterFirst(domain, '.');
      JoinSplit(AfterFirst(domain, '.'), '.');
    } else {
      SplitWithout(domain, '.');
    }
  }

  /** A multi-label extension is kept whole: `a.co.uk` gives `co.uk`. */
  lemma CoUkExample(domain: string)
    requires domain == "a.co.uk"
    ensures ExtractTld(domain) == "co.uk"
  {
    ExtractTldIsAfterFirst(domain);
    assert domain == "a" + ['.'] + "co.uk";
    AfterFirstOfJoined("a", '.', "co.uk");
  }

  /** `getPricing` (`Registration`) and `getRenewalPrice` (`Renewal`): `null`
      for an empty domain, else the table's price for the extension. */
  function GetPrice(table: PricingTable, domain: string, kind: PriceKind): (r: Option<string>)
    ensures domain == "" ==> r == None
    ensures domain != "" ==> r == TablePrice(table, AfterFirst(domain, '.'), kind)
  {
    ExtractTldIsAfterFirst(domain);
    if domain == "" then None else TablePrice(table, ExtractTld(domain), kind)
  }

  /** Domains with the same extension get the same price, whatever their
      names. */
  lemma SameExtensionSamePrice(table: PricingTable, a: string, b: string, ext: string, kind: PriceKind)
    requires '.' !in a && '.' !in b
    ensures GetPrice(table, a + "." + ext, kind) == GetPrice(table, b + "." + ext, kind)
  {
    assert a + "." + ext == a + ['.'] + ext;
    assert b + "." + ext == b + ['.'] + ext;
    AfterFirstOfJoined(a, '.', ext);
    AfterFirstOfJoined(b, '.', ext);
  }
}
