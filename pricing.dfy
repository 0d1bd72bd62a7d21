/** The Porkbun price list both price services read from a bundled JSON file:
    a status and, per extension, the registration and renewal prices as the
    file gives them (texts). */
module Pricing {
  import opened Common

  datatype PriceEntry = PriceEntry(registration: string, renewal: string)

  datatype PricingTable = PricingTable(status: string, pricing: Option<map<string, PriceEntry>>)

  /** Which of the two prices is asked for. */
  datatype PriceKind = Registration | Renewal

  /** `status === 'SUCCESS' && pricing && pricing[key]`, then the asked price;
      `None` for `null`. */
  function TablePrice(table: PricingTable, key: string, kind: PriceKind): (r: Option<string>)
    ensures r.Some? <==> table.status == "SUCCESS" && table.pricing.Some? && key in table.pricing.value
    ensures r.Some? && kind == Registration ==> r.value == table.pricing.value[key].registration
    ensures r.Some? && kind == Renewal ==> r.value == table.pricing.value[key].renewal
  {
    if table.status == "SUCCESS" && table.pricing.Some? && key in table.pricing.value then
      var entry := table.pricing.value[key];
      Some(if kind == Registration then entry.registration else entry.renewal)
    else None
  }
}
