/** The memoising price lookup of the older tool
    (src/services/porkbunService.ts): two module-level dictionaries, one per
    price kind, remember every answer, `null` included. The bundled price list
    is the cache's constant `table`. */
module PorkbunCache {
  import opened Common
  import opened Pricing

  class PriceCache {
    const table: PricingTable
    /** `priceCache.registration`; a `None` value is a cached `null`. */
    var registration: map<string, Option<string>>
    /** `priceCache.renewal`. */
    var renewal: map<string, Option<string>>

    /** Every remembered answer is the table's answer. */
    ghost predicate Valid()
      reads this
    {
      (forall ext :: ext in registration ==> registration[ext] == TablePrice(table, ext, Registration))
      && (forall ext :: ext in renewal ==> renewal[ext] == TablePrice(table, ext, Renewal))
    }

    constructor (table: PricingTable)
      ensures Valid()
      ensures this.table == table && registration == map[] && renewal == map[]
    {
      this.table := table;
      registration := map[];
      renewal := map[];
    }

    /** `getPricing`: an empty extension gives `null` and remembers nothing; a
        remembered answer is returned as it is; otherwise the table is asked
        and its answer remembered. */
    method GetPricing(ext: string) returns (r: Option<string>)
      requires Valid()
      modifies this`registration
      ensures Valid()
      ensures ext == "" ==> r == None && registration == old(registration)
      ensures ext != "" ==> r == TablePrice(table, ext, Registration)
      ensures ext != "" && ext in old(registration) ==> r == old(registration)[ext] && registration == old(registration)
      ensures ext != "" && ext !in old(registration) ==> registration == old(registration)[ext := r]
    {
      if ext == "" {
        return None;
      }
      if ext in registration {
        return registration[ext];
      }
      if table.status == "SUCCESS" && table.pricing.Some? && ext in table.pricing.value {
        registration := registration[ext := Some(table.pricing.value[ext].registration)];
        return registration[ext];
      }
      registration := registration[ext := None];
      return None;
    }

    /** `getRenewalPrice`: the same over the renewal dictionary. */
    method GetRenewalPrice(ext: string) returns (r: Option<string>)
      requires Valid()
      modifies this`renewal
      ensures Valid()
      ensures ext == "" ==> r == None && renewal == old(renewal)
      ensures ext != "" ==> r == TablePrice(table, ext, Renewal)
      ensures ext != "" && ext in old(renewal) ==> r == old(renewal)[ext] && renewal == old(renewal)
      ensures ext != "" && ext !in old(renewal) ==> renewal == old(renewal)[ext := r]
    {
      if ext == "" {
        return None;
      }
      if ext in renewal {
        return renewal[ext];
      }
      if table.status == "SUCCESS" && table.pricing.Some? && ext in table.pricing.value {
        renewal := renewal[ext := Some(table.pricing.value[ext].renewal)];
        return renewal[ext];
      }
      renewal := renewal[ext := None];
      return None;
    }
  }
}
