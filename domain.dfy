/** The records both generations of the tool pass around: a candidate domain
    split into its parts, and the per-domain lookup state kept in the results
    map. Fields that TypeScript marks optional are `Option`s, so that "set to
    the empty text" and "not set" stay apart. */
module Domain {
  import opened Common

  /** `DomainParts`: the candidate `domain`, the name part `base`, the extension
      `ext` without its dot, the catalog `prefix`/`suffix` used (if any), the
      user input it came from, and the two origin flags. */
  datatype DomainParts = DomainParts(
    domain: string,
    base: string,
    ext: string,
    prefix: Option<string>,
    suffix: Option<string>,
    input: Option<string>,
    isFeatured: bool,
    isAISuggestion: bool)

  /** A record with neither prefix nor suffix, from the search itself. */
  function Plain(domain: string, base: string, ext: string, input: string): (r: DomainParts)
    ensures r.domain == domain && r.base == base && r.ext == ext && r.input == Some(input)
    ensures r.prefix.None? && r.suffix.None? && !r.isFeatured && !r.isAISuggestion
  {
    DomainParts(domain, base, ext, None, None, Some(input), false, false)
  }

  /** The fields of a WHOIS answer the tool reads. */
  datatype WhoIs = WhoIs(domainName: string, isAvailable: Option<bool>, status: Option<string>)

  /** What `data` of a results entry holds: a WHOIS answer (real, or built from an
      error by the newer tool), or the `{ error }` object of the older tool. */
  datatype LookupData = Answer(whois: WhoIs) | ErrorData(error: string)

  /** `DomainResult`: `{ loading, data? }`. */
  datatype DomainResult = DomainResult(loading: bool, data: Option<LookupData>)

  const Pending := DomainResult(true, None)

  /** How one availability lookup ended: the service's `data` (possibly
      undefined), or a thrown error with its message. */
  datatype Outcome = Succeeded(data: Option<LookupData>) | Threw(message: string)

  /** The domains of a list of records, in order (`list.map(d => d.domain)`). */
  function Domains(list: seq<DomainParts>): (r: seq<string>)
    ensures |r| == |list|
    ensures forall i :: 0 <= i < |list| ==> r[i] == list[i].domain
  {
    seq(|list|, i requires 0 <= i < |list| => list[i].domain)
  }

  /** Every domain of `domains` mapped to `{ loading: true }`. */
  function PendingFor(domains: seq<string>): (m: map<string, DomainResult>)
    ensures forall d :: d in m <==> d in domains
    ensures forall d :: d in m ==> m[d] == Pending
  {
    map d | d in domains :: Pending
  }

  /** The initial results of a list of candidates, built one `forEach` step
      at a time: `{ loading: true }` under each domain. */
  method InitialResults(variations: seq<DomainParts>) returns (initialResults: map<string, DomainResult>)
    ensures initialResults == PendingFor(Domains(variations))
  {
    initialResults := map[];
    var i := 0;
    while i < |variations|
      invariant 0 <= i <= |variations|
      invariant initialResults == PendingFor(Domains(variations[..i]))
    {
      assert Domains(variations[..i + 1]) == Domains(variations[..i]) + [variations[i].domain];
      initialResults := initialResults[variations[i].domain := Pending];
      i := i + 1;
    }
    assert variations[..i] == variations;
  }

  /** One submission's lookups: the domains it checks, and its closure's
      `completedCount`. */
  datatype Batch = Batch(domains: seq<string>, completedCount: nat)

  /** Each submission's counter is the number of its settled lookups, and only
      its own lookups settle. */
  ghost predicate BatchesCounted(batches: seq<Batch>, settled: seq<set<nat>>) {
    |settled| == |batches|
    && forall b :: 0 <= b < |batches| ==>
      batches[b].completedCount == |settled[b]|
      && forall i :: i in settled[b] ==> i < |batches[b].domains|
  }

  /** A new submission starts with nothing settled. */
  lemma BatchesCountedAppend(batches: seq<Batch>, settled: seq<set<nat>>, domains: seq<string>)
    requires BatchesCounted(batches, settled)
    ensures BatchesCounted(batches + [Batch(domains, 0)], settled + [{}])
  {
    var bs, ss := batches + [Batch(domains, 0)], settled + [{}];
    forall b | 0 <= b < |bs|
      ensures bs[b].completedCount == |ss[b]| && forall i :: i in ss[b] ==> i < |bs[b].domains|
    {
      if b < |batches| {
        assert bs[b] == batches[b] && ss[b] == settled[b];
      }
    }
  }

  /** The settled lookups of a submission are among its lookups, so the
      counter never passes their number, and it reaches it exactly when every
      lookup has settled, whatever the order of arrival. */
  lemma {:induction false} SettledBounded(settled: set<nat>, total: nat)
    requires forall i :: i in settled ==> i < total
    ensures |settled| <= total
    ensures |settled| == total <==> forall i :: 0 <= i < total ==> i in settled
  {
    if total > 0 {
      var rest := settled - {total - 1};
      SettledBounded(rest, total - 1);
      if total - 1 in settled {
        assert settled == rest + {total - 1};
      } else {
        assert settled == rest;
      }
    } else {
      assert settled == {};
    }
  }
}
