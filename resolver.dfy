/** The resolver client (`DomainAnalyzer.get_dns_record`): one typed DNS query,
    a single retry through the system resolver on timeout, and the
    classification of every outcome into a value that never raises. */
module Resolver {
  import opened Text

  datatype RecordType = A | CNAME | TXT | SOA

  /** What one resolver query does: answer, or raise one of the exceptions the
      client distinguishes. `Raised` is any other exception, with `str(e)`. */
  datatype Outcome =
    | Answered(values: seq<string>)
    | NxDomain
    | NoAnswer
    | TimedOut
    | Raised(message: string)

  /** The network, as seen by a resolver configured with the given timeout
      (both resolvers read the system configuration; they differ in timeout only). */
  type Resolve = (string, RecordType, nat) -> Outcome

  const PrimaryTimeout: nat := 5
  const FallbackTimeout: nat := 3

  /** The value `get_dns_record` returns: `None`, a list of record strings, or
      the string `"Error: ..."`. */
  datatype LookupResult = NotFound | Records(values: seq<string>) | ErrorText(text: string)

  /** `get_dns_record(name, rtype)`. */
  function GetDnsRecord(resolve: Resolve, name: string, rtype: RecordType): (r: LookupResult)
    // the two negative answers are "not found", never an error
    ensures resolve(name, rtype, PrimaryTimeout) in {NxDomain, NoAnswer} ==> r == NotFound
    // a timeout asks the fallback resolver, and any failure there is "not found"
    ensures resolve(name, rtype, PrimaryTimeout) == TimedOut ==>
      r == (match resolve(name, rtype, FallbackTimeout)
            case Answered(vs) => Records(vs)
            case _ => NotFound)
    // a server failure is "not found"; every other exception becomes the error text
    ensures resolve(name, rtype, PrimaryTimeout).Raised? ==>
      var m := resolve(name, rtype, PrimaryTimeout).message;
      r == if Contains(m, "SERVFAIL") then NotFound else ErrorText("Error: " + m)
    ensures resolve(name, rtype, PrimaryTimeout).Answered? ==> r == Records(resolve(name, rtype, PrimaryTimeout).values)
  {
    match resolve(name, rtype, PrimaryTimeout)
    case Answered(vs) => Records(vs)
    case NxDomain => NotFound
    case NoAnswer => NotFound
    case TimedOut =>
      (match resolve(name, rtype, FallbackTimeout)
       case Answered(vs) => Records(vs)
       case _ => NotFound)
    case Raised(m) => if Contains(m, "SERVFAIL") then NotFound else ErrorText("Error: " + m)
  }

  /** What the callers see when they iterate the returned value: the record
      strings of a list, or the one-character strings of the error text. */
  function Items(r: LookupResult): seq<string>
  {
    match r
    case NotFound => []
    case Records(vs) => vs
    case ErrorText(t) => seq(|t|, i requires 0 <= i < |t| => [t[i]])
  }

  /** Python's `bool(...)` of the returned value. */
  predicate Truthy(r: LookupResult)
  {
    match r
    case NotFound => false
    case Records(vs) => |vs| > 0
    case ErrorText(t) => |t| > 0
  }

  /** `record[0]` on a truthy returned value. */
  function First(r: LookupResult): string
    requires Truthy(r)
  {
    match r
    case Records(vs) => vs[0]
    case ErrorText(t) => [t[0]]
  }

  /** Truthiness and indexing agree with iteration, for lists and strings alike. */
  lemma TruthyIffItems(r: LookupResult)
    ensures Truthy(r) <==> |Items(r)| > 0
    ensures Truthy(r) ==> First(r) == Items(r)[0]
  {
  }

  /** The error-text quirk: the string `"Error: ..."` is truthy, its first item
      is the one-letter string `"E"`, and every item has length one. */
  lemma ErrorTextQuirk(resolve: Resolve, name: string, rtype: RecordType)
    requires GetDnsRecord(resolve, name, rtype).ErrorText?
    ensures var r := GetDnsRecord(resolve, name, rtype);
      Truthy(r) && First(r) == "E" && |Items(r)| >= 7
      && forall k :: 0 <= k < |Items(r)| ==> |Items(r)[k]| == 1
  {
  }

  /** The fallback resolver is consulted on a timeout only: two networks that
      agree on the primary answer, when it is not a timeout, give the same result. */
  lemma FallbackOnlyOnTimeout(r1: Resolve, r2: Resolve, name: string, rtype: RecordType)
    requires r1(name, rtype, PrimaryTimeout) == r2(name, rtype, PrimaryTimeout)
    requires r1(name, rtype, PrimaryTimeout) != TimedOut
    ensures GetDnsRecord(r1, name, rtype) == GetDnsRecord(r2, name, rtype)
  {
  }

  /** Resolvers that answer the same for one query give the same record. */
  lemma AgreeingResolversAgree(r1: Resolve, r2: Resolve, name: string, t: RecordType)
    requires forall k :: r1(name, t, k) == r2(name, t, k)
    ensures GetDnsRecord(r1, name, t) == GetDnsRecord(r2, name, t)
  {
    assert r1(name, t, PrimaryTimeout) == r2(name, t, PrimaryTimeout);
    assert r1(name, t, FallbackTimeout) == r2(name, t, FallbackTimeout);
  }
}
