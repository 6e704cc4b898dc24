/**
 * The three value providers behind the registered OIDs. Each returns an SNMP
 * typed value, a (kind, payload) pair, and never fails: every failure of the
 * fetch or of the reduction over the report becomes a "string" value whose
 * payload starts with "Error: ".
 */
module Providers {
  import opened Reports

  datatype TypedValue = StringValue(text: string) | IntegerValue(n: int)

  /** The kind line the master agent reads before the payload. */
  function Kind(v: TypedValue): string
  {
    match v
    case StringValue(_) => "string"
    case IntegerValue(_) => "integer"
  }

  const StatusText: string := "DVMSNMP is online"
  const ErrorPrefix: string := "Error: "

  /** A description of a fault; the wording of Python's exception messages is not modelled. */
  function Describe(f: Fault): string
  {
    match f
    case FetchError(reason) => reason
    case NotIterable => "object is not iterable"
    case NoGet => "object has no attribute 'get'"
    case NoLen => "object has no len()"
  }

  /** `f"Error: {e}"` */
  function ErrorText(f: Fault): (s: string)
    ensures IsErrorText(s)
  {
    ErrorPrefix + Describe(f)
  }

  predicate IsErrorText(s: string)
  {
    |s| >= |ErrorPrefix| && s[..|ErrorPrefix|] == ErrorPrefix
  }

  /** `get_status`: the constant liveness string. */
  function GetStatus(): TypedValue
  {
    StringValue(StatusText)
  }

  /**
   * `get_total_affiliations`: an integer exactly when the report was fetched
   * and counted, that integer being the count; otherwise an error string.
   */
  function GetTotalAffiliations(fetch: Fetch): (v: TypedValue)
    ensures v.IntegerValue? <==> fetch.Ok? && AffiliationTotal(fetch.value).Ok?
    ensures v.IntegerValue? ==> v.n == AffiliationTotal(fetch.value).value && v.n >= 0
    ensures v.StringValue? ==> IsErrorText(v.text)
  {
    match fetch
    case Err(e) => StringValue(ErrorText(e))
    case Ok(report) =>
      match AffiliationTotal(report)
      case Err(e) => StringValue(ErrorText(e))
      case Ok(total) => IntegerValue(total)
  }

  /**
   * `get_total_peers`: `len(data)`, which for the expected dict is the number
   * of its top-level keys, not the number of groups inside it; an error string
   * when the fetch failed or the body has no length.
   */
  function GetTotalPeers(fetch: Fetch): (v: TypedValue)
    ensures v.IntegerValue? <==> fetch.Ok? && Len(fetch.value).Ok?
    ensures v.IntegerValue? ==> v.n == Len(fetch.value).value
    ensures fetch.Ok? && fetch.value.Object? ==> v == IntegerValue(|fetch.value.fields.Keys|)
    ensures v.StringValue? ==> IsErrorText(v.text)
  {
    match fetch
    case Err(e) => StringValue(ErrorText(e))
    case Ok(report) =>
      match Len(report)
      case Err(e) => StringValue(ErrorText(e))
      case Ok(n) => IntegerValue(n)
  }

  /** The handlers of the OID registry, a closed set. */
  datatype Handler = Status | TotalAffiliations | TotalPeers

  /** Whether invoking the handler calls the REST client. */
  predicate Polls(h: Handler)
  {
    h != Status
  }

  /** Invoking a handler, with `fetch` the answer the REST client gives if it is called. */
  function Provide(h: Handler, fetch: Fetch): (v: TypedValue)
    ensures h == Status ==> v == StringValue(StatusText)
    ensures h == TotalAffiliations ==> v == GetTotalAffiliations(fetch)
    ensures h == TotalPeers ==> v == GetTotalPeers(fetch)
    ensures v.IntegerValue? ==> Polls(h) && fetch.Ok? && v.n >= 0
    ensures v.StringValue? && Polls(h) ==> IsErrorText(v.text)
  {
    match h
    case Status => GetStatus()
    case TotalAffiliations => GetTotalAffiliations(fetch)
    case TotalPeers => GetTotalPeers(fetch)
  }

  /** A handler that does not poll gives the same value whatever the REST source would answer. */
  lemma NonPollingIgnoresFetch(h: Handler, f1: Fetch, f2: Fetch)
    requires !Polls(h)
    ensures Provide(h, f1) == Provide(h, f2)
  {
  }

  /**
   * The two integer metrics read the same report but are different numbers:
   * one group with three affiliations, filed under the single top-level key
   * "affiliations", counts 3 affiliations and 1 peer; three groups with 2, 1
   * and 0 affiliations count 3 affiliations and still 1 peer.
   */
  lemma AffiliationsAndPeersDiverge()
    ensures var one := Object(map[AffiliationsKey := Array([Object(map[AffiliationsKey := Array([Num(1), Num(2), Num(3)])])])]);
      GetTotalAffiliations(Ok(one)) == IntegerValue(3) && GetTotalPeers(Ok(one)) == IntegerValue(1)
    ensures var three := Object(map[AffiliationsKey := Array([
        Object(map[AffiliationsKey := Array([Num(1), Num(2)])]),
        Object(map[AffiliationsKey := Array([Num(3)])]),
        Object(map[AffiliationsKey := Array([])])])]);
      GetTotalAffiliations(Ok(three)) == IntegerValue(3) && GetTotalPeers(Ok(three)) == IntegerValue(1)
  {
    var g1 := Object(map[AffiliationsKey := Array([Num(1), Num(2), Num(3)])]);
    assert [g1][..0] == [];
    var a := Object(map[AffiliationsKey := Array([Num(1), Num(2)])]);
    var b := Object(map[AffiliationsKey := Array([Num(3)])]);
    var c := Object(map[AffiliationsKey := Array([])]);
    var groups := [a, b, c];
    assert groups[..2] == [a, b] && [a, b][..1] == [a] && [a][..0] == [];
    assert SumGroups([a]) == Ok(2);
    assert SumGroups([a, b]) == Ok(3);
    assert SumGroups(groups) == Ok(3);
  }
}
