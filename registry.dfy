/**
 * The OID registry, the response formatter, the authentication gate, and the
 * two request handlers `handle_get` (exact match) and `handle_getnext`
 * (successor in Python's string order).
 */
module Registry {
  import opened Reports
  import opened Providers
  import Lexical

  /** The enterprise subtree the three OIDs live under; they differ only in their last character. */
  const OidBase: string := ".1.3.6.1.4.1.69420.1."
  const OidStatus: string := OidBase + "0"
  const OidTotalAffiliations: string := OidBase + "1"
  const OidTotalPeers: string := OidBase + "2"

  /** The three OIDs, written out. */
  lemma OidsSpelledOut()
    ensures OidStatus == ".1.3.6.1.4.1.69420.1.0"
    ensures OidTotalAffiliations == ".1.3.6.1.4.1.69420.1.1"
    ensures OidTotalPeers == ".1.3.6.1.4.1.69420.1.2"
  {
  }

  /** `OID_HANDLERS`, fixed for the life of the process. */
  const Handlers: map<string, Handler> :=
    map[OidStatus := Status, OidTotalAffiliations := TotalAffiliations, OidTotalPeers := TotalPeers]

  /** Every registered OID is one character longer than the subtree, so nothing shorter is registered. */
  lemma ShortOidsUnregistered(oid: string)
    requires |oid| <= |OidBase|
    ensures oid !in Handlers
  {
    assert |OidStatus| == |OidTotalAffiliations| == |OidTotalPeers| == |OidBase| + 1;
  }

  datatype Option<T> = None | Some(value: T)

  predicate StrictlySorted(s: seq<string>)
  {
    forall i, j | 0 <= i < j < |s| :: Lexical.Less(s[i], s[j])
  }

  /** In string order the registered OIDs are ordered by their last character. */
  lemma OidsOrdered()
    ensures Lexical.Less(OidStatus, OidTotalAffiliations)
    ensures Lexical.Less(OidTotalAffiliations, OidTotalPeers)
    ensures Lexical.Less(OidStatus, OidTotalPeers)
  {
    Lexical.PrefixCancels(OidBase, "0", "1");
    Lexical.PrefixCancels(OidBase, "1", "2");
    Lexical.PrefixCancels(OidBase, "0", "2");
  }

  /** `sorted(OID_HANDLERS.keys())`: the registered OIDs in increasing string order. */
  function SortedOids(): (s: seq<string>)
    ensures StrictlySorted(s)
    ensures forall k :: k in s <==> k in Handlers
  {
    OidsOrdered();
    SortedThree(OidStatus, OidTotalAffiliations, OidTotalPeers);
    [OidStatus, OidTotalAffiliations, OidTotalPeers]
  }

  lemma SortedThree(x: string, y: string, z: string)
    requires Lexical.Less(x, y) && Lexical.Less(y, z) && Lexical.Less(x, z)
    ensures StrictlySorted([x, y, z])
  {
  }

  /** No registered OID is strictly greater than `oid`. */
  predicate NoOidAfter(oid: string)
  {
    forall k | k in Handlers :: !Lexical.Less(oid, k)
  }

  /** `next` is the smallest registered OID strictly greater than `oid`. */
  predicate IsSuccessor(oid: string, next: string)
  {
    && next in Handlers
    && Lexical.Less(oid, next)
    && forall k | k in Handlers && Lexical.Less(oid, k) :: !Lexical.Less(k, next)
  }

  /** At most one registered OID is the successor of a given OID. */
  lemma SuccessorUnique(oid: string, a: string, b: string)
    requires IsSuccessor(oid, a) && IsSuccessor(oid, b)
    ensures a == b
  {
    Lexical.Trichotomy(a, b);
  }

  /** The first element of `s` strictly greater than `oid`, scanning from the front. */
  function FirstAfter(s: seq<string>, oid: string): Option<string>
    decreases |s|
  {
    if s == [] then None
    else if Lexical.Less(oid, s[0]) then Some(s[0])
    else FirstAfter(s[1..], oid)
  }

  /** In a strictly sorted sequence, the first element greater than `oid` is the least such element. */
  lemma {:induction false} FirstAfterIsLeast(s: seq<string>, oid: string)
    requires StrictlySorted(s)
    ensures FirstAfter(s, oid).None? <==> forall k | k in s :: !Lexical.Less(oid, k)
    ensures FirstAfter(s, oid).Some? ==>
      var n := FirstAfter(s, oid).value;
      n in s && Lexical.Less(oid, n) && forall k | k in s && Lexical.Less(oid, k) :: !Lexical.Less(k, n)
    decreases |s|
  {
    if s != [] {
      if Lexical.Less(oid, s[0]) {
        assert s[0] in s;
        forall k | k in s
          ensures !Lexical.Less(k, s[0])
        {
          var i :| 0 <= i < |s| && s[i] == k;
          if i == 0 {
            Lexical.Irreflexive(k);
          } else {
            Lexical.Asymmetric(s[0], k);
          }
        }
      } else {
        FirstAfterIsLeast(s[1..], oid);
        assert s == [s[0]] + s[1..];
      }
    }
  }

  /** The registry's successor lookup: the least registered OID above `oid`, if there is one. */
  function NextOid(oid: string): (r: Option<string>)
    ensures r.None? <==> NoOidAfter(oid)
    ensures r.Some? ==> IsSuccessor(oid, r.value)
  {
    FirstAfterIsLeast(SortedOids(), oid);
    FirstAfter(SortedOids(), oid)
  }

  /** One line written to the master agent. An integer payload is kept as a number rather than its decimal text. */
  datatype Line = Text(text: string) | Decimal(value: int)

  const NoneReply: seq<Line> := [Text("NONE")]
  const AuthFailedReply: seq<Line> := [Text("string"), Text("Authentication failed.")]

  /** `print(type_); print(value)` */
  function Render(v: TypedValue): (lines: seq<Line>)
    ensures |lines| == 2 && lines[0] == Text(Kind(v))
    ensures lines[1] == (if v.StringValue? then Text(v.text) else Decimal(v.n))
  {
    match v
    case StringValue(s) => [Text("string"), Text(s)]
    case IntegerValue(n) => [Text("integer"), Decimal(n)]
  }

  /** The three-line answer for a registered OID: the OID, then the value its handler gives now. */
  function Answer(oid: string, fetch: Fetch): seq<Line>
    requires oid in Handlers
  {
    [Text(oid)] + Render(Provide(Handlers[oid], fetch))
  }

  /**
   * `handle_get`: with the gate closed, the fixed authentication failure and
   * no lookup; otherwise three lines starting with the OID itself for a
   * registered OID and `NONE` for any other.
   */
  function HandleGet(authFailed: bool, fetch: Fetch, oid: string): (out: seq<Line>)
    ensures authFailed ==> out == AuthFailedReply
    ensures !authFailed ==> (|out| == 3 <==> oid in Handlers)
    ensures !authFailed && oid in Handlers ==>
      out[0] == Text(oid) && out[1..] == Render(Provide(Handlers[oid], fetch))
    ensures !authFailed && oid !in Handlers ==> out == NoneReply
  {
    if authFailed then AuthFailedReply
    else if oid in Handlers then Answer(oid, fetch)
    else NoneReply
  }

  /**
   * The registry's dispatch seen through `get`: `.0` answers the status text,
   * `.1` the affiliation count and `.2` the length of the report.
   */
  lemma GetDispatchesByOid(fetch: Fetch)
    ensures HandleGet(false, fetch, OidStatus) == [Text(OidStatus), Text("string"), Text(StatusText)]
    ensures HandleGet(false, fetch, OidTotalAffiliations) == [Text(OidTotalAffiliations)] + Render(GetTotalAffiliations(fetch))
    ensures HandleGet(false, fetch, OidTotalPeers) == [Text(OidTotalPeers)] + Render(GetTotalPeers(fetch))
  {
    OidsOrdered();
    Lexical.Irreflexive(OidStatus);
    Lexical.Irreflexive(OidTotalAffiliations);
    assert Handlers[OidStatus] == Status;
    assert Handlers[OidTotalAffiliations] == TotalAffiliations;
    assert Handlers[OidTotalPeers] == TotalPeers;
  }

  /**
   * What `handle_getnext` writes: with the gate closed, the authentication
   * failure; otherwise `NONE` exactly when no registered OID lies above
   * `oid`, and else the answer for the smallest one that does.
   */
  function GetNextReply(authFailed: bool, fetch: Fetch, oid: string): (out: seq<Line>)
    ensures authFailed ==> out == AuthFailedReply
    ensures !authFailed ==> (out == NoneReply <==> NoOidAfter(oid))
    ensures !authFailed && !NoOidAfter(oid) ==>
      |out| == 3 && out[0].Text? && IsSuccessor(oid, out[0].text)
      && out[1..] == Render(Provide(Handlers[out[0].text], fetch))
  {
    if authFailed then AuthFailedReply
    else
      match NextOid(oid)
      case None => NoneReply
      case Some(next) => Answer(next, fetch)
  }

  /** `handle_getnext`: scan the sorted OIDs and answer for the first one above `oid`. */
  method HandleGetNext(authFailed: bool, fetch: Fetch, oid: string) returns (out: seq<Line>)
    ensures out == GetNextReply(authFailed, fetch, oid)
  {
    if authFailed {
      return AuthFailedReply;
    }
    var sorted := SortedOids();
    for j := 0 to |sorted|
      invariant forall t | 0 <= t < j :: !Lexical.Less(oid, sorted[t])
    {
      var next := sorted[j];
      if Lexical.Less(oid, next) {
        ScanFindsSuccessor(sorted, oid, j);
        SuccessorUnique(oid, next, NextOid(oid).value);
        return Answer(next, fetch);
      }
    }
    return NoneReply;
  }

  /**
   * Scanning a sorted listing of the registered OIDs, the first one above
   * `oid` is its successor.
   */
  lemma ScanFindsSuccessor(sorted: seq<string>, oid: string, j: nat)
    requires StrictlySorted(sorted) && forall k :: k in sorted <==> k in Handlers
    requires j < |sorted| && Lexical.Less(oid, sorted[j])
    requires forall t | 0 <= t < j :: !Lexical.Less(oid, sorted[t])
    ensures IsSuccessor(oid, sorted[j])
  {
    var next := sorted[j];
    forall k | k in Handlers && Lexical.Less(oid, k)
      ensures !Lexical.Less(k, next)
    {
      var i :| 0 <= i < |sorted| && sorted[i] == k;
      if i != j {
        Lexical.Asymmetric(next, k);
      } else {
        Lexical.Irreflexive(k);
      }
    }
  }

  /** The successors along a walk of the registry, starting below every OID. */
  lemma WalkFromEmpty()
    ensures IsSuccessor("", OidStatus)
  {
    OidsOrdered();
    ScanFindsSuccessor(SortedOids(), "", 0);
  }

  /** A walk from "" starts at the status OID. */
  lemma GetNextFromEmpty(fetch: Fetch)
    ensures GetNextReply(false, fetch, "") == Answer(OidStatus, fetch)
  {
    WalkFromEmpty();
    SuccessorUnique("", OidStatus, NextOid("").value);
  }

  lemma WalkFromStatus()
    ensures IsSuccessor(OidStatus, OidTotalAffiliations)
  {
    OidsOrdered();
    Lexical.Irreflexive(OidStatus);
    Lexical.Irreflexive(OidTotalAffiliations);
    Lexical.Asymmetric(OidTotalAffiliations, OidTotalPeers);
  }

  lemma WalkFromAffiliations()
    ensures IsSuccessor(OidTotalAffiliations, OidTotalPeers)
  {
    OidsOrdered();
    Lexical.Irreflexive(OidTotalAffiliations);
    Lexical.Irreflexive(OidTotalPeers);
    Lexical.Asymmetric(OidStatus, OidTotalAffiliations);
  }

  lemma WalkEnds()
    ensures NoOidAfter(OidTotalPeers)
  {
    OidsOrdered();
    Lexical.Irreflexive(OidTotalPeers);
    Lexical.Asymmetric(OidTotalAffiliations, OidTotalPeers);
    Lexical.Asymmetric(OidStatus, OidTotalPeers);
  }

  /**
   * A walk with the gate open: each getnext answers for the next registered
   * OID in turn, and after the last one the agent says NONE.
   */
  lemma WalkReplies(fetch: Fetch)
    ensures GetNextReply(false, fetch, OidStatus) == Answer(OidTotalAffiliations, fetch)
    ensures GetNextReply(false, fetch, OidTotalAffiliations) == Answer(OidTotalPeers, fetch)
    ensures GetNextReply(false, fetch, OidTotalPeers) == NoneReply
  {
    WalkFromStatus();
    SuccessorUnique(OidStatus, OidTotalAffiliations, NextOid(OidStatus).value);
    WalkFromAffiliations();
    SuccessorUnique(OidTotalAffiliations, OidTotalPeers, NextOid(OidTotalAffiliations).value);
    WalkEnds();
  }

  /**
   * The order is on strings, not on numeric arcs: ".10" sorts before ".2", so
   * a getnext for the unregistered arc 10 answers with arc 2, an OID that is
   * numerically smaller than the query.
   */
  lemma StringOrderIsNotArcOrder()
    ensures IsSuccessor(OidBase + "10", OidTotalPeers)
  {
    var q := OidBase + "10";
    Lexical.PrefixCancels(OidBase, "10", "2");
    Lexical.PrefixCancels(OidBase, "1", "10");
    Lexical.PrefixCancels(OidBase, "0", "10");
    Lexical.Asymmetric(OidTotalAffiliations, q);
    Lexical.Asymmetric(OidStatus, q);
    Lexical.Irreflexive(OidTotalPeers);
  }
}
