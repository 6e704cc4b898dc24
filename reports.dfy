/**
 * The affiliation report fetched from the FNE's REST interface, and the
 * affiliation count computed over it.
 *
 * The report is decoded JSON, so `count_total_affiliations` runs Python's
 * dynamic operations on values of unknown shape: `.get` on a dict, iteration,
 * and `len`. Each of these can raise on a value of the wrong type; the model
 * makes those outcomes explicit as `Err` so the caller can turn them into an
 * error string, as the provider does.
 */
module Reports {

  /** A decoded JSON value. JSON numbers are kept as integers. */
  datatype Json =
    | Null
    | Bool(b: bool)
    | Num(n: int)
    | Str(s: string)
    | Array(items: seq<Json>)
    | Object(fields: map<string, Json>)

  /** Why fetching or reducing the report failed. The text of the description is not modelled. */
  datatype Fault =
    | FetchError(reason: string)  // anything raised by the REST client: network, authentication, decoding
    | NotIterable                 // a `for` over None, a bool or a number
    | NoGet                       // `.get` on something that is not a dict
    | NoLen                       // `len` of None, a bool or a number

  datatype Result<T> = Ok(value: T) | Err(fault: Fault)

  /** The outcome of one call of the REST client's `get("/report-affiliations")`: the decoded body, or what it raised. */
  type Fetch = Result<Json>

  const AffiliationsKey: string := "affiliations"

  /** `d.get("affiliations", [])` */
  function AffiliationsOf(d: map<string, Json>): Json
  {
    if AffiliationsKey in d then d[AffiliationsKey] else Array([])
  }

  /**
   * The items a Python `for` loop visits when the loop body calls `.get` on
   * each item. Iterating a string yields one-character strings and iterating a
   * dict yields its keys, also strings; `.get` fails on the first of them, so
   * a non-empty string or dict fails before any order matters.
   */
  function ItemsForGet(v: Json): Result<seq<Json>>
  {
    match v
    case Array(items) => Ok(items)
    case Str(s) => if s == [] then Ok([]) else Err(NoGet)
    case Object(f) => if f == map[] then Ok([]) else Err(NoGet)
    case _ => Err(NotIterable)
  }

  /** Python's `len(v)`. */
  function Len(v: Json): Result<nat>
  {
    match v
    case Array(items) => Ok(|items|)
    case Str(s) => Ok(|s|)
    case Object(f) => Ok(|f|)
    case _ => Err(NoLen)
  }

  /** `len(item.get("affiliations", []))`: one group's number of affiliations. */
  function GroupSize(item: Json): Result<nat>
  {
    match item
    case Object(f) => Len(AffiliationsOf(f))
    case _ => Err(NoGet)
  }

  /**
   * The running total over `groups`, visited from the first; the first group
   * that fails stops the count.
   */
  function SumGroups(groups: seq<Json>): Result<nat>
    decreases |groups|
  {
    if groups == [] then Ok(0)
    else
      match SumGroups(groups[..|groups| - 1])
      case Err(e) => Err(e)
      case Ok(t) =>
        match GroupSize(groups[|groups| - 1])
        case Err(e) => Err(e)
        case Ok(n) => Ok(t + n)
  }

  /**
   * What `count_total_affiliations(report)` returns, or the fault it raises.
   * The report is expected to be a dict; `.get` on anything else fails.
   */
  function AffiliationTotal(report: Json): Result<nat>
  {
    match report
    case Object(d) =>
      (match ItemsForGet(AffiliationsOf(d))
       case Err(e) => Err(e)
       case Ok(groups) => SumGroups(groups))
    case _ => Err(NoGet)
  }

  /** `count_total_affiliations`: the accumulating loop over the groups. */
  method CountTotalAffiliations(report: Json) returns (r: Result<nat>)
    ensures r == AffiliationTotal(report)
  {
    if !report.Object? {
      return Err(NoGet);
    }
    var groups := ItemsForGet(AffiliationsOf(report.fields));
    if groups.Err? {
      return Err(groups.fault);
    }
    var items := groups.value;
    var total: nat := 0;
    for j := 0 to |items|
      invariant SumGroups(items[..j]) == Ok(total)
    {
      assert items[..j + 1][..j] == items[..j];
      var size := GroupSize(items[j]);
      if size.Err? {
        SumGroupsAppend(items[..j + 1], items[j + 1..]);
        assert items[..j + 1] + items[j + 1..] == items;
        return Err(size.fault);
      }
      total := total + size.value;
    }
    assert items[..|items|] == items;
    return Ok(total);
  }

  /** The count of `a + b` from the counts of `a` and `b`: totals add up, and the first failure wins. */
  function Combine(x: Result<nat>, y: Result<nat>): Result<nat>
  {
    match x
    case Err(e) => Err(e)
    case Ok(s) =>
      match y
      case Err(e) => Err(e)
      case Ok(t) => Ok(s + t)
  }

  lemma {:induction false} SumGroupsAppend(a: seq<Json>, b: seq<Json>)
    ensures SumGroups(a + b) == Combine(SumGroups(a), SumGroups(b))
    decreases |b|
  {
    if b == [] {
      assert a + b == a;
    } else {
      var b', last := b[..|b| - 1], b[|b| - 1];
      assert (a + b)[..|a + b| - 1] == a + b';
      assert (a + b)[|a + b| - 1] == last;
      calc {
        SumGroups(a + b);
        Combine(SumGroups(a + b'), GroupSize(last));
        { SumGroupsAppend(a, b'); }
        Combine(Combine(SumGroups(a), SumGroups(b')), GroupSize(last));
        { CombineAssociative(SumGroups(a), SumGroups(b'), GroupSize(last)); }
        Combine(SumGroups(a), Combine(SumGroups(b'), GroupSize(last)));
        Combine(SumGroups(a), SumGroups(b));
      }
    }
  }

  /** Adding up counts does not depend on grouping, nor does which failure comes first. */
  lemma CombineAssociative(x: Result<nat>, y: Result<nat>, z: Result<nat>)
    ensures Combine(x, Combine(y, z)) == Combine(Combine(x, y), z)
  {
  }

  /** The count succeeds exactly when every group is a dict whose affiliations have a length. */
  lemma {:induction false} SumGroupsSucceeds(groups: seq<Json>)
    ensures SumGroups(groups).Ok? <==> forall k | 0 <= k < |groups| :: GroupSize(groups[k]).Ok?
    decreases |groups|
  {
    if groups != [] {
      var front := groups[..|groups| - 1];
      SumGroupsSucceeds(front);
      assert forall k | 0 <= k < |front| :: front[k] == groups[k];
    }
  }

  /** A report without an "affiliations" key, or with an empty list there, counts zero. */
  lemma NoGroupsCountZero(report: map<string, Json>)
    requires AffiliationsKey !in report || report[AffiliationsKey] == Array([])
    ensures AffiliationTotal(Object(report)) == Ok(0)
  {
  }

  /** A group without an "affiliations" key contributes nothing, wherever it stands. */
  lemma GroupWithoutListAddsNothing(before: seq<Json>, group: map<string, Json>, after: seq<Json>)
    requires AffiliationsKey !in group
    ensures SumGroups(before + [Object(group)] + after) == SumGroups(before + after)
  {
    var g := [Object(group)];
    assert SumGroups(g) == Ok(0) by {
      assert g[..0] == [];
    }
    SumGroupsAppend(before, g);
    assert SumGroups(before + g) == SumGroups(before);
    SumGroupsAppend(before + g, after);
    SumGroupsAppend(before, after);
  }
}
