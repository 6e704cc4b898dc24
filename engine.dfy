/**
 * The pass-persist main loop: read a command line, strip it, dispatch on it,
 * and for `get` and `getnext` read one more line as the OID argument.
 *
 * Input is the sequence of lines the master agent sends, without their line
 * terminators; output is the sequence of lines written back. The REST source
 * is a function from the input position of a request's command line to the
 * answer the FNE gives while that request is served, so every request may see
 * a fresh report.
 */
module Engine {
  import opened Reports
  import opened Providers
  import opened Registry
  import opened Whitespace

  type Source = nat -> Fetch

  /** The command at input position `i`, stripped. */
  function Command(lines: seq<string>, i: nat): string
    requires i < |lines|
  {
    Strip(lines[i])
  }

  predicate IsQuery(cmd: string)
  {
    cmd == "get" || cmd == "getnext"
  }

  /** The stripped line after the command; `readline()` gives "" at end of input. */
  function OidArgument(lines: seq<string>, i: nat): string
    requires i < |lines|
  {
    Strip(if i + 1 < |lines| then lines[i + 1] else "")
  }

  /**
   * Where the next command starts. A query consumes its OID line too, when
   * there is one; every other line is consumed alone.
   */
  function NextCommand(lines: seq<string>, i: nat): (j: nat)
    requires i < |lines|
    ensures i < j <= i + 2 && j <= |lines|
    ensures j == i + 2 <==> IsQuery(Command(lines, i)) && i + 1 < |lines|
  {
    if IsQuery(Command(lines, i)) && i + 1 < |lines| then i + 2 else i + 1
  }

  /**
   * The lines written for the command at position `i`: nothing for a blank
   * line, PONG for PING whatever the gate, the handler's reply for a query,
   * and NONE for anything else.
   */
  function Reply(authFailed: bool, fetch: Fetch, lines: seq<string>, i: nat): (out: seq<Line>)
    requires i < |lines|
    ensures |out| <= 3
    ensures AllSpace(lines[i]) <==> out == []
    ensures Command(lines, i) == "PING" ==> out == [Text("PONG")]
    ensures Command(lines, i) == "get" ==> out == HandleGet(authFailed, fetch, OidArgument(lines, i))
    ensures Command(lines, i) == "getnext" ==> out == GetNextReply(authFailed, fetch, OidArgument(lines, i))
    ensures !AllSpace(lines[i]) && Command(lines, i) != "PING" && !IsQuery(Command(lines, i)) ==> out == NoneReply
  {
    var cmd := Command(lines, i);
    if cmd == "" then []
    else if cmd == "PING" then [Text("PONG")]
    else if cmd == "get" then HandleGet(authFailed, fetch, OidArgument(lines, i))
    else if cmd == "getnext" then GetNextReply(authFailed, fetch, OidArgument(lines, i))
    else NoneReply
  }

  /** Everything written from input position `i` until the end of input. */
  function Session(authFailed: bool, source: Source, lines: seq<string>, i: nat): seq<Line>
    requires i <= |lines|
    decreases |lines| - i
  {
    if i == |lines| then []
    else Reply(authFailed, source(i), lines, i) + Session(authFailed, source, lines, NextCommand(lines, i))
  }

  /** `main`: the read-dispatch-write loop, which stops at end of input. */
  method Serve(authFailed: bool, source: Source, lines: seq<string>) returns (out: seq<Line>)
    ensures out == Session(authFailed, source, lines, 0)
  {
    out := [];
    var i := 0;
    ghost var all := Session(authFailed, source, lines, 0);
    while true
      invariant i <= |lines|
      invariant out + Session(authFailed, source, lines, i) == all
      decreases |lines| - i
    {
      if i == |lines| {
        break;
      }
      var start := i;
      var line := Strip(lines[i]);
      i := i + 1;
      var reply: seq<Line> := [];
      if line == "" {
        // a blank line is skipped
      } else if line == "PING" {
        reply := [Text("PONG")];
      } else if line == "get" || line == "getnext" {
        var raw := "";
        if i < |lines| {
          raw := lines[i];
          i := i + 1;
        }
        if line == "get" {
          reply := HandleGet(authFailed, source(start), Strip(raw));
        } else {
          reply := HandleGetNext(authFailed, source(start), Strip(raw));
        }
      } else {
        reply := NoneReply;
      }
      assert reply == Reply(authFailed, source(start), lines, start);
      assert i == NextCommand(lines, start);
      SessionStep(authFailed, source, lines, start);
      Associative(out, reply, Session(authFailed, source, lines, i));
      out := out + reply;
    }
    assert out + [] == out;
  }

  /**
   * Regrouping a concatenation. Dafny knows this, but naming the instance the
   * loop of `Serve` needs keeps its invariant proof within budget.
   */
  lemma Associative(a: seq<Line>, b: seq<Line>, c: seq<Line>)
    ensures (a + b) + c == a + (b + c)
  {
  }

  /** The output from a command on is its reply followed by the output from the next command on. */
  lemma SessionStep(authFailed: bool, source: Source, lines: seq<string>, i: nat)
    requires i < |lines|
    ensures Session(authFailed, source, lines, i)
      == Reply(authFailed, source(i), lines, i) + Session(authFailed, source, lines, NextCommand(lines, i))
  {
  }

  /** With the gate closed, what the REST source would answer makes no difference: nothing is fetched. */
  lemma {:induction false} ClosedGateIgnoresSource(s1: Source, s2: Source, lines: seq<string>, i: nat)
    requires i <= |lines|
    ensures Session(true, s1, lines, i) == Session(true, s2, lines, i)
    decreases |lines| - i
  {
    if i < |lines| {
      ClosedGateIgnoresSource(s1, s2, lines, NextCommand(lines, i));
    }
  }

  /** The lines a closed gate lets through. */
  predicate ClosedGateLine(l: Line)
  {
    l == Text("PONG") || l == Text("NONE") || l == Text("string") || l == Text("Authentication failed.")
  }

  /** With the gate closed, no OID and no value is ever written. */
  lemma {:induction false} ClosedGateRevealsNothing(source: Source, lines: seq<string>, i: nat)
    requires i <= |lines|
    ensures forall l | l in Session(true, source, lines, i) :: ClosedGateLine(l)
    decreases |lines| - i
  {
    if i < |lines| {
      var j := NextCommand(lines, i);
      var reply := Reply(true, source(i), lines, i);
      ClosedGateReply(source(i), lines, i);
      ClosedGateRevealsNothing(source, lines, j);
      SessionStep(true, source, lines, i);
      assert Session(true, source, lines, i) == reply + Session(true, source, lines, j);
    }
  }

  /** One command's reply with the gate closed. */
  lemma ClosedGateReply(fetch: Fetch, lines: seq<string>, i: nat)
    requires i < |lines|
    ensures forall l | l in Reply(true, fetch, lines, i) :: ClosedGateLine(l)
  {
    var cmd := Command(lines, i);
    var reply := Reply(true, fetch, lines, i);
    if AllSpace(lines[i]) {
      assert reply == [];
    } else if cmd == "PING" {
      assert reply == [Text("PONG")];
    } else if IsQuery(cmd) {
      assert reply == AuthFailedReply;
    } else {
      assert reply == NoneReply;
    }
  }

  /** The gate and the REST source only matter to get and getnext: without them the output is the same either way. */
  lemma {:induction false} GateOnlyAffectsQueries(s1: Source, s2: Source, lines: seq<string>, i: nat)
    requires i <= |lines|
    requires forall j | i <= j < |lines| :: !IsQuery(Strip(lines[j]))
    ensures Session(true, s1, lines, i) == Session(false, s2, lines, i)
    decreases |lines| - i
  {
    if i < |lines| {
      GateOnlyAffectsQueries(s1, s2, lines, NextCommand(lines, i));
    }
  }

  /** A blank line is consumed and writes nothing. */
  lemma SkipsBlankLine(authFailed: bool, source: Source, lines: seq<string>, i: nat)
    requires i < |lines| && AllSpace(lines[i])
    ensures Session(authFailed, source, lines, i) == Session(authFailed, source, lines, i + 1)
  {
    SessionStep(authFailed, source, lines, i);
    assert [] + Session(authFailed, source, lines, i + 1) == Session(authFailed, source, lines, i + 1);
  }

  /** A query consumes its OID line, which is never read as a command. */
  lemma QueryConsumesOidLine(authFailed: bool, source: Source, lines: seq<string>, i: nat)
    requires i + 1 < |lines| && IsQuery(Command(lines, i))
    ensures Session(authFailed, source, lines, i)
      == Reply(authFailed, source(i), lines, i) + Session(authFailed, source, lines, i + 2)
    ensures OidArgument(lines, i) == Strip(lines[i + 1])
  {
    SessionStep(authFailed, source, lines, i);
  }

  /** Every line from position `i` on is blank or all whitespace. */
  predicate BlankFrom(lines: seq<string>, i: nat)
    decreases |lines| - i
  {
    i >= |lines| || (AllSpace(lines[i]) && BlankFrom(lines, i + 1))
  }

  /** Once only blank lines remain, nothing more is written. */
  lemma {:induction false} BlankLinesWriteNothing(authFailed: bool, source: Source, lines: seq<string>, i: nat)
    requires i <= |lines| && BlankFrom(lines, i)
    ensures Session(authFailed, source, lines, i) == []
    decreases |lines| - i
  {
    if i < |lines| {
      BlankLinesWriteNothing(authFailed, source, lines, i + 1);
      SkipsBlankLine(authFailed, source, lines, i);
    }
  }

  /**
   * A PING padded with any whitespace (a carriage return included), then only
   * blank lines: a single PONG, gate open or closed.
   */
  lemma PaddedPingThenBlankLines(authFailed: bool, source: Source, lines: seq<string>, pad: string, trail: string)
    requires |lines| > 0 && lines[0] == pad + "PING" + trail && AllSpace(pad) && AllSpace(trail)
    requires BlankFrom(lines, 1)
    ensures Session(authFailed, source, lines, 0) == [Text("PONG")]
  {
    StripRemovesPadding(pad, "PING", trail);
    SessionStep(authFailed, source, lines, 0);
    BlankLinesWriteNothing(authFailed, source, lines, 1);
    assert [Text("PONG")] + [] == [Text("PONG")];
  }

  /**
   * The line after `get` is the OID even when it reads like a command: a
   * PING there is looked up as an OID, answered NONE, and draws no PONG.
   */
  lemma OidLineIsNotACommand(source: Source, lines: seq<string>, i: nat)
    requires i + 1 < |lines| && Command(lines, i) == "get" && lines[i + 1] == "PING"
    ensures Session(false, source, lines, i) == NoneReply + Session(false, source, lines, i + 2)
  {
    assert OidArgument(lines, i) !in Handlers by {
      StripRemovesPadding("", "PING", "");
      assert "" + "PING" + "" == lines[i + 1];
      ShortOidsUnregistered("PING");
    }
    GetOfUnregistered(source, lines, i);
  }

  /** With the gate open, a `get` for an unregistered OID writes NONE and the session goes on after its OID line. */
  lemma GetOfUnregistered(source: Source, lines: seq<string>, i: nat)
    requires i < |lines| && Command(lines, i) == "get" && OidArgument(lines, i) !in Handlers
    ensures Session(false, source, lines, i) == NoneReply + Session(false, source, lines, NextCommand(lines, i))
    ensures i + 1 < |lines| ==> NextCommand(lines, i) == i + 2
  {
    SessionStep(false, source, lines, i);
  }

  /** A `get` cut off by the end of input asks about the OID "": NONE, and the session ends. */
  lemma GetAtEndOfInput(source: Source, lines: seq<string>, i: nat)
    requires i + 1 == |lines| && Command(lines, i) == "get"
    ensures Session(false, source, lines, i) == NoneReply
  {
    assert OidArgument(lines, i) == "";
    ShortOidsUnregistered("");
    GetOfUnregistered(source, lines, i);
    assert NoneReply + [] == NoneReply;
  }

  /** A `getnext` cut off by the end of input asks about "", which every OID follows: the first OID answers. */
  lemma GetNextAtEndOfInput(source: Source, lines: seq<string>, i: nat)
    requires i + 1 == |lines| && Command(lines, i) == "getnext"
    ensures Session(false, source, lines, i) == Answer(OidStatus, source(i))
  {
    SessionStep(false, source, lines, i);
    assert OidArgument(lines, i) == "";
    GetNextFromEmpty(source(i));
  }
}
