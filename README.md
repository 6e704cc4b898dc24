# dvmsnmp pass-persist agent, modelled in Dafny

dvmsnmp is a Net-SNMP `pass_persist` sub-agent for a DVM FNE. The master agent
writes commands on the sub-agent's standard input: `PING`, `get` followed by an
OID line, and `getnext` followed by an OID line. The sub-agent answers on
standard output. Three OIDs are registered under `.1.3.6.1.4.1.69420.1.`:

- `.0` gives a constant status string.
- `.1` gives the total number of affiliations in the FNE's affiliation report.
- `.2` gives the "peer count", `len()` of that same report.

When `fne.auth()` failed at start-up (`AUTH_FAILED`), every get and getnext is
answered with an authentication failure; `PING` is not affected.

The project has five modules:

- `Lexical` (`strings.dfy`): Python's `<` on `str`, which orders OIDs for
  getnext. It is a strict total order, and a shared prefix does not affect it.
- `Whitespace` (`strings.dfy`): `str.strip()` with Python's whitespace set.
- `Reports` (`reports.dfy`):
  - the decoded JSON report and the affiliation count over it;
  - each of Python's dynamic failures (`.get` on a non-dict, iterating a
    number, `len` of `None`) made explicit as an `Err`.
- `Providers` (`providers.dfy`):
  - the three value providers, none of which fails: every failure becomes
    `("string", "Error: ...")`;
  - the closed set of handlers.
- `Registry` (`registry.dfy`):
  - the OID map and the successor lookup, specified as the least registered
    OID above the query;
  - the gate, the reply formatting, and `handle_get` / `handle_getnext`.
    `handle_getnext` is a method whose scan over the sorted OIDs is proved to
    match that specification.
- `Engine` (`engine.dfy`):
  - the main loop as a method `Serve` over the input lines, proved equal to
    a recursive specification `Session`;
  - lemmas about sessions: the closed gate, blank lines, a query consuming its
    OID line, a query cut off by end of input.

The model has three external inputs:

- The REST client's answer is a parameter. `Fetch` is the decoded body or the
  exception it raised. A `Source` gives that answer for each request, keyed by
  the input position of the request's command line.
- The result of `fne.auth()` is the boolean `authFailed`.
- The input is a sequence of lines and the output is a sequence of `Line`s.

Two behaviours of the code are worth stating on their own:

- The peer count is `len(data)`. For a dict report that is the number of its
  top-level keys, not the number of peer groups inside `data["affiliations"]`.
  `Providers.AffiliationsAndPeersDiverge` exhibits it: a report listing three
  groups has 1 peer.
- A blank or all-whitespace command line is skipped without any reply. It is
  not answered with `NONE`.

## Model

| member | source | states |
|---|---|---|
| Lexical.Irreflexive | dvmsnmp.py:127 | no OID is below itself under `<` |
| Lexical.Transitive | dvmsnmp.py:127 | string `<` is transitive |
| Lexical.Trichotomy | dvmsnmp.py:127 | any two strings are ordered one way, the other way, or equal; with Transitive and Irreflexive, `<` is a strict total order |
| Lexical.Asymmetric | dvmsnmp.py:127 | `a < b` excludes `b < a` |
| Lexical.PrefixCancels | dvmsnmp.py:125-127 | a common prefix (the enterprise subtree) leaves the comparison to the suffixes |
| Whitespace.TrimLeft | dvmsnmp.py:144 | leading strip: a suffix of the input; what was dropped is whitespace; the result does not start with whitespace |
| Whitespace.TrimRight | dvmsnmp.py:144 | trailing strip: a prefix of the input; what was dropped is whitespace; the result does not end with whitespace |
| Whitespace.Strip | dvmsnmp.py:144 | the stripped line has no surrounding whitespace; it is empty exactly when the line is all whitespace; an unpadded line is unchanged |
| Whitespace.TrimLeftPadding | dvmsnmp.py:144 | leading whitespace before a non-space is exactly what the leading strip removes |
| Whitespace.TrimRightPadding | dvmsnmp.py:144 | trailing whitespace after a non-space is exactly what the trailing strip removes |
| Whitespace.StripRemovesPadding | dvmsnmp.py:144 | stripping a word surrounded by any whitespace gives back the word |
| Whitespace.StripIdempotent | dvmsnmp.py:144 | stripping twice is stripping once |
| Reports.CountTotalAffiliations | dvmsnmp.py:73-80 | the accumulating loop returns the specified count; the first group that fails aborts it with that group's fault; a non-dict report fails on `.get` |
| Reports.SumGroupsAppend | dvmsnmp.py:78-79 | the count over concatenated group lists is the sum of the two counts, or the first failure |
| Reports.SumGroupsSucceeds | dvmsnmp.py:78-79 | the count succeeds if and only if every group is a dict whose `affiliations` has a length |
| Reports.NoGroupsCountZero | dvmsnmp.py:78 | a report without an `affiliations` key, or with an empty list there, counts 0 |
| Reports.GroupWithoutListAddsNothing | dvmsnmp.py:79 | a group without an `affiliations` key contributes 0 wherever it stands |
| Providers.ErrorText | dvmsnmp.py:59 | every error payload starts with `Error: ` |
| Providers.GetTotalAffiliations | dvmsnmp.py:50-59 | an integer exactly when the fetch and the count succeed, and then equal to the count; otherwise an error string |
| Providers.GetTotalPeers | dvmsnmp.py:61-70 | an integer exactly when the fetch succeeds and the body has a length, and then equal to `len` of the body (for a dict, the number of its top-level keys); otherwise an error string |
| Providers.Provide | dvmsnmp.py:44-70 | the status handler gives the constant text, the affiliations handler runs `get_total_affiliations` and the peers handler runs `get_total_peers`; an integer comes only from a polling handler on a successful fetch and is non-negative; a string from a polling handler is error text |
| Providers.NonPollingIgnoresFetch | dvmsnmp.py:44-48 | the status handler's value does not depend on the REST answer |
| Providers.AffiliationsAndPeersDiverge | dvmsnmp.py:67 | on the same report the two metrics differ: three groups holding 2, 1 and 0 affiliations count 3 affiliations and 1 peer |
| Registry.OidsSpelledOut | dvmsnmp.py:32-34 | the three registered OIDs, spelled out |
| Registry.ShortOidsUnregistered | dvmsnmp.py:83-87 | no string as short as the subtree prefix, the empty OID and command words included, is a registered OID |
| Registry.OidsOrdered | dvmsnmp.py:32-34 | in string order, status < affiliations < peers |
| Registry.SortedOids | dvmsnmp.py:125 | `sorted(OID_HANDLERS.keys())` is strictly increasing and holds exactly the registered OIDs |
| Registry.SuccessorUnique | dvmsnmp.py:125-132 | a query has at most one successor |
| Registry.FirstAfterIsLeast | dvmsnmp.py:126-133 | in a strictly sorted list, the first element above the query is the least element above it; there is none exactly when nothing is above it |
| Registry.NextOid | dvmsnmp.py:125-133 | the lookup finds nothing exactly when no registered OID is above the query, and otherwise finds its successor |
| Registry.Render | dvmsnmp.py:104-105 | a value is written as its kind line, then its payload line |
| Registry.HandleGet | dvmsnmp.py:90-113 | closed gate: the fixed authentication failure; open gate: three lines (the OID, then its rendered value) exactly when the OID is registered, `NONE` otherwise |
| Registry.GetDispatchesByOid | dvmsnmp.py:83-87 | through `get`, `.0` answers the status text, `.1` the rendered affiliation count and `.2` the rendered `len(data)` |
| Registry.GetNextReply | dvmsnmp.py:116-133 | closed gate: the authentication failure; open gate: `NONE` exactly when no registered OID is above the query, else three lines naming the successor and rendering its value |
| Registry.HandleGetNext | dvmsnmp.py:116-133 | the scan over the sorted OIDs writes exactly the specified getnext reply |
| Registry.ScanFindsSuccessor | dvmsnmp.py:126-128 | the first sorted OID above the query is its successor |
| Registry.WalkFromEmpty | dvmsnmp.py:125-128 | the status OID is the successor of the empty OID |
| Registry.GetNextFromEmpty | dvmsnmp.py:116-133 | getnext on the empty OID answers for the status OID |
| Registry.WalkFromStatus | dvmsnmp.py:125-128 | the affiliations OID follows the status OID |
| Registry.WalkFromAffiliations | dvmsnmp.py:125-128 | the peers OID follows the affiliations OID |
| Registry.WalkEnds | dvmsnmp.py:125-133 | nothing follows the peers OID |
| Registry.WalkReplies | dvmsnmp.py:116-133 | getnext replies along a walk: status gives affiliations, affiliations gives peers, peers gives `NONE` |
| Registry.StringOrderIsNotArcOrder | dvmsnmp.py:127 | the order is on strings, so the successor of arc `.10` is arc `.2` |
| Engine.NextCommand | dvmsnmp.py:141-168 | the next command starts two lines on exactly when this one is a query with an OID line after it, and otherwise exactly one line on |
| Engine.Reply | dvmsnmp.py:141-169 | one command's output: nothing for a blank line; `PONG` for `PING` whatever the gate; the get or getnext reply for a query on the stripped next line; `NONE` otherwise; at most three lines |
| Engine.Serve | dvmsnmp.py:136-169 | the read-dispatch-write loop writes exactly the specified session output |
| Engine.SessionStep | dvmsnmp.py:140-169 | a session is the first command's reply followed by the session from the next command |
| Engine.ClosedGateIgnoresSource | dvmsnmp.py:94-97 | with the gate closed, the output does not depend on the REST answers |
| Engine.ClosedGateRevealsNothing | dvmsnmp.py:120-123 | with the gate closed, only `PONG`, `NONE` and the authentication failure lines are ever written |
| Engine.GateOnlyAffectsQueries | dvmsnmp.py:149-169 | on input without get or getnext, neither the gate nor the REST answers change the output |
| Engine.SkipsBlankLine | dvmsnmp.py:146-147 | a blank line is consumed and writes nothing |
| Engine.QueryConsumesOidLine | dvmsnmp.py:154-164 | a query consumes its stripped OID line, and the next command starts after it |
| Engine.BlankLinesWriteNothing | dvmsnmp.py:140-147 | once only blank or all-whitespace lines remain, nothing more is written |
| Engine.PaddedPingThenBlankLines | dvmsnmp.py:144-152 | a `PING` padded with any whitespace, followed only by blank lines, writes just `PONG`, gate open or closed |
| Engine.ClosedGateReply | dvmsnmp.py:94-97 | with the gate closed, a single command writes only `PONG`, `NONE` or the authentication failure lines |
| Engine.GetOfUnregistered | dvmsnmp.py:99-113 | with the gate open, a `get` for an unregistered OID writes `NONE`, and the next command starts after the OID line |
| Engine.OidLineIsNotACommand | dvmsnmp.py:154-156 | a `PING` on the line after `get` is looked up as an OID and answered `NONE`, not `PONG` |
| Engine.GetAtEndOfInput | dvmsnmp.py:155 | a `get` at end of input looks up the empty OID and answers `NONE` |
| Engine.GetNextAtEndOfInput | dvmsnmp.py:161 | a `getnext` at end of input asks about the empty OID and answers for the status OID |

## Left out

- Configuration loading (dvmsnmp.py:10-28) is not modelled. It reads a file and exits on errors, and its values are never used by the core.
- The REST client `dvmrest`, the `fne.auth()` call and the network are not modelled. The authentication result is the parameter `authFailed`, fixed for the session. Each REST answer is a `Fetch` supplied by a `Source`.
- The `except` branch of `handle_get` (dvmsnmp.py:107-111) is not modelled. The three providers catch every exception themselves, so the only thing that can reach it is a failure while writing the three lines inside the `try` (dvmsnmp.py:103-105); writing to standard output is not modelled.
- Standard-output flushing, and the reading of standard input, are left out. The model starts from the input already split into lines at `\n`, without the terminators. A `\r` before the `\n` stays in the line and is removed by `strip()`, which the model covers.
- Registry.Render: an integer payload is a `Decimal` line holding the number, not its decimal text. A string payload is one line even when the string holds a line break; `print` would write several lines.
- Providers.Describe: the wording of Python's exception messages is not modelled. Only the `Error: ` prefix followed by some description is.
- Reports.Json: JSON numbers are integers; floats are not modelled.
- Reports.ItemsForGet: iterating a non-empty dict or string fails on the first `.get`. The model therefore does not capture the order in which Python iterates them.
- Registry.SortedOids: `sorted()` is modelled by the fixed sorted list of the three OIDs, together with the proof that it is sorted and holds exactly the registered keys. A general sort is not modelled.
