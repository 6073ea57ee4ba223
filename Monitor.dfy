/**
 * One pass of the monitor's main loop: fetch the established connections,
 * look each interesting remote address up, and print what came back.
 */
module Monitor {
  import opened Wrappers
  import opened IpInfo
  import opened Extractor
  import opened Filter
  import opened Display
  import opened DottedQuad
  import opened Text

  /** What GetIpInfo comes back with for one address. */
  datatype Lookup =
    | Found(info: Record)        // success status; the body parsed as a JSON object
    | NotFound                   // any other status: no data and nothing printed
    | Failed(message: string)    // an exception; its message is printed

  const FETCHING := "Fetching active connections..."
  const NONE_FOUND := "No active connections found."
  const HEADER := "Active connections and their details:"
  const PROMPT := "Press a key to refresh"

  /** The error line GetIpInfo prints when the lookup throws: it names the address and ends with the message. */
  function ErrorLine(ip: string, message: string): (line: string)
    ensures "Error fetching data for IP " + ip <= line
    ensures |message| <= |line| && line[|line| - |message|..] == message
  {
    "Error fetching data for IP " + ip + ": " + message
  }

  /**
   * The lines one looked-up address contributes to the report: nothing for a
   * non-success answer or a record whose "ip" field is absent or filtered,
   * one error line for a failure, and a ten-line record headed by its own
   * address otherwise.
   */
  function LookupLines(ip: string, answer: Lookup): (lines: seq<string>)
    ensures lines == [] <==>
      answer.NotFound? || (answer.Found? && !("ip" in answer.info && !IsInvalidIp(answer.info["ip"])))
    ensures answer.Failed? ==> |lines| == 1 && "Error fetching data for IP " + ip <= lines[0]
    ensures answer.Found? && lines != [] ==>
      |lines| == 10 && lines[0] == "IP: " + answer.info["ip"] && lines[9] == SEPARATOR
  {
    match answer
    case Found(info) => if KeepRecord(info) then Render(info) else []
    case NotFound => []
    case Failed(message) => [ErrorLine(ip, message)]
  }

  /**
   * The report for the connections, in their order: a filtered address is
   * skipped without a lookup, any other one contributes its lookup's lines.
   */
  function Report(connections: seq<string>, lookup: string -> Lookup): seq<string>
    decreases |connections|
  {
    if connections == [] then []
    else
      var ip := connections[|connections| - 1];
      Report(connections[..|connections| - 1], lookup)
        + (if IsInvalidIp(ip) then [] else LookupLines(ip, lookup(ip)))
  }

  /**
   * The foreach over the connections: returns the addresses it looked up, in
   * order, and the lines it printed.
   */
  method ShowConnections(connections: seq<string>, lookup: string -> Lookup)
    returns (lookedUp: seq<string>, output: seq<string>)
    ensures lookedUp == Candidates(connections)
    ensures output == Report(connections, lookup)
  {
    lookedUp, output := [], [];
    for i := 0 to |connections|
      invariant lookedUp == Candidates(connections[..i])
      invariant output == Report(connections[..i], lookup)
    {
      var ip := connections[i];
      assert connections[..i + 1][..i] == connections[..i];
      if IsInvalidIp(ip) {
        continue;
      }
      lookedUp := lookedUp + [ip];
      var answer := lookup(ip);
      if answer.Failed? {
        output := output + [ErrorLine(ip, answer.message)];
        continue;
      }
      if answer.NotFound? {
        continue;
      }
      if !KeepRecord(answer.info) {
        continue;
      }
      output := output + Render(answer.info);
    }
    assert connections[..|connections|] == connections;
  }

  /** How one pass of the main loop ends. */
  datatype Outcome =
    | Exited(output: seq<string>)                            // no connections: Main returns
    | Refreshed(lookedUp: seq<string>, output: seq<string>)  // waits for a key, then runs again

  /** The connections a pass works on: none when netstat could not be started. */
  function Connections(captured: Option<string>): seq<string>
  {
    if captured.Some? then Extract(captured.value) else []
  }

  /** One pass, given netstat's captured output and the lookup service's answers. */
  function Cycle(captured: Option<string>, lookup: string -> Lookup): (outcome: Outcome)
    ensures outcome.Exited? <==> Connections(captured) == []
    ensures outcome.Refreshed? ==> outcome.lookedUp == Candidates(Connections(captured))
  {
    var connections := Connections(captured);
    if connections == [] then Exited([FETCHING, NONE_FOUND])
    else Refreshed(Candidates(connections), [FETCHING, HEADER] + Report(connections, lookup) + [PROMPT])
  }

  /** The body of Main's loop, one iteration. */
  method RunCycle(captured: Option<string>, lookup: string -> Lookup) returns (outcome: Outcome)
    ensures outcome == Cycle(captured, lookup)
    ensures outcome.Exited? <==> Connections(captured) == []
  {
    var connections := GetActiveConnections(captured);
    if |connections| == 0 {
      return Exited([FETCHING, NONE_FOUND]);
    }
    var lookedUp, report := ShowConnections(connections, lookup);
    outcome := Refreshed(lookedUp, [FETCHING, HEADER] + report + [PROMPT]);
  }

  /** The report is built connection by connection. */
  lemma {:induction false} ReportAppend(a: seq<string>, b: seq<string>, lookup: string -> Lookup)
    ensures Report(a + b, lookup) == Report(a, lookup) + Report(b, lookup)
    decreases |b|
  {
    if b == [] {
      assert a + b == a;
    } else {
      assert (a + b)[..|a + b| - 1] == a + b[..|b| - 1];
      ReportAppend(a, b[..|b| - 1], lookup);
    }
  }

  /** The report of a single connection. */
  lemma ReportOne(ip: string, lookup: string -> Lookup)
    ensures Report([ip], lookup) == if IsInvalidIp(ip) then [] else LookupLines(ip, lookup(ip))
  {
    assert [ip][..0] == [];
  }

  /** Only the candidates reach the report: filtering first changes nothing. */
  lemma {:induction false} ReportOfCandidates(connections: seq<string>, lookup: string -> Lookup)
    ensures Report(Candidates(connections), lookup) == Report(connections, lookup)
    decreases |connections|
  {
    if connections != [] {
      var init, ip := connections[..|connections| - 1], connections[|connections| - 1];
      ReportOfCandidates(init, lookup);
      var kept := if IsInvalidIp(ip) then [] else [ip];
      assert Candidates(connections) == Candidates(init) + kept;
      ReportAppend(Candidates(init), kept, lookup);
      ReportOne(ip, lookup);
      assert Report(kept, lookup) == if IsInvalidIp(ip) then [] else LookupLines(ip, lookup(ip));
    }
  }

  /**
   * A failed lookup does not stop the pass: it adds its one error line and
   * the connections after it are reported as if it had succeeded.
   */
  lemma FailureDoesNotStop(before: seq<string>, ip: string, after: seq<string>, lookup: string -> Lookup)
    requires !IsInvalidIp(ip) && lookup(ip).Failed?
    ensures Report(before + [ip] + after, lookup)
         == Report(before, lookup) + [ErrorLine(ip, lookup(ip).message)] + Report(after, lookup)
  {
    ReportAppend(before + [ip], after, lookup);
    ReportAppend(before, [ip], lookup);
    ReportOne(ip, lookup);
  }

  /**
   * An answer that prints nothing (a non-success status, or a record the
   * second check drops) leaves no trace: the connections around it are
   * reported as if it were not there.
   */
  lemma SilentAnswerLeavesNoTrace(before: seq<string>, ip: string, after: seq<string>, lookup: string -> Lookup)
    requires lookup(ip).NotFound? || (lookup(ip).Found? && !KeepRecord(lookup(ip).info))
    ensures Report(before + [ip] + after, lookup) == Report(before, lookup) + Report(after, lookup)
  {
    ReportAppend(before + [ip], after, lookup);
    ReportAppend(before, [ip], lookup);
    ReportOne(ip, lookup);
  }

  /** A kept answer inserts its ten-line record between the reports of its neighbours. */
  lemma KeptAnswerInsertsRecord(before: seq<string>, ip: string, after: seq<string>, lookup: string -> Lookup)
    requires !IsInvalidIp(ip) && lookup(ip).Found? && KeepRecord(lookup(ip).info)
    ensures Report(before + [ip] + after, lookup)
         == Report(before, lookup) + Render(lookup(ip).info) + Report(after, lookup)
  {
    ReportAppend(before + [ip], after, lookup);
    ReportAppend(before, [ip], lookup);
    ReportOne(ip, lookup);
  }

  /** When a single address survives the filter, the report is what its lookup yields. */
  lemma SingleCandidateReport(connections: seq<string>, ip: string, lookup: string -> Lookup)
    requires Candidates(connections) == [ip]
    ensures Report(connections, lookup) == LookupLines(ip, lookup(ip))
  {
    ReportOfCandidates(connections, lookup);
    CandidatesMembers(connections, ip);
    ReportOne(ip, lookup);
  }

  /**
   * Connections that are all filtered still make a pass that refreshes:
   * nothing is looked up and the report is empty, but Main does not return.
   */
  lemma OnlyFilteredStillRefreshes(captured: Option<string>, lookup: string -> Lookup)
    requires Connections(captured) != []
    requires forall ip :: ip in Connections(captured) ==> IsInvalidIp(ip)
    ensures Cycle(captured, lookup) == Refreshed([], [FETCHING, HEADER, PROMPT])
  {
    var connections := Connections(captured);
    NoCandidatesIff(connections);
    ReportOfCandidates(connections, lookup);
  }


  /**
   * Of the filter list, only the two IPv4 entries can ever meet an extracted
   * address: "::1" and "" are not dotted quads.
   */
  lemma ExtractedFilteredIff(output: string, ip: string)
    requires ip in Extract(output)
    ensures IsInvalidIp(ip) <==> ip == "127.0.0.1" || ip == "192.168.1.1"
  {
    ExtractedShape(output, ip);
  }

  /** A table without the marker anywhere ends the program after one pass. */
  lemma NoEstablishedExits(output: string, lookup: string -> Lookup)
    requires !Contains(output, MARKER)
    ensures Cycle(Some(output), lookup) == Exited([FETCHING, NONE_FOUND])
  {
    NoEstablishedNoConnections(output);
  }

}
