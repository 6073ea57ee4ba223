/** The three-row example table, worked through the monitor's pipeline. */
module Sample {
  import opened Wrappers
  import opened DottedQuad
  import opened Extractor
  import opened Filter
  import opened Monitor

  /** The three remote addresses of the table are dotted quads. */
  lemma SampleQuads()
    ensures IsDottedQuad("93.184.216.34") && IsDottedQuad("192.168.1.1") && IsDottedQuad("127.0.0.1")
  {
    QuadOfGroups("93", "184", "216", "34");
    assert "93.184.216.34" == "93" + ['.'] + ("184" + ['.'] + ("216" + ['.'] + "34"));
    QuadOfGroups("192", "168", "1", "1");
    assert "192.168.1.1" == "192" + ['.'] + ("168" + ['.'] + ("1" + ['.'] + "1"));
    QuadOfGroups("127", "0", "0", "1");
    assert "127.0.0.1" == "127" + ['.'] + ("0" + ['.'] + ("0" + ['.'] + "1"));
  }

  /** One row of the table: a single line that yields its remote address. */
  lemma SampleRow(local: string, localPort: string, remote: string, remotePort: string, gap: string)
    requires IsDottedQuad(local) && IsDottedQuad(remote)
    requires AllDigits(localPort) && AllDigits(remotePort) && '.' !in gap && '\n' !in gap
    ensures var row := Row(local, localPort, remote, remotePort, gap);
      Remote(row) == Some(remote) && '\n' !in row
  {
    RowRemote(local, localPort, remote, remotePort, gap);
    RowIsOneLine(local, localPort, remote, remotePort, gap);
  }

  /**
   * Three established rows from one local address: whatever the addresses
   * and local ports, the table yields the three remote addresses in row order.
   */
  lemma TableOfThree(local: string, p1: string, p2: string, p3: string, r1: string, r2: string, r3: string)
    requires IsDottedQuad(local) && AllDigits(p1) && AllDigits(p2) && AllDigits(p3)
    requires IsDottedQuad(r1) && IsDottedQuad(r2) && IsDottedQuad(r3)
    ensures var table := Row(local, p1, r1, "443", "    ") + "\n"
                       + Row(local, p2, r2, "80", "       ") + "\n"
                       + Row(local, p3, r3, "8080", "       ");
      Extract(table) == [r1, r2, r3]
  {
    SampleRow(local, p1, r1, "443", "    ");
    SampleRow(local, p2, r2, "80", "       ");
    SampleRow(local, p3, r3, "8080", "       ");
    ThreeRows(Row(local, p1, r1, "443", "    "), Row(local, p2, r2, "80", "       "), Row(local, p3, r3, "8080", "       "));
  }

  /**
   * The table with one public peer, the gateway and the loopback yields the
   * three remote addresses in row order; only the public one is looked up,
   * and the pass does not end the program.
   */
  lemma SampleTable(local: string, p1: string, p2: string, p3: string,
                    public: string, gateway: string, loopback: string, lookup: string -> Lookup)
    requires IsDottedQuad(local) && AllDigits(p1) && AllDigits(p2) && AllDigits(p3)
    requires public == "93.184.216.34" && gateway == "192.168.1.1" && loopback == "127.0.0.1"
    ensures var table := Row(local, p1, public, "443", "    ") + "\n"
                       + Row(local, p2, gateway, "80", "       ") + "\n"
                       + Row(local, p3, loopback, "8080", "       ");
      && Extract(table) == [public, gateway, loopback]
      && Cycle(Some(table), lookup).Refreshed?
      && Cycle(Some(table), lookup).lookedUp == [public]
      && Cycle(Some(table), lookup).output == [FETCHING, HEADER] + LookupLines(public, lookup(public)) + [PROMPT]
  {
    SampleQuads();
    TableOfThree(local, p1, p2, p3, public, gateway, loopback);
    SampleCycle(Row(local, p1, public, "443", "    ") + "\n"
              + Row(local, p2, gateway, "80", "       ") + "\n"
              + Row(local, p3, loopback, "8080", "       "), lookup);
  }

  /** A table that yields these three addresses looks up only the public one and does not end the program. */
  lemma SampleCycle(table: string, lookup: string -> Lookup)
    requires Extract(table) == ["93.184.216.34", "192.168.1.1", "127.0.0.1"]
    ensures Cycle(Some(table), lookup).Refreshed?
    ensures Cycle(Some(table), lookup).lookedUp == ["93.184.216.34"]
    ensures Cycle(Some(table), lookup).output
         == [FETCHING, HEADER] + LookupLines("93.184.216.34", lookup("93.184.216.34")) + [PROMPT]
  {
    assert Candidates(["93.184.216.34", "192.168.1.1", "127.0.0.1"]) == ["93.184.216.34"];
    SingleCandidateReport(Extract(table), "93.184.216.34", lookup);
  }

}
