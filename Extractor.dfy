/**
 * The text-processing part of GetActiveConnections: the captured `netstat -n`
 * output is cut into lines at '\n', lines carrying the ESTABLISHED marker are
 * scanned for dotted quads, and the second quad of each such line (the remote
 * address) is collected in line order.
 */
module Extractor {
  import opened Wrappers
  import opened Text
  import opened DottedQuad

  /** The connection-state marker a line must contain, compared case-sensitively. */
  const MARKER := "ESTABLISHED"

  /** What one line contributes: the second match of a marked line that has at least two. */
  function Remote(line: string): Option<string>
  {
    if !Contains(line, MARKER) then None
    else
      var matches := Matches(line);
      if |matches| > 1 then Some(matches[1]) else None
  }

  /** The remote addresses of the lines, in line order. */
  function ExtractLines(lines: seq<string>): seq<string>
    decreases |lines|
  {
    if lines == [] then []
    else
      var last := lines[|lines| - 1];
      ExtractLines(lines[..|lines| - 1]) + (if Remote(last).Some? then [Remote(last).value] else [])
  }

  /** The remote addresses of a captured connection table. */
  function Extract(output: string): seq<string>
  {
    ExtractLines(Split(output, '\n'))
  }

  /**
   * GetActiveConnections after the process has run: `captured` is its standard
   * output, or None when no process could be started.
   */
  method GetActiveConnections(captured: Option<string>) returns (remoteIps: seq<string>)
    ensures remoteIps == if captured.Some? then Extract(captured.value) else []
  {
    remoteIps := [];
    if captured.Some? {
      var lines := Split(captured.value, '\n');
      for i := 0 to |lines|
        invariant remoteIps == ExtractLines(lines[..i])
      {
        var line := lines[i];
        assert lines[..i + 1][..i] == lines[..i];
        if Contains(line, MARKER) {
          var matches := Matches(line);
          if |matches| > 1 {
            remoteIps := remoteIps + [matches[1]];
          }
        }
      }
      assert lines[..|lines|] == lines;
    }
  }

  /** Extraction distributes over concatenation of line sequences: line order is kept. */
  lemma {:induction false} ExtractLinesAppend(a: seq<string>, b: seq<string>)
    ensures ExtractLines(a + b) == ExtractLines(a) + ExtractLines(b)
    decreases |b|
  {
    if b != [] {
      var last := b[|b| - 1];
      assert (a + b)[..|a + b| - 1] == a + b[..|b| - 1];
      ExtractLinesAppend(a, b[..|b| - 1]);
    } else {
      assert a + b == a;
    }
  }

  /**
   * A line in the middle contributes exactly its second match when it is
   * marked and has two or more matches, and nothing otherwise; the lines
   * around it contribute independently.
   */
  lemma SecondMatchWins(before: seq<string>, line: string, after: seq<string>)
    ensures ExtractLines(before + [line] + after) ==
      ExtractLines(before)
      + (if Contains(line, MARKER) && |Matches(line)| >= 2 then [Matches(line)[1]] else [])
      + ExtractLines(after)
  {
    ExtractLinesAppend(before + [line], after);
    ExtractLinesAppend(before, [line]);
    assert [line][..0] == [];
  }

  /** Each line contributes at most one address. */
  lemma {:induction false} ExtractLinesLength(lines: seq<string>)
    ensures |ExtractLines(lines)| <= |lines|
    decreases |lines|
  {
    if lines != [] {
      ExtractLinesLength(lines[..|lines| - 1]);
    }
  }

  /** Unmarked lines contribute nothing. */
  lemma {:induction false} UnmarkedLinesContributeNothing(lines: seq<string>)
    requires forall k :: 0 <= k < |lines| ==> !Contains(lines[k], MARKER)
    ensures ExtractLines(lines) == []
    decreases |lines|
  {
    if lines != [] {
      UnmarkedLinesContributeNothing(lines[..|lines| - 1]);
    }
  }

  /** A connection table without the marker anywhere yields no address. */
  lemma NoEstablishedNoConnections(output: string)
    requires !Contains(output, MARKER)
    ensures Extract(output) == []
  {
    var lines := Split(output, '\n');
    JoinSplit(output, '\n');
    forall k | 0 <= k < |lines|
      ensures !Contains(lines[k], MARKER)
    {
      if Contains(lines[k], MARKER) {
        ContainsPiece(lines, '\n', k, MARKER);
      }
    }
    UnmarkedLinesContributeNothing(lines);
  }

  /** Every extracted address is the second match of some marked line of the input. */
  lemma {:induction false} ExtractLinesOrigin(lines: seq<string>, ip: string)
    requires ip in ExtractLines(lines)
    ensures exists k :: 0 <= k < |lines| && Remote(lines[k]) == Some(ip)
    decreases |lines|
  {
    var n := |lines| - 1;
    var init := lines[..n];
    if ip in ExtractLines(init) {
      ExtractLinesOrigin(init, ip);
      var k :| 0 <= k < |init| && Remote(init[k]) == Some(ip);
      assert lines[k] == init[k];
    } else {
      assert Remote(lines[n]) == Some(ip);
    }
  }

  /**
   * The shape of every extracted address: a dotted quad, so at least seven
   * characters, never empty and never the IPv6 loopback "::1".
   */
  lemma ExtractedShape(output: string, ip: string)
    requires ip in Extract(output)
    ensures IsDottedQuad(ip) && |ip| >= 7
    ensures ip != "" && ip != "::1"
  {
    var lines := Split(output, '\n');
    ExtractLinesOrigin(lines, ip);
    var k :| 0 <= k < |lines| && Remote(lines[k]) == Some(ip);
    MatchesShape(lines[k]);
    DottedQuadLength(ip);
  }


  /**
   * One row of the connection table as netstat prints it: protocol, local
   * address and port, remote address and port, then the state after `gap`.
   */
  function Row(local: string, localPort: string, remote: string, remotePort: string, gap: string): string
  {
    "TCP    " + local + (":" + localPort + "    ") + remote + (":" + remotePort + gap + MARKER)
  }

  /**
   * Ports are never part of an address: an established row whose two
   * addresses are dotted quads and whose ports are digits yields its remote
   * address, without the port.
   */
  lemma RowRemote(local: string, localPort: string, remote: string, remotePort: string, gap: string)
    requires IsDottedQuad(local) && IsDottedQuad(remote)
    requires AllDigits(localPort) && AllDigits(remotePort) && '.' !in gap
    ensures Remote(Row(local, localPort, remote, remotePort, gap)) == Some(remote)
  {
    var mid := ":" + localPort + "    ";
    var post := ":" + remotePort + gap + MARKER;
    DigitsHaveNoDot(localPort);
    DigitsHaveNoDot(remotePort);
    assert '.' !in mid && '.' !in post;
    MatchesOfConnectionLine("TCP    ", local, mid, remote, post);
    ContainsRight(":" + remotePort + gap, MARKER, MARKER);
    var line := Row(local, localPort, remote, remotePort, gap);
    assert line == "TCP    " + local + mid + remote + post;
    ContainsRight("TCP    " + local + mid + remote, post, MARKER);
  }

  /** A row is a single line. */
  lemma RowIsOneLine(local: string, localPort: string, remote: string, remotePort: string, gap: string)
    requires IsDottedQuad(local) && IsDottedQuad(remote)
    requires AllDigits(localPort) && AllDigits(remotePort) && '\n' !in gap
    ensures '\n' !in Row(local, localPort, remote, remotePort, gap)
  {
    QuadHasNoNewline(local);
    QuadHasNoNewline(remote);
  }

  lemma QuadHasNoNewline(t: string)
    requires IsDottedQuad(t)
    ensures '\n' !in t
  {
    var g0, g1, g2, g3 := QuadGroups(t);
  }

  /** A table of three rows, one per line, yields the rows' addresses in order. */
  lemma ThreeRows(r1: string, r2: string, r3: string)
    requires '\n' !in r1 && '\n' !in r2 && '\n' !in r3
    requires Remote(r1).Some? && Remote(r2).Some? && Remote(r3).Some?
    ensures Extract(r1 + "\n" + r2 + "\n" + r3) == [Remote(r1).value, Remote(r2).value, Remote(r3).value]
  {
    var rows := [r1, r2, r3];
    SplitJoin(rows, '\n');
    assert rows[1..][1..] == [r3];
    assert Join(rows[1..], '\n') == r2 + ['\n'] + r3;
    assert Join(rows, '\n') == r1 + ['\n'] + (r2 + ['\n'] + r3);
    assert r1 + ['\n'] + (r2 + ['\n'] + r3) == r1 + "\n" + r2 + "\n" + r3;
    assert Split(r1 + "\n" + r2 + "\n" + r3, '\n') == rows;
    assert [r1][..0] == [];
    assert ExtractLines([r1]) == [Remote(r1).value];
    assert [r1, r2][..1] == [r1];
    assert ExtractLines([r1, r2]) == [Remote(r1).value, Remote(r2).value];
    assert rows[..2] == [r1, r2];
  }

}
