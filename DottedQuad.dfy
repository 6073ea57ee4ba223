/**
 * The address pattern `\d+\.\d+\.\d+\.\d+` and the way the regex engine scans a
 * line for it (Regex.Matches): try each position from left to right, take the
 * match found there, and resume the scan where that match ends.
 */
module DottedQuad {
  import opened Wrappers
  import opened Text

  /** `\d`, read as the ASCII digits. */
  predicate IsDigit(c: char) {
    '0' <= c <= '9'
  }

  predicate AllDigits(t: string) {
    forall k :: 0 <= k < |t| ==> IsDigit(t[k])
  }

  /**
   * What the pattern accepts as a whole: exactly four '.'-separated groups,
   * each a non-empty run of digits. No range check on the groups.
   */
  predicate IsDottedQuad(t: string) {
    var groups := Split(t, '.');
    |groups| == 4 && forall k :: 0 <= k < 4 ==> groups[k] != [] && AllDigits(groups[k])
  }

  /** The end of the longest run of digits that starts at `i`. */
  function RunEnd(s: string, i: nat): (k: nat)
    requires i <= |s|
    ensures i <= k <= |s|
    ensures k == |s| || !IsDigit(s[k])
    decreases |s| - i
  {
    if i < |s| && IsDigit(s[i]) then RunEnd(s, i + 1) else i
  }

  /** The run is made of digits only. */
  lemma {:induction false} RunEndDigits(s: string, i: nat)
    requires i <= |s|
    ensures AllDigits(s[i..RunEnd(s, i)])
    decreases |s| - i
  {
    if i < |s| && IsDigit(s[i]) {
      RunEndDigits(s, i + 1);
      var k := RunEnd(s, i);
      assert s[i..k] == [s[i]] + s[i + 1..k];
    }
  }

  /** The run goes at least as far as the digits do. */
  lemma {:induction false} RunEndReaches(s: string, i: nat, e: nat)
    requires i <= e <= |s|
    requires forall j :: i <= j < e ==> IsDigit(s[j])
    ensures e <= RunEnd(s, i)
    decreases e - i
  {
    if i < e {
      RunEndReaches(s, i + 1, e);
    }
  }

  /** The run stops at the first non-digit. */
  lemma {:induction false} RunEndBefore(s: string, i: nat, m: nat)
    requires i <= m < |s| && !IsDigit(s[m])
    ensures RunEnd(s, i) <= m
    decreases m - i
  {
    if i < m && IsDigit(s[i]) {
      RunEndBefore(s, i + 1, m);
    }
  }

  /** Digits up to a non-digit or the end of the line: that is where the run ends. */
  lemma RunEndStopsAt(s: string, i: nat, e: nat)
    requires i <= e <= |s|
    requires forall j :: i <= j < e ==> IsDigit(s[j])
    requires e == |s| || !IsDigit(s[e])
    ensures RunEnd(s, i) == e
  {
    RunEndReaches(s, i, e);
    if e < |s| {
      RunEndBefore(s, i, e);
    }
  }

  /**
   * The end of the match the engine finds when it tries position `i`. Each
   * `\d+` but the last is followed by a literal '.', which is not a digit, so
   * backtracking into a shorter run never helps: the first three groups are
   * maximal runs, and the greedy last group is maximal too.
   */
  function MatchAt(s: string, i: nat): (r: Option<nat>)
    requires i <= |s|
    ensures r.Some? ==> i < r.value <= |s|
  {
    var a := RunEnd(s, i);
    if a == i || a == |s| || s[a] != '.' then None
    else
      var b := RunEnd(s, a + 1);
      if b == a + 1 || b == |s| || s[b] != '.' then None
      else
        var c := RunEnd(s, b + 1);
        if c == b + 1 || c == |s| || s[c] != '.' then None
        else
          var d := RunEnd(s, c + 1);
          if d == c + 1 then None else Some(d)
  }

  /** No match can be found at any position in [lo, hi). */
  predicate NoMatchIn(s: string, lo: nat, hi: nat)
    requires hi <= |s|
  {
    forall j :: lo <= j < hi ==> MatchAt(s, j).None?
  }

  datatype Span = Span(start: nat, end: nat)

  /**
   * The successive matches of a scan that starts at `p`: each one is the match
   * found at its start, they lie left to right and no two overlap.
   */
  function MatchSpans(s: string, p: nat): (r: seq<Span>)
    requires p <= |s|
    ensures forall k :: 0 <= k < |r| ==> p <= r[k].start < r[k].end <= |s|
    ensures forall k :: 0 < k < |r| ==> r[k - 1].end <= r[k].start
    decreases |s| - p
  {
    if p == |s| then []
    else
      match MatchAt(s, p)
      case Some(e) => [Span(p, e)] + MatchSpans(s, e)
      case None => MatchSpans(s, p + 1)
  }

  /** Each span of the scan is the match the engine finds at its start. */
  lemma {:induction false} MatchSpansHit(s: string, p: nat, k: nat)
    requires p <= |s| && k < |MatchSpans(s, p)|
    ensures MatchAt(s, MatchSpans(s, p)[k].start) == Some(MatchSpans(s, p)[k].end)
    decreases |s| - p
  {
    match MatchAt(s, p)
    case Some(e) =>
      if k > 0 {
        MatchSpansHit(s, e, k - 1);
      }
    case None =>
      MatchSpansHit(s, p + 1, k);
  }

  /** Nothing matches before the first match of the scan, nor anywhere when there is none. */
  lemma {:induction false} MatchSpansFirst(s: string, p: nat)
    requires p <= |s|
    ensures MatchSpans(s, p) == [] ==> NoMatchIn(s, p, |s|)
    ensures MatchSpans(s, p) != [] ==> NoMatchIn(s, p, MatchSpans(s, p)[0].start)
    decreases |s| - p
  {
    if p < |s| && MatchAt(s, p).None? {
      MatchSpansFirst(s, p + 1);
    }
  }

  /** Nothing matches between two consecutive matches of the scan. */
  lemma {:induction false} MatchSpansGaps(s: string, p: nat, k: nat)
    requires p <= |s|
    requires 0 < k < |MatchSpans(s, p)|
    ensures NoMatchIn(s, MatchSpans(s, p)[k - 1].end, MatchSpans(s, p)[k].start)
    decreases |s| - p
  {
    var r := MatchSpans(s, p);
    if MatchAt(s, p).None? {
      MatchSpansGaps(s, p + 1, k);
    } else {
      var e := MatchAt(s, p).value;
      var rest := MatchSpans(s, e);
      assert r == [Span(p, e)] + rest;
      if k == 1 {
        MatchSpansFirst(s, e);
      } else {
        MatchSpansGaps(s, e, k - 1);
      }
    }
  }

  /** Nothing matches after the last match of the scan. */
  lemma {:induction false} MatchSpansLast(s: string, p: nat)
    requires p <= |s|
    requires MatchSpans(s, p) != []
    ensures NoMatchIn(s, MatchSpans(s, p)[|MatchSpans(s, p)| - 1].end, |s|)
    decreases |s| - p
  {
    var r := MatchSpans(s, p);
    if MatchAt(s, p).None? {
      MatchSpansLast(s, p + 1);
    } else {
      var e := MatchAt(s, p).value;
      var rest := MatchSpans(s, e);
      assert r == [Span(p, e)] + rest;
      if rest == [] {
        MatchSpansFirst(s, e);
      } else {
        MatchSpansLast(s, e);
        assert r[|r| - 1] == rest[|rest| - 1];
      }
    }
  }

  /** The scan passes over a stretch without matches. */
  lemma {:induction false} MatchSpansSkip(s: string, p: nat, q: nat)
    requires p <= q <= |s|
    requires NoMatchIn(s, p, q)
    ensures MatchSpans(s, p) == MatchSpans(s, q)
    decreases q - p
  {
    if p < q {
      MatchSpansSkip(s, p + 1, q);
    }
  }

  /**
   * No match starts inside a stretch without '.' that ends the line or ends
   * in a non-digit: every digit run starting there stops inside the stretch,
   * at a character that is not '.'.
   */
  lemma NoMatchInStretch(s: string, lo: nat, hi: nat)
    requires lo <= hi <= |s|
    requires forall j :: lo <= j < hi ==> s[j] != '.'
    requires hi == lo || hi == |s| || !IsDigit(s[hi - 1])
    ensures NoMatchIn(s, lo, hi)
  {
    forall j | lo <= j < hi
      ensures MatchAt(s, j).None?
    {
      if hi < |s| {
        RunEndBefore(s, j, hi - 1);
      }
    }
  }

  /** The matched texts of Regex.Matches, in order. */
  function Matches(s: string): (ms: seq<string>)
  {
    var spans := MatchSpans(s, 0);
    seq(|spans|, k requires 0 <= k < |spans| => s[spans[k].start..spans[k].end])
  }

  lemma DigitsHaveNoDot(t: string)
    requires AllDigits(t)
    ensures '.' !in t
  {
  }

  /** Cutting a slice around a '.' inside it. */
  lemma SliceAroundDot(s: string, i: nat, a: nat, e: nat)
    requires i <= a < e <= |s| && s[a] == '.'
    ensures s[i..e] == s[i..a] + ['.'] + s[a + 1..e]
  {
  }

  /** Four non-empty digit groups joined by dots make a dotted quad. */
  lemma QuadOfGroups(g0: string, g1: string, g2: string, g3: string)
    requires g0 != [] && g1 != [] && g2 != [] && g3 != []
    requires AllDigits(g0) && AllDigits(g1) && AllDigits(g2) && AllDigits(g3)
    ensures IsDottedQuad(g0 + ['.'] + (g1 + ['.'] + (g2 + ['.'] + g3)))
  {
    DigitsHaveNoDot(g0);
    DigitsHaveNoDot(g1);
    DigitsHaveNoDot(g2);
    DigitsHaveNoDot(g3);
    SplitWithoutSeparator(g3, '.');
    SplitAtFirstSeparator(g2, '.', g3);
    SplitAtFirstSeparator(g1, '.', g2 + ['.'] + g3);
    SplitAtFirstSeparator(g0, '.', g1 + ['.'] + (g2 + ['.'] + g3));
    assert Split(g0 + ['.'] + (g1 + ['.'] + (g2 + ['.'] + g3)), '.') == [g0, g1, g2, g3];
  }

  /** The three dots and the four digit runs of a match found at `i`. */
  lemma MatchAtParts(s: string, i: nat) returns (a: nat, b: nat, c: nat, d: nat)
    requires i <= |s| && MatchAt(s, i).Some?
    ensures i < a < |s| && a == RunEnd(s, i) && s[a] == '.'
    ensures a + 1 < b < |s| && b == RunEnd(s, a + 1) && s[b] == '.'
    ensures b + 1 < c < |s| && c == RunEnd(s, b + 1) && s[c] == '.'
    ensures c + 1 < d <= |s| && d == RunEnd(s, c + 1) && MatchAt(s, i) == Some(d)
  {
    a := RunEnd(s, i);
    b := RunEnd(s, a + 1);
    c := RunEnd(s, b + 1);
    d := RunEnd(s, c + 1);
  }

  /** A match found at `i` is a dotted quad, and it stops where the digits stop. */
  lemma MatchAtSound(s: string, i: nat)
    requires i <= |s|
    requires MatchAt(s, i).Some?
    ensures IsDottedQuad(s[i..MatchAt(s, i).value])
    ensures MatchAt(s, i).value == |s| || !IsDigit(s[MatchAt(s, i).value])
  {
    var a, b, c, d := MatchAtParts(s, i);
    RunEndDigits(s, i);
    RunEndDigits(s, a + 1);
    RunEndDigits(s, b + 1);
    RunEndDigits(s, c + 1);
    QuadOfSlice(s, i, a, b, c, d);
  }

  /** A slice cut by three dots into four non-empty digit groups is a dotted quad. */
  lemma QuadOfSlice(s: string, i: nat, a: nat, b: nat, c: nat, d: nat)
    requires i < a && a + 1 < b && b + 1 < c && c + 1 < d <= |s|
    requires s[a] == '.' && s[b] == '.' && s[c] == '.'
    requires AllDigits(s[i..a]) && AllDigits(s[a + 1..b]) && AllDigits(s[b + 1..c]) && AllDigits(s[c + 1..d])
    ensures IsDottedQuad(s[i..d])
  {
    SliceAroundDot(s, b + 1, c, d);
    SliceAroundDot(s, a + 1, b, d);
    SliceAroundDot(s, i, a, d);
    QuadOfGroups(s[i..a], s[a + 1..b], s[b + 1..c], s[c + 1..d]);
  }

  /** Where a digit group followed by '.' starts, the digit run ends at the '.'. */
  lemma RunEndAtDot(s: string, i: nat, g: string)
    requires i + |g| < |s|
    requires s[i..i + |g|] == g && AllDigits(g)
    requires s[i + |g|] == '.'
    ensures RunEnd(s, i) == i + |g|
  {
    DigitsOfSlice(s, i, i + |g|);
    RunEndStopsAt(s, i, i + |g|);
  }

  /** The four digit groups of a dotted quad, with the dots between them. */
  lemma QuadGroups(t: string) returns (g0: string, g1: string, g2: string, g3: string)
    requires IsDottedQuad(t)
    ensures t == g0 + ['.'] + (g1 + ['.'] + (g2 + ['.'] + g3))
    ensures g0 != [] && g1 != [] && g2 != [] && g3 != []
    ensures AllDigits(g0) && AllDigits(g1) && AllDigits(g2) && AllDigits(g3)
  {
    var g := Split(t, '.');
    JoinSplit(t, '.');
    assert g[1..][1..][1..] == [g[3]];
    assert Join(g[1..][1..], '.') == g[2] + ['.'] + g[3];
    assert Join(g[1..], '.') == g[1] + ['.'] + (g[2] + ['.'] + g[3]);
    g0, g1, g2, g3 := g[0], g[1], g[2], g[3];
  }

  /** A slice of digits, read position by position. */
  lemma DigitsOfSlice(s: string, lo: nat, hi: nat)
    requires lo <= hi <= |s| && AllDigits(s[lo..hi])
    ensures forall j :: lo <= j < hi ==> IsDigit(s[j])
  {
    forall j | lo <= j < hi
      ensures IsDigit(s[j])
    {
      assert s[j] == s[lo..hi][j - lo];
    }
  }

  /** A digit group followed by '.' at `i`: the engine's digit run stops at that '.'. */
  lemma GroupAtDot(s: string, i: nat, e: nat, g: string, rest: string)
    requires i <= e <= |s|
    requires s[i..e] == g + ['.'] + rest
    requires g != [] && AllDigits(g)
    ensures i < i + |g| < e && RunEnd(s, i) == i + |g| && s[i + |g|] == '.'
    ensures s[i + |g| + 1..e] == rest
  {
    assert s[i..e][..|g|] == g;
    assert s[i..e][|g|] == '.';
    assert s[i..e][|g| + 1..] == rest;
    assert s[i..i + |g|] == g;
    RunEndAtDot(s, i, g);
  }

  /**
   * Where four digit groups joined by dots start at `i`, the first three digit
   * runs of the engine's attempt end at the three dots, and the last group is
   * a digit run.
   */
  lemma QuadRuns(s: string, i: nat, e: nat, g0: string, g1: string, g2: string, g3: string)
    returns (a: nat, b: nat, c: nat)
    requires i <= e <= |s|
    requires s[i..e] == g0 + ['.'] + (g1 + ['.'] + (g2 + ['.'] + g3))
    requires g0 != [] && g1 != [] && g2 != [] && g3 != []
    requires AllDigits(g0) && AllDigits(g1) && AllDigits(g2) && AllDigits(g3)
    ensures i < a && a + 1 < b && b + 1 < c && c + 1 < e
    ensures RunEnd(s, i) == a && s[a] == '.'
    ensures RunEnd(s, a + 1) == b && s[b] == '.'
    ensures RunEnd(s, b + 1) == c && s[c] == '.'
    ensures forall j :: c + 1 <= j < e ==> IsDigit(s[j])
  {
    GroupAtDot(s, i, e, g0, g1 + ['.'] + (g2 + ['.'] + g3));
    a := i + |g0|;
    b, c := TripleRuns(s, a + 1, e, g1, g2, g3);
  }

  /** The last three groups of a dotted quad: two digit runs ending at dots, then digits. */
  lemma TripleRuns(s: string, i: nat, e: nat, g1: string, g2: string, g3: string)
    returns (b: nat, c: nat)
    requires i <= e <= |s|
    requires s[i..e] == g1 + ['.'] + (g2 + ['.'] + g3)
    requires g1 != [] && g2 != [] && g3 != []
    requires AllDigits(g1) && AllDigits(g2) && AllDigits(g3)
    ensures i < b && b + 1 < c && c + 1 < e
    ensures RunEnd(s, i) == b && s[b] == '.'
    ensures RunEnd(s, b + 1) == c && s[c] == '.'
    ensures forall j :: c + 1 <= j < e ==> IsDigit(s[j])
  {
    GroupAtDot(s, i, e, g1, g2 + ['.'] + g3);
    b := i + |g1|;
    c := PairRuns(s, b + 1, e, g2, g3);
  }

  /** The last two groups of a dotted quad: a digit run ending at a dot, then digits. */
  lemma PairRuns(s: string, i: nat, e: nat, g2: string, g3: string) returns (c: nat)
    requires i <= e <= |s|
    requires s[i..e] == g2 + ['.'] + g3
    requires g2 != [] && g3 != [] && AllDigits(g2) && AllDigits(g3)
    ensures i < c && c + 1 < e
    ensures RunEnd(s, i) == c && s[c] == '.'
    ensures forall j :: c + 1 <= j < e ==> IsDigit(s[j])
  {
    GroupAtDot(s, i, e, g2, g3);
    c := i + |g2|;
    DigitsOfSlice(s, c + 1, e);
  }

  /**
   * Every dotted quad that starts at `i` ends no later than the match the
   * engine finds there: so there is a match at `i` exactly when some dotted
   * quad starts there, and it is the longest one (the greedy choice).
   */
  lemma MatchAtLongest(s: string, i: nat, e: nat)
    requires i <= e <= |s|
    requires IsDottedQuad(s[i..e])
    ensures MatchAt(s, i).Some? && e <= MatchAt(s, i).value
  {
    var g0, g1, g2, g3 := QuadGroups(s[i..e]);
    var a, b, c := QuadRuns(s, i, e, g0, g1, g2, g3);
    RunEndReaches(s, c + 1, e);
  }

  /** A dotted quad at `i` that the digits do not continue past is exactly the match found there. */
  lemma MatchAtExact(s: string, i: nat, e: nat)
    requires i <= e <= |s|
    requires IsDottedQuad(s[i..e])
    requires e == |s| || !IsDigit(s[e])
    ensures MatchAt(s, i) == Some(e)
  {
    var g0, g1, g2, g3 := QuadGroups(s[i..e]);
    var a, b, c := QuadRuns(s, i, e, g0, g1, g2, g3);
    RunEndStopsAt(s, c + 1, e);
  }

  /** There is no match at `i` exactly when no dotted quad starts at `i`. */
  lemma NoMatchAtMeansNoQuad(s: string, i: nat, e: nat)
    requires i <= e <= |s|
    requires MatchAt(s, i).None?
    ensures !IsDottedQuad(s[i..e])
  {
    if IsDottedQuad(s[i..e]) {
      MatchAtLongest(s, i, e);
    }
  }

  /** Every matched text is a dotted quad and is followed by a non-digit or the end of the line. */
  lemma {:induction false} MatchesShape(s: string)
    ensures |Matches(s)| == |MatchSpans(s, 0)|
    ensures forall k :: 0 <= k < |Matches(s)| ==> IsDottedQuad(Matches(s)[k])
    ensures forall k :: 0 <= k < |MatchSpans(s, 0)| ==>
      var end := MatchSpans(s, 0)[k].end;
      end == |s| || !IsDigit(s[end])
  {
    var spans := MatchSpans(s, 0);
    forall k | 0 <= k < |spans|
      ensures IsDottedQuad(Matches(s)[k])
      ensures spans[k].end == |s| || !IsDigit(s[spans[k].end])
    {
      MatchSpansHit(s, 0, k);
      MatchAtSound(s, spans[k].start);
    }
  }

  /** A dotted quad has at least seven characters: four digits and three dots. */
  lemma DottedQuadLength(t: string)
    requires IsDottedQuad(t)
    ensures |t| >= 7
  {
    var g0, g1, g2, g3 := QuadGroups(t);
  }

  /** A dot-free piece of the line that ends it or ends in a non-digit holds no match. */
  lemma NoMatchInPiece(s: string, lo: nat, piece: string)
    requires lo + |piece| <= |s| && s[lo..lo + |piece|] == piece
    requires '.' !in piece
    requires piece == [] || lo + |piece| == |s| || !IsDigit(piece[|piece| - 1])
    ensures NoMatchIn(s, lo, lo + |piece|)
  {
    forall j | lo <= j < lo + |piece|
      ensures s[j] != '.'
    {
      assert s[j] == piece[j - lo];
    }
    if piece != [] {
      assert s[lo + |piece| - 1] == piece[|piece| - 1];
    }
    NoMatchInStretch(s, lo, lo + |piece|);
  }

  /** A scan that meets exactly two matches, with no match before, between or after them. */
  lemma TwoMatches(s: string, i1: nat, e1: nat, i2: nat, e2: nat, first: string, second: string)
    requires i1 <= e1 <= i2 <= e2 <= |s|
    requires s[i1..e1] == first && s[i2..e2] == second
    requires NoMatchIn(s, 0, i1) && MatchAt(s, i1) == Some(e1)
    requires NoMatchIn(s, e1, i2) && MatchAt(s, i2) == Some(e2)
    requires NoMatchIn(s, e2, |s|)
    ensures Matches(s) == [first, second]
  {
    MatchSpansSkip(s, e2, |s|);
    var last := MatchSpans(s, e2);
    assert last == [];
    MatchSpansSkip(s, e1, i2);
    var rest := MatchSpans(s, e1);
    assert rest == [Span(i2, e2)] + last;
    MatchSpansSkip(s, 0, i1);
    assert MatchSpans(s, 0) == [Span(i1, e1)] + rest;
  }

  /**
   * The scan of a line made of a dot-free piece, a dotted quad, a dot-free
   * piece, a dotted quad and a dot-free tail, each read off the line by
   * position, finds exactly the two quads.
   */
  lemma MatchesOfPieces(s: string, i1: nat, e1: nat, i2: nat, e2: nat,
                        pre: string, local: string, mid: string, remote: string, post: string)
    requires i1 == |pre| && e1 == i1 + |local| && i2 == e1 + |mid| && e2 == i2 + |remote| && |s| == e2 + |post|
    requires s[..i1] == pre && s[i1..e1] == local && s[e1..i2] == mid && s[i2..e2] == remote && s[e2..] == post
    requires '.' !in pre && (pre == [] || !IsDigit(pre[|pre| - 1]))
    requires IsDottedQuad(local) && IsDottedQuad(remote)
    requires '.' !in mid && mid != [] && !IsDigit(mid[0]) && !IsDigit(mid[|mid| - 1])
    requires '.' !in post && (post == [] || !IsDigit(post[0]))
    ensures Matches(s) == [local, remote]
  {
    LeadingQuad(s, i1, e1, i2, pre, local, mid);
    TrailingQuad(s, i2, e2, remote, post);
    TwoMatches(s, i1, e1, i2, e2, local, remote);
  }

  /** A dot-free start, a dotted quad, then a dot-free separator: the quad is the first match. */
  lemma LeadingQuad(s: string, i1: nat, e1: nat, i2: nat, pre: string, local: string, mid: string)
    requires i1 == |pre| && e1 == i1 + |local| && i2 == e1 + |mid| && i2 <= |s|
    requires s[..i1] == pre && s[i1..e1] == local && s[e1..i2] == mid
    requires '.' !in pre && (pre == [] || !IsDigit(pre[|pre| - 1]))
    requires IsDottedQuad(local)
    requires '.' !in mid && mid != [] && !IsDigit(mid[0]) && !IsDigit(mid[|mid| - 1])
    ensures NoMatchIn(s, 0, i1) && MatchAt(s, i1) == Some(e1) && NoMatchIn(s, e1, i2)
  {
    NoMatchInPiece(s, 0, pre);
    assert s[e1] == s[e1..i2][0];
    MatchAtExact(s, i1, e1);
    NoMatchInPiece(s, e1, mid);
  }

  /** A dotted quad, then a dot-free tail that does not start with a digit: the quad is the last match. */
  lemma TrailingQuad(s: string, i2: nat, e2: nat, remote: string, post: string)
    requires e2 == i2 + |remote| && |s| == e2 + |post|
    requires s[i2..e2] == remote && s[e2..] == post
    requires IsDottedQuad(remote)
    requires '.' !in post && (post == [] || !IsDigit(post[0]))
    ensures MatchAt(s, i2) == Some(e2) && NoMatchIn(s, e2, |s|)
  {
    if e2 < |s| {
      assert s[e2] == s[e2..][0];
    }
    MatchAtExact(s, i2, e2);
    NoMatchInPiece(s, e2, post);
  }

  /** The five pieces of a concatenation, read back by position. */
  lemma PiecesOfLine(pre: string, local: string, mid: string, remote: string, post: string)
    ensures var s := pre + local + mid + remote + post;
      && s[..|pre|] == pre
      && s[|pre|..|pre| + |local|] == local
      && s[|pre| + |local|..|pre| + |local| + |mid|] == mid
      && s[|pre| + |local| + |mid|..|pre| + |local| + |mid| + |remote|] == remote
      && s[|pre| + |local| + |mid| + |remote|..] == post
  {
  }

  /**
   * A line laid out as netstat prints a connection: text without dots, a
   * local dotted quad, a separator (a port, blanks) without dots that neither
   * starts nor ends with a digit, a remote dotted quad, and dot-free text that
   * does not start with a digit. The scan finds exactly the two quads: the
   * ports after them are not part of either match.
   */
  lemma MatchesOfConnectionLine(pre: string, local: string, mid: string, remote: string, post: string)
    requires '.' !in pre && (pre == [] || !IsDigit(pre[|pre| - 1]))
    requires IsDottedQuad(local) && IsDottedQuad(remote)
    requires '.' !in mid && mid != [] && !IsDigit(mid[0]) && !IsDigit(mid[|mid| - 1])
    requires '.' !in post && (post == [] || !IsDigit(post[0]))
    ensures Matches(pre + local + mid + remote + post) == [local, remote]
  {
    PiecesOfLine(pre, local, mid, remote, post);
    var i1 := |pre|;
    var e1 := i1 + |local|;
    var i2 := e1 + |mid|;
    var e2 := i2 + |remote|;
    MatchesOfPieces(pre + local + mid + remote + post, i1, e1, i2, e2, pre, local, mid, remote, post);
  }

}
