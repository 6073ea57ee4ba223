/**
 * The fixed list of uninteresting addresses and the two places the program
 * consults it: before a lookup, on the extracted address, and after it, on the
 * "ip" field of the answer.
 */
module Filter {
  import opened IpInfo

  /** IPv4 loopback, the home gateway, IPv6 loopback and the empty string. */
  const FILTER_IPS: seq<string> := ["127.0.0.1", "192.168.1.1", "::1", ""]

  /** IsInvalidIp: membership in the filter list, by exact string equality. */
  predicate IsInvalidIp(ip: string)
  {
    ip in FILTER_IPS
  }

  /** The addresses Main looks up: the connections not in the filter list, in order. */
  function Candidates(ips: seq<string>): (c: seq<string>)
    ensures |c| <= |ips|
    decreases |ips|
  {
    if ips == [] then []
    else
      var init, last := ips[..|ips| - 1], ips[|ips| - 1];
      Candidates(init) + (if IsInvalidIp(last) then [] else [last])
  }

  /** An address is looked up exactly when it is among the connections and not filtered. */
  lemma {:induction false} CandidatesMembers(ips: seq<string>, ip: string)
    ensures ip in Candidates(ips) <==> ip in ips && !IsInvalidIp(ip)
    decreases |ips|
  {
    if ips != [] {
      var init, last := ips[..|ips| - 1], ips[|ips| - 1];
      CandidatesMembers(init, ip);
      assert ips == init + [last];
    }
  }

  /**
   * The check after the lookup: the answer's "ip" field, read as "" when it
   * is absent, must not be in the filter list. Since "" is in the list, an
   * answer without the field is dropped.
   */
  function KeepRecord(info: Record): (keep: bool)
    ensures keep <==> "ip" in info && !IsInvalidIp(info["ip"])
  {
    !IsInvalidIp(Field(info, "ip", ""))
  }

  /** Filtering works connection by connection and keeps their order. */
  lemma {:induction false} CandidatesAppend(a: seq<string>, b: seq<string>)
    ensures Candidates(a + b) == Candidates(a) + Candidates(b)
    decreases |b|
  {
    if b == [] {
      assert a + b == a;
    } else {
      assert (a + b)[..|a + b| - 1] == a + b[..|b| - 1];
      CandidatesAppend(a, b[..|b| - 1]);
    }
  }

  /** Filtering the candidates again changes nothing. */
  lemma {:induction false} CandidatesIdempotent(ips: seq<string>)
    ensures Candidates(Candidates(ips)) == Candidates(ips)
    decreases |ips|
  {
    if ips != [] {
      var init, last := ips[..|ips| - 1], ips[|ips| - 1];
      CandidatesIdempotent(init);
      var rest := if IsInvalidIp(last) then [] else [last];
      CandidatesAppend(Candidates(init), rest);
      if rest != [] {
        assert rest[..0] == [];
      }
    }
  }

  /** Nothing is looked up exactly when every connection is filtered. */
  lemma {:induction false} NoCandidatesIff(ips: seq<string>)
    ensures Candidates(ips) == [] <==> forall ip :: ip in ips ==> IsInvalidIp(ip)
    decreases |ips|
  {
    if ips != [] {
      var init, last := ips[..|ips| - 1], ips[|ips| - 1];
      assert ips == init + [last];
      NoCandidatesIff(init);
      CandidatesMembers(ips, last);
    }
  }

  /**
   * No deduplication: an address that is not filtered occurs among the
   * candidates exactly as often as among the connections.
   */
  lemma {:induction false} CandidatesKeepRepeats(ips: seq<string>, ip: string)
    ensures multiset(Candidates(ips))[ip] == if IsInvalidIp(ip) then 0 else multiset(ips)[ip]
    decreases |ips|
  {
    if ips != [] {
      var init, last := ips[..|ips| - 1], ips[|ips| - 1];
      CandidatesKeepRepeats(init, ip);
      assert ips == init + [last];
    }
  }

}
