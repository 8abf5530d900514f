/** Which address a request is attributed to: the right-to-left walk over X-Forwarded-For. */
module ClientIp {
  import opened Prelude
  import opened Text

  type Addr = int
  type Prefix = Addr -> bool
  type Parser = string -> Option<Addr>

  /** Unparsable text is in no prefix, hence never trusted. */
  ghost predicate InSome(parse: Parser, prefixes: seq<Prefix>, host: string) {
    parse(host).Some? && exists i | 0 <= i < |prefixes| :: prefixes[i](parse(host).value)
  }

  method IsTrustedHost(parse: Parser, trusted: seq<Prefix>, host: string) returns (ok: bool)
    ensures ok <==> InSome(parse, trusted, host)
  {
    var addr := parse(host);
    if addr.None? {
      return false;
    }
    for i := 0 to |trusted|
      invariant forall j | 0 <= j < i :: !trusted[j](addr.value)
    {
      if trusted[i](addr.value) {
        return true;
      }
    }
    return false;
  }

  method IsAllowedClient(parse: Parser, allowed: seq<Prefix>, ip: string) returns (ok: bool)
    ensures ok <==> allowed == [] || InSome(parse, allowed, ip)
  {
    if allowed == [] {
      return true;
    }
    ok := IsTrustedHost(parse, allowed, ip);
  }

  /** The rightmost hop that is not trusted, if there is one. */
  ghost function RightmostUntrusted(parse: Parser, trusted: seq<Prefix>, hops: seq<string>): Option<string> {
    if hops == [] then None
    else
      var hop := TrimSpace(hops[|hops| - 1]);
      if !InSome(parse, trusted, hop) then Some(hop)
      else RightmostUntrusted(parse, trusted, hops[..|hops| - 1])
  }

  ghost function Resolved(parse: Parser, trusted: seq<Prefix>, peer: string, header: string): string {
    if !InSome(parse, trusted, peer) || header == "" then peer
    else match RightmostUntrusted(parse, trusted, Split(header))
      case Some(hop) => hop
      case None => peer
  }

  method ResolveClientIp(parse: Parser, trusted: seq<Prefix>, peer: string, header: string)
    returns (ip: string)
    ensures ip == Resolved(parse, trusted, peer, header)
  {
    var peerTrusted := IsTrustedHost(parse, trusted, peer);
    if !peerTrusted || header == "" {
      return peer;
    }
    var hops := Split(header);
    var i := |hops|;
    assert hops[..i] == hops;
    while i > 0
      invariant 0 <= i <= |hops|
      invariant RightmostUntrusted(parse, trusted, hops) == RightmostUntrusted(parse, trusted, hops[..i])
    {
      i := i - 1;
      var hop := TrimSpace(hops[i]);
      assert hops[..i + 1][..i] == hops[..i];
      var known := IsTrustedHost(parse, trusted, hop);
      if !known {
        return hop;
      }
    }
    return peer;
  }

  /** The walk's answer by position: an untrusted hop with only trusted hops to its right. */
  lemma {:induction false} RightmostIsRightmost(parse: Parser, trusted: seq<Prefix>, hops: seq<string>)
    ensures match RightmostUntrusted(parse, trusted, hops)
      case Some(hop) =>
        && !InSome(parse, trusted, hop)
        && exists i | 0 <= i < |hops| ::
             hop == TrimSpace(hops[i]) && forall j | i < j < |hops| :: InSome(parse, trusted, TrimSpace(hops[j]))
      case None => forall i | 0 <= i < |hops| :: InSome(parse, trusted, TrimSpace(hops[i]))
  {
    if hops != [] {
      var last := |hops| - 1;
      if InSome(parse, trusted, TrimSpace(hops[last])) {
        RightmostIsRightmost(parse, trusted, hops[..last]);
        var r := RightmostUntrusted(parse, trusted, hops[..last]);
        if r.Some? {
          var i :| 0 <= i < last && r.value == TrimSpace(hops[..last][i])
                   && forall j | i < j < last :: InSome(parse, trusted, TrimSpace(hops[..last][j]));
          assert r.value == TrimSpace(hops[i]);
          forall j | i < j < |hops| ensures InSome(parse, trusted, TrimSpace(hops[j])) {
            if j < last { assert hops[j] == hops[..last][j]; }
          }
        } else {
          forall i | 0 <= i < |hops| ensures InSome(parse, trusted, TrimSpace(hops[i])) {
            if i < last { assert hops[i] == hops[..last][i]; }
          }
        }
      } else {
        assert TrimSpace(hops[last]) == RightmostUntrusted(parse, trusted, hops).value;
      }
    }
  }

  /** Hop i is untrusted, and every hop to its right is trusted. */
  ghost predicate LastUntrusted(parse: Parser, trusted: seq<Prefix>, hops: seq<string>, i: int) {
    && 0 <= i < |hops| && !InSome(parse, trusted, TrimSpace(hops[i]))
    && forall j | i < j < |hops| :: InSome(parse, trusted, TrimSpace(hops[j]))
  }

  /** A trusted peer's request is attributed to that hop of its header, and every other request, even
      one with nothing but trusted hops, to the peer. */
  lemma ResolvedExactly(parse: Parser, trusted: seq<Prefix>, peer: string, header: string)
    ensures var (ip, hops) := (Resolved(parse, trusted, peer, header), Split(header));
      if InSome(parse, trusted, peer) && header != "" && exists i :: LastUntrusted(parse, trusted, hops, i)
      then exists i :: LastUntrusted(parse, trusted, hops, i) && ip == TrimSpace(hops[i])
      else ip == peer
  {
    var hops := Split(header);
    RightmostIsRightmost(parse, trusted, hops);
    var r := RightmostUntrusted(parse, trusted, hops);
    if r.Some? {
      var k :| 0 <= k < |hops| && r.value == TrimSpace(hops[k])
               && forall j | k < j < |hops| :: InSome(parse, trusted, TrimSpace(hops[j]));
      assert LastUntrusted(parse, trusted, hops, k);
    }
  }

  lemma {:induction false} WalkConcat(parse: Parser, trusted: seq<Prefix>, left: seq<string>, right: seq<string>)
    ensures RightmostUntrusted(parse, trusted, left + right)
         == if RightmostUntrusted(parse, trusted, right).Some?
            then RightmostUntrusted(parse, trusted, right)
            else RightmostUntrusted(parse, trusted, left)
  {
    if right == [] {
      assert left + right == left;
    } else {
      var last := |right| - 1;
      WalkConcat(parse, trusted, left, right[..last]);
      assert (left + right)[..|left + right| - 1] == left + right[..last];
      assert (left + right)[|left + right| - 1] == right[last];
    }
  }

  ghost predicate SomeUntrusted(parse: Parser, trusted: seq<Prefix>, hops: seq<string>) {
    exists i | 0 <= i < |hops| :: !InSome(parse, trusted, TrimSpace(hops[i]))
  }

  lemma WalkFindsUntrusted(parse: Parser, trusted: seq<Prefix>, hops: seq<string>)
    ensures RightmostUntrusted(parse, trusted, hops).Some? <==> SomeUntrusted(parse, trusted, hops)
  {
    RightmostIsRightmost(parse, trusted, hops);
  }

  lemma PrependHarmless(parse: Parser, trusted: seq<Prefix>, peer: string, header: string, text: string)
    requires InSome(parse, trusted, peer) ==> header != "" && SomeUntrusted(parse, trusted, Split(header))
    ensures Resolved(parse, trusted, peer, text + "," + header) == Resolved(parse, trusted, peer, header)
  {
    WalkFindsUntrusted(parse, trusted, Split(header));
    SplitConcat(text, header);
    WalkConcat(parse, trusted, Split(text), Split(header));
  }

  /** An empty hop is untrusted and is not the peer. */
  lemma PrependHarmful(parse: Parser, trusted: seq<Prefix>, peer: string, header: string)
    requires parse("").None? && InSome(parse, trusted, peer)
    requires header == "" || !SomeUntrusted(parse, trusted, Split(header))
    ensures Resolved(parse, trusted, peer, "" + "," + header) == "" != Resolved(parse, trusted, peer, header)
  {
    WalkFindsUntrusted(parse, trusted, Split(header));
    SplitConcat("", header);
    WalkConcat(parse, trusted, Split(""), Split(header));
    assert TrimSpace("") == "" && Split("") == [""];
    assert RightmostUntrusted(parse, trusted, [""]) == Some("");
  }

  /** A spoofer who can only prepend to the header changes nothing, whatever text is prepended,
      exactly when the peer is untrusted or some hop already there is. */
  lemma PrependNeverMatters(parse: Parser, trusted: seq<Prefix>, peer: string, header: string)
    requires parse("").None?
    ensures (forall text ::
               Resolved(parse, trusted, peer, text + "," + header) == Resolved(parse, trusted, peer, header))
       <==> !InSome(parse, trusted, peer) || (header != "" && SomeUntrusted(parse, trusted, Split(header)))
  {
    if InSome(parse, trusted, peer) && (header == "" || !SomeUntrusted(parse, trusted, Split(header))) {
      PrependHarmful(parse, trusted, peer, header);
    } else {
      forall text
        ensures Resolved(parse, trusted, peer, text + "," + header) == Resolved(parse, trusted, peer, header)
      {
        PrependHarmless(parse, trusted, peer, header, text);
      }
    }
  }
}
