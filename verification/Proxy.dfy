/** The client behind a request and its proxies: the forwarded hops are
    walked from the nearest to the farthest, past the proxies trusted. Reading
    an address from text, and a network's members, are parameters. */
module Proxy {
  import opened Base
  import opened Text
  import opened Address

  type Net = Ip -> bool

  type Parser = string -> Option<Ip>

  datatype TrustedProxies = TrustedProxies(nets: seq<Net>)
  {
    predicate BehindProxy() {
      nets != []
    }

    predicate Contains(ip: Ip)
      ensures forall i | 0 <= i < |nets| && nets[i](Canonical(ip)) :: Contains(ip)
    {
      exists i | 0 <= i < |nets| :: nets[i](Canonical(ip))
    }
  }

  /** An address, or an address and a port, read from text. */
  datatype Parsers = Parsers(address: Parser, addressAndPort: Parser)

  datatype ForwardedClient = ForwardedClient(ip: Ip, peer: Ip, viaProxy: bool, secure: bool)

  const FORWARDED_FOR := "x-forwarded-for"
  const FORWARDED_PROTO := "x-forwarded-proto"

  function ParseHop(parse: Parsers, hop: string): (ip: Option<Ip>)
    ensures ip.Some? ==> !IsMapped(ip.value)
    ensures parse.address(hop).Some? ==> ip == Some(Canonical(parse.address(hop).value))
    ensures parse.address(hop).None? ==>
              && ip.Some? == parse.addressAndPort(hop).Some?
              && (ip.Some? ==> ip.value == Canonical(parse.addressAndPort(hop).value))
  {
    match parse.address(hop)
    case Some(ip) => Some(Canonical(ip))
    case None =>
      match parse.addressAndPort(hop)
      case Some(ip) => Some(Canonical(ip))
      case None => None
  }

  function Entries(headers: seq<Header>, name: string): seq<string> {
    Map(Trim, List(headers, name, ','))
  }

  /** A hop is one of the proxies trusted. */
  predicate Skipped(proxies: TrustedProxies, parse: Parsers, hop: string) {
    var ip := ParseHop(parse, hop);
    ip.Some? && proxies.Contains(ip.value)
  }

  /** The client and its place among the hops (`None`: the peer): the
      rightmost hop that names no proxy we trust, or the one before it on the
      walk if that hop is no address. */
  function Rightmost(proxies: TrustedProxies, parse: Parsers, hops: seq<string>, passed: Ip, at: Option<nat>): (Ip,
      Option<nat>) {
    if hops == [] then (passed, at) else
    var last := |hops| - 1;
    match ParseHop(parse, hops[last])
    case None => (passed, at)
    case Some(ip) =>
      if proxies.Contains(ip) then Rightmost(proxies, parse, hops[..last], ip, Some(last)) else (ip, Some(last))
  }

  function EqualsIgnoringCase(a: string, b: string): bool {
    Lower(a) == Lower(b)
  }

  /** The word on the client's own connection: the entry in its hop's place
      when there is one to a hop, else the nearest proxy's. */
  function Proto(protos: seq<string>, hops: nat, at: Option<nat>): (word: Option<string>)
    requires at.Some? ==> at.value < hops
    ensures at.Some? && |protos| == hops ==> word == Some(protos[at.value])
    ensures (at.None? || |protos| != hops) && protos != [] ==> word == Some(protos[|protos| - 1])
    ensures protos == [] ==> word.None?
  {
    if at.Some? && |protos| == hops then Some(protos[at.value])
    else if protos != [] then Some(protos[|protos| - 1])
    else None
  }

  /** The word, some of its letters perhaps capitals. */
  predicate Spelt(s: string, word: string) {
    |s| == |word| && forall i | 0 <= i < |s| :: s[i] == word[i] || ('A' <= s[i] <= 'Z' && s[i] - 'A' + 'a' == word[i])
  }

  lemma SpeltByCase(s: string, word: string)
    requires forall i | 0 <= i < |word| :: 'a' <= word[i] <= 'z'
    ensures EqualsIgnoringCase(s, word) <==> Spelt(s, word)
  {
    assert Lower(word) == word;
    assert EqualsIgnoringCase(s, word) ==> forall i | 0 <= i < |s| :: Lower(s)[i] == word[i];
    assert Spelt(s, word) ==> Lower(s) == word;
  }

  predicate SaysSecure(proto: Option<string>)
    ensures SaysSecure(proto) <==> proto.Some? && (Spelt(proto.value, "https") || Spelt(proto.value, "wss"))
  {
    SpeltByCase(if proto.Some? then proto.value else "", "https");
    SpeltByCase(if proto.Some? then proto.value else "", "wss");
    proto.Some? && (EqualsIgnoringCase(proto.value, "https") || EqualsIgnoringCase(proto.value, "wss"))
  }

  lemma {:induction false} RightmostIsAHop(proxies: TrustedProxies, parse: Parsers, hops: seq<string>, passed: Ip,
      at: Option<nat>)
    ensures var r := Rightmost(proxies, parse, hops, passed, at);
            r.1.Some? && r.1 != at ==> r.1.value < |hops|
  {
    if hops != [] {
      var last := |hops| - 1;
      var ip := ParseHop(parse, hops[last]);
      if ip.Some? && proxies.Contains(ip.value) {
        RightmostIsAHop(proxies, parse, hops[..last], ip.value, Some(last));
      }
    }
  }

  /** What the headers say of who a request from `from` comes from. */
  function Client(proxies: TrustedProxies, parse: Parsers, from: Ip, headers: seq<Header>): (c: ForwardedClient)
    ensures c.peer == Canonical(from) && c.viaProxy == proxies.Contains(Canonical(from))
    ensures !c.viaProxy ==> c.ip == c.peer && (c.secure <==> proxies.nets == [] && IsLoopback(c.peer))
  {
    var peer := Canonical(from);
    if !proxies.Contains(peer) then
      ForwardedClient(peer, peer, false, !proxies.BehindProxy() && IsLoopback(peer))
    else
      var hops := Entries(headers, FORWARDED_FOR);
      var (ip, at) := Rightmost(proxies, parse, hops, peer, None);
      RightmostIsAHop(proxies, parse, hops, peer, None);
      ForwardedClient(ip, peer, true, SaysSecure(Proto(Entries(headers, FORWARDED_PROTO), |hops|, at)))
  }

  /** The walk as it is made, hop by hop from the right. */
  method Walk(proxies: TrustedProxies, parse: Parsers, hops: seq<string>, peer: Ip) returns (ip: Ip, at: Option<nat>)
    ensures (ip, at) == Rightmost(proxies, parse, hops, peer, None)
  {
    var nearestTrusted: (Ip, Option<nat>), client: Option<(Ip, Option<nat>)> := (peer, None), None;
    var i := |hops|;
    assert hops[..i] == hops;
    while i > 0
      invariant 0 <= i <= |hops| && client.None?
      invariant Rightmost(proxies, parse, hops[..i], nearestTrusted.0, nearestTrusted.1)
             == Rightmost(proxies, parse, hops, peer, None)
    {
      i := i - 1;
      assert hops[..i + 1][..i] == hops[..i];
      var hop := ParseHop(parse, hops[i]);
      if hop.Some? && proxies.Contains(hop.value) {
        nearestTrusted := (hop.value, Some(i));
      } else if hop.Some? {
        client := Some((hop.value, Some(i)));
        break;
      } else {
        break;
      }
    }
    var found := if client.Some? then client.value else nearestTrusted;
    ip, at := found.0, found.1;
  }

  method Resolve(proxies: TrustedProxies, parse: Parsers, from: Ip, headers: seq<Header>) returns (c: ForwardedClient)
    ensures c == Client(proxies, parse, from, headers)
  {
    hide Rightmost;
    var peer := Canonical(from);
    if !proxies.Contains(peer) {
      var secure := !proxies.BehindProxy() && IsLoopback(peer);
      return ForwardedClient(peer, peer, false, secure);
    }
    var hops := Entries(headers, FORWARDED_FOR);
    var ip, at := Walk(proxies, parse, hops, peer);
    RightmostIsAHop(proxies, parse, hops, peer, None);
    var protos := Entries(headers, FORWARDED_PROTO);
    var proto := Proto(protos, |hops|, at);
    c := ForwardedClient(ip, peer, true, SaysSecure(proto));
  }

  // ------------------------------------------------------------- what it means

  /** The documented rule, said of a client and its place: every hop nearer is
      a trusted proxy; and the client is a hop that is not one, or one past
      which no hop is an address. */
  ghost predicate IsTheClient(proxies: TrustedProxies, parse: Parsers, hops: seq<string>, peer: Ip, ip: Ip,
      at: Option<nat>) {
    var here := if at.Some? then at.value else |hops|;
    && (at.Some? ==> here < |hops|)
    && (forall i | here < i < |hops| :: Skipped(proxies, parse, hops[i]))
    && (if at.Some? then ParseHop(parse, hops[here]) == Some(ip) else ip == peer)
    && ((at.Some? && !proxies.Contains(ip))
        || here == 0
        || ParseHop(parse, hops[here - 1]).None?)
  }

  lemma {:induction false} RightmostIsTheClient(proxies: TrustedProxies, parse: Parsers, hops: seq<string>, peer: Ip,
      i: nat, passed: Ip, at: Option<nat>)
    requires i <= |hops|
    requires forall j | i <= j < |hops| :: Skipped(proxies, parse, hops[j])
    requires i < |hops| ==> at == Some(i) && ParseHop(parse, hops[i]) == Some(passed)
    requires i >= |hops| ==> at.None? && passed == peer
    ensures var r := Rightmost(proxies, parse, hops[..i], passed, at); IsTheClient(proxies, parse, hops, peer, r.0, r.1)
    decreases i
  {
    if i > 0 {
      assert hops[..i][..i - 1] == hops[..i - 1];
      var ip := ParseHop(parse, hops[i - 1]);
      if ip.Some? && proxies.Contains(ip.value) {
        RightmostIsTheClient(proxies, parse, hops, peer, i - 1, ip.value, Some(i - 1));
      }
    }
  }

  /** Only one client and place meets the rule. */
  lemma TheClientIsOne(proxies: TrustedProxies, parse: Parsers, hops: seq<string>, peer: Ip, a: (Ip, Option<nat>),
      b: (Ip, Option<nat>))
    requires proxies.Contains(peer)
    requires IsTheClient(proxies, parse, hops, peer, a.0, a.1) && IsTheClient(proxies, parse, hops, peer, b.0, b.1)
    ensures a == b
  {
    var i, j := if a.1.Some? then a.1.value else |hops|, if b.1.Some? then b.1.value else |hops|;
  }

  /** The walk finds the client the rule names, and nothing else meets it. */
  lemma WalkFindsTheClient(proxies: TrustedProxies, parse: Parsers, hops: seq<string>, peer: Ip, ip: Ip,
      at: Option<nat>)
    requires proxies.Contains(peer)
    ensures IsTheClient(proxies, parse, hops, peer, ip, at) <==> (ip, at) == Rightmost(proxies, parse, hops, peer, None)
  {
    assert hops[..|hops|] == hops;
    RightmostIsTheClient(proxies, parse, hops, peer, |hops|, peer, None);
    if IsTheClient(proxies, parse, hops, peer, ip, at) {
      TheClientIsOne(proxies, parse, hops, peer, (ip, at), Rightmost(proxies, parse, hops, peer, None));
    }
  }

  /** Once a hop stops the walk, whatever is written before the hops moves
      only the client's place along. */
  lemma {:induction false} PrependingChangesNothing(proxies: TrustedProxies, parse: Parsers, before: seq<string>,
      hops: seq<string>, passed: Ip, at: Option<nat>)
    requires exists i | 0 <= i < |hops| :: !Skipped(proxies, parse, hops[i])
    ensures var r := Rightmost(proxies, parse, hops, passed, at);
            var shift := (p: Option<nat>) => if p.Some? then Some(p.value + |before|) else None;
            Rightmost(proxies, parse, before + hops, passed, shift(at)) == (r.0, shift(r.1))
    decreases |hops|
  {
    var last := |hops| - 1;
    assert (before + hops)[|before| + last] == hops[last];
    if Skipped(proxies, parse, hops[last]) {
      var i :| 0 <= i < |hops| && !Skipped(proxies, parse, hops[i]);
      assert hops[..last][i] == hops[i];
      assert (before + hops)[..|before| + last] == before + hops[..last];
      PrependingChangesNothing(proxies, parse, before, hops[..last], ParseHop(parse, hops[last]).value, Some(last));
    }
  }

  /** So hops a client writes in a header of its own, ahead of those its proxies
      write, do not move its address. */
  lemma WrittenAheadProvesNothing(proxies: TrustedProxies, parse: Parsers, from: Ip, ahead: string,
      headers: seq<Header>)
    requires var hops := Entries(headers, FORWARDED_FOR);
             exists i | 0 <= i < |hops| :: !Skipped(proxies, parse, hops[i])
    ensures Client(proxies, parse, from, [Header(FORWARDED_FOR, Some(ahead))] + headers).ip
         == Client(proxies, parse, from, headers).ip
  {
    hide Entries, Rightmost;
    EntriesAhead(ahead, headers, FORWARDED_FOR);
    var hops := Entries(headers, FORWARDED_FOR);
    PrependingChangesNothing(proxies, parse, Map(Trim, Split(ahead, ',')), hops, Canonical(from), None);
  }

  lemma EntriesAhead(ahead: string, headers: seq<Header>, name: string)
    ensures Entries([Header(name, Some(ahead))] + headers, name)
         == Map(Trim, Split(ahead, ',')) + Entries(headers, name)
  {
    var all := [Header(name, Some(ahead))] + headers;
    assert all[1..] == headers;
    ListCons(all, name, ',');
    hide Split, List;
  }

  /** With as much written before the protos as before the hops, and a proto
      there, the client is secure or not as it was. */
  lemma PrependingBothKeepsTheWord(protosBefore: seq<string>, protos: seq<string>, hops: nat, at: Option<nat>)
    requires protos != [] && (at.Some? ==> at.value < hops)
    ensures var n := |protosBefore|;
            var shifted := if at.Some? then Some(at.value + n) else None;
            Proto(protosBefore + protos, n + hops, shifted) == Proto(protos, hops, at)
  {
    var all := protosBefore + protos;
    assert all[|all| - 1] == protos[|protos| - 1];
  }

  /** Dividing a list among headers of its name elsewhere changes nothing. */
  lemma DividingChangesNothing(proxies: TrustedProxies, parse: Parsers, from: Ip, before: seq<Header>, of: string,
      a: string, b: string, after: seq<Header>)
    ensures Client(proxies, parse, from, before + [Header(of, Some(a + "," + b))] + after)
         == Client(proxies, parse, from, before + [Header(of, Some(a)), Header(of, Some(b))] + after)
  {
    ListDividedAnywhere(before, a, b, after, FORWARDED_FOR, ',', of);
    ListDividedAnywhere(before, a, b, after, FORWARDED_PROTO, ',', of);
    hide List, Rightmost;
  }

  /** Headers are believed from a trusted proxy, and from nobody else: the
      answer is the same whatever they say exactly when the peer is not one. */
  lemma BelievedOnlyFromAProxy(proxies: TrustedProxies, parse: Parsers, from: Ip)
    ensures (forall a, b :: Client(proxies, parse, from, a) == Client(proxies, parse, from, b))
       <==> !proxies.Contains(Canonical(from))
  {
    if proxies.Contains(Canonical(from)) {
      SecureOnTheWord(proxies, parse, from);
    }
  }

  lemma SecureOnTheWord(proxies: TrustedProxies, parse: Parsers, from: Ip)
    requires proxies.Contains(Canonical(from))
    ensures !Client(proxies, parse, from, []).secure
    ensures Client(proxies, parse, from, [Header(FORWARDED_PROTO, Some("https"))]).secure
  {
    var https := [Header(FORWARDED_PROTO, Some("https"))];
    ListCons(https, FORWARDED_FOR, ',');
    ListCons(https, FORWARDED_PROTO, ',');
    ListNil(FORWARDED_FOR, ',');
    ListNil(FORWARDED_PROTO, ',');
    SplitOfOne("https", ',');
    assert https[1..] == [] && |FORWARDED_FOR| != |FORWARDED_PROTO|;
    assert Trim("https") == "https" by {
      TrimOfNone("https");
    }
    hide List, Split, Trim;
    assert Entries(https, FORWARDED_FOR) == [] && Entries(https, FORWARDED_PROTO) == ["https"];
    assert Entries([], FORWARDED_FOR) == [] && Entries([], FORWARDED_PROTO) == [];
    assert Spelt("https", "https");
  }

  /** It makes no difference which way a peer's address is written. */
  lemma MappedPeersAreTheSame(proxies: TrustedProxies, parse: Parsers, from: Ip, headers: seq<Header>)
    requires from.V4?
    ensures Client(proxies, parse, Mapped(from), headers) == Client(proxies, parse, from, headers)
  {
    assert Canonical(Mapped(from)) == from;
  }
}
