/** The checks an upgrade passes, each by itself, in their documented order; and
    the middleware that makes them. */
module Upgrade {
  import opened Base
  import opened Text
  import opened Address
  import P = Proxy
  import Q = Quotas

  // ---------------------------------------------------------------- a request

  /** Someone signed in. */
  datatype Auth = Auth(userId: string, principal: Option<string>)

  /** `peer` is the accepted connection's, unknown to a middleware driven alone. */
  datatype Request = Request(headers: seq<Header>, isGet: bool, path: string, authority: Option<string>,
      isUpgrade: bool, peer: Option<Ip>)

  datatype Policy = Policy(anonymousView: bool, credentialCookies: seq<string>, metadataPath: Option<string>)

  /** `validates`: there is a session validator; `counts`: there are quotas. The
      lists of hosts and origins are as compared. */
  datatype Config = Config(
    allowedHosts: seq<string>, allowedOrigins: seq<string>, apiKey: Option<string>, apiKeyHeader: string,
    validates: bool, rejectOnFailure: bool, policy: Policy, counts: bool, proxies: P.TrustedProxies, parse: P.Parsers)

  datatype Why = KeyInvalid | KeyRequired | SessionInvalid | SessionRequired

  /** `Inner`: the request goes on, signed in or not, holding a permit
      if it is counted. */
  datatype Reply =
    | Misdirected | Metadata | Forbidden | Unauthorized(why: Why) | TooMany(quota: Q.Refusal)
    | Inner(auth: Option<Auth>, permit: Option<Q.Permit>)

  function Normalize(host: string): string {
    Lower(Trim(host))
  }

  function TrimSlashes(s: string): (t: string)
    ensures t <= s && (t != [] ==> t[|t| - 1] != '/') && forall i | |t| <= i < |s| :: s[i] == '/'
  {
    if s != [] && s[|s| - 1] == '/' then TrimSlashes(s[..|s| - 1]) else s
  }

  function NormalizeOrigin(origin: string): string {
    Lower(TrimSlashes(Trim(origin)))
  }

  /** What follows `Bearer ` in the `Authorization` header. */
  function Bearer(headers: seq<Header>): (b: Option<string>)
    ensures b.Some? ==> GetText(headers, "authorization") == Some("Bearer " + b.value)
    ensures b.None? ==> forall k: string :: GetText(headers, "authorization") != Some("Bearer " + k)
  {
    match GetText(headers, "authorization")
    case None => None
    case Some(v) =>
      assert "Bearer " <= v ==> v == "Bearer " + v[|"Bearer "|..];
      if "Bearer " <= v then Some(v[|"Bearer "|..]) else None
  }

  function Principal(auth: Auth): (p: string)
    ensures auth.principal == Some(p) || (auth.principal.None? && p == auth.userId)
  {
    if auth.principal.Some? then auth.principal.value else auth.userId
  }

  /** With a list of hosts, a request is refused unless the host it names is on
      the list, compared without spaces around it and without case; the
      authority stands in where there is no host header. */
  predicate HostRefused(c: Config, r: Request)
    ensures c.allowedHosts == [] ==> !HostRefused(c, r)
    ensures forall i: nat | c.allowedHosts != [] && FirstNamed(r.headers, "host", i) ::
              HostRefused(c, r) <==>
                (r.headers[i].value.Some? ==> Lower(Trim(r.headers[i].value.value)) !in c.allowedHosts)
    ensures c.allowedHosts != [] && !Contains(r.headers, "host") ==>
              (HostRefused(c, r) <==> (r.authority.Some? ==> Lower(Trim(r.authority.value)) !in c.allowedHosts))
  {
    c.allowedHosts != [] &&
    var named := if Contains(r.headers, "host") then GetText(r.headers, "host") else r.authority;
    named.None? || Normalize(named.value) !in c.allowedHosts
  }

  /** A `GET` of the configured path, with or without slashes after it. */
  predicate AsksForMetadata(c: Config, r: Request)
    ensures AsksForMetadata(c, r) ==> c.policy.metadataPath.Some? && r.isGet && c.policy.metadataPath.value <= r.path
    ensures AsksForMetadata(c, r) ==> forall i | |c.policy.metadataPath.value| <= i < |r.path| :: r.path[i] == '/'
    ensures !AsksForMetadata(c, r) && r.isGet ==> c.policy.metadataPath != Some(TrimSlashes(r.path))
  {
    c.policy.metadataPath.Some? && r.isGet && TrimSlashes(r.path) == c.policy.metadataPath.value
  }

  /** With a list of origins, a request that names one is refused unless it is on
      the list; one that names none passes. */
  predicate OriginRefused(c: Config, r: Request)
    ensures c.allowedOrigins == [] || !Contains(r.headers, "origin") ==> !OriginRefused(c, r)
    ensures forall i: nat | c.allowedOrigins != [] && FirstNamed(r.headers, "origin", i) ::
              OriginRefused(c, r) <==>
                (r.headers[i].value.Some? ==>
                   Lower(TrimSlashes(Trim(r.headers[i].value.value))) !in c.allowedOrigins)
  {
    c.allowedOrigins != [] && Contains(r.headers, "origin") &&
    var origin := GetText(r.headers, "origin");
    origin.None? || NormalizeOrigin(origin.value) !in c.allowedOrigins
  }

  /** The key in its own header; or, from callers of old and only without a
      validator, as the bearer when that header is not there. Another key is
      invalid, and none at all is one required. */
  function KeyRefused(c: Config, r: Request): (why: Option<Why>)
    ensures c.apiKey.None? || GetText(r.headers, c.apiKeyHeader) == c.apiKey ==> why.None?
    ensures c.apiKey.Some? && GetText(r.headers, c.apiKeyHeader).Some? ==>
              GetText(r.headers, c.apiKeyHeader) != c.apiKey ==> why == Some(KeyInvalid)
    ensures c.apiKey.Some? && GetText(r.headers, c.apiKeyHeader).None? ==>
              why == if !c.validates && GetText(r.headers, "authorization") == Some("Bearer " + c.apiKey.value)
                     then None else Some(KeyRequired)
  {
    assert c.apiKey.Some? ==> ("Bearer " + c.apiKey.value)[|"Bearer "|..] == c.apiKey.value;
    if c.apiKey.None? then None else
    match GetText(r.headers, c.apiKeyHeader)
    case Some(v) => if v == c.apiKey.value then None else Some(KeyInvalid)
    case None => if !c.validates && Bearer(r.headers) == c.apiKey then None else Some(KeyRequired)
  }

  /** A cookie is a credential declared one, and is not blank. */
  predicate IsCredential(policy: Policy, pair: string)
    ensures IsCredential(policy, pair) <==> exists i: nat :: CredentialAt(policy, pair, i)
  {
    CredentialIsCut(policy, pair);
    match SplitOnce(pair, '=')
    case None => false
    case Some((name, value)) => Trim(value) != [] && Trim(name) in policy.credentialCookies
  }

  lemma CredentialIsCut(policy: Policy, pair: string)
    ensures (exists i: nat :: CredentialAt(policy, pair, i)) <==>
              var cut := SplitOnce(pair, '=');
              cut.Some? && Trim(cut.value.1) != [] && Trim(cut.value.0) in policy.credentialCookies
  {
    FirstCut(pair, '=');
    hide SplitOnce, Trim;
    var cut := SplitOnce(pair, '=');
    if cut.Some? {
      var i := |cut.value.0|;
      assert CutAt(pair, '=', i);
      assert CredentialAt(policy, pair, i) <==>
               Trim(cut.value.1) != [] && Trim(cut.value.0) in policy.credentialCookies;
    }
  }

  /** Its first `=` is at `i`, after a declared name and before a value that is
      not blank. */
  predicate CredentialAt(policy: Policy, pair: string, i: nat) {
    && CutAt(pair, '=', i)
    && Trim(pair[i + 1..]) != [] && Trim(pair[..i]) in policy.credentialCookies
  }

  /** A credential is presented by an `Authorization` header of any kind, or by a
      credential cookie in any of the cookie headers. */
  predicate PresentsCredential(policy: Policy, headers: seq<Header>)
    ensures Contains(headers, "authorization") ==> PresentsCredential(policy, headers)
    ensures PresentsCredential(policy, headers) && !Contains(headers, "authorization") ==>
              exists i, pair :: CookieOf(headers, i, pair) && IsCredential(policy, pair)
    ensures forall i, pair | CookieOf(headers, i, pair) && IsCredential(policy, pair) ::
              PresentsCredential(policy, headers)
  {
    CookiesListed(policy, headers);
    Contains(headers, "authorization") || AnyCredential(policy, List(headers, "cookie", ';'))
  }

  predicate CookieOf(headers: seq<Header>, i: nat, pair: string) {
    && i < |headers| && headers[i].name == "cookie" && headers[i].value.Some?
    && pair in Split(headers[i].value.value, ';')
  }

  lemma CookiesListed(policy: Policy, headers: seq<Header>)
    ensures forall i, pair | CookieOf(headers, i, pair) && IsCredential(policy, pair) ::
              AnyCredential(policy, List(headers, "cookie", ';'))
    ensures AnyCredential(policy, List(headers, "cookie", ';')) ==>
              exists i, pair :: CookieOf(headers, i, pair) && IsCredential(policy, pair)
  {
    var all := List(headers, "cookie", ';');
    hide List, Split, IsCredential;
    forall i, pair | CookieOf(headers, i, pair) && IsCredential(policy, pair) ensures AnyCredential(policy, all) {
      ListHolds(headers, "cookie", ';', pair);
    }
    if AnyCredential(policy, all) {
      var k :| 0 <= k < |all| && IsCredential(policy, all[k]);
      ListHolds(headers, "cookie", ';', all[k]);
      var i: nat :| i < |headers| && headers[i].name == "cookie" && headers[i].value.Some?
                    && all[k] in Split(headers[i].value.value, ';');
      assert CookieOf(headers, i, all[k]);
    }
  }

  predicate AnyCredential(policy: Policy, cookies: seq<string>) {
    exists i | 0 <= i < |cookies| :: IsCredential(policy, cookies[i])
  }

  /** What a validator may be asked about a request, in order. */
  function Candidates(r: Request): (inputs: seq<string>)
    ensures inputs == [] <==> GetText(r.headers, "cookie").None? && Bearer(r.headers).None?
  {
    AsList(GetText(r.headers, "cookie")) + AsList(Bearer(r.headers))
  }

  // -------------------------------------------------------------- the validator

  /** Its answers may depend on all it has been asked. */
  type Answers = seq<string> -> Option<Auth>

  class Validator {
    const answers: Answers
    var asked: seq<string>

    constructor (answers: Answers)
      ensures asked == [] && this.answers == answers
    {
      this.answers, this.asked := answers, [];
    }

    method Validate(input: string) returns (r: Option<Auth>)
      modifies this
      ensures asked == old(asked) + [input] && r == answers(asked)
    {
      asked := asked + [input];
      r := answers(asked);
    }
  }

  /** Who the first of the candidates accepted is, and how many were tried. */
  function Accepted(answers: Answers, asked: seq<string>, candidates: seq<string>): (Option<Auth>, nat)
    decreases |candidates|
  {
    if candidates == [] then (None, 0) else
    var first := answers(asked + [candidates[0]]);
    if first.Some? then (first, 1)
    else var (auth, n) := Accepted(answers, asked + [candidates[0]], candidates[1..]); (auth, n + 1)
  }

  lemma {:induction false} AcceptedTried(answers: Answers, asked: seq<string>, candidates: seq<string>)
    ensures Accepted(answers, asked, candidates).1 <= |candidates|
    decreases |candidates|
  {
    if candidates != [] {
      AcceptedTried(answers, asked + [candidates[0]], candidates[1..]);
    }
  }

  function AsList(x: Option<string>): seq<string> {
    if x.Some? then [x.value] else []
  }

  lemma One(answers: Answers, asked: seq<string>, b: Option<string>)
    ensures Accepted(answers, asked, AsList(b)) == if b.Some? then (answers(asked + [b.value]), 1) else (None, 0)
  {
    if b.Some? {
      var after := asked + [b.value];
      assert AsList(b)[1..] == [];
      assert Accepted(answers, after, []) == (None, 0);
    }
  }

  lemma OneOrTwo(answers: Answers, asked: seq<string>, a: Option<string>, b: Option<string>)
    ensures var (auth, n) := Accepted(answers, asked, AsList(a) + AsList(b));
            var first := if a.Some? then answers(asked + [a.value]) else None;
            if first.Some? then auth == first && n == 1
            else if b.Some? then auth == answers(asked + AsList(a) + [b.value]) && n == |AsList(a)| + 1
            else auth.None? && n == |AsList(a)|
  {
    var all := AsList(a) + AsList(b);
    if a.Some? {
      assert all[1..] == AsList(b);
      One(answers, asked + [a.value], b);
    } else {
      assert all == AsList(b) && asked + [] == asked;
      One(answers, asked, b);
    }
  }

  // ------------------------------------------------------------------ the table

  datatype Check = Host | MetadataDocument | Origin | Key | Session | Quota

  const ORDER := [Host, MetadataDocument, Origin, Key, Session, Quota]

  /** What was found out about the caller: who the validator says it is, and
      which quota is full for it. */
  datatype Findings = Findings(auth: Option<Auth>, full: Option<Q.Refusal>)

  /** What one check alone answers. */
  function Stops(c: Config, r: Request, f: Findings, check: Check): Option<Reply> {
    match check
    case Host => if HostRefused(c, r) then Some(Misdirected) else None
    case MetadataDocument => if AsksForMetadata(c, r) then Some(Metadata) else None
    case Origin => if OriginRefused(c, r) then Some(Forbidden) else None
    case Key => if KeyRefused(c, r).Some? then Some(Unauthorized(KeyRefused(c, r).value)) else None
    case Session =>
      if !c.validates || f.auth.Some? then None
      else if c.policy.anonymousView then
        if PresentsCredential(c.policy, r.headers) then Some(Unauthorized(SessionInvalid)) else None
      else if c.rejectOnFailure then
        Some(Unauthorized(if Candidates(r) != [] then SessionInvalid else SessionRequired))
      else None
    case Quota => if f.full.Some? then Some(TooMany(f.full.value)) else None
  }

  /** The first check that stops the request. */
  function FirstStop(c: Config, r: Request, f: Findings, checks: seq<Check>): Option<Reply> {
    if checks == [] then None
    else if Stops(c, r, f, checks[0]).Some? then Stops(c, r, f, checks[0])
    else FirstStop(c, r, f, checks[1..])
  }

  const BEFORE_SIGN_IN := [Host, MetadataDocument, Origin, Key]

  function Or<T>(a: Option<T>, b: Option<T>): Option<T> {
    if a.Some? then a else b
  }

  lemma FirstOf(c: Config, r: Request, f: Findings, check: Check, rest: seq<Check>)
    ensures FirstStop(c, r, f, [check] + rest) == Or(Stops(c, r, f, check), FirstStop(c, r, f, rest))
  {
    assert ([check] + rest)[1..] == rest;
  }

  /** The order written out; and the checks before signing in look at nothing
      found out by it. */
  lemma TheOrder(c: Config, r: Request, f: Findings)
    ensures var keyOrOrigin := Or(Stops(c, r, f, Origin), Stops(c, r, f, Key));
            var early := Or(Stops(c, r, f, Host), Or(Stops(c, r, f, MetadataDocument), keyOrOrigin));
            && FirstStop(c, r, f, ORDER) == Or(early, Or(Stops(c, r, f, Session), Stops(c, r, f, Quota)))
            && FirstStop(c, r, Findings(None, None), BEFORE_SIGN_IN) == early
  {
    var n := Findings(None, None);
    FirstOf(c, r, f, Quota, []);
    FirstOf(c, r, f, Session, [Quota]);
    FirstOf(c, r, f, Key, [Session, Quota]);
    FirstOf(c, r, f, Origin, [Key, Session, Quota]);
    FirstOf(c, r, f, MetadataDocument, [Origin, Key, Session, Quota]);
    FirstOf(c, r, f, Host, [MetadataDocument, Origin, Key, Session, Quota]);
    FirstOf(c, r, n, Key, []);
    FirstOf(c, r, n, Origin, [Key]);
    FirstOf(c, r, n, MetadataDocument, [Origin, Key]);
    FirstOf(c, r, n, Host, [MetadataDocument, Origin, Key]);
    assert FirstStop(c, r, f, []).None? && FirstStop(c, r, n, []).None?;
    hide FirstStop;
    assert ORDER == [Host] + [MetadataDocument, Origin, Key, Session, Quota];
    assert [MetadataDocument, Origin, Key, Session, Quota] == [MetadataDocument] + [Origin, Key, Session, Quota];
    assert [Origin, Key, Session, Quota] == [Origin] + [Key, Session, Quota];
    assert [Key, Session, Quota] == [Key] + [Session, Quota];
    assert [Session, Quota] == [Session] + [Quota] && [Quota] == [Quota] + [];
    assert BEFORE_SIGN_IN == [Host] + [MetadataDocument, Origin, Key];
    assert [MetadataDocument, Origin, Key] == [MetadataDocument] + [Origin, Key];
    assert [Origin, Key] == [Origin] + [Key] && [Key] == [Key] + [];
  }

  /** The reply is a check's exactly when that check stops the request and none
      before it does. */
  lemma {:induction false} FirstStopIsTheFirst(c: Config, r: Request, f: Findings, checks: seq<Check>, reply: Reply)
    ensures FirstStop(c, r, f, checks) == Some(reply) <==>
              exists i | 0 <= i < |checks| :: Stops(c, r, f, checks[i]) == Some(reply)
                && forall j | 0 <= j < i :: Stops(c, r, f, checks[j]).None?
  {
    if checks != [] {
      var rest := checks[1..];
      FirstStopIsTheFirst(c, r, f, rest, reply);
      hide Stops;
      if Stops(c, r, f, checks[0]).None? {
        if i :| 0 <= i < |rest| && Stops(c, r, f, rest[i]) == Some(reply)
                && forall j | 0 <= j < i :: Stops(c, r, f, rest[j]).None? {
          assert Stops(c, r, f, checks[i + 1]) == Some(reply);
        }
        if i :| 0 <= i < |checks| && Stops(c, r, f, checks[i]) == Some(reply)
                && forall j | 0 <= j < i :: Stops(c, r, f, checks[j]).None? {
          assert rest[i - 1] == checks[i];
          assert forall j | 0 <= j < i - 1 :: rest[j] == checks[j + 1];
        }
      }
    }
  }

  /** The address a request is counted at, if it is. */
  function CountedAt(c: Config, r: Request): Option<Ip> {
    if c.counts && r.isUpgrade && r.peer.Some? then Some(P.Client(c.proxies, c.parse, r.peer.value, r.headers).ip)
    else None
  }

  function Named(auth: Option<Auth>): Option<string> {
    if auth.Some? then Some(Principal(auth.value)) else None
  }

  // ------------------------------------------------------------- the middleware

  class Middleware {
    const config: Config
    const validator: Validator
    const quotas: Q.Quotas

    constructor (config: Config, validator: Validator, quotas: Q.Quotas)
      ensures this.config == config && this.validator == validator && this.quotas == quotas
    {
      this.config, this.validator, this.quotas := config, validator, quotas;
    }

    /** Which quota is full for the request, signed in as `auth` or not. */
    ghost function FullFor(r: Request, auth: Option<Auth>): Option<Q.Refusal>
      reads quotas
    {
      if CountedAt(config, r).None? then None
      else Q.Full(quotas.limits, quotas.live, CountedAt(config, r).value, Q.WhoIs(quotas.identities, Named(auth)))
    }

    /** Who the request is signed in as, and how many candidates say so. */
    function WhoSignedIn(r: Request): (Option<Auth>, nat)
      reads validator
    {
      if config.validates then Accepted(validator.answers, validator.asked, Candidates(r)) else (None, 0)
    }

    method TakeQuota(r: Request, auth: Option<Auth>) returns (full: Option<Q.Refusal>, permit: Option<Q.Permit>)
      requires quotas.Valid()
      modifies quotas
      ensures quotas.Valid() && full == old(FullFor(r, auth))
      ensures permit.Some? <==> full.None? && CountedAt(config, r).Some?
      ensures permit.Some? ==> permit.value.ip == CountedAt(config, r).value
      ensures permit.Some? ==> permit.value.who == Q.WhoIs(quotas.identities, Named(auth))
      ensures permit.Some? ==> permit.value !in old(quotas.live) && quotas.live == old(quotas.live) + {permit.value}
      ensures permit.None? ==> unchanged(quotas)
    {
      if !config.counts || !r.isUpgrade || r.peer.None? {
        return None, None;
      }
      var client := P.Resolve(config.proxies, config.parse, r.peer.value, r.headers);
      var refused, place := quotas.Admit(client.ip, Named(auth));
      full := refused;
      permit := if refused.None? then Some(place) else None;
    }

    /** The cookies first, then the bearer. */
    method SignIn(r: Request) returns (auth: Option<Auth>)
      requires config.validates
      modifies validator
      ensures auth == old(WhoSignedIn(r)).0
      ensures validator.asked == old(validator.asked) + Candidates(r)[..old(Tried(r))]
    {
      var cookie := GetText(r.headers, "cookie");
      var bearer := Bearer(r.headers);
      OneOrTwo(validator.answers, validator.asked, cookie, bearer);
      hide Bearer, GetText, Accepted;
      auth := None;
      if cookie.Some? {
        auth := validator.Validate(cookie.value);
      }
      if auth.None? {
        if bearer.Some? {
          auth := validator.Validate(bearer.value);
        }
      }
    }

    function Tried(r: Request): (n: nat)
      reads validator
      ensures n <= |Candidates(r)|
    {
      if config.validates then AcceptedTried(validator.answers, validator.asked, Candidates(r)); WhoSignedIn(r).1 else 0
    }

    /** What is to be found out about a request. */
    ghost function ToFind(r: Request): Findings
      reads validator, quotas
    {
      var auth := WhoSignedIn(r).0;
      Findings(auth, FullFor(r, auth))
    }

    /** The outcome is the answer of the first check that stops the request; the
        validator is asked only once the host, the metadata, the origin and the
        key have let it pass, and the quotas take it only when nothing stops
        it. A request is misdirected exactly when there is a list of hosts and
        it names none that is on it. One that goes on brought the key, if there
        is one; and unless the validator accepted it, it presented no credential
        under the anonymous view, and otherwise is let on only where failures
        are. */
    method Call(r: Request) returns (reply: Reply)
      requires quotas.Valid()
      modifies validator, quotas
      ensures quotas.Valid()
      ensures forall i: nat | config.allowedHosts != [] && FirstNamed(r.headers, "host", i) ::
                reply.Misdirected? <==>
                  (r.headers[i].value.Some? ==> Lower(Trim(r.headers[i].value.value)) !in config.allowedHosts)
      ensures config.allowedHosts != [] && !Contains(r.headers, "host") ==>
                (reply.Misdirected? <==>
                   (r.authority.Some? ==> Lower(Trim(r.authority.value)) !in config.allowedHosts))
      ensures config.allowedHosts == [] ==> !reply.Misdirected?
      ensures reply.Inner? && config.apiKey.Some? ==>
                || GetText(r.headers, config.apiKeyHeader) == config.apiKey
                || (!config.validates && GetText(r.headers, config.apiKeyHeader).None?
                    && GetText(r.headers, "authorization") == Some("Bearer " + config.apiKey.value))
      ensures reply.Inner? && !config.validates ==> reply.auth.None?
      ensures reply.Inner? && config.validates && reply.auth.None? ==>
                if config.policy.anonymousView then !PresentsCredential(config.policy, r.headers)
                else !config.rejectOnFailure
      ensures reply == Unauthorized(SessionRequired) ==>
                && config.validates && !config.policy.anonymousView && config.rejectOnFailure
                && GetText(r.headers, "cookie").None?
                && forall k: string :: GetText(r.headers, "authorization") != Some("Bearer " + k)
      ensures match FirstStop(config, r, old(ToFind(r)), ORDER)
              case Some(stopped) => reply == stopped && unchanged(quotas)
              case None =>
                && reply.Inner? && reply.auth == old(WhoSignedIn(r)).0
                && Placed(r, reply.auth, reply.permit, old(quotas.live), quotas.live)
      ensures validator.asked == old(validator.asked)
                + if FirstStop(config, r, Findings(None, None), BEFORE_SIGN_IN).Some? then []
                  else Candidates(r)[..old(Tried(r))]
    {
      ghost var f := ToFind(r);
      TheOrder(config, r, f);
      hide FirstStop, HostRefused, AsksForMetadata, OriginRefused, KeyRefused, PresentsCredential, Candidates,
           CountedAt, GetText, Contains, Trim, Lower, Bearer, Accepted;
      if HostRefused(config, r) {
        return Misdirected;
      }
      if AsksForMetadata(config, r) {
        return Metadata;
      }
      if OriginRefused(config, r) {
        return Forbidden;
      }
      var key := KeyRefused(config, r);
      if key.Some? {
        return Unauthorized(key.value);
      }
      var auth: Option<Auth> := None;
      if config.validates {
        auth := SignIn(r);
        var presented := PresentsCredential(config.policy, r.headers);
        if auth.None? && config.policy.anonymousView && presented {
          return Unauthorized(SessionInvalid);
        }
        if auth.None? && !config.policy.anonymousView && config.rejectOnFailure {
          var attempted := Candidates(r) != [];
          return Unauthorized(if attempted then SessionInvalid else SessionRequired);
        }
      }
      var full, permit := TakeQuota(r, auth);
      if full.Some? {
        return TooMany(full.value);
      }
      return Inner(auth, permit);
    }

    /** The request's place in the quotas, new and its own; none if it is not counted. */
    ghost predicate Placed(r: Request, auth: Option<Auth>, permit: Option<Q.Permit>, before: set<Q.Permit>,
        after: set<Q.Permit>)
    {
      match CountedAt(config, r)
      case None => permit.None? && after == before
      case Some(ip) =>
        && permit.Some? && permit.value !in before && after == before + {permit.value}
        && permit.value.ip == ip && permit.value.who == Q.WhoIs(quotas.identities, Named(auth))
    }
  }

  // ------------------------------------------------------------- what it means

  /** Whoever goes on signed in was vouched for by the validator: for the
      cookies, or, those not accepted, for the bearer. Under the anonymous view
      nobody goes on otherwise who presented a credential. */
  lemma SignedInOnlyByTheValidator(c: Config, r: Request, answers: Answers, asked: seq<string>, full: Option<Q.Refusal>)
    requires c.validates
    requires FirstStop(c, r, Findings(Accepted(answers, asked, Candidates(r)).0, full), ORDER).None?
    ensures var auth := Accepted(answers, asked, Candidates(r)).0;
            var cookie, bearer := GetText(r.headers, "cookie"), Bearer(r.headers);
            && (auth.Some? ==>
                  || (cookie.Some? && auth == answers(asked + [cookie.value]))
                  || (bearer.Some? && auth == answers(asked + AsList(cookie) + [bearer.value])
                      && (cookie.Some? ==> answers(asked + [cookie.value]).None?)))
            && (auth.None? && c.policy.anonymousView ==> !PresentsCredential(c.policy, r.headers))
  {
    var f := Findings(Accepted(answers, asked, Candidates(r)).0, full);
    TheOrder(c, r, f);
    OneOrTwo(answers, asked, GetText(r.headers, "cookie"), Bearer(r.headers));
    hide FirstStop, Accepted, GetText, Bearer, HostRefused, AsksForMetadata, OriginRefused, KeyRefused,
         PresentsCredential;
  }

  lemma {:induction false} GetAllOfBoth(a: seq<Header>, b: seq<Header>, name: string)
    ensures GetAll(a + b, name) == GetAll(a, name) + GetAll(b, name)
  {
    if a == [] {
      assert a + b == b;
    } else {
      GetAllOfBoth(a[1..], b, name);
      assert (a + b)[0] == a[0] && (a + b)[1..] == a[1..] + b;
      GetAllCons(a, name);
      GetAllCons(a + b, name);
      Regroup(if a[0].name == name then [a[0]] else [], GetAll(a[1..], name), GetAll(b, name));
      hide GetAll;
    }
  }

  lemma GetAllCons(headers: seq<Header>, name: string)
    requires headers != []
    ensures GetAll(headers, name)
         == (if headers[0].name == name then [headers[0]] else []) + GetAll(headers[1..], name)
  {}

  lemma OtherNamesUnmoved(before: seq<Header>, h: Header, after: seq<Header>, name: string)
    requires h.name != name
    ensures GetAll(before + [h] + after, name) == GetAll(before + after, name)
  {
    GetAllOfBoth(before + [h], after, name);
    GetAllOfBoth(before, [h], name);
    GetAllOfBoth(before, after, name);
    assert [h][1..] == [];
    assert GetAll([h], name) == [];
  }

  /** What the validator is asked about a request it has been asked `asked` before. */
  function AskedOf(answers: Answers, asked: seq<string>, r: Request): seq<string> {
    AcceptedTried(answers, asked, Candidates(r));
    Candidates(r)[..Accepted(answers, asked, Candidates(r)).1]
  }

  /** A request let past the key, under a validator: the validator is asked the
      key exactly when the cookies are the key, or the bearer is and the cookies
      were not accepted. The key's own header plays no part in it. */
  lemma KeyIsAsked(c: Config, r: Request, answers: Answers, asked: seq<string>)
    requires c.validates && c.apiKey.Some?
    requires FirstStop(c, r, Findings(None, None), BEFORE_SIGN_IN).None?
    ensures GetText(r.headers, c.apiKeyHeader) == c.apiKey
    ensures var cookie, bearer := GetText(r.headers, "cookie"), Bearer(r.headers);
            c.apiKey.value in AskedOf(answers, asked, r) <==>
              (cookie == c.apiKey
               || (bearer == c.apiKey && (cookie.Some? ==> answers(asked + [cookie.value]).None?)))
  {
    TheOrder(c, r, Findings(None, None));
    var cookie, bearer := GetText(r.headers, "cookie"), Bearer(r.headers);
    OneOrTwo(answers, asked, cookie, bearer);
    AcceptedTried(answers, asked, Candidates(r));
    hide FirstStop, Accepted, GetText, Bearer, HostRefused, AsksForMetadata, OriginRefused;
    var all := AskedOf(answers, asked, r);
    assert all == AsList(cookie)
               || all == AsList(cookie) + AsList(bearer);
  }

  /** A caller that sends its key both in the key's own header and as the
      bearer has the validator asked the key. */
  lemma KeySentTwiceIsAsked(c: Config, key: string, answers: Answers, asked: seq<string>)
    requires c.validates && c.apiKey == Some(key) && c.apiKeyHeader == "x-plexus-api-key"
    requires c.allowedHosts == [] && c.allowedOrigins == []
    ensures var both := [Header("x-plexus-api-key", Some(key)), Header("authorization", Some("Bearer " + key))];
            var r := Request(both, false, "", None, true, None);
            && FirstStop(c, r, Findings(None, None), BEFORE_SIGN_IN).None?
            && key in AskedOf(answers, asked, r)
  {
    var first, second := Header("x-plexus-api-key", Some(key)), Header("authorization", Some("Bearer " + key));
    var both := [first, second];
    var r := Request(both, false, "", None, true, None);
    assert |first.name| == 16 && |second.name| == 13 && |"cookie"| == 6;
    forall name: string
      ensures GetAll(both, name)
           == (if name == first.name then [first] else []) + (if name == second.name then [second] else [])
    {
      assert both == [first] + [second] && [first][1..] == [] && [second][1..] == [];
      GetAllOfBoth([first], [second], name);
    }
    hide GetAll;
    assert ("Bearer " + key)[|"Bearer "|..] == key;
    assert Bearer(both) == Some(key) && GetText(both, "cookie").None?;
    TheOrder(c, r, Findings(None, None));
    KeyIsAsked(c, r, answers, asked);
  }

  /** The sign-in is read from two headers: adding a header of another name,
      whatever it says, changes nothing of what may be tried, and of one of
      those two names it may. */
  lemma ReadFromTwoHeaders(name: string)
    ensures (forall r: Request, v: Option<string> ::
               Candidates(r.(headers := [Header(name, v)] + r.headers)) == Candidates(r))
       <==> name != "cookie" && name != "authorization"
  {
    if name != "cookie" && name != "authorization" {
      forall r: Request, v: Option<string>
        ensures Candidates(r.(headers := [Header(name, v)] + r.headers)) == Candidates(r)
      {
        var h := Header(name, v);
        assert [] + [h] + r.headers == [h] + r.headers && [] + r.headers == r.headers;
        OtherNamesUnmoved([], h, r.headers, "cookie");
        OtherNamesUnmoved([], h, r.headers, "authorization");
      }
    } else {
      var none := Request([], false, "", None, false, None);
      var h := Header(name, Some("Bearer k"));
      var one := none.(headers := [h] + none.headers);
      assert one.headers[0] == h && one.headers[1..] == [];
      assert GetAll(one.headers, name) == [h];
      assert Candidates(none) == [];
      if name == "authorization" {
        assert Bearer(one.headers).Some?;
      }
      assert Candidates(one) != [];
    }
  }

  /** A cookie not declared a credential, or blank, makes no difference to
      whether one is presented. */
  lemma OtherCookiesArePassedOver(policy: Policy, before: seq<Header>, cookies: string, pair: string,
      after: seq<Header>)
    requires ';' !in pair && !IsCredential(policy, pair)
    ensures PresentsCredential(policy, before + [Header("cookie", Some(cookies + ";" + pair))] + after)
       <==> PresentsCredential(policy, before + [Header("cookie", Some(cookies))] + after)
  {
    var short, long := Header("cookie", Some(cookies)), Header("cookie", Some(cookies + ";" + pair));
    SplitJoined(cookies, pair, ';');
    SplitOfOne(pair, ';');
    var x, y := List(before, "cookie", ';'), List(after, "cookie", ';');
    ListAround(before, short, after);
    ListAround(before, long, after);
    OtherNamesUnmoved(before, short, after, "authorization");
    OtherNamesUnmoved(before, long, after, "authorization");
    hide List, GetAll, Split, IsCredential;
    var m := Split(cookies, ';');
    OneMoreThatIsNot(policy, x, m, pair, y);
  }

  lemma ListAround(before: seq<Header>, h: Header, after: seq<Header>)
    ensures List(before + [h] + after, "cookie", ';')
         == List(before, "cookie", ';') + Parts(h, "cookie", ';') + List(after, "cookie", ';')
  {
    ListOfBoth(before + [h], after, "cookie", ';');
    ListOfBoth(before, [h], "cookie", ';');
    ListCons([h], "cookie", ';');
    assert [h][1..] == [];
    ListNil("cookie", ';');
  }

  lemma OneMoreThatIsNot(policy: Policy, x: seq<string>, m: seq<string>, pair: string, y: seq<string>)
    requires !IsCredential(policy, pair)
    ensures AnyCredential(policy, x + (m + [pair]) + y) <==> AnyCredential(policy, x + m + y)
  {
    hide IsCredential;
    var long, short := x + (m + [pair]) + y, x + m + y;
    var n := |x| + |m|;
    assert long[n] == pair;
    forall i | 0 <= i < |short| ensures short[i] == long[if i < n then i else i + 1] {}
    forall i | 0 <= i < |long| && i != n ensures long[i] == short[if i < n then i else i - 1] {}
  }
}
