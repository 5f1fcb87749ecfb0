/** Who holds how many sockets, before an upgrade and after it: maps of counts kept in step with the permits that are
    alive. */
module Quotas {
  import opened Base
  import opened Tally
  import opened Address

  // ------------------------------------------------------------------- permits

  /** The counts are 32 bits wide, as the limits are: within its limit, none wraps. */
  type u32 = x: int | 0 <= x < 0x1_0000_0000

  datatype Limits = Limits(perIp: u32, perPrincipal: u32, anonymous: u32, anonymousPerIp: u32)

  /** Who a socket is: nobody is told apart without a validator; else someone
      signed in, or anonymous. */
  datatype Who = Uncounted | SignedIn(p: string) | Anonymous

  /** One socket's place; `id` tells it from every other. */
  datatype Permit = Permit(id: nat, ip: Ip, who: Who)

  datatype Refusal = TooManyFromIp | TooManyAs(p: string) | TooManyAnonymous | TooManyAnonymousFromIp

  ghost function AtIp(live: set<Permit>, ip: Ip): set<Permit> {
    set x | x in live && x.ip == ip
  }

  ghost function OfPrincipal(live: set<Permit>, p: string): set<Permit> {
    set x | x in live && x.who == SignedIn(p)
  }

  ghost function Anonymously(live: set<Permit>): set<Permit> {
    set x | x in live && x.who.Anonymous?
  }

  function WhoIs(identities: bool, principal: Option<string>): Who {
    if !identities then Uncounted else if principal.Some? then SignedIn(principal.value) else Anonymous
  }

  /** The quota, if any, that the permits alive leave no room in for one more. */
  ghost function Full(l: Limits, live: set<Permit>, ip: Ip, who: Who): Option<Refusal> {
    if |AtIp(live, ip)| >= l.perIp then Some(TooManyFromIp) else
    match who
    case Uncounted => None
    case SignedIn(p) => if |OfPrincipal(live, p)| >= l.perPrincipal then Some(TooManyAs(p)) else None
    case Anonymous =>
      if |Anonymously(live)| >= l.anonymous then Some(TooManyAnonymous)
      else if |AtIp(Anonymously(live), ip)| >= l.anonymousPerIp then Some(TooManyAnonymousFromIp)
      else None
  }

  /** The four counts are the permits alive. */
  ghost predicate Counts(live: set<Permit>, perIp: map<Ip, nat>, perPrincipal: map<string, nat>, anonymous: nat,
      anonymousPerIp: map<Ip, nat>) {
    && Compact(perIp) && Compact(perPrincipal) && Compact(anonymousPerIp)
    && (forall ip :: Get(perIp, ip) == |AtIp(live, ip)|)
    && (forall p :: Get(perPrincipal, p) == |OfPrincipal(live, p)|)
    && anonymous == |Anonymously(live)|
    && (forall ip :: Get(anonymousPerIp, ip) == |AtIp(Anonymously(live), ip)|)
  }

  ghost predicate Within(l: Limits, live: set<Permit>) {
    && (forall ip :: |AtIp(live, ip)| <= l.perIp)
    && (forall p :: |OfPrincipal(live, p)| <= l.perPrincipal)
    && |Anonymously(live)| <= l.anonymous
    && (forall ip :: |AtIp(Anonymously(live), ip)| <= l.anonymousPerIp)
  }

  // --------------------------------------------------------------------- runs

  datatype Event = Arrives(x: Permit) | Ends(x: Permit)

  /** The permits alive after one more event. */
  ghost function Step(l: Limits, live: set<Permit>, e: Event): set<Permit> {
    match e
    case Arrives(x) => if Full(l, live, x.ip, x.who).None? then live + {x} else live
    case Ends(x) => live - {x}
  }

  ghost function Run(l: Limits, es: seq<Event>): set<Permit> {
    if es == [] then {} else Step(l, Run(l, es[..|es| - 1]), es[|es| - 1])
  }

  class Quotas {
    const limits: Limits
    const identities: bool
    var perIp: map<Ip, nat>
    var perPrincipal: map<string, nat>
    var anonymous: nat
    var anonymousPerIp: map<Ip, nat>
    ghost var live: set<Permit>
    var nextId: nat

    ghost predicate Valid()
      reads this
    {
      && Counts(live, perIp, perPrincipal, anonymous, anonymousPerIp)
      && Within(limits, live)
      && (forall x | x in live :: x.id < nextId && (x.who.Uncounted? <==> !identities))
    }

    constructor (limits: Limits, identities: bool)
      ensures Valid() && live == {} && this.limits == limits && this.identities == identities
    {
      this.limits, this.identities := limits, identities;
      perIp, perPrincipal, anonymous, anonymousPerIp, live, nextId := map[], map[], 0, map[], {}, 0;
      new;
      forall ip: Ip ensures AtIp({}, ip) == {} {}
      assert Anonymously({}) == {};
      forall p: string ensures OfPrincipal({}, p) == {} {}
    }

    /** A permit, unless a quota has no room for it: then which one, as counting
        the permits alive finds. A refusal changes nothing. */
    method Admit(ip: Ip, principal: Option<string>) returns (r: Option<Refusal>, permit: Permit)
      requires Valid()
      modifies this
      ensures Valid()
      ensures r == Full(limits, old(live), ip, WhoIs(identities, principal))
      // Nobody told apart: only the address counts.
      ensures !identities ==>
                r == (if |AtIp(old(live), ip)| >= limits.perIp then Some(TooManyFromIp) else None)
                && permit.who == Uncounted
      // Someone signed in: the address, then the principal.
      ensures identities && principal.Some? ==>
                r == (if |AtIp(old(live), ip)| >= limits.perIp then Some(TooManyFromIp)
                      else if |OfPrincipal(old(live), principal.value)| >= limits.perPrincipal
                        then Some(TooManyAs(principal.value))
                      else None)
                && permit.who == SignedIn(principal.value)
      // Nobody: the address, then all the anonymous, then those of the address.
      ensures identities && principal.None? ==>
                r == (if |AtIp(old(live), ip)| >= limits.perIp then Some(TooManyFromIp)
                      else if |Anonymously(old(live))| >= limits.anonymous then Some(TooManyAnonymous)
                      else if |AtIp(Anonymously(old(live)), ip)| >= limits.anonymousPerIp
                        then Some(TooManyAnonymousFromIp)
                      else None)
                && permit.who == Anonymous
      ensures r.Some? ==> unchanged(this)
      ensures r.None? ==> permit !in old(live) && live == old(live) + {permit}
      ensures live == Step(limits, old(live), Arrives(permit))
      ensures permit.ip == ip && permit.who == WhoIs(identities, principal)
    {
      hide AtIp, OfPrincipal, Anonymously, Compact, Up;
      var who := WhoIs(identities, principal);
      permit := Permit(nextId, ip, who);
      assert permit !in live;
      CountsUp(live, permit, perIp, perPrincipal, anonymous, anonymousPerIp);
      WithinMove(limits, live, permit);
      if Get(perIp, ip) >= limits.perIp {
        return Some(TooManyFromIp), permit;
      }
      match who {
        case SignedIn(p) =>
          if Get(perPrincipal, p) >= limits.perPrincipal {
            return Some(TooManyAs(p)), permit;
          }
          perPrincipal := Up(perPrincipal, p);
        case Anonymous =>
          if anonymous >= limits.anonymous {
            return Some(TooManyAnonymous), permit;
          }
          if Get(anonymousPerIp, ip) >= limits.anonymousPerIp {
            return Some(TooManyAnonymousFromIp), permit;
          }
          anonymous := anonymous + 1;
          anonymousPerIp := Up(anonymousPerIp, ip);
        case Uncounted =>
      }
      perIp := Up(perIp, ip);
      live := live + {permit};
      nextId := nextId + 1;
      r := None;
    }

    /** A permit gives back what it took when it is dropped. */
    method Drop(permit: Permit)
      requires Valid() && permit in live
      modifies this
      ensures Valid() && live == old(live) - {permit} == Step(limits, old(live), Ends(permit))
    {
      hide AtIp, OfPrincipal, Anonymously, Compact, Down;
      assert live - {permit} + {permit} == live;
      CountsDown(live - {permit}, permit, perIp, perPrincipal, anonymous, anonymousPerIp);
      WithinMove(limits, live - {permit}, permit);
      perIp := Down(perIp, permit.ip);
      match permit.who {
        case SignedIn(p) =>
          perPrincipal := Down(perPrincipal, p);
        case Anonymous =>
          assert anonymous > 0;
          anonymous := anonymous - 1;
          anonymousPerIp := Down(anonymousPerIp, permit.ip);
        case Uncounted =>
      }
      live := live - {permit};
    }
  }

  lemma OneMoreAtIp(live: set<Permit>, x: Permit, ip: Ip)
    requires x !in live
    ensures |AtIp(live + {x}, ip)| == |AtIp(live, ip)| + (if x.ip == ip then 1 else 0)
  {
    assert AtIp(live + {x}, ip) == AtIp(live, ip) + (if x.ip == ip then {x} else {});
  }

  lemma OneMoreOf(live: set<Permit>, x: Permit, p: string)
    requires x !in live
    ensures |OfPrincipal(live + {x}, p)| == |OfPrincipal(live, p)| + (if x.who == SignedIn(p) then 1 else 0)
  {
    assert OfPrincipal(live + {x}, p) == OfPrincipal(live, p) + (if x.who == SignedIn(p) then {x} else {});
  }

  lemma OneMoreAnonymous(live: set<Permit>, x: Permit)
    requires x !in live
    ensures Anonymously(live + {x}) == Anonymously(live) + (if x.who.Anonymous? then {x} else {})
    ensures |Anonymously(live + {x})| == |Anonymously(live)| + (if x.who.Anonymous? then 1 else 0)
    ensures x !in Anonymously(live)
  {
    assert Anonymously(live + {x}) == Anonymously(live) + (if x.who.Anonymous? then {x} else {});
  }

  /** What one more permit adds to each count. */
  lemma OneMore(live: set<Permit>, x: Permit)
    requires x !in live
    ensures forall ip :: |AtIp(live + {x}, ip)| == |AtIp(live, ip)| + (if x.ip == ip then 1 else 0)
    ensures forall p :: |OfPrincipal(live + {x}, p)| == |OfPrincipal(live, p)| + (if x.who == SignedIn(p) then 1 else 0)
    ensures |Anonymously(live + {x})| == |Anonymously(live)| + (if x.who.Anonymous? then 1 else 0)
    ensures forall ip :: |AtIp(Anonymously(live + {x}), ip)|
                      == |AtIp(Anonymously(live), ip)| + (if x.who.Anonymous? && x.ip == ip then 1 else 0)
  {
    hide AtIp, OfPrincipal, Anonymously;
    forall ip
      ensures |AtIp(live + {x}, ip)| == |AtIp(live, ip)| + (if x.ip == ip then 1 else 0)
    {
      OneMoreAtIp(live, x, ip);
    }
    forall p
      ensures |OfPrincipal(live + {x}, p)| == |OfPrincipal(live, p)| + (if x.who == SignedIn(p) then 1 else 0)
    {
      OneMoreOf(live, x, p);
    }
    OneMoreAnonymous(live, x);
    forall ip
      ensures |AtIp(Anonymously(live + {x}), ip)|
           == |AtIp(Anonymously(live), ip)| + (if x.who.Anonymous? && x.ip == ip then 1 else 0)
    {
      if x.who.Anonymous? {
        OneMoreAtIp(Anonymously(live), x, ip);
      } else {
        assert Anonymously(live) + {} == Anonymously(live);
      }
    }
  }

  /** The maps counted up with a permit taken. */
  lemma CountsUp(live: set<Permit>, x: Permit, a: map<Ip, nat>, b: map<string, nat>, n: nat, c: map<Ip, nat>)
    requires x !in live && Counts(live, a, b, n, c)
    ensures Counts(live + {x}, Up(a, x.ip), if x.who.SignedIn? then Up(b, x.who.p) else b,
                   if x.who.Anonymous? then n + 1 else n, if x.who.Anonymous? then Up(c, x.ip) else c)
  {
    OneMore(live, x);
    UpAddsOne(a, x.ip);
    if x.who.SignedIn? {
      UpAddsOne(b, x.who.p);
    }
    UpAddsOne(c, x.ip);
    hide AtIp, OfPrincipal, Anonymously, Get, Up, Compact;
  }

  /** The maps counted down with a permit given back; none was at nothing. */
  lemma CountsDown(live: set<Permit>, x: Permit, a: map<Ip, nat>, b: map<string, nat>, n: nat, c: map<Ip, nat>)
    requires x !in live && Counts(live + {x}, a, b, n, c)
    ensures x.who.Anonymous? ==> n > 0
    ensures Counts(live, Down(a, x.ip), if x.who.SignedIn? then Down(b, x.who.p) else b,
                   if x.who.Anonymous? then n - 1 else n, if x.who.Anonymous? then Down(c, x.ip) else c)
  {
    OneMore(live, x);
    DownTakesOne(a, x.ip);
    if x.who.SignedIn? {
      DownTakesOne(b, x.who.p);
    }
    DownTakesOne(c, x.ip);
    hide AtIp, OfPrincipal, Anonymously, Get, Down, Compact;
    assert Get(a, x.ip) > 0;
    assert x.who.Anonymous? ==> Get(c, x.ip) > 0;
  }

  lemma WithinMove(l: Limits, live: set<Permit>, x: Permit)
    requires x !in live
    ensures Within(l, live) && Full(l, live, x.ip, x.who).None? ==> Within(l, live + {x})
    ensures Within(l, live + {x}) ==> Within(l, live)
  {
    OneMore(live, x);
    hide AtIp, OfPrincipal, Anonymously;
    assert forall ip :: |AtIp(live + {x}, ip)| >= |AtIp(live, ip)|;
    assert forall p :: |OfPrincipal(live + {x}, p)| >= |OfPrincipal(live, p)|;
    assert forall ip :: |AtIp(Anonymously(live + {x}), ip)| >= |AtIp(Anonymously(live), ip)|;
  }

  lemma NobodyIsWithin(l: Limits)
    ensures Within(l, {})
  {
    assert forall ip :: AtIp({}, ip) == {};
    assert forall p :: OfPrincipal({}, p) == {};
    assert Anonymously({}) == {};
  }

  lemma StepStaysWithin(l: Limits, live: set<Permit>, e: Event)
    requires Within(l, live)
    ensures Within(l, Step(l, live, e))
  {
    hide Within, Full;
    match e
    case Arrives(x) =>
      if x in live {
        assert live + {x} == live;
      } else {
        WithinMove(l, live, x);
      }
    case Ends(x) =>
      if x in live {
        assert live - {x} + {x} == live;
        WithinMove(l, live - {x}, x);
      } else {
        assert live - {x} == live;
      }
  }

  /** No limit is passed, whoever comes and goes in whatever order. */
  lemma {:induction false} RunStaysWithin(l: Limits, es: seq<Event>)
    ensures Within(l, Run(l, es))
  {
    if es == [] {
      NobodyIsWithin(l);
    } else {
      RunStaysWithin(l, es[..|es| - 1]);
      StepStaysWithin(l, Run(l, es[..|es| - 1]), es[|es| - 1]);
    }
  }

  /** The anonymous total is the sum of what each address holds of it. */
  lemma AnonymousIsTheSum(live: set<Permit>, perIp: map<Ip, nat>, perPrincipal: map<string, nat>, anonymous: nat,
      anonymousPerIp: map<Ip, nat>)
    requires Counts(live, perIp, perPrincipal, anonymous, anonymousPerIp)
    ensures anonymous == Sum(anonymousPerIp)
  {
    var key := (x: Permit) => x.ip;
    forall ip ensures With(Anonymously(live), key, ip) == AtIp(Anonymously(live), ip) {}
    SumIsTheWhole(anonymousPerIp, Anonymously(live), key);
  }

  // --------------------------------------------------------- non-interference

  /** Sockets of a group are signed in, and share neither an address nor a
      principal with any socket outside it. */
  ghost predicate Apart(es: seq<Event>, group: set<Permit>) {
    && (forall x | x in group :: !x.who.Anonymous?)
    && (forall e, x | e in es && e.x !in group && x in group ::
          e.x.ip != x.ip && (x.who.SignedIn? ==> e.x.who != x.who))
  }

  ghost function Only(es: seq<Event>, group: set<Permit>): seq<Event> {
    if es == [] then []
    else Only(es[..|es| - 1], group) + (if es[|es| - 1].x in group then [es[|es| - 1]] else [])
  }

  ghost predicate CameIn(live: set<Permit>, es: seq<Event>) {
    forall x | x in live :: Arrives(x) in es
  }

  lemma {:induction false} RunCameIn(l: Limits, es: seq<Event>)
    ensures CameIn(Run(l, es), es)
  {
    if es != [] {
      RunCameIn(l, es[..|es| - 1]);
    }
  }

  lemma GroupAloneDecides(l: Limits, live: set<Permit>, group: set<Permit>, x: Permit, es: seq<Event>)
    requires CameIn(live, es) && Apart(es, group) && x in group
    ensures Full(l, live * group, x.ip, x.who) == Full(l, live, x.ip, x.who)
  {
    assert forall y | y in live && y !in group :: Arrives(y).x.ip != x.ip;
    assert AtIp(live * group, x.ip) == AtIp(live, x.ip);
    if x.who.SignedIn? {
      assert forall y | y in live && y !in group :: Arrives(y).x.who != x.who;
      assert OfPrincipal(live * group, x.who.p) == OfPrincipal(live, x.who.p);
    }
  }

  /** Callers who share no address and no principal with a group of signed-in
      sockets change nothing of what it is given, over any run: it holds the
      permits it would hold had the others never come. */
  lemma {:induction false} OthersDoNotInterfere(l: Limits, es: seq<Event>, group: set<Permit>)
    requires Apart(es, group)
    ensures Run(l, Only(es, group)) == Run(l, es) * group
  {
    if es != [] {
      var before, e := es[..|es| - 1], es[|es| - 1];
      OthersDoNotInterfere(l, before, group);
      var live := Run(l, before);
      RunCameIn(l, before);
      assert CameIn(live, es);
      if e.x in group {
        assert (Only(before, group) + [e])[..|Only(es, group)| - 1] == Only(before, group);
        GroupAloneDecides(l, live, group, e.x, es);
      } else {
        assert Only(es, group) == Only(before, group);
      }
    }
  }

  // ------------------------------------------------- anonymous and signed in

  ghost predicate AllAnonymous(es: seq<Event>) {
    forall e | e in es :: e.x.who.Anonymous?
  }

  /** `n` anonymous sockets from one address. */
  ghost function Crowd(ip: Ip, n: nat): seq<Event> {
    if n == 0 then [] else Crowd(ip, n - 1) + [Arrives(Permit(n, ip, Anonymous))]
  }

  lemma RunThen(l: Limits, es: seq<Event>, e: Event)
    ensures Run(l, es + [e]) == Step(l, Run(l, es), e)
  {
    assert (es + [e])[..|es|] == es;
  }

  lemma OneMoreOfTheCrowd(l: Limits, live: set<Permit>, x: Permit)
    requires |live| < l.perIp && |live| < l.anonymous && |live| < l.anonymousPerIp
    requires x.who.Anonymous? && forall y | y in live :: y.ip == x.ip && y.who.Anonymous?
    ensures Step(l, live, Arrives(x)) == live + {x}
  {
    assert AtIp(live, x.ip) == live && Anonymously(live) == live;
  }

  lemma {:induction false} CrowdGetsIn(l: Limits, ip: Ip, n: nat)
    requires n <= l.perIp && n <= l.anonymous && n <= l.anonymousPerIp
    ensures AllAnonymous(Crowd(ip, n))
    ensures forall x | x in Run(l, Crowd(ip, n)) :: x.id <= n && x.ip == ip && x.who.Anonymous?
    ensures |Run(l, Crowd(ip, n))| == n
  {
    hide Step;
    if n > 0 {
      CrowdGetsIn(l, ip, n - 1);
      var live, x := Run(l, Crowd(ip, n - 1)), Permit(n, ip, Anonymous);
      RunThen(l, Crowd(ip, n - 1), Arrives(x));
      OneMoreOfTheCrowd(l, live, x);
      hide Run;
      assert Crowd(ip, n) == Crowd(ip, n - 1) + [Arrives(x)];
      hide Crowd;
      assert x !in live;
    }
  }

  lemma CrowdLocksOut(l: Limits, ip: Ip, p: string)
    requires l.perIp <= l.anonymous && l.perIp <= l.anonymousPerIp
    ensures AllAnonymous(Crowd(ip, l.perIp))
    ensures Full(l, Run(l, Crowd(ip, l.perIp)), ip, SignedIn(p)).Some?
  {
    CrowdGetsIn(l, ip, l.perIp);
    hide Run, Crowd;
    var live := Run(l, Crowd(ip, l.perIp));
    assert AtIp(live, ip) == live;
  }

  lemma AnonymousLeaveRoom(l: Limits, ip: Ip, p: string, es: seq<Event>)
    requires l.perPrincipal > 0 && AllAnonymous(es)
    requires l.perIp > l.anonymous || l.perIp > l.anonymousPerIp
    ensures Full(l, Run(l, es), ip, SignedIn(p)).None?
  {
    var live := Run(l, es);
    RunStaysWithin(l, es);
    RunCameIn(l, es);
    hide Run;
    assert forall x | x in live :: Arrives(x).x.who.Anonymous?;
    assert Anonymously(live) == live && OfPrincipal(live, p) == {};
    Subset(AtIp(live, ip), live);
  }

  /** Anonymous sockets can keep a signed-in caller out of its own address
      exactly when both anonymous limits reach the address's. */
  lemma AnonymousLockOut(l: Limits, ip: Ip, p: string)
    requires l.perPrincipal > 0
    ensures (exists es :: AllAnonymous(es) && Full(l, Run(l, es), ip, SignedIn(p)).Some?)
       <==> l.perIp <= l.anonymous && l.perIp <= l.anonymousPerIp
  {
    hide Full, AllAnonymous, Run, Crowd;
    if l.perIp <= l.anonymous && l.perIp <= l.anonymousPerIp {
      CrowdLocksOut(l, ip, p);
    } else {
      forall es | AllAnonymous(es) ensures Full(l, Run(l, es), ip, SignedIn(p)).None? {
        AnonymousLeaveRoom(l, ip, p, es);
      }
    }
  }

  lemma {:induction false} Subset<T>(a: set<T>, b: set<T>)
    requires a <= b
    ensures |a| <= |b|
  {
    assert b == a + (b - a);
  }

  // ------------------------------------------------------ not yet upgraded

  /** A place among its address's sockets not yet upgraded. */
  datatype Place = Place(id: nat, ip: Ip)

  ghost function PlacesAt(held: set<Place>, ip: Ip): set<Place> {
    set x | x in held && x.ip == ip
  }

  /** What is done to the map of their counts. */
  datatype Door = Takes(ip: Ip, max: u32) | Gives(ip: Ip)

  function Known(m: map<Ip, nat>, ip: Ip): map<Ip, nat> {
    if ip in m then m else m[ip := 0]
  }

  function After(m: map<Ip, nat>, d: Door): map<Ip, nat> {
    match d
    case Takes(ip, max) => if Get(m, ip) < max then Up(m, ip) else Known(m, ip)
    case Gives(ip) => Down(m, ip)
  }

  function AfterAll(ds: seq<Door>): map<Ip, nat> {
    if ds == [] then map[] else After(AfterAll(ds[..|ds| - 1]), ds[|ds| - 1])
  }

  class Pending {
    var perIp: map<Ip, nat>
    ghost var held: set<Place>
    var nextId: nat

    ghost predicate Valid()
      reads this
    {
      && (forall ip :: Get(perIp, ip) == |PlacesAt(held, ip)|)
      && (forall x | x in held :: x.id < nextId)
    }

    constructor ()
      ensures Valid() && held == {} && perIp == map[]
    {
      perIp, held, nextId := map[], {}, 0;
      new;
      assert forall ip :: PlacesAt({}, ip) == {};
    }

    /** A place exactly when the address holds fewer than `max`. Taking looks
        the address up with an entry of nothing put there first. */
    method Take(ip: Ip, max: u32) returns (r: Option<Place>)
      requires Valid()
      modifies this
      ensures Valid()
      ensures r.Some? <==> |PlacesAt(old(held), ip)| < max
      ensures r.Some? ==> r.value.ip == ip && r.value !in old(held) && held == old(held) + {r.value}
      ensures r.None? ==> held == old(held)
      ensures perIp == if r.Some? then Up(old(perIp), ip) else Known(old(perIp), ip)
      ensures perIp == After(old(perIp), Takes(ip, max))
    {
      if ip !in perIp {
        perIp := perIp[ip := 0];
      }
      if perIp[ip] >= max {
        return None;
      }
      var place := Place(nextId, ip);
      PlacesMove(held, place);
      perIp := perIp[ip := perIp[ip] + 1];
      held := held + {place};
      nextId := nextId + 1;
      r := Some(place);
    }

    /** The place is free again, however it ends; the count that held it is never
        at nothing. */
    method Drop(place: Place)
      requires Valid() && place in held
      modifies this
      ensures Valid() && held == old(held) - {place} && perIp == After(old(perIp), Gives(place.ip))
    {
      assert held - {place} + {place} == held;
      PlacesMove(held - {place}, place);
      assert Get(perIp, place.ip) > 0;
      if place.ip in perIp {
        var n: nat := perIp[place.ip] - 1;
        perIp := perIp[place.ip := n];
        if n == 0 {
          perIp := perIp - {place.ip};
        }
      }
      held := held - {place};
    }
  }

  lemma PlacesMove(held: set<Place>, x: Place)
    requires x !in held
    ensures forall ip :: |PlacesAt(held + {x}, ip)| == |PlacesAt(held, ip)| + (if x.ip == ip then 1 else 0)
  {
    forall ip
      ensures |PlacesAt(held + {x}, ip)| == |PlacesAt(held, ip)| + (if x.ip == ip then 1 else 0)
    {
      assert PlacesAt(held + {x}, ip) == PlacesAt(held, ip) + (if x.ip == ip then {x} else {});
    }
  }

  /** Taking, granted or refused, leaves an entry of nothing behind exactly when
      no place may be had at all and the address was not known. */
  lemma RefusalLeavesAnEntry(perIp: map<Ip, nat>, ip: Ip, max: u32)
    requires Compact(perIp)
    ensures Compact(After(perIp, Takes(ip, max))) <==> !(max == 0 && ip !in perIp)
  {
    if ip !in perIp && max == 0 {
      assert After(perIp, Takes(ip, max))[ip] == 0;
    }
  }

  /** So while every limit leaves room for one, no entry of nothing is ever kept,
      whatever is taken and given back in whatever order. */
  lemma {:induction false} NoEntryOfNothing(ds: seq<Door>)
    requires forall i | 0 <= i < |ds| && ds[i].Takes? :: ds[i].max > 0
    ensures Compact(AfterAll(ds))
  {
    if ds != [] {
      var before, d := ds[..|ds| - 1], ds[|ds| - 1];
      NoEntryOfNothing(before);
      match d
      case Takes(ip, max) => RefusalLeavesAnEntry(AfterAll(before), ip, max);
      case Gives(ip) => DownTakesOne(AfterAll(before), ip);
    }
  }
}
