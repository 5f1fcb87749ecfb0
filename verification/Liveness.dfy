/** Timed liveness of one socket: ticks close a peer that has gone silent, and
    a socket that has gone too long without a call. Times are
    numbers of nanoseconds. */
module Liveness {
  import opened Base

  const MS: nat := 1_000_000

  datatype Limits = Limits(pingTimeout: Option<nat>, idle: Option<nat>)

  datatype End = Silent | Idle

  /** `duration_since`, which never goes below zero. */
  function Since(now: nat, last: nat): nat {
    if now >= last then now - last else 0
  }

  function Clamp(x: nat, lo: nat, hi: nat): nat {
    if x < lo then lo else if x > hi then hi else x
  }

  /** How often the limits are checked: an eighth of the shorter, within 25 ms
      and 5 s; never, with no limit. */
  function TickEvery(l: Limits): Option<nat> {
    var shorter :=
      match (l.pingTimeout, l.idle)
      case (Some(p), Some(i)) => Some(Min(p, i))
      case (Some(p), None) => Some(p)
      case (None, i) => i;
    if shorter.None? then None else Some(Clamp(shorter.value / 8, 25 * MS, 5000 * MS))
  }

  predicate Longer(limit: Option<nat>, t: nat) {
    limit.Some? ==> limit.value > t
  }

  /** Of the shorter limit, a tick is the eighth, but no less than 25 ms and no
      more than 5 s: with its ticks on schedule any limit of 200 ms or more is
      kept to within an eighth of itself. */
  lemma TickIsAnEighth(l: Limits, limit: nat)
    requires l.pingTimeout == Some(limit) || l.idle == Some(limit)
    ensures TickEvery(l).Some? && 25 * MS <= TickEvery(l).value <= 5000 * MS
    ensures limit >= 200 * MS ==> 8 * TickEvery(l).value <= limit
    ensures (l.pingTimeout.None? || l.pingTimeout.value == limit) && (l.idle.None? || l.idle.value == limit) ==>
              200 * MS <= limit <= 40_000 * MS ==> limit < 8 * (TickEvery(l).value + 1)
    ensures Longer(l.pingTimeout, 40_000 * MS) && Longer(l.idle, 40_000 * MS) ==> TickEvery(l).value == 5000 * MS
  {}

  /** The watch as a value, and its steps. */
  datatype Core = Core(open: nat, lastIn: nat, lastBusy: nat)

  datatype Event = Tick(at: nat) | Message(at: nat) | Begin(at: nat, opens: bool) | Done(at: nat)

  function Next(l: Limits, c: Core, e: Event): (Core, Option<End>) {
    match e
    case Message(t) => (c.(lastIn := t), None)
    case Begin(t, opens) => (c.(lastIn := t, lastBusy := t, open := c.open + (if opens then 1 else 0)), None)
    case Done(_) => (c.(open := if c.open > 0 then c.open - 1 else 0), None)
    case Tick(t) =>
      if l.pingTimeout.Some? && Since(t, c.lastIn) > l.pingTimeout.value then (c, Some(Silent))
      else if l.idle.None? then (c, None)
      else if c.open > 0 then (c.(lastBusy := t), None)
      else if Since(t, c.lastBusy) >= l.idle.value then (c, Some(Idle))
      else (c, None)
  }

  /** A socket's life so far: its watch, the time, its last tick, the last
      message, and the last instant known with a call open or begun. */
  datatype Life = Life(core: Core, now: nat, lastTick: nat, heard: nat, active: nat)

  /** The last instant a call was open or begun: now, with one open. */
  function LastActive(x: Life): nat {
    if x.core.open > 0 then x.now else x.active
  }

  /** Time goes on, and no more than `tau` passes between ticks. */
  predicate Timely(x: Life, e: Event, tau: nat) {
    x.now <= e.at <= x.lastTick + tau && (e.Done? ==> x.core.open > 0)
  }

  function Live(l: Limits, x: Life, e: Event): Life {
    Life(Next(l, x.core, e).0, e.at,
         if e.Tick? then e.at else x.lastTick,
         if e.Message? || e.Begin? then e.at else x.heard,
         if e.Begin? || x.core.open > 0 then e.at else x.active)
  }

  /** A life in which no tick has closed the socket. */
  predicate Alive(l: Limits, tau: nat, x: Life, es: seq<Event>)
    decreases |es|
  {
    es != [] ==> Timely(x, es[0], tau) && Next(l, x.core, es[0]).1.None? && Alive(l, tau, Live(l, x, es[0]), es[1..])
  }

  function Lived(l: Limits, x: Life, es: seq<Event>): Life
    decreases |es|
  {
    if es == [] then x else Lived(l, Live(l, x, es[0]), es[1..])
  }

  function Born(now: nat): Life {
    Life(Core(0, now, now), now, now, now, now)
  }

  /** What every moment of a life keeps. */
  predicate Kept(l: Limits, tau: nat, x: Life) {
    && x.lastTick <= x.now <= x.lastTick + tau
    && x.core.lastIn == x.heard <= x.now
    && x.core.lastBusy <= LastActive(x) <= x.now
    && (l.idle.Some? && x.core.open > 0 ==> x.core.lastBusy >= x.lastTick)
    && (l.idle.Some? && x.core.open == 0 ==> x.active <= x.core.lastBusy + tau)
    && (l.idle.Some? ==> x.lastTick <= x.core.lastBusy + l.idle.value)
    && (l.pingTimeout.Some? ==> x.lastTick <= x.heard + l.pingTimeout.value)
  }

  /** No tick has closed the socket; and time went on as it should. */
  predicate Spared(l: Limits, x: Life, es: seq<Event>)
    decreases |es|
  {
    es != [] ==> Next(l, x.core, es[0]).1.None? && Spared(l, Live(l, x, es[0]), es[1..])
  }

  predicate Paced(l: Limits, tau: nat, x: Life, es: seq<Event>)
    decreases |es|
  {
    es != [] ==> Timely(x, es[0], tau) && Paced(l, tau, Live(l, x, es[0]), es[1..])
  }

  lemma {:induction false} AliveIsSparedAndPaced(l: Limits, tau: nat, x: Life, es: seq<Event>)
    ensures Alive(l, tau, x, es) <==> Spared(l, x, es) && Paced(l, tau, x, es)
    decreases |es|
  {
    if es != [] {
      AliveIsSparedAndPaced(l, tau, Live(l, x, es[0]), es[1..]);
    }
  }

  lemma {:induction false} LivedOn(l: Limits, x: Life, es: seq<Event>, e: Event)
    requires Spared(l, x, es) && Next(l, Lived(l, x, es).core, e).1.None?
    ensures Spared(l, x, es + [e]) && Lived(l, x, es + [e]) == Live(l, Lived(l, x, es), e)
    decreases |es|
  {
    if es == [] {
      assert (es + [e])[1..] == [];
    } else {
      LivedOn(l, Live(l, x, es[0]), es[1..], e);
      assert (es + [e])[1..] == es[1..] + [e];
    }
  }

  lemma {:induction false} LifeKept(l: Limits, tau: nat, x: Life, es: seq<Event>)
    requires Kept(l, tau, x) && Alive(l, tau, x, es)
    ensures Kept(l, tau, Lived(l, x, es))
    decreases |es|
  {
    if es != [] {
      LifeKept(l, tau, Live(l, x, es[0]), es[1..]);
    }
  }

  /** A socket closed as idle has no call open, and is closed within `tau` of its
      idle limit after the last instant one was open or begun, either way. One
      closed as silent has heard nothing for longer than the ping timeout, and
      no longer than that and `tau`. */
  lemma ClosedNoSooner(l: Limits, tau: nat, start: nat, es: seq<Event>, e: Event)
    requires Alive(l, tau, Born(start), es)
    requires var x := Lived(l, Born(start), es); Timely(x, e, tau) && Next(l, x.core, e).1.Some?
    ensures var x := Lived(l, Born(start), es);
            match Next(l, x.core, e).1.value
            case Idle =>
              && e.Tick? && x.core.open == 0 && l.idle.Some?
              && LastActive(x) + l.idle.value <= e.at + tau
              && e.at <= LastActive(x) + l.idle.value + tau
            case Silent =>
              && e.Tick? && l.pingTimeout.Some?
              && x.heard + l.pingTimeout.value < e.at <= x.heard + l.pingTimeout.value + tau
  {
    LifeKept(l, tau, Born(start), es);
  }

  /** With ticks as often as they are set to come, a limit of 200 ms or more is
      kept to within an eighth. */
  lemma ClosedWithinAnEighth(l: Limits, start: nat, es: seq<Event>, e: Event)
    requires TickEvery(l).Some? && Alive(l, TickEvery(l).value, Born(start), es)
    requires var x := Lived(l, Born(start), es); Timely(x, e, TickEvery(l).value) && Next(l, x.core, e).1.Some?
    ensures var x := Lived(l, Born(start), es);
            match Next(l, x.core, e).1.value
            case Idle =>
              && l.idle.Some?
              && (l.idle.value >= 200 * MS ==> 7 * l.idle.value <= 8 * (e.at - LastActive(x)) <= 9 * l.idle.value)
            case Silent =>
              && l.pingTimeout.Some? && l.pingTimeout.value < e.at - x.heard
              && (l.pingTimeout.value >= 200 * MS ==> 8 * (e.at - x.heard) <= 9 * l.pingTimeout.value)
  {
    ClosedNoSooner(l, TickEvery(l).value, start, es, e);
    hide Alive, Lived, Timely, Next, LastActive;
    if l.idle.Some? {
      TickIsAnEighth(l, l.idle.value);
    }
    if l.pingTimeout.Some? {
      TickIsAnEighth(l, l.pingTimeout.value);
    }
  }

  /** And no later: a socket that lives on has been active within its idle
      limit and `tau`, and heard from within the ping timeout and `tau`. */
  lemma ClosedNoLater(l: Limits, tau: nat, start: nat, es: seq<Event>)
    requires Alive(l, tau, Born(start), es)
    ensures var x := Lived(l, Born(start), es);
            && (l.idle.Some? ==> x.now <= LastActive(x) + l.idle.value + tau)
            && (l.pingTimeout.Some? ==> x.now <= x.heard + l.pingTimeout.value + tau)
  {
    LifeKept(l, tau, Born(start), es);
  }

  // ------------------------------------------------------------------ the watch

  /** What a socket keeps of its own life. */
  class Watch {
    const limits: Limits
    const start: nat
    var open: nat             // calls open
    var lastIn: nat           // when it last heard a message
    var lastBusy: nat         // when it last knew a call open or begun
    ghost var life: seq<Event>

    ghost predicate Valid()
      reads this
    {
      State() == Lived(limits, Born(start), life).core && Spared(limits, Born(start), life)
    }

    ghost function State(): Core
      reads this
    {
      Core(open, lastIn, lastBusy)
    }

    constructor (limits: Limits, now: nat)
      ensures Valid() && this.limits == limits && this.start == now && life == []
    {
      this.limits, this.start := limits, now;
      open, lastIn, lastBusy, life := 0, now, now, [];
    }

    ghost method Record(e: Event)
      requires Spared(limits, Born(start), life) && Next(limits, Lived(limits, Born(start), life).core, e).1.None?
      requires State() == Next(limits, Lived(limits, Born(start), life).core, e).0
      modifies this`life
      ensures Valid() && life == old(life) + [e]
    {
      LivedOn(limits, Born(start), life, e);
      life := life + [e];
    }

    /** A message came off the framing. */
    method Heard(now: nat)
      requires Valid()
      modifies this
      ensures Valid() && life == old(life) + [Message(now)]
      ensures lastIn == now && lastBusy == old(lastBusy) && open == old(open)
    {
      hide Spared, Lived;
      lastIn := now;
      Record(Message(now));
    }

    /** It began a call, which stays open or was over at once. */
    method Begun(now: nat, opens: bool)
      requires Valid()
      modifies this
      ensures Valid() && life == old(life) + [Begin(now, opens)]
      ensures lastIn == lastBusy == now && open == old(open) + (if opens then 1 else 0)
    {
      hide Spared, Lived;
      lastIn := now;
      lastBusy := now;
      if opens {
        open := open + 1;
      }
      Record(Begin(now, opens));
    }

    /** A call is over. */
    method Over(now: nat)
      requires Valid() && open > 0
      modifies this
      ensures Valid() && life == old(life) + [Done(now)] && open == old(open) - 1
    {
      hide Spared, Lived;
      open := open - 1;
      Record(Done(now));
    }

    /** At a tick: why the socket is to be closed, if it is. */
    method Check(now: nat) returns (e: Option<End>)
      requires Valid()
      modifies this
      ensures Valid() && e == Next(limits, old(State()), Tick(now)).1
      ensures e == Some(Silent) <==> limits.pingTimeout.Some? && now > lastIn + limits.pingTimeout.value
      ensures e == Some(Idle) <==>
                && e != Some(Silent) && limits.idle.Some? && open == 0
                && (now >= lastBusy + limits.idle.value || limits.idle.value == 0)
      ensures e.None? ==> life == old(life) + [Tick(now)]
      ensures e.Some? ==> unchanged(this)
    {
      hide Spared, Lived;
      match limits.pingTimeout {
        case Some(t) =>
          if Since(now, lastIn) > t {
            return Some(Silent);
          }
        case None =>
      }
      match limits.idle {
        case Some(idle) =>
          if open > 0 {
            lastBusy := now;
          } else if Since(now, lastBusy) >= idle {
            return Some(Idle);
          }
        case None =>
      }
      Record(Tick(now));
      e := None;
    }

    /** Of a socket whose ticks came at most `tau` apart: what closes it at a
        tick closes it in time, and while none does it has been heard from and
        active in time. */
    lemma InTime(tau: nat, now: nat)
      requires Valid() && Paced(limits, tau, Born(start), life)
      requires Timely(Lived(limits, Born(start), life), Tick(now), tau)
      ensures var x := Lived(limits, Born(start), life);
              && (match Next(limits, State(), Tick(now)).1
                  case Some(Idle) =>
                    && open == 0 && limits.idle.Some?
                    && LastActive(x) + limits.idle.value <= now + tau
                    && now <= LastActive(x) + limits.idle.value + tau
                  case Some(Silent) =>
                    && limits.pingTimeout.Some?
                    && x.heard + limits.pingTimeout.value < now <= x.heard + limits.pingTimeout.value + tau
                  case None => true)
              && (limits.idle.Some? ==> x.now <= LastActive(x) + limits.idle.value + tau)
              && (limits.pingTimeout.Some? ==> x.now <= x.heard + limits.pingTimeout.value + tau)
    {
      AliveIsSparedAndPaced(limits, tau, Born(start), life);
      ClosedNoLater(limits, tau, start, life);
      if Next(limits, State(), Tick(now)).1.Some? {
        ClosedNoSooner(limits, tau, start, life, Tick(now));
      }
    }
  }
}
