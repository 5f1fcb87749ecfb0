/** The task that serves one socket, both ways. What the socket, the timers and
    the other tasks answer at each poll is given beforehand, poll by poll, and
    may be anything; when the other tasks put their frames is anything too. What
    the loop does to its own fields is followed step by step, and every step it
    takes is one of `WriterRuns`. */
module SocketLoop {
  import opened Base
  import opened WriterRuns
  import opened Intake
  import L = Liveness

  /** How many frames one wakeup may read. */
  const READ_BUDGET: nat := 64
  /** How long a backlog of answers still lets the reader read. */
  const OUT_HIGH: nat := 1024

  datatype End = PeerClosed | Lost | Protocol | ServerStopped | Closed | Silent | Idle

  datatype Wrote = Moved | Still | Gone

  /** What is due when a wakeup begins. */
  datatype Signals = Signals(stop: bool, close: bool, tick: bool, ping: bool)

  /** The answers to come: `readable` to the polls of the reader, `resolves` to
      those of the acceptances, `signals` at each wakeup; `loses` says which
      frame handed over the socket fails on. */
  datatype Outside = Outside(readable: nat -> bool, resolves: nat -> bool, signals: nat -> Signals, loses: nat -> bool)

  /** The producers' puts to come, each in its call's order. */
  predicate Fair(puts: seq<Act>, ts: seq<TableMsg>, fs: seq<CallFrame>)
    decreases |puts|
  {
    puts != [] ==>
      match puts[0]
      case PutOwn(_) => Fair(puts[1..], ts, fs)
      case PutTable(t) => Fair(puts[1..], ts + [t], fs)
      case PutFrame(f) => InOrder(f, ts, fs) && Fair(puts[1..], ts, fs + [f])
      case _ => false
  }

  // ------------------------------------------------------ what the steps tell

  /** A point in the loop's life: the steps taken and the polls made so far. */
  datatype Mark = Mark(steps: nat, asks: nat, polled: nat, peeks: nat, accepts: nat)

  predicate NoHear(acts: seq<Act>, lo: nat, hi: nat)
    requires hi <= |acts|
  {
    forall i | lo <= i < hi :: !acts[i].Hear?
  }

  /** More steps, none of which reads. */
  predicate Quietly(was: seq<Act>, acts: seq<Act>) {
    was <= acts && NoHear(acts, |was|, |acts|)
  }

  /** Queue `q` was asked in vain; `honest`, and it was empty, so its next frame
      wakes the task. */
  predicate Misses(a: Act, q: Queue, honest: bool) {
    a.Miss? && a.q == q && (honest ==> !a.falsely)
  }

  predicate MissedIn(acts: seq<Act>, lo: nat, hi: nat, q: Queue)
    requires hi <= |acts|
  {
    exists i | lo <= i < hi :: Misses(acts[i], q, false) || (acts[i].PassOver? && q.Own?)
  }

  /** The socket took what it was handed, or will not take it now. */
  predicate Settles(a: Act) {
    a == Flush(Ready) || a == Flush(Waits) || a == PollReady(Waits)
  }

  /** Writing was tried, as far as it went: the socket took everything or will
      take nothing now, or every queue was asked in vain. */
  predicate Tried(acts: seq<Act>, lo: nat, hi: nat)
    requires hi <= |acts|
  {
    || (exists i | lo <= i < hi :: Settles(acts[i]))
    || (MissedIn(acts, lo, hi, Own) && MissedIn(acts, lo, hi, Table) && MissedIn(acts, lo, hi, Frames))
  }

  /** After each message read, and before the next, writing was tried. */
  ghost predicate TriedEachRound(acts: seq<Act>, lo: nat) {
    forall i | lo <= i < |acts| && acts[i].Hear? :: exists e :: TriedBy(acts, i, e)
  }

  predicate TriedBy(acts: seq<Act>, i: nat, e: nat) {
    i < e <= |acts| && NoHear(acts, i + 1, e) && Tried(acts, i + 1, e)
  }

  lemma QuietlyOn(a: seq<Act>, b: seq<Act>, c: seq<Act>)
    requires Quietly(a, b) && Quietly(b, c)
    ensures Quietly(a, c)
  {
    forall i | |a| <= i < |c| ensures !c[i].Hear? {
      assert i < |b| ==> c[i] == b[i];
    }
  }

  lemma TriedOn(was: seq<Act>, acts: seq<Act>, lo: nat, mid: nat)
    requires was <= acts && mid <= |was| && TriedEachRound(was, lo) && TriedEachRound(acts, mid) && |was| == mid
    ensures TriedEachRound(acts, lo)
  {
    forall i | lo <= i < |acts| && acts[i].Hear? ensures exists e :: TriedBy(acts, i, e) {
      if i < mid {
        assert was[i].Hear?;
        var e :| TriedBy(was, i, e);
        TriedStays(was, acts, i, e);
      }
    }
  }

  lemma TriedStays(was: seq<Act>, acts: seq<Act>, i: nat, e: nat)
    requires was <= acts && TriedBy(was, i, e)
    ensures TriedBy(acts, i, e)
  {
    assert forall j | 0 <= j < |was| :: acts[j] == was[j];
  }

  lemma TriedThisRound(taken: seq<Act>, acts: seq<Act>, lo: nat)
    requires lo <= |taken| && LastHear(taken, lo) && Quietly(taken, acts) && Tried(acts, |taken|, |acts|)
    ensures TriedEachRound(acts, lo)
  {
    forall i | lo <= i < |acts| && acts[i].Hear? ensures exists e :: TriedBy(acts, i, e) {
      assert i < |taken| && taken[i].Hear?;
      forall j | i < j < |acts| ensures !acts[j].Hear? {
        assert j < |taken| ==> acts[j] == taken[j];
      }
      TriedLonger(acts, i + 1, |taken|);
      assert TriedBy(acts, i, |acts|);
    }
  }

  lemma TriedLonger(acts: seq<Act>, lo: nat, mid: nat)
    requires lo <= mid <= |acts| && Tried(acts, mid, |acts|)
    ensures Tried(acts, lo, |acts|)
  {}

  lemma NothingTriedYet(acts: seq<Act>, lo: nat)
    requires lo <= |acts| && NoHear(acts, lo, |acts|)
    ensures TriedEachRound(acts, lo)
  {}

  /** After the last message read since, nothing more was. */
  predicate LastHear(acts: seq<Act>, lo: nat) {
    forall i | lo <= i < |acts| && acts[i].Hear? :: NoHear(acts, i + 1, |acts|)
  }

  /** Since step `lo` the queue at `at` was asked in vain, and wakes the task
      when it fills, unless the task has woken itself; or it is closed, and was
      passed over. */
  predicate AskedIn(acts: seq<Act>, lo: nat, at: nat, ownOpen: bool, woken: bool) {
    match QueueAt(at)
    case Own => if ownOpen then MissedSince(acts, lo, Own, woken) else lo <= |acts| && MissedIn(acts, lo, |acts|, Own)
    case Table => MissedSince(acts, lo, Table, woken)
    case Frames => MissedSince(acts, lo, Frames, woken)
  }

  predicate MissedSince(acts: seq<Act>, lo: nat, q: Queue, woken: bool) {
    exists i | lo <= i < |acts| :: Misses(acts[i], q, !woken)
  }

  lemma AskedStays(was: seq<Act>, acts: seq<Act>, lo: nat, at: nat, wasOpen: bool, ownOpen: bool, wasWoken: bool,
      woken: bool)
    requires AskedIn(was, lo, at, wasOpen, wasWoken) && was <= acts && (wasWoken ==> woken) && (ownOpen ==> wasOpen)
    ensures AskedIn(acts, lo, at, ownOpen, woken)
  {
    assert forall i | 0 <= i < |was| :: acts[i] == was[i];
  }

  lemma QuietlySelf(acts: seq<Act>)
    ensures Quietly(acts, acts)
  {}

  lemma Longer(was: seq<Act>, acts: seq<Act>)
    requires Quietly(was, acts)
    ensures was <= acts
  {}

  lemma LastSettles(was: seq<Act>, before: seq<Act>, acts: seq<Act>)
    requires Quietly(was, before) && |acts| == |before| + 1 && Settles(acts[|before|])
    ensures Tried(acts, |was|, |acts|)
  {}

  lemma FlushSettles(was: seq<Act>, before: seq<Act>, acts: seq<Act>, a: SocketSays)
    requires Quietly(was, before) && acts == before + [Flush(a)] && !a.Broken?
    ensures Tried(acts, |was|, |acts|)
  {
    LastSettles(was, before, acts);
  }

  /** The task has been woken by a queue that came back falsely empty, or stays
      as it was. */
  predicate Wakes(s: Setting, was: bool, woken: bool, lo: nat, hi: nat) {
    lo <= hi && (was ==> woken) && (woken && !was ==> exists k | lo <= k < hi :: s.falsely(k))
  }

  lemma WakesSelf(s: Setting, woken: bool, at: nat)
    ensures Wakes(s, woken, woken, at, at)
  {}

  lemma WakesUp(s: Setting, was: bool, woken: bool, lo: nat, hi: nat)
    requires Wakes(s, was, woken, lo, hi)
    ensures lo <= hi && (was ==> woken)
  {}

  lemma WakesOn(s: Setting, a: bool, b: bool, c: bool, lo: nat, mid: nat, hi: nat)
    requires Wakes(s, a, b, lo, mid) && Wakes(s, b, c, mid, hi)
    ensures Wakes(s, a, c, lo, hi)
  {}

  predicate Ticked(was: seq<L.Event>, life: seq<L.Event>) {
    exists i | |was| <= i < |life| :: life[i].Tick?
  }

  lemma TickedOn(was: seq<L.Event>, now: seq<L.Event>, life: seq<L.Event>)
    requires |was| < |now| && now <= life && now[|now| - 1].Tick?
    ensures Ticked(was, life)
  {
    assert life[|now| - 1] == now[|now| - 1];
  }

  /** Steps that read nothing change nothing of it. */
  lemma TriedFrom(acts: seq<Act>, lo: nat, mid: nat)
    requires lo <= mid <= |acts| && TriedEachRound(acts, mid) && NoHear(acts, lo, mid)
    ensures TriedEachRound(acts, lo)
  {
    hide TriedBy;
  }

  predicate After(m: Mark, now: Mark) {
    && m.steps <= now.steps && m.asks <= now.asks && m.polled <= now.polled && m.peeks <= now.peeks
    && m.accepts <= now.accepts
  }

  lemma IsAfter(m: Mark, now: Mark)
    requires m.steps <= now.steps && m.asks <= now.asks && m.polled <= now.polled
    requires m.peeks <= now.peeks && m.accepts <= now.accepts
    ensures After(m, now)
  {}

  predicate OnlyDone(was: seq<L.Event>, life: seq<L.Event>) {
    was <= life && forall i | |was| <= i < |life| :: life[i].Done?
  }

  // ------------------------------------------- the steps, as the fields show them

  /** The fields by which the loop writes. */
  datatype View = View(out: seq<Reply>, own: seq<OwnMsg>, table: seq<TableMsg>, frames: seq<CallFrame>,
    fenced: Option<CallFrame>, turn: nat, gathered: nat, unflushed: bool, sent: seq<Sent>, made: seq<Reply>,
    asks: nat, polled: nat, ready: bool, heard: int)

  /** They are those of the writer `w`, `hand` taken but not handed over yet. */
  predicate Mirrors(w: Writer, v: View, asked: nat, hand: Option<Sent>) {
    && w.out == v.out && w.own == v.own && w.table == v.table && w.frames == v.frames
    && w.fenced == v.fenced && w.turn == v.turn && w.asked == asked
    && w.sent == (if hand.Some? then v.sent + [hand.value] else v.sent)
    && w.gathered == v.gathered + (if hand.Some? then Size(hand.value) else 0)
    && w.unflushed == (v.unflushed || hand.Some?)
    && w.made == v.made && w.asks == v.asks && w.polled == v.polled && w.ready == v.ready && w.heard == v.heard
  }

  predicate SamePuts(w: Writer, u: Writer) {
    u.putTable == w.putTable && u.putFrames == w.putFrames
  }

  /** Step `a` can be taken, and leaves the fields as `u` says. */
  predicate Leads(l: Setting, w: Writer, a: Act, u: View, asked: nat, hand: Option<Sent>) {
    Enabled(l, w, a) && Mirrors(Next(l, w, a), u, asked, hand) && SamePuts(w, Next(l, w, a))
  }

  lemma StepsPutOwn(l: Setting, w: Writer, v: View, asked: nat, hand: Option<Sent>, o: OwnMsg)
    requires Mirrors(w, v, asked, hand) && |v.own| < l.queue
    ensures Leads(l, w, PutOwn(o), v.(own := v.own + [o]), asked, hand)
  {}

  lemma StepsPutTable(l: Setting, w: Writer, v: View, asked: nat, hand: Option<Sent>, t: TableMsg)
    requires Mirrors(w, v, asked, hand) && |v.table| < l.queue
    ensures var u := Next(l, w, PutTable(t));
            && Enabled(l, w, PutTable(t)) && Mirrors(u, v.(table := v.table + [t]), asked, hand)
            && u.putTable == w.putTable + [t] && u.putFrames == w.putFrames
  {}

  lemma StepsPutFrame(l: Setting, w: Writer, v: View, asked: nat, hand: Option<Sent>, f: CallFrame)
    requires Mirrors(w, v, asked, hand) && |v.frames| < l.queue && InOrder(f, w.putTable, w.putFrames)
    ensures var u := Next(l, w, PutFrame(f));
            && Enabled(l, w, PutFrame(f)) && Mirrors(u, v.(frames := v.frames + [f]), asked, hand)
            && u.putTable == w.putTable && u.putFrames == w.putFrames + [f]
  {}

  lemma StepsRespond(l: Setting, w: Writer, v: View, r: Reply)
    requires Mirrors(w, v, 0, None) && r.Made?
    ensures Leads(l, w, Respond(r), v.(out := v.out + [r], made := v.made + [r]), 0, None)
  {}

  lemma StepsPing(l: Setting, w: Writer, v: View)
    requires Mirrors(w, v, 0, None)
    ensures Leads(l, w, PushPing, v.(out := [Ping] + v.out), 0, None)
  {}

  predicate Room(l: Setting, v: View) {
    v.gathered < l.budget && v.ready
  }

  lemma StepsReply(l: Setting, w: Writer, v: View)
    requires Mirrors(w, v, 0, None) && Room(l, v) && v.out != []
    ensures Leads(l, w, HandReply, v.(out := v.out[1..], ready := false), 0, Some(FromLoop(v.out[0])))
  {}

  lemma StepsBehindFence(l: Setting, w: Writer, v: View)
    requires Mirrors(w, v, 0, None) && Room(l, v) && v.out == [] && v.fenced.Some? && v.table != []
    ensures Leads(l, w, HandBehindFence, v.(table := v.table[1..], ready := false), 0, Some(FromTable(v.table[0])))
  {}

  lemma StepsFenced(l: Setting, w: Writer, v: View)
    requires Mirrors(w, v, 0, None) && Room(l, v) && v.out == [] && v.fenced.Some? && v.table == []
    ensures Leads(l, w, HandFenced, v.(fenced := None, ready := false), 0, Some(FromFrames(v.fenced.value)))
  {}

  predicate Open(l: Setting, v: View, i: nat) {
    Room(l, v) && v.out == [] && v.fenced.None? && i < 3
  }

  function QueueAt(at: nat): Queue {
    if at % 3 == 0 then Own else if at % 3 == 1 then Table else Frames
  }

  predicate Empty(v: View, q: Queue) {
    match q
    case Own => v.own == []
    case Table => v.table == []
    case Frames => v.frames == []
  }

  lemma StepsMiss(l: Setting, w: Writer, v: View, i: nat)
    requires Mirrors(w, v, i, None) && Open(l, v, i)
    requires l.falsely(v.polled) || Empty(v, QueueAt(v.turn + i))
    ensures Leads(l, w, Miss(l.falsely(v.polled), QueueAt(v.turn + i)), v.(polled := v.polled + 1), i + 1, None)
  {}

  lemma StepsPassOver(l: Setting, w: Writer, v: View, i: nat)
    requires Mirrors(w, v, i, None) && Open(l, v, i) && QueueAt(v.turn + i).Own? && v.own == []
    ensures Leads(l, w, PassOver, v, i + 1, None)
  {}

  predicate GivesAt(l: Setting, v: View, i: nat, q: Queue) {
    Open(l, v, i) && QueueAt(v.turn + i) == q && !l.falsely(v.polled)
  }

  /** The queue asked first at the next turn, the one `i` places on having given
      something. */
  function NextUp(turn: nat, i: nat): nat {
    (turn + i + 1) % 3
  }

  function Turned(v: View, i: nat): View {
    v.(turn := NextUp(v.turn, i), polled := v.polled + 1)
  }

  lemma StepsOwn(l: Setting, w: Writer, v: View, i: nat)
    requires Mirrors(w, v, i, None) && GivesAt(l, v, i, Own) && v.own != []
    ensures Leads(l, w, HandTurn, Turned(v, i).(own := v.own[1..], ready := false), 0, Some(FromOwn(v.own[0])))
  {}

  lemma StepsTable(l: Setting, w: Writer, v: View, i: nat)
    requires Mirrors(w, v, i, None) && GivesAt(l, v, i, Table) && v.table != []
    ensures Leads(l, w, HandTurn, Turned(v, i).(table := v.table[1..], ready := false), 0, Some(FromTable(v.table[0])))
  {}

  lemma StepsFrame(l: Setting, w: Writer, v: View, i: nat)
    requires Mirrors(w, v, i, None) && GivesAt(l, v, i, Frames) && v.frames != [] && v.frames[0].part > 0
    ensures Leads(l, w, HandTurn, Turned(v, i).(frames := v.frames[1..], ready := false), 0,
                  Some(FromFrames(v.frames[0])))
  {}

  lemma StepsFence(l: Setting, w: Writer, v: View, i: nat)
    requires Mirrors(w, v, i, None) && GivesAt(l, v, i, Frames) && v.frames != [] && v.frames[0].part == 0
    ensures Leads(l, w, Fence, Turned(v, i).(frames := v.frames[1..], fenced := Some(v.frames[0])), 0, None)
  {}

  lemma StepsRest(l: Setting, w: Writer, v: View)
    requires Mirrors(w, v, 3, None)
    ensures Leads(l, w, Rest, v, 0, None)
  {}

  lemma StepsReady(l: Setting, w: Writer, v: View)
    requires Mirrors(w, v, 0, None)
    ensures var a := l.socket(v.asks); Leads(l, w, PollReady(a), v.(asks := v.asks + 1, ready := a.Ready?), 0, None)
  {}

  lemma StepsFlush(l: Setting, w: Writer, v: View)
    requires Mirrors(w, v, 0, None) && v.unflushed
    ensures var a := l.socket(v.asks);
            && (a.Ready? ==> Leads(l, w, Flush(a), v.(asks := v.asks + 1, unflushed := false, gathered := 0), 0, None))
            && (!a.Ready? ==> Leads(l, w, Flush(a), v.(asks := v.asks + 1), 0, None))
  {}

  lemma StepsHear(l: Setting, w: Writer, v: View)
    requires Mirrors(w, v, 0, None)
    ensures Leads(l, w, Hear, v.(heard := v.heard + 1), 0, None)
  {}

  /** The account of the first `routed` of all messages, `inbound` not read yet. */
  predicate Accounted(all: seq<Inbound>, routed: nat, inbound: seq<Inbound>, accepting: seq<Acceptance>,
      answeredDrops: nat, dropped: nat, running: nat, done: seq<Acceptance>, made: seq<Reply>, causes: seq<Cause>)
  {
    && answeredDrops <= dropped
    && (forall a | a in accepting :: Answerable(a))
    && (forall m | m in all && m.Msg? :: WellMade(m.m))
    && |inbound| + routed <= |all| && inbound == all[|all| - |inbound|..]
    && Effects(all[..routed], running, accepting, done, made, causes, answeredDrops)
  }

  class Loop {
    const setting: Setting
    const outside: Outside
    const all: seq<Inbound>            // what the reader finds, in order
    const watch: L.Watch
    var now: nat                       // the clock, as last looked at
    var out: seq<Reply>                // what the loop itself has to say
    var own: seq<OwnMsg>
    var ownOpen: bool
    var table: seq<TableMsg>
    var frames: seq<CallFrame>
    var fenced: Option<CallFrame>
    var turn: nat
    var gathered: nat                  // bytes handed over since the last flush
    var unflushed: bool
    var sent: seq<Sent>                // what the socket has been handed
    var accepting: seq<Acceptance>
    var running: nat                   // tasks of calls' own, begun here
    var dropped: nat                   // the guard's count
    var answeredDrops: nat
    var woken: bool                    // the task has woken itself
    // The polls made so far, each of its own kind, and the wakeups.
    var asks: nat                      // of the socket, for room or a flush
    var polled: nat                    // of the queues
    var peeks: nat                     // of the reader
    var accepts: nat
    var wakeups: nat
    var ready: bool                    // the socket takes one more frame
    // What is still to come, each in its own order.
    var coming: seq<Act>
    var inbound: seq<Inbound>
    var toDrop: nat
    ghost var trace: seq<Act>          // every step taken
    ghost var made: seq<Reply>         // every answer made, and why
    ghost var causes: seq<Cause>
    ghost var done: seq<Acceptance>    // the acceptances that have resolved
    ghost var routed: nat              // the messages seen to

    /** The fields are what the steps taken make them; in the middle of a turn
        `asked` queues have been asked, and `hand` is taken but not handed
        over. */
    ghost predicate ValidAt(asked: nat, hand: Option<Sent>)
      reads this`out, this`own, this`table, this`frames, this`fenced, this`turn, this`gathered, this`unflushed,
            this`sent, this`made, this`asks, this`polled, this`ready, this`inbound,
            this`ownOpen, this`coming, this`trace
      reads this`answeredDrops, this`dropped, this`accepting, this`inbound, this`running, this`made, this`causes,
            this`done, this`routed
    {
      Steady(asked, hand) && Others()
    }

    ghost predicate Steady(asked: nat, hand: Option<Sent>)
      reads this`out, this`own, this`table, this`frames, this`fenced, this`turn, this`gathered, this`unflushed,
            this`sent, this`made, this`asks, this`polled, this`ready, this`inbound,
            this`ownOpen, this`coming, this`trace
    {
      && setting.budget > 0
      && Runs(setting, FRESH, trace)
      && Mirrors(Run(setting, FRESH, trace), Fields(), asked, hand)
      && Fair(coming, Run(setting, FRESH, trace).putTable, Run(setting, FRESH, trace).putFrames)
      && (!ownOpen ==> own == [] && forall i | 0 <= i < |coming| :: !coming[i].PutOwn?)
    }

    /** Of the messages read so far, those seen to have had their effects. */
    ghost predicate Others()
      reads this`answeredDrops, this`dropped, this`accepting, this`inbound, this`running, this`made, this`causes,
            this`done, this`routed
    {
      Accounted(all, routed, inbound, accepting, answeredDrops, dropped, running, done, made, causes)
    }

    ghost function Fields(): View
      reads this`out, this`own, this`table, this`frames, this`fenced, this`turn, this`gathered, this`unflushed,
            this`sent, this`made, this`asks, this`polled, this`ready, this`inbound
    {
      View(out, own, table, frames, fenced, turn, gathered, unflushed, sent, made, asks, polled, ready,
           |all| - |inbound|)
    }

    ghost predicate Valid()
      reads this`out, this`own, this`table, this`frames, this`fenced, this`turn, this`gathered, this`unflushed,
            this`sent, this`made, this`asks, this`polled, this`ready, this`inbound,
            this`ownOpen, this`coming, this`trace
      reads this`answeredDrops, this`dropped, this`accepting, this`inbound, this`running, this`made, this`causes,
            this`done, this`routed
    {
      ValidAt(0, None)
    }

    lemma Parts()
      requires Valid()
      ensures Steady(0, None) && Others()
    {}

    lemma Whole()
      requires Steady(0, None) && Others()
      ensures Valid()
    {}

    /** Every message read has been seen to. */
    ghost predicate Settled()
      reads this`routed, this`inbound
    {
      routed + |inbound| == |all|
    }

    /** The watch has been told of every message seen to, and of no other. */
    ghost predicate Telling()
      reads this`routed, watch
    {
      watch.Valid() && routed <= |all| && Told(watch.life) == Tells(all[..routed])
    }

    ghost function Here(): Mark
      reads this`trace, this`asks, this`polled, this`peeks, this`accepts
    {
      Mark(|trace|, asks, polled, peeks, accepts)
    }

    lemma HereIs()
      ensures Here() == Mark(|trace|, asks, polled, peeks, accepts)
    {}

    /** The frames there are to hand over, now and ever. */
    function Supply(): nat
      reads this`out, this`own, this`table, this`frames, this`fenced, this`coming
    {
      |out| + |own| + |table| + |frames| + (if fenced.Some? then 1 else 0) + |coming|
    }

    /** What may yet make more of them. */
    function Intake(): nat
      reads this`inbound, this`accepting, this`toDrop, this`dropped, this`answeredDrops
    {
      6 * |inbound| + 4 * |accepting|
      + 3 * (toDrop + if dropped >= answeredDrops then dropped - answeredDrops else 0)
    }

    /** The work left: each thing the loop moves makes less of it. */
    function Work(): nat
      reads this`inbound, this`accepting, this`toDrop, this`dropped, this`answeredDrops
      reads this`out, this`own, this`table, this`frames, this`fenced, this`coming, this`unflushed
    {
      Intake() + 2 * Supply() + (if unflushed then 1 else 0)
    }

    // ------------------------------------------------- what wakes the task

    /** Since then the queue at `at` was asked in vain, and wakes the task when it
        fills, unless the task has woken itself; or it is closed. */
    ghost predicate Asked(at: nat, m: Mark)
      reads this`woken, this`trace, this`ownOpen
    {
      AskedIn(trace, m.steps, at, ownOpen, woken)
    }

    /** Nothing to hand over, and each queue wakes the task when it fills. */
    ghost predicate Drained(m: Mark)
      reads this`out, this`fenced, this`woken, this`trace, this`ownOpen
    {
      out == [] && fenced.None? && Asked(0, m) && Asked(1, m) && Asked(2, m)
    }

    /** The socket was asked last for what it will not take now. */
    predicate SocketWaits(m: Mark)
      reads this`asks
    {
      asks > m.asks && setting.socket(asks - 1).Waits?
    }

    ghost predicate WriterWaits(m: Mark)
      reads this`out, this`fenced, this`woken, this`trace, this`ownOpen, this`unflushed, this`asks
    {
      SocketWaits(m) || (!unflushed && Drained(m))
    }

    /** The reader was polled last to Pending. */
    predicate ReaderWaits(m: Mark)
      reads this`peeks, this`inbound
    {
      peeks > m.peeks && (inbound == [] || !outside.readable(peeks - 1))
    }

    /** Each acceptance awaited was polled last to Pending. */
    predicate NoneResolved(m: Mark)
      reads this`accepts, this`accepting
    {
      && m.accepts + |accepting| <= accepts
      && forall k | accepts - |accepting| <= k < accepts :: !outside.resolves(k)
    }

    /** Whatever could move the loop wakes its task. */
    ghost predicate NothingMissed(m: Mark)
      reads this
    {
      && NoneResolved(m)
      && (ReaderWaits(m) || (|out| >= OUT_HIGH && SocketWaits(m)))
      && WriterWaits(m)
    }

    /** Some poll of a queue came back empty-handed falsely, which wakes the task. */
    predicate FalselyMissed(m: Mark)
      reads this`polled
    {
      exists k | m.polled <= k < polled :: setting.falsely(k)
    }

    /** The socket failed, at a poll or at a frame. */
    predicate SocketFailed(m: Mark)
      reads this`asks, this`sent
    {
      (asks > m.asks && setting.socket(asks - 1).Broken?) || outside.loses(|sent|)
    }

    /** The socket failed on none of the frames handed over since. */
    predicate NoneLost(since: nat)
      reads this`sent
    {
      forall k | since <= k < |sent| :: !outside.loses(k)
    }

    predicate LastRead(i: Inbound)
      reads this`inbound
    {
      |inbound| < |all| && all[|all| - |inbound| - 1] == i
    }

    /** Why the socket ends, if not by a signal. */
    predicate EndsFor(e: End, m: Mark)
      reads this`inbound, this`asks, this`sent
    {
      match e
      case PeerClosed => LastRead(Msg(CloseFrame))
      case Protocol => LastRead(ProtocolError)
      case Lost => LastRead(OtherError) || LastRead(EndOfStream) || SocketFailed(m)
      case _ => false
    }

    constructor (setting: Setting, outside: Outside, watch: L.Watch, coming: seq<Act>, inbound: seq<Inbound>,
        toDrop: nat)
      requires setting.budget > 0 && Fair(coming, [], [])
      requires forall m | m in inbound && m.Msg? :: WellMade(m.m)
      requires watch.Valid() && watch.life == []
      ensures Valid() && Settled() && Telling() && sent == [] && trace == [] && this.inbound == all == inbound
      ensures this.setting == setting && this.outside == outside && this.watch == watch
    {
      this.watch, this.now := watch, watch.start;
      this.setting, this.outside, this.coming, this.inbound, this.toDrop := setting, outside, coming, inbound, toDrop;
      all := inbound;
      out, own, ownOpen, table, frames, fenced := [], [], true, [], [], None;
      turn, gathered, unflushed, sent, accepting := 0, 0, false, [], [];
      running, dropped, answeredDrops := 0, 0, 0;
      asks, polled, peeks, accepts, wakeups, ready, woken := 0, 0, 0, 0, 0, false, false;
      trace, made, causes, done, routed := [], [], [], [], 0;
      NoEffects();
    }

    /** Whatever the loop did, every message read has had its effect once: its
        answer made in its turn, its task begun, its acceptance awaited or
        resolved, and a refusal answered; every drop counted is answered once;
        and nothing else was answered. */
    lemma EveryMessageSeenTo()
      requires Valid() && Settled()
      ensures var read := all[..|all| - |inbound|];
              && (forall m | m in read :: GoesOn(m))
              && running == Tasks(read)
              && multiset(done) + multiset(accepting) == multiset(Begun(read))
              && |causes| == |made| && made == AnswersOf(sent) + Answers(out)
              && For(made, causes, ToMessage) == Replies(read)
              && For(made, causes, ToRefusal) == Refusals(done)
              && |For(made, causes, ToDrop)| == answeredDrops
    {
      WriterConserves(setting, trace);
    }

    /** One step taken. */
    ghost method Record(a: Act)
      requires Runs(setting, FRESH, trace) && Enabled(setting, Run(setting, FRESH, trace), a)
      modifies this`trace
      ensures trace == old(trace) + [a] && (!a.Hear? ==> Quietly(old(trace), trace))
      ensures Runs(setting, FRESH, trace)
      ensures Run(setting, FRESH, trace) == Next(setting, old(Run(setting, FRESH, trace)), a)
    {
      RunOn(setting, FRESH, trace, a);
      trace := trace + [a];
    }

    /** One step that leaves the producers' records alone. */
    ghost method RecordStep(a: Act, v: View, asked: nat, hand: Option<Sent>)
      requires Runs(setting, FRESH, trace) && Leads(setting, Run(setting, FRESH, trace), a, v, asked, hand)
      requires Fair(coming, Run(setting, FRESH, trace).putTable, Run(setting, FRESH, trace).putFrames)
      modifies this`trace
      ensures trace == old(trace) + [a] && (!a.Hear? ==> Quietly(old(trace), trace))
      ensures Runs(setting, FRESH, trace) && Mirrors(Run(setting, FRESH, trace), v, asked, hand)
      ensures Fair(coming, Run(setting, FRESH, trace).putTable, Run(setting, FRESH, trace).putFrames)
    {
      hide Run, Runs, Enabled, Next, Fair, Mirrors, Quietly;
      Record(a);
    }

    // --------------------------------------------------- the producers' puts

    /** Any number of puts by the producers, wherever the loop is: a queue that
        is full makes its producer wait. */
    method Meanwhile(ghost asked: nat, ghost hand: Option<Sent>)
      requires Steady(asked, hand)
      modifies this`own, this`table, this`frames, this`coming, this`trace
      ensures Steady(asked, hand) && Supply() == old(Supply())
      ensures old(table) <= table
      ensures Quietly(old(trace), trace)
    {
      hide Steady;
      var k: nat :| k >= 0;
      while k > 0 && coming != []
        invariant Steady(asked, hand) && Supply() == old(Supply()) && Quietly(old(trace), trace)
        invariant old(table) <= table
        decreases k
      {
        k := k - 1;
        Put(asked, hand);
      }
    }

    /** The put `a` finds room in its queue. */
    predicate RoomFor(a: Act, inOwn: nat, inTable: nat, inFrames: nat) {
      match a
      case PutOwn(_) => inOwn < setting.queue
      case PutTable(_) => inTable < setting.queue
      case PutFrame(_) => inFrames < setting.queue
      case _ => false
    }

    /** The next put, if its queue has room. */
    method Put(ghost asked: nat, ghost hand: Option<Sent>)
      requires Steady(asked, hand) && coming != []
      modifies this`own, this`table, this`frames, this`coming, this`trace
      ensures Steady(asked, hand) && Supply() == old(Supply())
      ensures old(table) <= table
      ensures Quietly(old(trace), trace)
      ensures if RoomFor(old(coming)[0], |old(own)|, |old(table)|, |old(frames)|) then
                coming == old(coming)[1..] && trace == old(trace) + [old(coming)[0]]
              else coming == old(coming) && trace == old(trace)
    {
      hide Steady, Quietly, Supply;
      QuietlySelf(trace);
      var a := coming[0];
      if a.PutOwn? && |own| < setting.queue {
        PutOnOwn(asked, hand);
      } else if a.PutTable? && |table| < setting.queue {
        PutOnTable(asked, hand);
      } else if a.PutFrame? && |frames| < setting.queue {
        PutOnFrames(asked, hand);
      }
    }

    method PutOnOwn(ghost asked: nat, ghost hand: Option<Sent>)
      requires Steady(asked, hand) && coming != [] && coming[0].PutOwn? && |own| < setting.queue
      modifies this`own, this`coming, this`trace
      ensures Steady(asked, hand) && Supply() == old(Supply())
      ensures Quietly(old(trace), trace) && coming == old(coming)[1..] && trace == old(trace) + [old(coming)[0]]
    {
      hide Run, Runs, InOrder, Quietly, Leads, Mirrors;
      var o := coming[0].o;
      StepsPutOwn(setting, Run(setting, FRESH, trace), Fields(), asked, hand, o);
      hide Fair;
      PutRecorded(asked, hand, coming[0], Fields().(own := own + [o]));
      own, coming := own + [o], coming[1..];
    }

    method PutOnTable(ghost asked: nat, ghost hand: Option<Sent>)
      requires Steady(asked, hand) && coming != [] && coming[0].PutTable? && |table| < setting.queue
      modifies this`table, this`coming, this`trace
      ensures Steady(asked, hand) && Supply() == old(Supply()) && old(table) <= table
      ensures Quietly(old(trace), trace) && coming == old(coming)[1..] && trace == old(trace) + [old(coming)[0]]
    {
      hide Run, Runs, InOrder, Quietly, Leads, Mirrors;
      var t := coming[0].t;
      StepsPutTable(setting, Run(setting, FRESH, trace), Fields(), asked, hand, t);
      hide Fair;
      PutRecorded(asked, hand, coming[0], Fields().(table := table + [t]));
      table, coming := table + [t], coming[1..];
    }

    method PutOnFrames(ghost asked: nat, ghost hand: Option<Sent>)
      requires Steady(asked, hand) && coming != [] && coming[0].PutFrame? && |frames| < setting.queue
      modifies this`frames, this`coming, this`trace
      ensures Steady(asked, hand) && Supply() == old(Supply())
      ensures Quietly(old(trace), trace) && coming == old(coming)[1..] && trace == old(trace) + [old(coming)[0]]
    {
      hide Run, Runs, InOrder, Quietly, Leads, Mirrors;
      var f := coming[0].f;
      StepsPutFrame(setting, Run(setting, FRESH, trace), Fields(), asked, hand, f);
      hide Fair;
      PutRecorded(asked, hand, coming[0], Fields().(frames := frames + [f]));
      frames, coming := frames + [f], coming[1..];
    }

    /** A put recorded: the next of those to come. */
    ghost method PutRecorded(asked: nat, hand: Option<Sent>, a: Act, v: View)
      requires coming != [] && Runs(setting, FRESH, trace) && Enabled(setting, Run(setting, FRESH, trace), a)
      requires var u := Next(setting, Run(setting, FRESH, trace), a);
               Mirrors(u, v, asked, hand) && Fair(coming[1..], u.putTable, u.putFrames)
      requires !a.Hear?
      modifies this`trace
      ensures Quietly(old(trace), trace) && Runs(setting, FRESH, trace) && trace == old(trace) + [a]
      ensures Mirrors(Run(setting, FRESH, trace), v, asked, hand)
      ensures Fair(coming[1..], Run(setting, FRESH, trace).putTable, Run(setting, FRESH, trace).putFrames)
    {
      hide Run, Runs, Enabled, Next, Fair, Mirrors, Quietly;
      Record(a);
    }

    // ------------------------------------------------------------- the writer

    /** The writer has room in its budget, and the socket takes a frame. */
    predicate CanTake()
      reads this`gathered, this`ready
    {
      gathered < setting.budget && ready
    }

    /** Queue `i` places on is up, with nothing of the loop's own to say. */
    ghost predicate Up(i: nat)
      reads this`out, this`own, this`table, this`frames, this`fenced, this`turn, this`gathered, this`unflushed,
            this`sent, this`made, this`asks, this`polled, this`ready, this`inbound,
            this`ownOpen, this`coming, this`trace
    {
      i < 3 && Steady(i, None) && CanTake() && out == [] && fenced.None?
    }

    method TakeBehindFence() returns (m: Option<Sent>)
      requires Steady(0, None) && CanTake() && out == [] && fenced.Some? && table != []
      modifies this`table, this`trace, this`ready
      ensures m == Some(FromTable(old(table[0]))) && Steady(0, m) && Supply() < old(Supply())
      ensures Quietly(old(trace), trace)
    {
      hide Run, Runs, Fair, Quietly, Leads, Mirrors, QueueAt, NextUp;
      ghost var w, v := Run(setting, FRESH, trace), Fields();
      StepsBehindFence(setting, w, v);
      m := Some(FromTable(table[0]));
      RecordStep(HandBehindFence, v.(table := table[1..], ready := false), 0, m);
      table, ready := table[1..], false;
    }

    method TakeFenced() returns (m: Option<Sent>)
      requires Steady(0, None) && CanTake() && out == [] && fenced.Some? && table == []
      modifies this`fenced, this`trace, this`ready
      ensures m == Some(FromFrames(old(fenced.value))) && fenced.None? && Steady(0, m) && Supply() < old(Supply())
      ensures Quietly(old(trace), trace)
    {
      hide Run, Runs, Fair, Quietly, Leads, Mirrors, QueueAt, NextUp;
      ghost var w, v := Run(setting, FRESH, trace), Fields();
      StepsFenced(setting, w, v);
      m := Some(FromFrames(fenced.value));
      RecordStep(HandFenced, v.(fenced := None, ready := false), 0, m);
      fenced, ready := None, false;
    }

    /** While a first frame is fenced, whatever the table holds goes out ahead of
        it. The table is looked into directly, and never looks empty falsely. */
    method BehindFence() returns (m: Option<Sent>)
      requires Steady(0, None) && CanTake() && out == [] && fenced.Some?
      modifies this`own, this`table, this`frames, this`fenced, this`coming, this`trace, this`ready
      ensures m.Some? && Steady(0, m) && Supply() < old(Supply())
      ensures old(table) != [] ==> m == Some(FromTable(old(table[0])))
      ensures || (m.value.FromTable? && fenced == old(fenced))
              || (m == Some(FromFrames(old(fenced.value))) && fenced.None? && table == [])
      ensures Quietly(old(trace), trace)
    {
      hide Steady, Supply;
      Meanwhile(0, None);
      if table != [] {
        m := TakeBehindFence();
      } else {
        m := TakeFenced();
      }
    }

    /** The queue asked has nothing, or says so falsely and wakes the task. */
    method Missed(i: nat, ghost m: Mark)
      requires m.steps <= |trace| && Up(i) && (QueueAt(turn + i).Own? ==> ownOpen)
      requires setting.falsely(polled) || Empty(Fields(), QueueAt(turn + i))
      modifies this`trace, this`polled, this`woken
      ensures Steady(i + 1, None) && Asked(turn + i, m) && polled == old(polled) + 1
      ensures woken == (old(woken) || setting.falsely(old(polled)))
      ensures Quietly(old(trace), trace)
    {
      hide Run, Runs, Fair, Quietly, Leads, Mirrors, QueueAt, NextUp;
      ghost var w, v := Run(setting, FRESH, trace), Fields();
      StepsMiss(setting, w, v, i);
      var falsely := setting.falsely(polled);
      RecordStep(Miss(falsely, QueueAt(turn + i)), v.(polled := polled + 1), i + 1, None);
      polled, woken := polled + 1, woken || falsely;
      assert Misses(trace[|trace| - 1], QueueAt(turn + i), !woken);
    }

    /** A queue nobody can put on any more is passed over. */
    method PassOver(i: nat, ghost m: Mark)
      requires m.steps <= |trace| && Up(i) && QueueAt(turn + i).Own? && !ownOpen
      modifies this`trace
      ensures Steady(i + 1, None) && Asked(turn + i, m)
      ensures Quietly(old(trace), trace)
    {
      hide Run, Runs, Fair, Quietly, Leads, Mirrors, QueueAt, NextUp;
      ghost var w, v := Run(setting, FRESH, trace), Fields();
      StepsPassOver(setting, w, v, i);
      RecordStep(Act.PassOver, v, i + 1, None);
      assert trace[|trace| - 1].PassOver?;
    }

    /** A call's first frame, taken by turn, waits behind the table. */
    method FenceFront(i: nat)
      requires Up(i) && QueueAt(turn + i).Frames? && !setting.falsely(polled)
      requires frames != [] && frames[0].part == 0
      modifies this`frames, this`fenced, this`turn, this`trace, this`polled
      ensures Steady(0, None) && fenced == Some(old(frames[0])) && Supply() == old(Supply())
      ensures polled == old(polled) + 1
      ensures Quietly(old(trace), trace)
    {
      hide Run, Runs, Fair, Quietly, Leads, Mirrors, QueueAt, NextUp;
      ghost var w, v := Run(setting, FRESH, trace), Fields();
      StepsFence(setting, w, v, i);
      RecordStep(WriterRuns.Fence, Turned(v, i).(frames := frames[1..], fenced := Some(frames[0])), 0, None);
      turn, polled := NextUp(turn, i), polled + 1;
      fenced := Some(frames[0]);
      frames := frames[1..];
    }

    method TakeOwn(i: nat) returns (m: Option<Sent>)
      requires Up(i) && QueueAt(turn + i).Own? && !setting.falsely(polled) && own != []
      modifies this`own, this`turn, this`trace, this`polled, this`ready
      ensures m == Some(FromOwn(old(own[0]))) && Steady(0, m) && Supply() < old(Supply()) && polled == old(polled) + 1
      ensures Quietly(old(trace), trace)
    {
      hide Run, Runs, Fair, Quietly, Leads, Mirrors, QueueAt, NextUp;
      ghost var w, v := Run(setting, FRESH, trace), Fields();
      StepsOwn(setting, w, v, i);
      m := Some(FromOwn(own[0]));
      RecordStep(HandTurn, Turned(v, i).(own := own[1..], ready := false), 0, m);
      own, turn, polled, ready := own[1..], NextUp(turn, i), polled + 1, false;
    }

    method TakeTable(i: nat) returns (m: Option<Sent>)
      requires Up(i) && QueueAt(turn + i).Table? && !setting.falsely(polled) && table != []
      modifies this`table, this`turn, this`trace, this`polled, this`ready
      ensures m == Some(FromTable(old(table[0]))) && Steady(0, m) && Supply() < old(Supply())
      ensures polled == old(polled) + 1
      ensures Quietly(old(trace), trace)
    {
      hide Run, Runs, Fair, Quietly, Leads, Mirrors, QueueAt, NextUp;
      ghost var w, v := Run(setting, FRESH, trace), Fields();
      StepsTable(setting, w, v, i);
      m := Some(FromTable(table[0]));
      RecordStep(HandTurn, Turned(v, i).(table := table[1..], ready := false), 0, m);
      table, turn, polled, ready := table[1..], NextUp(turn, i), polled + 1, false;
    }

    method TakeFrame(i: nat) returns (m: Option<Sent>)
      requires Up(i) && QueueAt(turn + i).Frames? && !setting.falsely(polled) && frames != [] && frames[0].part > 0
      modifies this`frames, this`turn, this`trace, this`polled, this`ready
      ensures m == Some(FromFrames(old(frames[0]))) && Steady(0, m) && Supply() < old(Supply())
      ensures polled == old(polled) + 1
      ensures Quietly(old(trace), trace)
    {
      hide Run, Runs, Fair, Quietly, Leads, Mirrors, QueueAt, NextUp;
      ghost var w, v := Run(setting, FRESH, trace), Fields();
      StepsFrame(setting, w, v, i);
      m := Some(FromFrames(frames[0]));
      RecordStep(HandTurn, Turned(v, i).(frames := frames[1..], ready := false), 0, m);
      frames, turn, polled, ready := frames[1..], NextUp(turn, i), polled + 1, false;
    }

    /** Every writer of this side's own frames may be gone, once they have
        nothing more to put. */
    method MaybeClosed(ghost asked: nat, ghost m: Mark)
      requires Steady(asked, None) && own == [] && ownOpen && AskedIn(trace, m.steps, 0, true, woken)
      modifies this`ownOpen
      ensures Steady(asked, None) && Asked(0, m)
    {
      hide Run, Runs, Fair, Mirrors;
      var closed := *;
      if closed && forall j | 0 <= j < |coming| :: !coming[j].PutOwn? {
        ownOpen := false;
      }
    }

    /** What the queue up gives: a frame, a first frame which is now fenced, or
        nothing. */
    method AskOwn(i: nat, ghost m: Mark) returns (s: Option<Sent>)
      requires m.steps <= |trace| && Up(i) && QueueAt(turn + i).Own?
      modifies this`own, this`ownOpen, this`table, this`frames, this`fenced, this`turn, this`trace, this`woken,
               this`polled, this`ready
      ensures AfterAsking(i, s, m, old(turn)) && Supply() <= old(Supply()) && (s.Some? ==> Supply() < old(Supply()))
      ensures Wakes(setting, old(woken), woken, old(polled), polled) && (ownOpen ==> old(ownOpen))
      ensures old(woken) ==> woken
      ensures Quietly(old(trace), trace)
    {
      hide Steady;
      s := None;
      if !ownOpen {
        PassOver(i, m);
      } else if setting.falsely(polled) {
        Missed(i, m);
      } else if own != [] {
        s := TakeOwn(i);
      } else {
        Missed(i, m);
        MaybeClosed(i + 1, m);
      }
    }

    method AskTable(i: nat, ghost m: Mark) returns (s: Option<Sent>)
      requires m.steps <= |trace| && Up(i) && QueueAt(turn + i).Table?
      modifies this`own, this`ownOpen, this`table, this`frames, this`fenced, this`turn, this`trace, this`woken,
               this`polled, this`ready
      ensures AfterAsking(i, s, m, old(turn)) && Supply() <= old(Supply()) && (s.Some? ==> Supply() < old(Supply()))
      ensures Wakes(setting, old(woken), woken, old(polled), polled) && (ownOpen ==> old(ownOpen))
      ensures old(woken) ==> woken
      ensures Quietly(old(trace), trace)
    {
      hide Steady;
      s := None;
      if setting.falsely(polled) || table == [] {
        Missed(i, m);
      } else {
        s := TakeTable(i);
      }
    }

    method AskFrames(i: nat, ghost m: Mark) returns (s: Option<Sent>)
      requires m.steps <= |trace| && Up(i) && QueueAt(turn + i).Frames?
      modifies this`own, this`ownOpen, this`table, this`frames, this`fenced, this`turn, this`trace, this`woken,
               this`polled, this`ready
      ensures AfterAsking(i, s, m, old(turn)) && Supply() <= old(Supply()) && (s.Some? ==> Supply() < old(Supply()))
      ensures Wakes(setting, old(woken), woken, old(polled), polled) && (ownOpen ==> old(ownOpen))
      ensures old(woken) ==> woken
      ensures Quietly(old(trace), trace)
    {
      hide Steady;
      s := None;
      if setting.falsely(polled) || frames == [] {
        Missed(i, m);
      } else if frames[0].part == 0 {
        FenceFront(i);
      } else {
        s := TakeFrame(i);
      }
    }

    /** One queue asked: it gave a frame, or a first frame that is fenced now; or
        it gave nothing and the next is up. */
    ghost predicate AfterAsking(i: nat, s: Option<Sent>, m: Mark, turned: nat)
      reads this`out, this`own, this`table, this`frames, this`fenced, this`turn, this`gathered, this`unflushed,
            this`sent, this`made, this`asks, this`polled, this`ready, this`inbound,
            this`ownOpen, this`coming, this`trace
      reads this`woken
    {
      if s.Some? then Steady(0, s)
      else if fenced.Some? then Steady(0, None) && CanTake()
      else Steady(i + 1, None) && CanTake() && turn == turned && Asked(turn + i, m)
    }

    /** The queue up is asked, whatever was put there meanwhile. */
    method Ask(i: nat, ghost m: Mark) returns (s: Option<Sent>)
      requires m.steps <= |trace| && Up(i)
      modifies this`own, this`ownOpen, this`table, this`frames, this`fenced, this`turn, this`trace, this`woken,
               this`polled, this`ready, this`coming
      ensures AfterAsking(i, s, m, old(turn)) && Supply() <= old(Supply()) && (s.Some? ==> Supply() < old(Supply()))
      ensures Wakes(setting, old(woken), woken, old(polled), polled) && (ownOpen ==> old(ownOpen))
      ensures old(woken) ==> woken
      ensures Quietly(old(trace), trace)
    {
      hide Steady, AfterAsking, Quietly, Wakes, Supply, QueueAt;
      ghost var was := trace;
      Meanwhile(i, None);
      ghost var before := trace;
      Longer(was, before);
      match QueueAt(turn + i) {
        case Own => s := AskOwn(i, m);
        case Table => s := AskTable(i, m);
        case Frames => s := AskFrames(i, m);
      }
      QuietlyOn(was, before, trace);
    }

    /** The oldest of the loop's own answers. */
    method TakeReply() returns (m: Option<Sent>)
      requires Steady(0, None) && CanTake() && out != []
      modifies this`out, this`trace, this`ready
      ensures m == Some(FromLoop(old(out[0]))) && out == old(out)[1..] && Steady(0, m) && Supply() < old(Supply())
      ensures Quietly(old(trace), trace)
    {
      hide Run, Runs, Fair, Quietly, Leads, Mirrors, QueueAt, NextUp;
      ghost var w, v := Run(setting, FRESH, trace), Fields();
      StepsReply(setting, w, v);
      m := Some(FromLoop(out[0]));
      RecordStep(HandReply, v.(out := out[1..], ready := false), 0, m);
      out, ready := out[1..], false;
    }

    /** All three queues asked in vain. */
    ghost method EndTurn()
      requires Steady(3, None)
      modifies this`trace
      ensures Steady(0, None)
      ensures Quietly(old(trace), trace)
    {
      hide Run, Runs, Fair, Quietly, Leads, Mirrors, QueueAt, NextUp;
      ghost var w, v := Run(setting, FRESH, trace), Fields();
      StepsRest(setting, w, v);
      RecordStep(Rest, v, 0, None);
    }

    /** The three queues, by turns: a frame, or a first frame now fenced, or all
        three asked in vain. */
    method AskAround() returns (m: Option<Sent>)
      requires Steady(0, None) && CanTake() && out == [] && fenced.None?
      modifies this`own, this`ownOpen, this`table, this`frames, this`fenced, this`turn, this`trace, this`woken,
               this`polled, this`ready, this`coming
      ensures Steady(0, m)
      ensures m.None? ==> CanTake() && (fenced.Some? || Drained(old(Here()))) && Supply() <= old(Supply())
      ensures m.Some? ==> Supply() < old(Supply())
      ensures Wakes(setting, old(woken), woken, old(polled), polled)
      ensures Quietly(old(trace), trace)
    {
      hide Steady, Supply, Drained, AskedIn, Quietly, Wakes;
      ghost var start := Here();
      WakesSelf(setting, woken, polled);
      QuietlySelf(trace);
      var i := 0;
      while i < 3
        invariant Quietly(old(trace), trace) && Wakes(setting, old(woken), woken, old(polled), polled)
        invariant i <= 3 && Steady(i, None) && CanTake() && fenced.None? && Supply() <= old(Supply())
        invariant i >= 1 ==> Asked(turn, start)
        invariant i >= 2 ==> Asked(turn + 1, start)
        invariant i >= 3 ==> Asked(turn + 2, start)
      {
        ghost var was, wasWoken, wasPolled, wasOpen := trace, woken, polled, ownOpen;
        Longer(old(trace), was);
        m := Ask(i, start);
        QuietlyOn(old(trace), was, trace);
        Longer(was, trace);
        WakesOn(setting, old(woken), wasWoken, woken, old(polled), wasPolled, polled);
        if m.Some? || fenced.Some? {
          return;
        }
        if i >= 1 {
          AskedStays(was, trace, start.steps, turn, wasOpen, ownOpen, wasWoken, woken);
        }
        if i >= 2 {
          AskedStays(was, trace, start.steps, turn + 1, wasOpen, ownOpen, wasWoken, woken);
        }
        i := i + 1;
      }
      ghost var before := trace;
      EndTurn();
      QuietlyOn(old(trace), before, trace);
      Longer(before, trace);
      AskedStays(before, trace, start.steps, turn, ownOpen, ownOpen, woken, woken);
      AskedStays(before, trace, start.steps, turn + 1, ownOpen, ownOpen, woken, woken);
      AskedStays(before, trace, start.steps, turn + 2, ownOpen, ownOpen, woken, woken);
      AllAsked(start);
      m := None;
    }

    lemma AllAsked(m: Mark)
      requires Asked(turn, m) && Asked(turn + 1, m) && Asked(turn + 2, m) && out == [] && fenced.None?
      ensures Drained(m)
    {
      hide MissedSince, MissedIn;
      var t := turn % 3;
      assert t == 0 || t == 1 || t == 2;
    }

    /** What was asked in vain since then was tried. */
    lemma DrainedWasTried(m: Mark)
      requires Drained(m)
      ensures Tried(trace, m.steps, |trace|)
    {
      assert MissedIn(trace, m.steps, |trace|, Own) by {
        assert AskedIn(trace, m.steps, 0, ownOpen, woken);
      }
      assert MissedIn(trace, m.steps, |trace|, Table) by {
        assert AskedIn(trace, m.steps, 1, ownOpen, woken);
      }
      assert MissedIn(trace, m.steps, |trace|, Frames) by {
        assert AskedIn(trace, m.steps, 2, ownOpen, woken);
      }
    }

    /** Since an earlier point all the more. */
    lemma DrainedSooner(m: Mark, sooner: Mark)
      requires Drained(m) && sooner.steps <= m.steps
      ensures Drained(sooner)
    {}

    /** What goes out next, if anything can: an answer of the loop's, then what
        the fence lets through, then whatever queue is up. */
    method NextOut() returns (m: Option<Sent>)
      requires Steady(0, None) && CanTake()
      modifies this`own, this`ownOpen, this`table, this`frames, this`fenced, this`turn, this`trace, this`woken,
               this`polled, this`ready, this`coming, this`out
      ensures Steady(0, m)
      ensures if old(out) != [] then m == Some(FromLoop(old(out[0]))) && out == old(out)[1..] else out == []
      ensures m.None? ==> Drained(old(Here())) && out == old(out) && Supply() <= old(Supply())
      ensures m.Some? ==> Supply() < old(Supply())
      ensures Wakes(setting, old(woken), woken, old(polled), polled)
      ensures Quietly(old(trace), trace)
      decreases fenced.None?
    {
      hide Steady, Supply, Drained, Quietly, Wakes;
      WakesSelf(setting, woken, polled);
      Meanwhile(0, None);
      ghost var first := trace;
      if out != [] {
        m := TakeReply();
        QuietlyOn(old(trace), first, trace);
      } else if fenced.Some? {
        m := BehindFence();
        QuietlyOn(old(trace), first, trace);
      } else {
        ghost var start := Here();
        m := AskAround();
        QuietlyOn(old(trace), first, trace);
        if m.None? && fenced.Some? {
          ghost var second, fencedAt, wasWoken, wasPolled := trace, Here(), woken, polled;
          m := NextOut();
          QuietlyOn(old(trace), second, trace);
          WakesOn(setting, old(woken), wasWoken, woken, old(polled), wasPolled, polled);
          if m.None? {
            Longer(old(trace), second);
            DrainedSooner(fencedAt, old(Here()));
          }
        } else if m.None? {
          Longer(old(trace), first);
          DrainedSooner(start, old(Here()));
        }
      }
    }

    /** The frame taken is handed to the socket. */
    method HandOver(m: Sent)
      requires Steady(0, Some(m))
      modifies this`gathered, this`sent, this`unflushed
      ensures Steady(0, None) && sent == old(sent) + [m] && unflushed
    {
      hide Run, Runs, Fair, Quietly;
      gathered := gathered + Size(m);
      sent := sent + [m];
      unflushed := true;
    }

    /** Between flushes nothing is gathered, so the writer has its budget. */
    lemma FlushedHasBudget()
      requires Steady(0, None) && !unflushed
      ensures gathered < setting.budget
    {
      RunKeepsInv(setting, FRESH, trace);
      var w := Run(setting, FRESH, trace);
      assert w.sent[w.flushedAt..] == [];
    }

    /** Whatever this loop did, the socket has had a call's answer before any of
        its frames, and those in order. */
    lemma SocketHadTheAnswer(j: nat)
      requires Valid() && j < |sent| && sent[j].FromFrames?
      ensures HasAnswer(TableOf(sent[..j]), sent[j].f.call)
      ensures sent[j].f.part > 0 ==> HasPart(FramesOf(sent[..j]), sent[j].f.call, sent[j].f.part - 1)
    {
      FenceOrder(setting, trace, j);
    }

    /** Has the socket room for a frame? */
    method PollReady() returns (a: SocketSays)
      requires Steady(0, None)
      modifies this`asks, this`ready, this`trace
      ensures Steady(0, None) && a == setting.socket(old(asks)) && asks == old(asks) + 1 && ready == a.Ready?
      ensures Quietly(old(trace), trace) && trace == old(trace) + [Act.PollReady(a)]
    {
      hide Run, Runs, Fair, Quietly, Leads, Mirrors, QueueAt, NextUp;
      ghost var w, v := Run(setting, FRESH, trace), Fields();
      StepsReady(setting, w, v);
      a := setting.socket(asks);
      RecordStep(Act.PollReady(a), v.(asks := asks + 1, ready := a.Ready?), 0, None);
      asks, ready := asks + 1, a.Ready?;
    }

    method TakenAll()
      requires Steady(0, None) && unflushed && setting.socket(asks).Ready?
      modifies this`gathered, this`unflushed, this`trace, this`asks
      ensures Steady(0, None) && !unflushed && gathered == 0 && asks == old(asks) + 1
      ensures Quietly(old(trace), trace) && trace == old(trace) + [Flush(Ready)]
    {
      hide Run, Runs, Fair, Quietly, Leads, Mirrors;
      ghost var w, v := Run(setting, FRESH, trace), Fields();
      StepsFlush(setting, w, v);
      RecordStep(Flush(Ready), v.(asks := asks + 1, unflushed := false, gathered := 0), 0, None);
      unflushed, gathered, asks := false, 0, asks + 1;
    }

    method NotTakenAll()
      requires Steady(0, None) && unflushed && !setting.socket(asks).Ready?
      modifies this`trace, this`asks
      ensures Steady(0, None) && asks == old(asks) + 1
      ensures Quietly(old(trace), trace) && trace == old(trace) + [Flush(setting.socket(old(asks)))]
    {
      hide Run, Runs, Fair, Quietly, Leads, Mirrors;
      ghost var w, v := Run(setting, FRESH, trace), Fields();
      StepsFlush(setting, w, v);
      RecordStep(Flush(setting.socket(asks)), v.(asks := asks + 1), 0, None);
      asks := asks + 1;
    }

    /** Has the socket taken everything? */
    method PollFlush() returns (r: Wrote)
      requires Steady(0, None) && unflushed
      modifies this`gathered, this`unflushed, this`trace, this`asks
      ensures Steady(0, None) && asks == old(asks) + 1
      ensures Quietly(old(trace), trace) && trace == old(trace) + [Flush(setting.socket(old(asks)))]
      ensures match setting.socket(old(asks))
              case Ready => r == Moved && !unflushed && gathered == 0
              case Waits => r == Still && unflushed && gathered == old(gathered)
              case Broken => r == Gone && unflushed
    {
      hide Steady, Quietly;
      match setting.socket(asks)
      case Ready =>
        TakenAll();
        r := Moved;
      case Waits =>
        NotTakenAll();
        r := Still;
      case Broken =>
        NotTakenAll();
        r := Gone;
    }

    /** The next frame, if there is one and the socket has room; `Still`, and it
        has not, or every queue has been asked in vain. */
    method WriteOne() returns (r: Wrote)
      requires Steady(0, None) && gathered < setting.budget
      modifies this`own, this`ownOpen, this`table, this`frames, this`fenced, this`turn, this`trace, this`woken,
               this`polled, this`ready, this`coming, this`out, this`asks, this`gathered, this`sent, this`unflushed
      ensures asks > old(asks) && (r != Gone ==> Steady(0, None))
      ensures r.Gone? ==> SocketFailed(old(Here()))
      ensures r.Moved? ==> Supply() < old(Supply()) && unflushed
      ensures old(sent) <= sent && (r != Gone ==> NoneLost(|old(sent)|))
      ensures r.Still? ==> (SocketWaits(old(Here())) || Drained(old(Here()))) && Tried(trace, |old(trace)|, |trace|)
      ensures r.Still? ==> Supply() <= old(Supply()) && unflushed == old(unflushed) && out == old(out)
      ensures Wakes(setting, old(woken), woken, old(polled), polled)
      ensures Quietly(old(trace), trace)
    {
      hide Steady, Supply, Drained, Quietly, Wakes, Tried;
      ghost var start := Here();
      WakesSelf(setting, woken, polled);
      var a := PollReady();
      if a.Broken? {
        return Gone;
      }
      if a.Waits? {
        LastSettles(old(trace), old(trace), trace);
        return Still;
      }
      ghost var asked, before := Here(), trace;
      var m := NextOut();
      QuietlyOn(old(trace), before, trace);
      if m.None? {
        DrainedSooner(asked, start);
        DrainedWasTried(start);
        return Still;
      }
      if outside.loses(|sent|) {
        return Gone;
      }
      HandOver(m.value);
      r := Moved;
    }

    /** The socket is handed what there is until it or the budget is full. */
    method WriteAll() returns (r: Wrote)
      requires Steady(0, None)
      modifies this`own, this`ownOpen, this`table, this`frames, this`fenced, this`turn, this`trace, this`woken,
               this`polled, this`ready, this`coming, this`out, this`asks, this`gathered, this`sent, this`unflushed
      ensures r != Gone ==> Steady(0, None) && asks >= old(asks)
      ensures r.Gone? ==> SocketFailed(old(Here()))
      ensures r.Moved? ==> Supply() < old(Supply()) && unflushed
      ensures old(sent) <= sent && (r != Gone ==> NoneLost(|old(sent)|))
      ensures r.Still? ==> Supply() <= old(Supply()) && unflushed == old(unflushed) && out == old(out)
      ensures r != Gone && gathered < setting.budget ==>
                && (SocketWaits(old(Here())) || Drained(old(Here())))
                && Tried(trace, |old(trace)|, |trace|) && asks > old(asks)
      ensures Wakes(setting, old(woken), woken, old(polled), polled)
      ensures Quietly(old(trace), trace)
    {
      hide Steady, Supply, Drained, Quietly, Wakes, Tried, SocketWaits, SocketFailed;
      ghost var start := Here();
      WakesSelf(setting, woken, polled);
      QuietlySelf(trace);
      r := Still;
      while gathered < setting.budget
        invariant Steady(0, None) && Quietly(old(trace), trace) && old(asks) <= asks && (r.Moved? || r.Still?)
        invariant Wakes(setting, old(woken), woken, old(polled), polled)
        invariant r.Moved? ==> Supply() < old(Supply()) && unflushed
        invariant old(sent) <= sent && NoneLost(|old(sent)|)
        invariant r.Still? ==> Supply() <= old(Supply()) && unflushed == old(unflushed) && out == old(out)
        decreases Supply()
      {
        ghost var here, before, wasWoken, wasPolled := Here(), trace, woken, polled;
        var one := WriteOne();
        QuietlyOn(old(trace), before, trace);
        WakesOn(setting, old(woken), wasWoken, woken, old(polled), wasPolled, polled);
        if one.Gone? {
          FailsSooner(here, start);
          return Gone;
        }
        if one.Still? {
          Longer(old(trace), before);
          Longer(before, trace);
          TriedLonger(trace, |old(trace)|, |before|);
          StopsSooner(here, start);
          return;
        }
        r := Moved;
      }
    }

    /** The socket is handed what there is until it or the budget is full, and
        flushed. */
    method PollWrite() returns (r: Wrote)
      requires Valid()
      modifies this`own, this`ownOpen, this`table, this`frames, this`fenced, this`turn, this`trace, this`woken,
               this`polled, this`ready, this`coming, this`out, this`asks, this`gathered, this`sent, this`unflushed
      ensures r != Gone ==> Valid() && asks > old(asks) && Tried(trace, |old(trace)|, |trace|)
      ensures old(sent) <= sent && (r != Gone ==> NoneLost(|old(sent)|))
      ensures r.Gone? ==> SocketFailed(old(Here()))
      ensures r.Still? ==> WriterWaits(old(Here())) && out == old(out) && unflushed == old(unflushed)
      ensures r.Still? ==> Supply() <= old(Supply())
      ensures r.Moved? ==>
                2 * Supply() + (if unflushed then 1 else 0) < old(2 * Supply() + (if unflushed then 1 else 0))
      ensures Wakes(setting, old(woken), woken, old(polled), polled)
      ensures Quietly(old(trace), trace)
    {
      hide *;
      Parts();
      ghost var start := Here();
      HereIs();
      r := WriteAll();
      if r.Gone? {
        return;
      }
      if !unflushed {
        FlushedHasBudget();
        WaitsUnlessUnflushed(start);
        Whole();
        return;
      }
      var f := FlushRest(start, old(trace));
      if !f.Gone? {
        Whole();
      }
      r := if f.Still? then r else f;
    }

    /** What was handed over is flushed, as far as the socket takes it. */
    method FlushRest(ghost m: Mark, ghost was: seq<Act>) returns (r: Wrote)
      requires Steady(0, None) && unflushed && m.asks <= asks && Quietly(was, trace)
      modifies this`gathered, this`unflushed, this`trace, this`asks
      ensures Steady(0, None) && asks > old(asks) && Quietly(was, trace) && (r.Moved? <==> !unflushed)
      ensures r != Gone ==> Tried(trace, |was|, |trace|)
      ensures r.Still? ==> WriterWaits(m)
      ensures r.Gone? ==> SocketFailed(m)
    {
      hide *;
      ghost var before := trace;
      r := PollFlush();
      QuietlyOn(was, before, trace);
      FlushSays(m);
      if !r.Gone? {
        FlushSettles(was, before, trace, setting.socket(asks - 1));
      }
    }

    lemma WaitsUnlessUnflushed(m: Mark)
      requires (SocketWaits(m) || Drained(m)) && !unflushed
      ensures WriterWaits(m)
    {}

    lemma FlushSays(m: Mark)
      requires asks > m.asks
      ensures setting.socket(asks - 1).Waits? ==> WriterWaits(m)
      ensures setting.socket(asks - 1).Broken? ==> SocketFailed(m)
    {}

    lemma FailsSooner(m: Mark, sooner: Mark)
      requires SocketFailed(m) && sooner.asks <= m.asks
      ensures SocketFailed(sooner)
    {}

    lemma StopsSooner(m: Mark, sooner: Mark)
      requires (SocketWaits(m) || Drained(m)) && sooner.steps <= m.steps && sooner.asks <= m.asks
      ensures SocketWaits(sooner) || Drained(sooner)
    {
      if Drained(m) {
        DrainedSooner(m, sooner);
      }
      hide Drained;
    }

    // ------------------------------------------------- the loop's own answers

    /** An answer the loop made itself, behind those waiting. */
    method Answer(r: Reply, ghost why: Cause)
      requires Steady(0, None) && r.Made?
      modifies this`out, this`trace, this`made, this`causes
      ensures Steady(0, None) && out == old(out) + [r]
      ensures made == old(made) + [r] && causes == old(causes) + [why]
      ensures Quietly(old(trace), trace)
    {
      hide Run, Runs, Fair, Quietly, Leads, Mirrors, QueueAt, NextUp;
      ghost var w, v := Run(setting, FRESH, trace), Fields();
      StepsRespond(setting, w, v, r);
      RecordStep(Respond(r), v.(out := out + [r], made := made + [r]), 0, None);
      out, made, causes := out + [r], made + [r], causes + [why];
    }

    /** A ping overtakes all that is queued. */
    method PingNow()
      requires Valid()
      modifies this`out, this`trace
      ensures Valid() && out == [Ping] + old(out)
      ensures Quietly(old(trace), trace) && trace == old(trace) + [PushPing]
    {
      hide Run, Runs, Fair, Others, Quietly, Leads, Mirrors, QueueAt, NextUp;
      ghost var w, v := Run(setting, FRESH, trace), Fields();
      StepsPing(setting, w, v);
      RecordStep(PushPing, v.(out := [Ping] + out), 0, None);
      out := [Ping] + out;
    }

    /** Each acceptance is polled, and answered if it has resolved to a refusal. */
    method PollEach() returns (waiting: seq<Acceptance>, resolved: seq<bool>)
      requires Valid()
      modifies this`out, this`trace, this`made, this`causes, this`done, this`accepts
      ensures Steady(0, None) && Polled(accepting, resolved, waiting, old(out), out)
      ensures Effects(all[..routed], running, waiting, done, made, causes, answeredDrops)
      ensures accepts == old(accepts) + |accepting|
      ensures forall i | 0 <= i < |resolved| :: resolved[i] == outside.resolves(old(accepts) + i)
      ensures Quietly(old(trace), trace)
    {
      hide Steady, Polled, Effects, Quietly, Refusal, Why;
      var i := 0;
      waiting, resolved := [], [];
      PolledNone(out);
      QuietlySelf(trace);
      assert accepting[..0] == [] && [] + accepting[0..] == accepting;
      while i < |accepting|
        invariant i <= |accepting| && Steady(0, None) && Quietly(old(trace), trace)
        invariant |resolved| == i && accepts == old(accepts) + i
        invariant Polled(accepting[..i], resolved, waiting, old(out), out)
        invariant Effects(all[..routed], running, waiting + accepting[i..], done, made, causes, answeredDrops)
        invariant forall j | 0 <= j < i :: resolved[j] == outside.resolves(old(accepts) + j)
      {
        var a, r := accepting[i], outside.resolves(accepts);
        NextPolled(accepting, i, resolved, waiting, old(out), out);
        accepts, resolved := accepts + 1, resolved + [r];
        if r {
          EffectsOfResolve(all[..routed], running, waiting, a, accepting[i + 1..], done, made, causes, answeredDrops);
          ghost var before := trace;
          Resolved(a);
          QuietlyOn(old(trace), before, trace);
        } else {
          waiting := waiting + [a];
        }
        i := i + 1;
      }
      assert accepting[..|accepting|] == accepting && waiting + accepting[|accepting|..] == waiting;
    }

    /** An acceptance has resolved, and is answered if it is a refusal. */
    method Resolved(a: Acceptance)
      requires Steady(0, None) && Answerable(a)
      modifies this`out, this`trace, this`made, this`causes, this`done
      ensures Steady(0, None) && out == old(out) + Refusal(a) && done == old(done) + [a]
      ensures made == old(made) + Refusal(a) && causes == old(causes) + Why(Refusal(a), ToRefusal)
      ensures Quietly(old(trace), trace)
    {
      hide Steady;
      if a.refusal.Some? {
        Answer(a.refusal.value, ToRefusal);
      }
      done := done + [a];
    }

    /** The acceptances that have resolved are answered, in their order, where
        they are refusals; the others wait on, in theirs. */
    method PollAccepting() returns (moved: bool, resolved: seq<bool>)
      requires Valid()
      modifies this`out, this`trace, this`made, this`causes, this`done, this`accepts, this`accepting
      ensures Valid() && Work() <= old(Work()) && (moved ==> Work() < old(Work()))
      ensures |resolved| == |old(accepting)| && (moved <==> true in resolved)
      ensures forall i | 0 <= i < |resolved| :: resolved[i] == outside.resolves(old(accepts) + i)
      ensures accepts == old(accepts) + |old(accepting)|
      ensures accepting == Those(old(accepting), resolved, false)
      ensures out == old(out) + Refusals(Those(old(accepting), resolved, true))
      ensures !moved ==> accepting == old(accepting) && out == old(out)
      ensures Quietly(old(trace), trace)
    {
      hide Steady, Those, Refusals, Effects;
      ghost var before := out;
      var waiting;
      waiting, resolved := PollEach();
      PolledSize(accepting, resolved, waiting, before, out);
      moved := |waiting| < |accepting|;
      accepting := waiting;
    }

    /** The peer is told of every message that was too large: an answer that
        names no call, behind those waiting. */
    method AnswerDrops()
      requires Valid()
      modifies this`out, this`trace, this`made, this`causes, this`answeredDrops
      ensures Valid() && answeredDrops == dropped && Work() <= old(Work())
      ensures old(out) <= out && |out| - |old(out)| == answeredDrops - old(answeredDrops)
      ensures forall i | |old(out)| <= i < |out| :: out[i].Made? && out[i].id == 0
      ensures Quietly(old(trace), trace)
    {
      hide ValidAt, Quietly;
      QuietlySelf(trace);
      DropsCounted();
      while answeredDrops < dropped
        invariant Valid() && Work() <= old(Work()) && Quietly(old(trace), trace) && answeredDrops <= dropped
        invariant old(out) <= out && |out| - |old(out)| == answeredDrops - old(answeredDrops)
        invariant forall i | |old(out)| <= i < |out| :: out[i].Made? && out[i].id == 0
        decreases dropped - answeredDrops
      {
        ghost var before := trace;
        AnswerDrop();
        QuietlyOn(old(trace), before, trace);
      }
    }

    lemma DropsCounted()
      requires Valid()
      ensures answeredDrops <= dropped
    {}

    method AnswerDrop()
      requires Valid() && answeredDrops < dropped
      modifies this`out, this`trace, this`made, this`causes, this`answeredDrops
      ensures Valid() && answeredDrops == old(answeredDrops) + 1
      ensures exists size :: out == old(out) + [Made(0, size)]
      ensures Quietly(old(trace), trace)
    {
      hide Steady, Effects;
      answeredDrops := answeredDrops + 1;
      var size: nat :| size >= 0;
      EffectsOfDrop(all[..routed], running, accepting, done, made, causes, old(answeredDrops), Made(0, size));
      Answer(Made(0, size), ToDrop);
    }

    // ----------------------------------------------------------- what comes in

    /** The guard may drop messages on the way. */
    method SomeDropped()
      requires Valid()
      modifies this`dropped, this`toDrop
      ensures Valid() && Work() == old(Work()) && dropped >= old(dropped)
    {
      hide Steady, Effects, Supply;
      var k :| 0 <= k <= toDrop;
      dropped, toDrop := dropped + k, toDrop - k;
    }

    method TakeNext() returns (m: Inbound)
      requires Valid() && Settled() && inbound != []
      modifies this`inbound, this`trace
      ensures Valid() && old(inbound) == [m] + inbound && trace == old(trace) + [Act.Hear]
      ensures routed + |inbound| + 1 == |all| && all[routed] == m && Work() + 6 == old(Work())
      ensures m.Msg? ==> WellMade(m.m)
    {
      hide Run, Runs, Fair, Effects, Quietly, Leads, Mirrors;
      ghost var w, v := Run(setting, FRESH, trace), Fields();
      StepsHear(setting, w, v);
      RecordStep(Act.Hear, v.(heard := v.heard + 1), 0, None);
      m := inbound[0];
      assert m == all[routed];
      inbound := inbound[1..];
    }

    /** The reader is polled. */
    method PollNext() returns (m: Option<Inbound>)
      requires Valid() && Settled()
      modifies this`inbound, this`dropped, this`toDrop, this`peeks, this`trace
      ensures Valid() && peeks == old(peeks) + 1
      ensures m.Some? <==> outside.readable(old(peeks)) && old(inbound) != []
      ensures m.None? ==> inbound == old(inbound) && Work() == old(Work())
      ensures m.Some? ==>
                old(inbound) == [m.value] + inbound && routed + |inbound| + 1 == |all| && all[routed] == m.value
      ensures m.Some? ==> Work() + 6 == old(Work()) && (m.value.Msg? ==> WellMade(m.value.m))
      ensures trace == old(trace) + (if m.Some? then [Act.Hear] else [])
    {
      hide ValidAt, Work;
      SomeDropped();
      m := None;
      if outside.readable(peeks) && inbound != [] {
        var next := TakeNext();
        m := Some(next);
      }
      peeks := peeks + 1;
    }

    /** One message: the socket is heard from, and the message sent on. It is
        answered at once, begins a task or has an acceptance awaited, as its
        shape says; and a call begun is activity. */
    method Message(m: Shape) returns (e: Option<End>)
      requires Valid() && Telling() && routed < |all| - |inbound| && all[routed] == Msg(m)
      modifies this`out, this`trace, this`made, this`causes, this`accepting, this`running, this`routed, watch
      ensures Valid() && e == if m.CloseFrame? then Some(PeerClosed) else None
      ensures e.None? ==> Telling() && routed == old(routed) + 1
      ensures watch.Valid() && watch.life == old(watch.life) + Heard(m, now)
      ensures Work() <= old(Work()) + 4
      ensures out == old(out) + (if m.MalformedInput? || m.CallHere? || m.Invalid? then [m.reply] else [])
      ensures accepting == old(accepting) + (if m.CallSubscription? then [m.a] else [])
      ensures running == old(running) + (if m.CallTask? || m.Batch? then 1 else 0)
      ensures watch.lastIn == now
      ensures watch.open == old(watch.open) + (if m.CallTask? || m.CallSubscription? || m.Batch? then 1 else 0)
      ensures watch.lastBusy
           == if m.CallHere? || m.CallTask? || m.CallSubscription? || m.Batch? then now else old(watch.lastBusy)
      ensures Quietly(old(trace), trace)
    {
      hide ValidAt, Work, Heard, Told, Tells, Beats, L.Spared, L.Lived;
      ghost var life := watch.life;
      ToldThen(life, m, now);
      TellsThen(all[..routed], m);
      assert all[..routed + 1] == all[..routed] + [Msg(m)];
      Hear(m);
      e := if m.CloseFrame? then Some(PeerClosed) else None;
      if e.None? {
        Route(m);
      }
    }

    /** A message goes where its shape says. */
    method Route(m: Shape)
      requires Valid() && routed < |all| - |inbound| && all[routed] == Msg(m) && !m.CloseFrame?
      modifies this`out, this`trace, this`made, this`causes, this`accepting, this`running, this`routed
      ensures Valid() && Work() <= old(Work()) + 4 && routed == old(routed) + 1
      ensures out == old(out) + Answered(m) && accepting == old(accepting) + Awaited(m)
      ensures running == old(running) + TaskOf(m)
      ensures Quietly(old(trace), trace)
    {
      hide *;
      Parts();
      Following(m);
      Send(m);
      routed := routed + 1;
      AccountedFor();
    }

    lemma AccountedFor()
      requires Steady(0, None)
      requires Accounted(all, routed, inbound, accepting, answeredDrops, dropped, running, done, made, causes)
      ensures Valid()
    {}

    /** The account with the next message seen to. */
    lemma Following(m: Shape)
      requires Others() && routed < |all| - |inbound| && all[routed] == Msg(m) && !m.CloseFrame?
      ensures WellMade(m)
      ensures Accounted(all, routed + 1, inbound, accepting + Awaited(m), answeredDrops, dropped, running + TaskOf(m),
                        done, made + Answered(m), causes + Why(Answered(m), ToMessage))
    {
      EffectsOfMessage(all[..routed], running, accepting, done, made, causes, answeredDrops, m);
      hide Effects;
      assert all[..routed + 1] == all[..routed] + [Msg(m)] && Msg(m) in all;
    }

    method Send(m: Shape)
      requires Steady(0, None) && WellMade(m)
      modifies this`out, this`trace, this`made, this`causes, this`accepting, this`running
      ensures Steady(0, None) && Quietly(old(trace), trace)
      ensures out == old(out) + Answered(m)
      ensures made == old(made) + Answered(m) && causes == old(causes) + Why(Answered(m), ToMessage)
      ensures accepting == old(accepting) + Awaited(m) && running == old(running) + TaskOf(m)
      ensures Work() <= old(Work()) + 4
    {
      hide Steady, Quietly;
      QuietlySelf(trace);
      match m
      case MalformedInput(r) => Reply(r);
      case CallHere(r) => Reply(r);
      case Invalid(r) => Reply(r);
      case CallTask => running := running + 1;
      case CallSubscription(a) => accepting := accepting + [a];
      case Batch => running := running + 1;
      case _ =>
    }

    method Reply(r: WriterRuns.Reply)
      requires Steady(0, None) && r.Made?
      modifies this`out, this`trace, this`made, this`causes
      ensures Steady(0, None) && Quietly(old(trace), trace) && Work() <= old(Work()) + 4
      ensures out == old(out) + [r] && made == old(made) + [r] && causes == old(causes) + [ToMessage]
    {
      hide Steady, Quietly;
      Answer(r, ToMessage);
    }

    /** The socket is heard from, and busy if a call was begun. */
    method Hear(m: Shape)
      requires watch.Valid()
      modifies watch
      ensures watch.Valid() && watch.life == old(watch.life) + Heard(m, now)
      ensures watch.lastIn == now
      ensures watch.open == old(watch.open) + (if m.CallTask? || m.CallSubscription? || m.Batch? then 1 else 0)
      ensures watch.lastBusy
           == if m.CallHere? || m.CallTask? || m.CallSubscription? || m.Batch? then now else old(watch.lastBusy)
    {
      hide L.Spared, L.Lived;
      watch.Heard(now);
      if Begins(m) {
        watch.Begun(now, Opens(m));
      }
    }

    /** A frame in, and the guard's drops answered. */
    method ReadOne() returns (got: bool, e: Option<End>)
      requires Valid() && Settled() && Telling() && |out| < OUT_HIGH
      modifies this`inbound, this`dropped, this`toDrop, this`peeks, this`out, this`trace, this`made, this`causes,
               this`accepting, this`running, this`answeredDrops, this`routed, this`now, watch
      ensures Valid() && watch.Valid() && old(watch.life) <= watch.life && peeks == old(peeks) + 1
      ensures got <==> outside.readable(old(peeks)) && old(inbound) != []
      ensures inbound == if got then old(inbound)[1..] else old(inbound)
      ensures e == (if !got then None else
                    match old(inbound)[0]
                    case ProtocolError => Some(Protocol)
                    case Msg(m) => if m.CloseFrame? then Some(PeerClosed) else None
                    case _ => Some(Lost))
      ensures watch.life == old(watch.life)
                + if got && |old(inbound)| > 0 && old(inbound)[0].Msg? then Heard(old(inbound)[0].m, now) else []
      ensures e.None? ==> Settled() && Telling() && answeredDrops == dropped
      ensures e.Some? ==> out == old(out) && answeredDrops == old(answeredDrops)
      ensures e.None? ==> if got then Work() < old(Work()) else Work() <= old(Work()) && accepting == old(accepting)
      ensures Quietly(old(trace) + (if got then [Act.Hear] else []), trace)
    {
      hide ValidAt, Work, Told, Tells, Quietly, Heard, L.Spared, L.Lived;
      var m := PollNext();
      got, e := m.Some?, None;
      ghost var heard := trace;
      QuietlySelf(trace);
      if m.Some? {
        match m.value
        case ProtocolError => return got, Some(Protocol);
        case OtherError => return got, Some(Lost);
        case EndOfStream => return got, Some(Lost);
        case Msg(x) =>
          TimePasses();
          e := Message(x);
          if e.Some? {
            return;
          }
      }
      ghost var sentOn := trace;
      AnswerDrops();
      QuietlyOn(heard, sentOn, trace);
    }

    method TimePasses()
      modifies this`now
      ensures now >= old(now)
    {
      var more :| more >= 0;
      now := now + more;
    }

    /** Calls end, each when it does. */
    method CallsEnd()
      requires Telling()
      modifies this`now, watch
      ensures Telling() && OnlyDone(old(watch.life), watch.life) && now >= old(now)
    {
      hide L.Spared, L.Lived, Told, Tells;
      var k: nat :| k >= 0;
      while k > 0 && watch.open > 0
        invariant Telling() && OnlyDone(old(watch.life), watch.life) && now >= old(now)
      {
        TimePasses();
        ToldNothing(watch.life, L.Done(now));
        watch.Over(now);
        k := k - 1;
      }
      TimePasses();
    }

    /** A tick finds the socket silent or idle, now. */
    ghost predicate Closes(e: L.End)
      reads this`now, watch
    {
      L.Next(watch.limits, watch.State(), L.Tick(now)).1 == Some(e)
    }

    /** The stop, the close, a tick and the ping timer, before anything is read
        or written: each ends the socket, or does what it is for. */
    method PollSignals() returns (e: Option<End>)
      requires Valid() && Telling()
      modifies this`out, this`trace, this`wakeups, this`now, watch
      ensures Valid() && Telling() && old(watch.life) <= watch.life && wakeups == old(wakeups) + 1
      ensures old(trace) <= trace
      ensures var s := outside.signals(old(wakeups));
              && (e == Some(ServerStopped) <==> s.stop)
              && (e == Some(Closed) <==> !s.stop && s.close)
              && (e == Some(Silent) ==> s.tick && Closes(L.Silent))
              && (e == Some(Idle) ==> s.tick && Closes(L.Idle))
              && (e.Some? ==> e.value in {ServerStopped, Closed, Silent, Idle})
              && (e.None? ==> out == (if s.ping then [Ping] else []) + old(out))
              && (e.None? ==> trace == old(trace) + (if s.ping then [PushPing] else []))
              && (e.None? && s.tick ==> |watch.life| > |old(watch.life)| && watch.life[|watch.life| - 1] == L.Tick(now))
              && (e.None? && !s.tick ==> OnlyDone(old(watch.life), watch.life))
    {
      hide ValidAt, Told, Tells, L.Spared, L.Lived, L.Next;
      CallsEnd();
      var s := outside.signals(wakeups);
      wakeups := wakeups + 1;
      if s.stop {
        return Some(ServerStopped);
      } else if s.close {
        return Some(Closed);
      }
      if s.tick {
        ToldNothing(watch.life, L.Tick(now));
        var why := watch.Check(now);
        if why.Some? {
          return Some(if why.value.Silent? then Silent else Idle);
        }
      }
      if s.ping {
        PingNow();
      }
      e := None;
    }

    // ------------------------------------------------------------ one wakeup

    /** Once round the loop, as far as what comes in. */
    method TakeIn() returns (moved: bool, got: bool, e: Option<End>)
      requires Valid() && Settled() && Telling()
      modifies this`inbound, this`dropped, this`toDrop, this`peeks, this`out, this`trace, this`made, this`causes,
               this`accepting, this`running, this`answeredDrops, this`routed, this`done, this`accepts, this`now, watch
      ensures watch.Valid() && old(watch.life) <= watch.life
      ensures if got then old(inbound) != [] && inbound == old(inbound)[1..] else inbound == old(inbound)
      ensures e.Some? ==> EndsFor(e.value, old(Here()))
      ensures e.None? ==> Valid() && Settled() && Telling() && (got ==> moved)
      ensures e.None? ==> if moved then Work() < old(Work()) else Work() <= old(Work())
      ensures e.None? && !moved ==> NoneResolved(old(Here())) && (ReaderWaits(old(Here())) || |out| >= OUT_HIGH)
      ensures old(peeks) <= peeks && (e.None? && peeks > old(peeks) ==> answeredDrops == dropped)
      ensures peeks == old(peeks) ==> dropped == old(dropped) && answeredDrops == old(answeredDrops)
      ensures old(accepts) <= accepts
      ensures old(trace) <= trace && LastHear(trace, |old(trace)|)
    {
      hide ValidAt, Work, L.Lived, L.Spared, Told, Tells, Those, Refusals;
      ghost var start := Here();
      var resolved;
      moved, resolved := PollAccepting();
      got, e := false, None;
      NoneMoved(start, resolved);
      WhatIsNext();
      ghost var first := trace;
      if |out| < OUT_HIGH {
        got, e := ReadOne();
        moved := moved || got;
      }
    }

    /** What the reader finds next is the next of all messages. */
    lemma WhatIsNext()
      requires Valid()
      ensures |inbound| <= |all| && inbound == all[|all| - |inbound|..]
    {}

    /** The acceptances polled with none resolved. */
    lemma NoneMoved(m: Mark, resolved: seq<bool>)
      requires m.accepts + |resolved| == accepts
      requires forall i | 0 <= i < |resolved| :: resolved[i] == outside.resolves(m.accepts + i)
      ensures true !in resolved && |accepting| == |resolved| ==> NoneResolved(m)
    {
      if true !in resolved && |accepting| == |resolved| {
        forall k | m.accepts <= k < accepts ensures !outside.resolves(k) {
          assert resolved[k - m.accepts] == outside.resolves(m.accepts + (k - m.accepts));
        }
      }
    }

    /** And as far as what goes out, since `start`, which is when the round
        began. */
    method PutOut(ghost start: Mark, took: bool) returns (r: Wrote)
      requires Valid() && start.steps <= |trace| && start.asks <= asks && LastHear(trace, start.steps)
      requires !took ==> NoneResolved(start) && (ReaderWaits(start) || |out| >= OUT_HIGH)
      modifies this`own, this`ownOpen, this`table, this`frames, this`fenced, this`turn, this`trace, this`woken,
               this`polled, this`ready, this`coming, this`out, this`asks, this`gathered, this`sent, this`unflushed
      ensures r != Gone ==> Valid() && asks > old(asks) && TriedEachRound(trace, start.steps)
      ensures r.Gone? ==> EndsFor(Lost, start)
      ensures if r.Moved? then Work() < old(Work()) else r.Still? ==> Work() <= old(Work())
      ensures r.Still? && !took ==> NothingMissed(start)
      ensures Wakes(setting, old(woken), woken, old(polled), polled) && old(polled) <= polled && old(trace) <= trace
    {
      hide *;
      ghost var taken, here := trace, Here();
      HereIs();
      WorkIs();
      r := PollWrite();
      Longer(taken, trace);
      WakesUp(setting, old(woken), woken, old(polled), polled);
      WorkIs();
      match r {
        case Gone => LostWhenGone(here, start);
        case Moved => TriedThisRound(taken, trace, start.steps);
        case Still =>
          TriedThisRound(taken, trace, start.steps);
          if !took {
            MissesNothing(here, start);
          }
      }
    }

    /** Once round the loop: what moved, whether a frame was read, and why the
        socket ends if it does. */
    method Round() returns (moved: bool, got: bool, e: Option<End>)
      requires Valid() && Settled() && Telling()
      modifies this, watch
      ensures watch.Valid() && old(watch.life) <= watch.life && wakeups == old(wakeups)
      ensures if got then old(inbound) != [] && inbound == old(inbound)[1..] else inbound == old(inbound)
      ensures e.Some? ==> EndsFor(e.value, old(Here()))
      ensures e.None? ==> Valid() && Settled() && Telling() && (got ==> moved)
      ensures e.None? && moved ==> Work() < old(Work())
      ensures e.None? && !moved ==> NothingMissed(old(Here()))
      ensures e.None? ==> After(old(Here()), Here()) && asks > old(asks)
      ensures e.None? && peeks > old(peeks) ==> answeredDrops == dropped
      ensures peeks == old(peeks) ==> dropped == old(dropped) && answeredDrops == old(answeredDrops)
      ensures Wakes(setting, old(woken), woken, old(polled), polled)
      ensures old(trace) <= trace && (e.None? ==> TriedEachRound(trace, |old(trace)|))
    {
      hide *;
      WakesSelf(setting, woken, polled);
      ghost var start := Here();
      HereIs();
      moved, got, e := TakeIn();
      if e.Some? {
        return;
      }
      HereIs();
      var wrote := PutOut(start, moved);
      HereIs();
      if wrote.Gone? {
        e := Some(Lost);
        return;
      }
      IsAfter(start, Here());
      moved := moved || wrote.Moved?;
    }

    lemma WorkIs()
      ensures Work() == Intake() + 2 * Supply() + (if unflushed then 1 else 0)
    {}

    lemma LostWhenGone(m: Mark, sooner: Mark)
      requires SocketFailed(m) && sooner.asks <= m.asks
      ensures EndsFor(Lost, sooner)
    {}

    lemma MissesNothing(m: Mark, sooner: Mark)
      requires NoneResolved(sooner) && (ReaderWaits(sooner) || |out| >= OUT_HIGH) && WriterWaits(m)
      requires sooner.steps <= m.steps && sooner.asks <= m.asks
      ensures NothingMissed(sooner)
    {
      WaitsSooner(m, sooner);
    }

    lemma WaitsSooner(m: Mark, sooner: Mark)
      requires WriterWaits(m) && sooner.steps <= m.steps && sooner.asks <= m.asks
      ensures WriterWaits(sooner) && (SocketWaits(m) ==> SocketWaits(sooner))
      ensures out != [] ==> SocketWaits(sooner)
    {
      if Drained(m) {
        DrainedSooner(m, sooner);
      }
      hide Asked;
    }

    lemma NothingMissedSooner(m: Mark, sooner: Mark)
      requires NothingMissed(m) && After(sooner, m)
      ensures NothingMissed(sooner)
    {
      WaitsSooner(m, sooner);
      hide Drained;
    }

    /** Round after round, until nothing moves or enough has been read. */
    method Rounds() returns (e: Option<End>)
      requires Valid() && Settled() && Telling() && !woken
      modifies this, watch
      ensures watch.Valid() && old(watch.life) <= watch.life && wakeups == old(wakeups) && old(trace) <= trace
      ensures e.Some? ==> EndsFor(e.value, old(Here()))
      ensures |inbound| <= |old(inbound)| <= |inbound| + READ_BUDGET
      ensures inbound == old(inbound)[|old(inbound)| - |inbound|..]
      ensures e.None? ==> Valid() && Settled() && Telling() && After(old(Here()), Here())
      ensures e.None? ==> Quiescent(old(Here()), |old(inbound)| - |inbound|)
      ensures e.None? && peeks > old(peeks) ==> answeredDrops == dropped
      ensures e.None? ==> asks - old(asks) >= |old(inbound)| - |inbound| && TriedEachRound(trace, |old(trace)|)
    {
      hide ValidAt, Work, NothingMissed, Told, Tells, L.Lived, L.Spared, Wakes, TriedEachRound, EndsFor, Settled;
      ghost var start := Here();
      NothingTriedYet(trace, |trace|);
      WakesSelf(setting, woken, polled);
      e := None;
      var taken, moved := 0, true;
      while moved
        invariant Valid() && Settled() && Telling() && e.None? && old(trace) <= trace && old(watch.life) <= watch.life
        invariant taken < READ_BUDGET && wakeups == old(wakeups) && asks >= start.asks + taken && After(start, Here())
        invariant |old(inbound)| == |inbound| + taken && inbound == old(inbound)[taken..]
        invariant !moved ==> NothingMissed(start)
        invariant peeks > old(peeks) ==> answeredDrops == dropped
        invariant Wakes(setting, false, woken, start.polled, polled)
        invariant TriedEachRound(trace, |old(trace)|)
        decreases moved, Work()
      {
        ghost var here, before, wasWoken, wasPolled := Here(), trace, woken, polled;
        var got;
        moved, got, e := Round();
        if e.Some? {
          EndsForSooner(e.value, here, start);
          return;
        }
        WakesOn(setting, false, wasWoken, woken, start.polled, wasPolled, polled);
        TriedOn(before, trace, |old(trace)|, |before|);
        if !moved {
          NothingMissedSooner(here, start);
        }
        taken := taken + (if got then 1 else 0);
        if taken >= READ_BUDGET {
          // Enough read for now: the task is woken again after others.
          woken := true;
          return;
        }
      }
      if woken {
        WokenFalsely(start);
      }
    }

    /** The loop may wait: nothing has been missed since; or the task has woken
        itself, because a queue came back falsely empty or because `read`
        messages are enough for one wakeup. */
    ghost predicate Quiescent(m: Mark, read: int)
      reads this
    {
      if !woken then NothingMissed(m) else (NothingMissed(m) && FalselyMissed(m)) || read == READ_BUDGET
    }

    /** One wakeup of the loop. It ends the socket for a reason it has; or it is
        Pending, no more than `READ_BUDGET` messages having been read. Then
        nothing that could move it goes unheard: each source was polled in this
        wakeup, last to Pending, after all it had was seen to, the socket's write
        side standing in for a reader that a backlog keeps from reading. If a
        queue came back falsely empty the task has woken itself. Only a wakeup
        that has read its share may leave more to be done, having woken itself;
        and it has tried to write after every message, as every wakeup has. */
    method PollRun() returns (e: Option<End>)
      requires Valid() && Settled() && Telling()
      modifies this, watch
      ensures watch.Valid() && old(watch.life) <= watch.life && wakeups == old(wakeups) + 1
      ensures var s := outside.signals(old(wakeups));
              && (e == Some(ServerStopped) <==> s.stop)
              && (e == Some(Closed) <==> !s.stop && s.close)
              && (e == Some(Silent) ==> s.tick && Closes(L.Silent))
              && (e == Some(Idle) ==> s.tick && Closes(L.Idle))
              && (e.None? && s.tick ==> Ticked(old(watch.life), watch.life))
              && (e.None? && s.ping ==> |trace| > |old(trace)| && trace[|old(trace)|] == PushPing)
      ensures e.Some? && e.value in {PeerClosed, Protocol, Lost} ==> EndsFor(e.value, old(Here()))
      ensures |inbound| <= |old(inbound)| <= |inbound| + READ_BUDGET
      ensures inbound == old(inbound)[|old(inbound)| - |inbound|..]
      ensures e.None? ==> Valid() && Settled() && Telling()
      ensures e.None? && !woken ==> NothingMissed(old(Here()))
      ensures e.None? && woken ==>
                || (NothingMissed(old(Here())) && FalselyMissed(old(Here())))
                || |old(inbound)| == |inbound| + READ_BUDGET
      ensures e.None? && peeks > old(peeks) ==> answeredDrops == dropped
      ensures e.None? ==> asks - old(asks) >= |old(inbound)| - |inbound|
      ensures old(trace) <= trace && (e.None? ==> TriedEachRound(trace, |old(trace)|))
    {
      hide ValidAt, Work, NothingMissed, FalselyMissed, Told, Tells, Settled;
      hide L.Lived, L.Spared, TriedEachRound, EndsFor, Closes, Ticked;
      woken := false;
      ghost var start, life := Here(), watch.life;
      e := PollSignals();
      if e.Some? {
        return;
      }
      ghost var signalled, here, ticked := trace, Here(), watch.life;
      e := Rounds();
      match e {
        case Some(why) =>
          EndsForSooner(why, here, start);
        case None =>
          QuietRounds(start, here, |old(inbound)| - |inbound|);
          TriedFrom(trace, |old(trace)|, |signalled|);
          if outside.signals(old(wakeups)).tick {
            TickedOn(life, ticked, watch.life);
          }
      }
    }

    lemma QuietRounds(start: Mark, here: Mark, read: int)
      requires Quiescent(here, read) && After(start, here)
      ensures Quiescent(start, read)
    {
      if NothingMissed(here) {
        NothingMissedSooner(here, start);
      }
      hide NothingMissed;
    }

    lemma WokenFalsely(m: Mark)
      requires Wakes(setting, false, woken, m.polled, polled) && woken
      ensures FalselyMissed(m)
    {}

    lemma EndsForSooner(e: End, m: Mark, sooner: Mark)
      requires EndsFor(e, m) && sooner.asks <= m.asks
      ensures EndsFor(e, sooner)
    {}
  }
}
