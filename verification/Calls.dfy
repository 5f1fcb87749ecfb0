/** How many calls a connection has open: a counter that any number of threads
    raise by compare-and-swap and lower when a call's place is dropped. */
module Calls {
  import opened Base

  // ------------------------------------------------------------ every thread

  /** Where a thread is in `try_open_within`: not in it, about to load, or
      comparing with what it `saw`, the counter after step `at`. `began` is the
      step it began after, `charged` the steps its failed swaps are charged
      to. */
  datatype Thread =
    | Outside
    | Loading(limit: nat, began: nat)
    | Comparing(limit: nat, began: nat, saw: nat, at: nat, charged: seq<nat>)

  /** A thread's step. */
  datatype Act =
    | Begin(t: nat, within: nat) | Load(t: nat) | Refuse(t: nat) | Swap(t: nat)
    | GiveBack(t: nat, place: nat)

  /** `log[i]` is the counter after `i` steps, and `acts[i]` the step from
      `log[i]` to `log[i + 1]`; `live` the places not yet given back. */
  datatype World = World(open: nat, live: set<nat>, nextId: nat, threads: map<nat, Thread>, log: seq<nat>,
      acts: seq<Act>)

  const START := World(0, {}, 0, map[], [0], [])

  function At(w: World, t: nat): Thread {
    if t in w.threads then w.threads[t] else Outside
  }

  predicate Enabled(max: nat, w: World, a: Act) {
    match a
    case Begin(t, _) => At(w, t).Outside?
    case Load(t) => At(w, t).Loading?
    case Refuse(t) => At(w, t).Comparing? && At(w, t).saw >= At(w, t).limit
    case Swap(t) => At(w, t).Comparing? && At(w, t).saw < At(w, t).limit
    case GiveBack(t, p) => At(w, t).Outside? && p in w.live
  }

  /** The last step after `lo` that changed the counter. */
  function LastChange(log: seq<nat>, lo: nat, hi: nat): (i: nat)
    ensures lo < hi < |log| && log[lo] != log[hi] ==> lo < i <= hi && log[i - 1] != log[i]
    decreases hi
  {
    if lo < hi < |log| && log[hi - 1] == log[hi] then LastChange(log, lo, hi - 1) else hi
  }

  /** The swaps thread `t` has tried since step `lo`. */
  function Swaps(acts: seq<Act>, t: nat, lo: nat): nat {
    if |acts| <= lo then 0
    else Swaps(acts[..|acts| - 1], t, lo) + (if acts[|acts| - 1] == Swap(t) then 1 else 0)
  }

  predicate Logged(w: World) {
    |w.log| == |w.acts| + 1 && w.log[|w.acts|] == w.open
  }

  predicate ThreadOk(max: nat, w: World, t: nat, x: Thread) {
    match x
    case Outside => true
    case Loading(limit, began) => limit <= max && began <= |w.acts| && Swaps(w.acts, t, began) == 0
    case Comparing(limit, began, saw, at, charged) =>
      && limit <= max && began <= at <= |w.acts| < |w.log| && w.log[at] == saw
      && Charges(w.log, charged, began, at) && |charged| == Swaps(w.acts, t, began)
  }

  /** Distinct steps in order within the call, each of which changed the
      counter. */
  predicate Charges(log: seq<nat>, charged: seq<nat>, began: nat, at: nat)
    requires at < |log|
  {
    && (forall i | 0 <= i < |charged| :: began < charged[i] <= at && log[charged[i] - 1] != log[charged[i]])
    && (forall i, j | 0 <= i < j < |charged| :: charged[i] < charged[j])
  }

  function Step(w: World, a: Act, open: nat, live: set<nat>, t: nat, x: Thread): World {
    World(open, live, w.nextId + 1, w.threads[t := x], w.log + [open], w.acts + [a])
  }

  function Next(max: nat, w: World, a: Act): World
    requires Enabled(max, w, a)
  {
    match a
    case Begin(t, within) => Step(w, a, w.open, w.live, t, Loading(Min(max, within), |w.acts| + 1))
    case Load(t) =>
      var x := At(w, t);
      Step(w, a, w.open, w.live, t, Comparing(x.limit, x.began, w.open, |w.acts| + 1, []))
    case Refuse(t) => Step(w, a, w.open, w.live, t, Outside)
    case Swap(t) =>
      var x := At(w, t);
      if w.open == x.saw then Step(w, a, w.open + 1, w.live + {w.nextId}, t, Outside)
      else Step(w, a, w.open, w.live, t,
                x.(saw := w.open, at := |w.acts| + 1, charged := x.charged + [LastChange(w.log, x.at, |w.acts|)]))
    case GiveBack(t, p) => Step(w, a, if w.open > 0 then w.open - 1 else 0, w.live - {p}, t, Outside)
  }

  /** The counter is the live places, and within the limit; each thread's view
      is one the counter really had during its call; and the thread itself has
      changed nothing since its call began. */
  predicate Inv(max: nat, w: World) {
    && Logged(w)
    && w.open == |w.live| <= max
    && (forall p | p in w.live :: p < w.nextId)
    && (forall t | t in w.threads :: ThreadOk(max, w, t, w.threads[t]) && Idle(w, t, w.threads[t]))
  }

  /** Since its call began, thread `t` has not changed the counter. */
  predicate Idle(w: World, t: nat, x: Thread)
    requires Logged(w)
  {
    x.Outside? || (forall i | x.began <= i < |w.acts| && w.acts[i].t == t :: w.log[i] == w.log[i + 1])
  }

  lemma ThreadStaysOk(max: nat, w: World, v: World, t: nat, x: Thread)
    requires Logged(w) && Logged(v) && ThreadOk(max, w, t, x) && Idle(w, t, x)
    requires v.log == w.log + [v.open] && |v.acts| == |w.acts| + 1 && v.acts[..|w.acts|] == w.acts
    requires v.acts[|w.acts|].t != t || (v.acts[|w.acts|] != Swap(t) && v.open == w.open)
    ensures ThreadOk(max, v, t, x) && Idle(v, t, x)
  {
    assert forall i | 0 <= i < |w.log| :: v.log[i] == w.log[i];
    assert forall i | 0 <= i < |w.acts| :: v.acts[i] == v.acts[..|w.acts|][i] == w.acts[i];
  }

  lemma ChargesStand(log: seq<nat>, on: seq<nat>, charged: seq<nat>, began: nat, at: nat)
    requires at < |log| && log <= on && Charges(log, charged, began, at)
    ensures Charges(on, charged, began, at)
  {}

  lemma ChargesAnother(log: seq<nat>, charged: seq<nat>, began: nat, at: nat, c: nat, to: nat)
    requires at < |log| && Charges(log, charged, began, at) && began <= at < c <= to < |log| && log[c - 1] != log[c]
    ensures Charges(log, charged + [c], began, to)
  {
    var more := charged + [c];
    forall i | 0 <= i < |more| ensures began < more[i] <= to && log[more[i] - 1] != log[more[i]] {
      assert i < |charged| ==> more[i] == charged[i];
    }
    forall i, j | 0 <= i < j < |more| ensures more[i] < more[j] {
      assert j < |charged| ==> more[i] == charged[i] && more[j] == charged[j];
      assert i < |charged| ==> more[i] == charged[i];
    }
  }

  lemma ChargeOneMore(log: seq<nat>, charged: seq<nat>, began: nat, at: nat, hi: nat)
    requires began <= at < hi < |log| && log[at] != log[hi] && Charges(log, charged, began, at)
    ensures Charges(log + [log[hi]], charged + [LastChange(log, at, hi)], began, hi + 1)
  {
    var c := LastChange(log, at, hi);
    assert at < c <= hi && log[c - 1] != log[c];
    hide LastChange, Charges;
    ChargesStand(log, log + [log[hi]], charged, began, at);
    ChargesAnother(log + [log[hi]], charged, began, at, c, hi + 1);
  }

  /** A failed swap is charged to the last step that changed the counter after
      the thread last looked: a new one, and another thread's. */
  lemma RetryCharged(max: nat, w: World, t: nat)
    requires Inv(max, w) && Enabled(max, w, Swap(t)) && w.open != At(w, t).saw
    ensures var v := Next(max, w, Swap(t)); ThreadOk(max, v, t, v.threads[t]) && Idle(v, t, v.threads[t])
  {
    var v, x := Next(max, w, Swap(t)), w.threads[t];
    assert ThreadOk(max, v, t, v.threads[t]) by {
      assert v.log == w.log + [w.log[|w.acts|]];
      ChargeOneMore(w.log, x.charged, x.began, x.at, |w.acts|);
      assert v.acts[..|w.acts|] == w.acts;
    }
    assert Idle(v, t, v.threads[t]) by {
      assert forall i | 0 <= i < |w.acts| :: v.acts[i] == w.acts[i] && v.log[i] == w.log[i];
      assert v.log[|v.acts|] == w.log[|w.acts|] == v.log[|w.acts|];
    }
  }

  lemma ActorStaysOk(max: nat, w: World, a: Act)
    requires Inv(max, w) && Enabled(max, w, a)
    ensures var v := Next(max, w, a); ThreadOk(max, v, a.t, v.threads[a.t]) && Idle(v, a.t, v.threads[a.t])
  {
    var v := Next(max, w, a);
    assert v.acts[..|w.acts|] == w.acts;
    match a
    case Load(t) => ThreadStaysOk(max, w, v, t, w.threads[t]);
    case Swap(t) =>
      if w.open != At(w, t).saw {
        RetryCharged(max, w, t);
      }
    case _ =>
  }

  lemma NextKeepsInv(max: nat, w: World, a: Act)
    requires Inv(max, w) && Enabled(max, w, a)
    ensures Inv(max, Next(max, w, a))
  {
    var v := Next(max, w, a);
    assert v.acts[..|w.acts|] == w.acts;
    assert w.nextId !in w.live;
    assert a.Swap? && w.open == At(w, a.t).saw ==> w.open < max;
    forall t | t in v.threads
      ensures ThreadOk(max, v, t, v.threads[t]) && Idle(v, t, v.threads[t])
    {
      if t == a.t {
        ActorStaysOk(max, w, a);
      } else {
        ThreadStaysOk(max, w, v, t, w.threads[t]);
      }
    }
  }

  /** A run: any threads, any interleaving. */
  predicate Runs(max: nat, w: World, acts: seq<Act>)
    decreases |acts|
  {
    acts != [] ==> Enabled(max, w, acts[0]) && Runs(max, Next(max, w, acts[0]), acts[1..])
  }

  function Run(max: nat, w: World, acts: seq<Act>): World
    requires Runs(max, w, acts)
    decreases |acts|
  {
    if acts == [] then w else Run(max, Next(max, w, acts[0]), acts[1..])
  }

  lemma {:induction false} RunKeepsInv(max: nat, w: World, acts: seq<Act>)
    requires Inv(max, w) && Runs(max, w, acts)
    ensures Inv(max, Run(max, w, acts))
    decreases |acts|
  {
    if acts != [] {
      NextKeepsInv(max, w, acts[0]);
      RunKeepsInv(max, Next(max, w, acts[0]), acts[1..]);
    }
  }

  /** Whatever the threads do, the counter is the live places and within the
      connection's limit. */
  lemma CounterIsLivePlaces(max: nat, acts: seq<Act>)
    requires Runs(max, START, acts)
    ensures var w := Run(max, START, acts); w.open == |w.live| <= max
  {
    RunKeepsInv(max, START, acts);
  }

  /** A refusal is justified: at some moment of the call the counter was at its
      limit. A success is justified at its swap, which keeps the counter within
      the call's limit. */
  lemma OutcomeJustified(max: nat, acts: seq<Act>, t: nat)
    requires Runs(max, START, acts) && At(Run(max, START, acts), t).Comparing?
    ensures var w := Run(max, START, acts);
            var x := At(w, t);
            && (Enabled(max, w, Refuse(t)) ==> exists i :: x.began <= i < |w.log| && w.log[i] >= x.limit)
            && (Enabled(max, w, Swap(t)) && w.open == x.saw ==>
                  var v := Next(max, w, Swap(t));
                  v.open <= x.limit && v.live == w.live + {w.nextId} && w.nextId !in w.live)
  {
    RunKeepsInv(max, START, acts);
    var w := Run(max, START, acts);
    var x := w.threads[t];
    assert ThreadOk(max, w, t, x) && x.began <= x.at < |w.log|;
    if x.saw >= x.limit {
      assert w.log[x.at] >= x.limit;
    }
  }

  /** Each failed swap of a call is charged to a step of its own, taken during
      the call by another thread, that changed the counter: the loop goes round
      only while others get on. */
  lemma RetriesAreOthersSteps(max: nat, acts: seq<Act>, t: nat, i: nat)
    requires Runs(max, START, acts) && At(Run(max, START, acts), t).Comparing?
    requires i < |At(Run(max, START, acts), t).charged|
    ensures var w := Run(max, START, acts);
            var x := At(w, t);
            && |x.charged| == Swaps(w.acts, t, x.began)
            && x.began < x.charged[i] <= |w.acts| < |w.log| && (i > 0 ==> x.charged[i - 1] < x.charged[i])
            && w.acts[x.charged[i] - 1].t != t
            && w.log[x.charged[i] - 1] != w.log[x.charged[i]]
  {
    RunKeepsInv(max, START, acts);
    var w := Run(max, START, acts);
    var x := w.threads[t];
    assert ThreadOk(max, w, t, x) && Idle(w, t, x);
    var c := x.charged[i];
    assert w.log[c - 1] != w.log[c];
    assert x.began <= c - 1 < |w.acts|;
  }

  // ------------------------------------------------------- one thread's program

  datatype Opened = Place(id: nat) | TooMany(most: nat)

  lemma {:induction false} RunOn(max: nat, w: World, acts: seq<Act>, a: Act)
    requires Runs(max, w, acts) && Enabled(max, Run(max, w, acts), a)
    ensures Runs(max, w, acts + [a]) && Run(max, w, acts + [a]) == Next(max, Run(max, w, acts), a)
    decreases |acts|
  {
    hide Enabled, Next;
    if acts == [] {
      assert (acts + [a])[1..] == [];
    } else {
      RunOn(max, Next(max, w, acts[0]), acts[1..], a);
      assert (acts + [a])[1..] == acts[1..] + [a];
    }
  }

  /** The counter as thread `me` uses it, among others that do what they do in
      an order of their own. Every step of its program is a step of a run. */
  class ConnectionCalls {
    const max: nat
    const me: nat
    var w: World
    var others: seq<Act>

    ghost predicate Valid()
      reads this
    {
      && Runs(max, START, w.acts) && Run(max, START, w.acts) == w && Logged(w)
      && forall i | 0 <= i < |others| :: others[i].t != me
    }

    constructor (max: nat, me: nat, others: seq<Act>)
      requires forall i | 0 <= i < |others| :: others[i].t != me
      ensures Valid() && w == START && this.max == max && this.me == me && this.others == others
    {
      this.max, this.me, this.w, this.others := max, me, START, others;
    }

    lemma CounterIsRight()
      requires Valid()
      ensures Inv(max, w) && w.open == |w.live| <= max
    {
      RunKeepsInv(max, START, w.acts);
    }

    method Step(a: Act)
      requires Valid() && Enabled(max, w, a)
      modifies this`w
      ensures Valid() && w == Next(max, old(w), a) && w.acts == old(w.acts) + [a] && Grown(old(w), w)
      ensures w.log[|old(w.acts)|] == old(w.open)
    {
      RunOn(max, START, w.acts, a);
      hide Enabled, Next, Run, Runs;
      w := Next(max, w, a);
    }

    /** The next thing another thread does; what it cannot do is given up. */
    method Advance()
      requires Valid() && others != []
      modifies this`w, this`others
      ensures Valid() && others == old(others)[1..] && At(w, me) == At(old(w), me) && Grown(old(w), w)
      ensures w == (if Enabled(max, old(w), old(others)[0]) then Next(max, old(w), old(others)[0]) else old(w))
      ensures LookedOnly(w, me, |old(w.acts)|, |w.acts|)
    {
      hide Run, Runs;
      var a := others[0];
      if Enabled(max, w, a) {
        hide Enabled, Next;
        Step(a);
      }
      others := others[1..];
    }

    method Meanwhile()
      requires Valid()
      modifies this`w, this`others
      ensures Valid() && |others| <= |old(others)| && At(w, me) == At(old(w), me) && Grown(old(w), w)
      ensures LookedOnly(w, me, |old(w.acts)|, |w.acts|)
      ensures w.open != old(w.open) ==> |others| < |old(others)|
    {
      hide Run, Runs;
      var k: nat := *;
      while k > 0 && others != []
        invariant Valid() && |others| <= |old(others)| && At(w, me) == At(old(w), me) && Grown(old(w), w)
        invariant |others| == |old(others)| ==> w == old(w)
        invariant LookedOnly(w, me, |old(w.acts)|, |w.acts|)
      {
        Advance();
        k := k - 1;
      }
    }

    method Load() returns (n: nat)
      requires Valid() && At(w, me).Loading?
      modifies this`w, this`others
      ensures Valid() && |others| <= |old(others)| && Grown(old(w), w) && n == w.open
      ensures LookedOnly(w, me, |old(w.acts)|, |w.acts|)
      ensures At(w, me) == Comparing(At(old(w), me).limit, At(old(w), me).began, n, |w.acts|, [])
    {
      hide Run, Runs;
      Meanwhile();
      Step(Act.Load(me));
      n := w.open;
    }

    /** `ok`: a place was taken, from what was found; otherwise what was found,
        which another thread left. */
    method CompareExchange(now: nat) returns (ok: bool, seen: nat)
      requires Valid() && At(w, me).Comparing? && now == At(w, me).saw < At(w, me).limit && now == w.open
      modifies this`w, this`others
      ensures Valid() && |others| <= |old(others)| && Grown(old(w), w) && seen == w.open
      ensures LookedOnly(w, me, |old(w.acts)|, if ok then |w.acts| - 1 else |w.acts|)
      ensures ok ==> w.open == now + 1 && w.nextId - 1 in w.live && At(w, me).Outside?
      ensures ok ==> Took(w, me)
      ensures !ok ==> At(w, me).Comparing? && At(w, me).saw == seen && |others| < |old(others)|
      ensures !ok ==> At(w, me).limit == At(old(w), me).limit && At(w, me).began == At(old(w), me).began
      ensures !ok ==> |At(w, me).charged| == |At(old(w), me).charged| + 1
      ensures w.acts[|w.acts| - 1] == Swap(me)
    {
      hide Run, Runs;
      Meanwhile();
      ok := w.open == now;
      Step(Swap(me));
      seen := w.open;
    }

    /** One call more, or too many. A place is a new one, which nobody held when
        the call was made; the call's last step takes it, raising the counter by
        one and leaving it within both limits. A refusal found the counter there
        at some moment since the call began, and takes nothing. The call's other
        steps leave the counter alone. Each swap that failed is charged to a
        step of its own, since the call began, by which another thread changed
        the counter. */
    method TryOpenWithin(limit: nat) returns (r: Opened, ghost began: nat, ghost retries: nat, ghost charged: seq<nat>)
      requires Valid() && At(w, me).Outside?
      modifies this`w, this`others
      ensures Valid() && At(w, me).Outside? && Grown(old(w), w) && |old(w.acts)| < began <= |w.acts|
      ensures r.Place? ==> r.id in w.live && w.open <= Min(max, limit)
      ensures r.Place? ==> r.id !in old(w.live) && r.id == w.nextId - 1 && Took(w, me)
      ensures r.TooMany? ==> w.acts[|w.acts| - 1] == Refuse(me) && w.log[|w.acts| - 1] == w.log[|w.acts|]
      ensures LookedOnly(w, me, |old(w.acts)|, |w.acts| - 1)
      ensures r.TooMany? ==> r.most == Min(max, limit) && exists i :: began <= i < |w.log| && w.log[i] >= r.most
      ensures |charged| == retries && ChargedToOthers(w, me, began, charged)
    {
      hide Run, Runs, ChargedToOthers, LookedOnly, Inv, Enabled, Next;
      var most := Min(max, limit);
      var now;
      now, began := Enter(limit);
      retries := 0;
      while true
        invariant Valid() && At(w, me).Comparing? && At(w, me).saw == now == w.open
        invariant At(w, me).limit == most && At(w, me).began == began && |At(w, me).charged| == retries
        invariant Grown(old(w), w) && |old(w.acts)| < began <= |w.acts| && OldIds(old(w), w)
        invariant LookedOnly(w, me, |old(w.acts)|, |w.acts|)
        decreases |others|
      {
        Justified();
        charged := At(w, me).charged;
        ghost var before := w;
        if now >= most {
          Refused();
          Onward(old(w), before, w, me, |w.acts| - 1);
          ChargesStay(before, w, me, began, charged);
          return TooMany(most), began, retries, charged;
        }
        var ok, seen := CompareExchange(now);
        Onward(old(w), before, w, me, if ok then |w.acts| - 1 else |w.acts|);
        if ok {
          ChargesStay(before, w, me, began, charged);
          return Place(w.nextId - 1), began, retries, charged;
        }
        now, retries := seen, retries + 1;
      }
    }

    /** A call begins and loads the counter. */
    method Enter(limit: nat) returns (now: nat, ghost began: nat)
      requires Valid() && At(w, me).Outside?
      modifies this`w, this`others
      ensures Valid() && Grown(old(w), w) && |old(w.acts)| < began <= |w.acts| && now == w.open
      ensures exists at :: At(w, me) == Comparing(Min(max, limit), began, now, at, [])
      ensures LookedOnly(w, me, |old(w.acts)|, |w.acts|) && OldIds(old(w), w)
    {
      CounterIsRight();
      hide Run, Runs, Inv;
      Meanwhile();
      Step(Begin(me, limit));
      began := |w.acts|;
      now := Load();
    }

    method Refused()
      requires Valid() && At(w, me).Comparing? && At(w, me).saw >= At(w, me).limit
      modifies this`w
      ensures Valid() && At(w, me).Outside? && Grown(old(w), w) && w.acts == old(w.acts) + [Refuse(me)]
      ensures LookedOnly(w, me, |old(w.acts)|, |w.acts| - 1)
      ensures w.log[|w.acts| - 1] == w.log[|w.acts|]
    {
      hide Run, Runs;
      Step(Refuse(me));
    }

    /** What the runs' lemmas say of this thread now. */
    lemma Justified()
      requires Valid() && At(w, me).Comparing?
      ensures var x := At(w, me);
              && ChargedToOthers(w, me, x.began, x.charged)
              && (x.saw >= x.limit ==> exists i :: x.began <= i < |w.log| && w.log[i] >= x.limit)
    {
      OutcomeJustified(max, w.acts, me);
      var x := At(w, me);
      forall i | 0 <= i < |x.charged|
        ensures ChargedTo(w, me, x.began, x.charged, i)
      {
        RetriesAreOthersSteps(max, w.acts, me, i);
      }
    }

    /** A place is given back when its call is done. */
    method Drop(place: nat)
      requires Valid() && At(w, me).Outside? && place in w.live
      modifies this`w
      ensures Valid() && w.live == old(w.live) - {place} && w.open + 1 == old(w.open)
    {
      CounterIsRight();
      hide Run, Runs, Inv;
      assert |w.live| > 0;
      Step(GiveBack(me, place));
    }
  }

  predicate ChargedTo(w: World, t: nat, began: nat, charged: seq<nat>, i: nat)
    requires i < |charged|
  {
    && began < charged[i] <= |w.acts| && charged[i] < |w.log| && (i > 0 ==> charged[i - 1] < charged[i])
    && w.acts[charged[i] - 1].t != t && w.log[charged[i] - 1] != w.log[charged[i]]
  }

  /** Steps were taken since. */
  predicate Grown(w: World, v: World) {
    w.acts <= v.acts && w.log <= v.log && w.nextId <= v.nextId
  }

  /** The last step is a swap of thread `t` that raised the counter by one. */
  predicate Took(w: World, t: nat) {
    && Logged(w) && w.acts != [] && w.acts[|w.acts| - 1] == Swap(t)
    && w.log[|w.acts|] == w.log[|w.acts| - 1] + 1
  }

  /** The steps `lo` to `hi` that are thread `t`'s leave the counter alone. */
  predicate LookedOnly(w: World, t: nat, lo: nat, hi: int)
    requires hi < |w.log| && hi <= |w.acts|
  {
    forall i | lo <= i < hi && w.acts[i].t == t :: w.log[i] == w.log[i + 1]
  }

  lemma Onward(u: World, w: World, v: World, t: nat, hi: nat)
    requires Logged(w) && Logged(v) && Grown(u, w) && Grown(w, v) && |u.acts| <= |w.acts| && hi <= |v.acts|
    requires LookedOnly(w, t, |u.acts|, |w.acts|) && LookedOnly(v, t, |w.acts|, hi)
    ensures Grown(u, v) && LookedOnly(v, t, |u.acts|, hi)
  {
    forall i | |u.acts| <= i < hi && v.acts[i].t == t ensures v.log[i] == v.log[i + 1] {
      assert i < |w.acts| ==> v.acts[i] == w.acts[i] && v.log[i] == w.log[i] && v.log[i + 1] == w.log[i + 1];
    }
  }

  /** A place taken now is none that was held then. */
  predicate OldIds(w: World, v: World) {
    w.nextId < v.nextId && forall p | p in w.live :: p < w.nextId
  }

  lemma ChargesStay(w: World, v: World, t: nat, began: nat, charged: seq<nat>)
    requires ChargedToOthers(w, t, began, charged) && Grown(w, v)
    ensures ChargedToOthers(v, t, began, charged)
  {
    forall i | 0 <= i < |charged| ensures ChargedTo(v, t, began, charged, i) {
      assert ChargedTo(w, t, began, charged, i);
    }
  }

  predicate ChargedToOthers(w: World, t: nat, began: nat, charged: seq<nat>) {
    forall i | 0 <= i < |charged| :: ChargedTo(w, t, began, charged, i)
  }
}
