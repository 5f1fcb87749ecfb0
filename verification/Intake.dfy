/** What one socket's loop makes of the messages it reads: which are answered at
    once, which begin a task or await an acceptance, and what is answered later.
    All of it is counted up here against the messages read so far. */
module Intake {
  import opened Base
  import opened WriterRuns
  import L = Liveness

  /** An acceptance awaited: what it answers if it is a refusal. */
  datatype Acceptance = Acceptance(refusal: Option<Reply>)

  /** An inbound message by its shape, as the loop routes it; `reply` is the
      answer the method table or the loop makes at once. */
  datatype Shape =
    | ControlFrame                    // a ping, a pong
    | CloseFrame
    | Hooked                          // the connection's hook took it
    | Input                           // a call's input took it
    | MalformedInput(reply: Reply)    // a binary input frame too short
    | CallHere(reply: Reply)          // no such method, a sync method, an unsubscription, or no permit left
    | CallTask                        // an async method, run apart
    | CallSubscription(a: Acceptance) // its acceptance is awaited
    | Batch                           // run apart as a whole
    | Notification
    | StrayAnswer                     // an answer nobody here waits for
    | Invalid(reply: Reply)           // any other object, or not JSON at all

  datatype Inbound = Msg(m: Shape) | ProtocolError | OtherError | EndOfStream

  predicate WellMade(m: Shape) {
    match m
    case MalformedInput(r) => r.Made?
    case CallHere(r) => r.Made?
    case Invalid(r) => r.Made?
    case CallSubscription(a) => Answerable(a)
    case _ => true
  }

  predicate Answerable(a: Acceptance) {
    a.refusal.Some? ==> a.refusal.value.Made?
  }

  /** A message that does not end the socket. */
  predicate GoesOn(i: Inbound) {
    i.Msg? && !i.m.CloseFrame?
  }

  /** A message that begins a call, and one whose call stays open. */
  predicate Begins(m: Shape) {
    m.CallHere? || Opens(m)
  }

  predicate Opens(m: Shape) {
    m.CallTask? || m.CallSubscription? || m.Batch?
  }

  /** What a message is answered with at once. */
  function Answered(m: Shape): seq<Reply> {
    match m
    case MalformedInput(r) => [r]
    case CallHere(r) => [r]
    case Invalid(r) => [r]
    case _ => []
  }

  /** The acceptance a message has awaited, and the task it begins. */
  function Awaited(m: Shape): seq<Acceptance> {
    if m.CallSubscription? then [m.a] else []
  }

  function TaskOf(m: Shape): nat {
    if m.CallTask? || m.Batch? then 1 else 0
  }

  /** What a message adds to the life of its socket. */
  function Heard(m: Shape, now: nat): seq<L.Event> {
    [L.Message(now)] + (if Begins(m) then [L.Begin(now, Opens(m))] else [])
  }

  // ------------------------------------------------------- acceptances polled

  /** Those of the acceptances that have resolved, or have not, in their order. */
  function Those(accepting: seq<Acceptance>, resolved: seq<bool>, want: bool): seq<Acceptance>
    requires |accepting| == |resolved|
  {
    if accepting == [] then []
    else
      var n := |accepting| - 1;
      Those(accepting[..n], resolved[..n], want) + (if resolved[n] == want then [accepting[n]] else [])
  }

  function Refusals(accepting: seq<Acceptance>): seq<Reply> {
    if accepting == [] then []
    else
      var n := |accepting| - 1;
      Refusals(accepting[..n]) + Refusal(accepting[n])
  }

  function Refusal(a: Acceptance): seq<Reply> {
    if a.refusal.Some? then [a.refusal.value] else []
  }

  lemma ThoseThen(accepting: seq<Acceptance>, resolved: seq<bool>, a: Acceptance, r: bool, want: bool)
    requires |accepting| == |resolved|
    ensures Those(accepting + [a], resolved + [r], want)
         == if r == want then Those(accepting, resolved, want) + [a] else Those(accepting, resolved, want)
  {
    assert (accepting + [a])[..|accepting|] == accepting && (resolved + [r])[..|resolved|] == resolved;
  }

  lemma RefusalsThen(accepting: seq<Acceptance>, a: Acceptance)
    ensures Refusals(accepting + [a]) == Refusals(accepting) + Refusal(a)
  {
    assert (accepting + [a])[..|accepting|] == accepting;
  }

  /** Some of the acceptances polled: their answers are out, behind what was
      there before, and the rest of them wait. */
  predicate Polled(had: seq<Acceptance>, resolved: seq<bool>, waiting: seq<Acceptance>, before: seq<Reply>,
      out: seq<Reply>) {
    && |had| == |resolved|
    && waiting == Those(had, resolved, false)
    && out == before + Refusals(Those(had, resolved, true))
  }

  lemma PolledNone(before: seq<Reply>)
    ensures Polled([], [], [], before, before)
  {
    assert before + [] == before;
  }

  lemma PolledWaits(had: seq<Acceptance>, resolved: seq<bool>, waiting: seq<Acceptance>, before: seq<Reply>,
      out: seq<Reply>, a: Acceptance)
    requires Polled(had, resolved, waiting, before, out)
    ensures Polled(had + [a], resolved + [false], waiting + [a], before, out)
  {
    ThoseThen(had, resolved, a, false, false);
    ThoseThen(had, resolved, a, false, true);
    hide Those, Refusals;
  }

  lemma PolledResolves(had: seq<Acceptance>, resolved: seq<bool>, waiting: seq<Acceptance>, before: seq<Reply>,
      out: seq<Reply>, a: Acceptance)
    requires Polled(had, resolved, waiting, before, out)
    ensures Polled(had + [a], resolved + [true], waiting, before, out + Refusal(a))
  {
    ThoseThen(had, resolved, a, true, false);
    ThoseThen(had, resolved, a, true, true);
    RefusalsThen(Those(had, resolved, true), a);
    Grouped(before, Refusals(Those(had, resolved, true)), Refusal(a));
    hide Those, Refusals, Refusal;
  }

  lemma Grouped(a: seq<Reply>, b: seq<Reply>, c: seq<Reply>)
    ensures a + b + c == a + (b + c)
  {}

  lemma {:induction false} PolledSize(had: seq<Acceptance>, resolved: seq<bool>, waiting: seq<Acceptance>,
      before: seq<Reply>, out: seq<Reply>)
    requires Polled(had, resolved, waiting, before, out)
    ensures |waiting| <= |had| && |out| + |waiting| <= |before| + |had| && (true in resolved <==> |waiting| < |had|)
    ensures |waiting| == |had| ==> waiting == had && out == before
    ensures forall a | a in waiting :: a in had
  {
    if had != [] {
      var n := |had| - 1;
      var some, which, a, r := had[..n], resolved[..n], had[n], resolved[n];
      assert had == some + [a] && resolved == which + [r];
      var w, o := Those(some, which, false), before + Refusals(Those(some, which, true));
      PolledSize(some, which, w, before, o);
      if r {
        PolledResolves(some, which, w, before, o, a);
      } else {
        PolledWaits(some, which, w, before, o, a);
      }
      hide Those, Refusals;
    }
  }

  /** The acceptance at `i` polled, after those before it. */
  lemma NextPolled(accepting: seq<Acceptance>, i: nat, resolved: seq<bool>, waiting: seq<Acceptance>,
      before: seq<Reply>, out: seq<Reply>)
    requires i < |accepting| && Polled(accepting[..i], resolved, waiting, before, out)
    ensures Polled(accepting[..i + 1], resolved + [false], waiting + [accepting[i]], before, out)
    ensures Polled(accepting[..i + 1], resolved + [true], waiting, before, out + Refusal(accepting[i]))
    ensures waiting + accepting[i..] == waiting + [accepting[i]] + accepting[i + 1..]
  {
    assert accepting[..i + 1] == accepting[..i] + [accepting[i]];
    PolledWaits(accepting[..i], resolved, waiting, before, out, accepting[i]);
    PolledResolves(accepting[..i], resolved, waiting, before, out, accepting[i]);
    hide Polled;
  }

  // --------------------------------------------- what the messages read came to

  /** Why the loop made an answer of its own. */
  datatype Cause = ToMessage | ToRefusal | ToDrop

  /** The answers made for one cause. */
  function For(made: seq<Reply>, causes: seq<Cause>, want: Cause): seq<Reply>
    requires |made| == |causes|
  {
    if made == [] then []
    else
      var n := |made| - 1;
      For(made[..n], causes[..n], want) + (if causes[n] == want then [made[n]] else [])
  }

  lemma ForThen(made: seq<Reply>, causes: seq<Cause>, r: Reply, c: Cause, want: Cause)
    requires |made| == |causes|
    ensures For(made + [r], causes + [c], want) == For(made, causes, want) + (if c == want then [r] else [])
  {
    assert (made + [r])[..|made|] == made && (causes + [c])[..|causes|] == causes;
  }

  /** What messages are answered with at once, the acceptances they have awaited,
      and the tasks they begin. */
  function Replies(read: seq<Inbound>): seq<Reply> {
    if read == [] then []
    else
      var n := |read| - 1;
      Replies(read[..n]) + (if read[n].Msg? then Answered(read[n].m) else [])
  }

  function Begun(read: seq<Inbound>): seq<Acceptance> {
    if read == [] then []
    else
      var n := |read| - 1;
      Begun(read[..n]) + (if read[n].Msg? then Awaited(read[n].m) else [])
  }

  function Tasks(read: seq<Inbound>): nat {
    if read == [] then 0
    else
      var n := |read| - 1;
      Tasks(read[..n]) + (if read[n].Msg? then TaskOf(read[n].m) else 0)
  }

  /** Every message read has had its effect, once: those to be answered at once
      are answered, in their order; those that begin a task have begun it; each
      acceptance is awaited still or is done with, and answered if refused;
      and the rest of the answers are to messages dropped. */
  predicate Effects(read: seq<Inbound>, running: nat, accepting: seq<Acceptance>, done: seq<Acceptance>,
      made: seq<Reply>, causes: seq<Cause>, drops: nat)
  {
    && |causes| == |made|
    && (forall m | m in read :: GoesOn(m))
    && running == Tasks(read)
    && multiset(done) + multiset(accepting) == multiset(Begun(read))
    && For(made, causes, ToMessage) == Replies(read)
    && For(made, causes, ToRefusal) == Refusals(done)
    && |For(made, causes, ToDrop)| == drops
  }

  lemma NoEffects()
    ensures Effects([], 0, [], [], [], [], 0)
  {}

  function Why(rs: seq<Reply>, c: Cause): seq<Cause> {
    if rs == [] then [] else [c]
  }

  /** One reply more, and why. */
  lemma OneMore(made: seq<Reply>, causes: seq<Cause>, rs: seq<Reply>, c: Cause)
    requires |made| == |causes| && |rs| <= 1
    ensures var on := causes + Why(rs, c);
            && |on| == |made + rs|
            && forall want :: For(made + rs, on, want) == For(made, causes, want) + (if c == want then rs else [])
  {
    if rs == [] {
      assert made + rs == made && causes + [] == causes;
      assert forall want :: For(made, causes, want) + [] == For(made, causes, want);
    } else {
      assert rs == [rs[0]];
      forall want
        ensures For(made + rs, causes + [c], want) == For(made, causes, want) + (if c == want then rs else [])
      {
        ForThen(made, causes, rs[0], c, want);
      }
    }
  }

  lemma ReadThen(read: seq<Inbound>, m: Shape)
    ensures Replies(read + [Msg(m)]) == Replies(read) + Answered(m)
    ensures Begun(read + [Msg(m)]) == Begun(read) + Awaited(m)
    ensures Tasks(read + [Msg(m)]) == Tasks(read) + TaskOf(m)
  {
    assert (read + [Msg(m)])[..|read|] == read;
  }

  lemma AllAccounted(done: seq<Acceptance>, accepting: seq<Acceptance>, begun: seq<Acceptance>, more: seq<Acceptance>)
    requires multiset(done) + multiset(accepting) == multiset(begun)
    ensures multiset(done) + multiset(accepting + more) == multiset(begun + more)
  {}

  lemma StillGoesOn(read: seq<Inbound>, m: Shape)
    requires (forall i | i in read :: GoesOn(i)) && !m.CloseFrame?
    ensures forall i | i in read + [Msg(m)] :: GoesOn(i)
  {}

  lemma EffectsOfMessage(read: seq<Inbound>, running: nat, accepting: seq<Acceptance>, done: seq<Acceptance>,
      made: seq<Reply>, causes: seq<Cause>, drops: nat, m: Shape)
    requires Effects(read, running, accepting, done, made, causes, drops) && !m.CloseFrame?
    ensures Effects(read + [Msg(m)], running + TaskOf(m), accepting + Awaited(m), done, made + Answered(m),
                    causes + Why(Answered(m), ToMessage), drops)
  {
    OneMore(made, causes, Answered(m), ToMessage);
    ReadThen(read, m);
    AllAccounted(done, accepting, Begun(read), Awaited(m));
    StillGoesOn(read, m);
    hide For, Replies, Begun, Tasks, Refusals, Answered, Awaited, TaskOf, GoesOn, Why;
  }

  lemma EffectsOfDrop(read: seq<Inbound>, running: nat, accepting: seq<Acceptance>, done: seq<Acceptance>,
      made: seq<Reply>, causes: seq<Cause>, drops: nat, r: Reply)
    requires Effects(read, running, accepting, done, made, causes, drops)
    ensures Effects(read, running, accepting, done, made + [r], causes + [ToDrop], drops + 1)
  {
    ForThen(made, causes, r, ToDrop, ToMessage);
    ForThen(made, causes, r, ToDrop, ToRefusal);
    ForThen(made, causes, r, ToDrop, ToDrop);
    hide For, Replies, Begun, Tasks, Refusals;
  }

  /** The acceptance `a`, resolved, with `front` before it and `rest` after. */
  lemma EffectsOfResolve(read: seq<Inbound>, running: nat, front: seq<Acceptance>, a: Acceptance,
      rest: seq<Acceptance>, done: seq<Acceptance>, made: seq<Reply>, causes: seq<Cause>, drops: nat)
    requires Effects(read, running, front + [a] + rest, done, made, causes, drops)
    ensures Effects(read, running, front + rest, done + [a], made + Refusal(a),
                    causes + Why(Refusal(a), ToRefusal), drops)
  {
    OneMore(made, causes, Refusal(a), ToRefusal);
    RefusalsThen(done, a);
    hide For, Replies, Begun, Tasks, Refusals, Refusal, Why;
  }

  // -------------------------------------------------------- what the watch is told

  datatype Beat = Message | Call(opens: bool)

  /** What a life has of messages and the calls they begin, the times left
      out. */
  function Told(life: seq<L.Event>): seq<Beat> {
    if life == [] then []
    else
      var n := |life| - 1;
      Told(life[..n]) + match life[n] case Message(_) => [Message] case Begin(_, opens) => [Call(opens)] case _ => []
  }

  function Tells(read: seq<Inbound>): seq<Beat> {
    if read == [] then []
    else
      var n := |read| - 1;
      Tells(read[..n]) + (if read[n].Msg? then Beats(read[n].m) else [])
  }

  function Beats(m: Shape): seq<Beat> {
    [Message] + (if Begins(m) then [Call(Opens(m))] else [])
  }

  lemma ToldThen(life: seq<L.Event>, m: Shape, now: nat)
    ensures Told(life + Heard(m, now)) == Told(life) + Beats(m)
  {
    var x := L.Message(now);
    assert (life + [x])[..|life|] == life;
    if Begins(m) {
      var y := L.Begin(now, Opens(m));
      assert life + Heard(m, now) == life + [x] + [y];
      assert (life + [x] + [y])[..|life| + 1] == life + [x];
    } else {
      assert life + Heard(m, now) == life + [x];
    }
  }

  lemma TellsThen(read: seq<Inbound>, m: Shape)
    ensures Tells(read + [Msg(m)]) == Tells(read) + Beats(m)
  {
    assert (read + [Msg(m)])[..|read|] == read;
  }

  /** A tick and a call's end tell nothing of messages. */
  lemma ToldNothing(life: seq<L.Event>, e: L.Event)
    requires e.Tick? || e.Done?
    ensures Told(life + [e]) == Told(life)
  {
    assert (life + [e])[..|life|] == life;
  }
}
