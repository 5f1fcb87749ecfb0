/** The stdio transport: a reader that answers, the streams it lets go, and one
    writer that gathers what they queue and puts it out in batches. */
module Stdio {
  import opened Base
  import opened Text

  const WRITE_BUDGET := 64 * 1024

  /** Each line with its newline. */
  function Lines(ls: seq<string>): string {
    if ls == [] then [] else Lines(ls[..|ls| - 1]) + ls[|ls| - 1] + "\n"
  }

  lemma LinesThen(ls: seq<string>, l: string)
    ensures Lines(ls + [l]) == Lines(ls) + l + "\n"
  {
    assert (ls + [l])[..|ls|] == ls;
  }

  lemma {:induction false} LinesOfBoth(a: seq<string>, b: seq<string>)
    ensures Lines(a + b) == Lines(a) + Lines(b)
  {
    if b == [] {
      assert a + b == a;
    } else {
      var init, l := b[..|b| - 1], b[|b| - 1];
      assert a + b == a + init + [l] && b == init + [l];
      LinesOfBoth(a, init);
      LinesThen(a + init, l);
      LinesThen(init, l);
      hide Lines;
    }
  }

  // ------------------------------------------------------------- what is read back

  predicate NoNewline(ls: seq<string>) {
    forall i | 0 <= i < |ls| :: '\n' !in ls[i]
  }

  /** Split at its newlines, the output is the lines, whole. */
  lemma {:induction false} LinesReadBack(ls: seq<string>)
    requires NoNewline(ls)
    ensures Split(Lines(ls), '\n') == ls + [[]]
  {
    if ls != [] {
      var init, l := ls[..|ls| - 1], ls[|ls| - 1];
      LinesReadBack(init);
      LinesEnd(init, l);
      assert ls == init + [l];
    }
  }

  lemma LinesEnd(init: seq<string>, l: string)
    requires '\n' !in l && Split(Lines(init), '\n') == init + [[]]
    ensures Split(Lines(init + [l]), '\n') == init + [l] + [[]]
  {
    LinesThen(init, l);
    var text := Lines(init);
    assert Split(text + l, '\n') == init + [l] by { EndsInOpenLine(text, l, init); }
    assert text + l + ['\n'] + [] == Lines(init + [l]);
    SplitJoined(text + l, [], '\n');
  }

  /** Text after a last newline is the last part. */
  lemma {:induction false} EndsInOpenLine(text: string, l: string, parts: seq<string>)
    requires '\n' !in l && Split(text, '\n') == parts + [[]]
    ensures Split(text + l, '\n') == parts + [l]
    decreases |text|
  {
    if text == [] {
      SplitOfOne(l, '\n');
      assert text + l == l && |parts| == 0;
    } else {
      SplitCons(text, '\n');
      SplitCons(text + l, '\n');
      assert (text + l)[0] == text[0] && (text + l)[1..] == text[1..] + l;
      var whole, rest := Split(text, '\n'), Split(text[1..], '\n');
      assert whole == parts + [[]] && |rest| > 0;
      if text[0] == '\n' {
        hide Split;
        assert whole[1..] == rest;
        assert parts == [[]] + parts[1..];
        EndsInOpenLine(text[1..], l, parts[1..]);
        Regroup([[]], parts[1..], [l]);
      } else {
        hide Split;
        assert whole[0] != [];
        assert parts[0] == [text[0]] + rest[0];
        var tail := [rest[0]] + parts[1..];
        assert whole[1..] == rest[1..] == parts[1..] + [[]];
        assert rest == [rest[0]] + rest[1..] == tail + [[]];
        EndsInOpenLine(text[1..], l, tail);
        assert Onto(text[0], tail) == parts;
        hide Onto;
        OntoTheFirst(text[0], tail, [l]);
      }
    }
  }

  /** Whole lines in order, and a part of the next. */
  predicate WholeLinesAndAPart(ls: seq<string>, parts: seq<string>, k: nat, part: string)
    requires k <= |ls|
  {
    parts == ls[..k] + [part] && (if k < |ls| then part <= ls[k] else part == [])
  }

  /** An output cut short anywhere is whole lines in order and a part of the next. */
  lemma {:induction false} CutShort(ls: seq<string>, cut: string) returns (k: nat, part: string)
    requires NoNewline(ls) && cut <= Lines(ls)
    ensures k <= |ls| && WholeLinesAndAPart(ls, Split(cut, '\n'), k, part)
    decreases |ls|
  {
    hide Split;
    if cut == Lines(ls) {
      LinesReadBack(ls);
      k, part := |ls|, [];
    } else {
      var n := |ls| - 1;
      var init, l := ls[..n], ls[n];
      assert ls == init + [l];
      LinesThen(init, l);
      hide Lines;
      if |cut| <= |Lines(init)| {
        assert cut <= Lines(init);
        k, part := CutShort(init, cut);
        assert init[..k] == ls[..k];
        assert k == n ==> [] <= l;
      } else {
        k, part := n, cut[|Lines(init)|..];
        assert part <= l && cut == Lines(init) + part;
        LinesReadBack(init);
        EndsInOpenLine(Lines(init), part, init);
      }
    }
  }

  // ------------------------------------------------------- everyone who writes

  /** A line on the queue, and the request it belongs to. */
  datatype Message = Message(request: nat, text: string)

  datatype State = Answering | Live | Ended

  /** A request's own lines, its answer and then its stream's items as they are
      produced, and how many of them are on the queue or past it. */
  datatype Call = Call(made: seq<string>, sent: nat, state: State)

  /** `put` is all that was ever queued and `taken` what the writer took of it:
      in `batches` written whole, and in the `batch` it is gathering, `closed`
      once nothing more is added. `out` is the output. */
  datatype World = World(
    calls: seq<Call>, queue: seq<Message>, put: seq<Message>, taken: seq<Message>,
    batch: seq<Message>, closed: bool, batches: seq<seq<Message>>, out: string, reading: bool, writing: bool)

  datatype Act =
    | Ask(answer: string)               // the reader calls the module, and holds the answer
    | Produce(r: nat, item: string)     // the module makes a stream's item
    | PutAnswer                         // the reader queues the answer, and lets its stream go
    | Forward(r: nat)                   // a stream queues its next item
    | EndStream(r: nat)
    | EndInput                          // and with it every call
    | First                             // the writer takes a line it waited for
    | More                              // one ready after it
    | Close                             // the batch holds what it will
    | Write
    | Stop(part: nat)                   // a write fails, or the writer is given up, so far into the batch

  const START := World([], [], [], [], [], false, [], [], true, true)

  function Texts(log: seq<Message>): seq<string> {
    Map((m: Message) => m.text, log)
  }

  function Joined(batches: seq<seq<Message>>): seq<Message> {
    if batches == [] then [] else Joined(batches[..|batches| - 1]) + batches[|batches| - 1]
  }

  /** Within the budget but for its last line. */
  predicate UnderBudget(batch: seq<Message>) {
    batch != [] && |Lines(Texts(batch[..|batch| - 1]))| < WRITE_BUDGET
  }

  function Gathered(w: World): string {
    Lines(Texts(w.batch))
  }

  predicate Room(bound: nat, w: World) {
    w.writing && |w.queue| < bound
  }

  predicate Enabled(bound: nat, w: World, a: Act) {
    var n := |w.calls|;
    match a
    case Ask(_) => w.reading && (n > 0 ==> !w.calls[n - 1].state.Answering?)
    case Produce(r, _) => r < n && !w.calls[r].state.Ended?
    case PutAnswer => w.reading && Room(bound, w) && n > 0 && w.calls[n - 1].state.Answering?
    case Forward(r) => r < n && Room(bound, w) && w.calls[r].state.Live? && w.calls[r].sent < |w.calls[r].made|
    case EndStream(r) => r < n && w.calls[r].state.Live?
    case EndInput => w.reading
    case First => w.writing && w.batch == [] && w.queue != []
    case More => w.writing && w.batch != [] && !w.closed && w.queue != [] && |Gathered(w)| < WRITE_BUDGET
    case Close => w.writing && w.batch != [] && !w.closed && (w.queue == [] || |Gathered(w)| >= WRITE_BUDGET)
    case Write => w.writing && w.closed
    case Stop(part) => w.writing && (w.closed || !w.reading) && part <= (if w.closed then |Gathered(w)| else 0)
  }

  function Put(w: World, r: nat, state: State): World
    requires r < |w.calls|
  {
    var c := w.calls[r];
    if c.sent >= |c.made| then w else
    var m := Message(r, c.made[c.sent]);
    w.(calls := w.calls[r := c.(sent := c.sent + 1, state := state)], queue := w.queue + [m], put := w.put + [m])
  }

  function Take(w: World): World
    requires w.queue != []
  {
    w.(taken := w.taken + [w.queue[0]], batch := w.batch + [w.queue[0]], queue := w.queue[1..])
  }

  function End(c: Call): Call {
    c.(state := Ended)
  }

  function Next(bound: nat, w: World, a: Act): World
    requires Enabled(bound, w, a)
  {
    match a
    case Ask(answer) => w.(calls := w.calls + [Call([answer], 0, Answering)])
    case Produce(r, item) => w.(calls := w.calls[r := w.calls[r].(made := w.calls[r].made + [item])])
    case PutAnswer => Put(w, |w.calls| - 1, Live)
    case Forward(r) => Put(w, r, Live)
    case EndStream(r) => w.(calls := w.calls[r := End(w.calls[r])])
    case EndInput => w.(reading := false, calls := Map(End, w.calls))
    case First => Take(w)
    case More => Take(w)
    case Close => w.(closed := true)
    case Write => w.(out := w.out + Gathered(w), batches := w.batches + [w.batch], batch := [], closed := false)
    case Stop(part) => w.(out := w.out + (if w.closed then Gathered(w)[..part] else []), writing := false, queue := [])
  }

  /** The lines of one request among those of all. */
  function Of(log: seq<Message>, r: nat): seq<string> {
    if log == [] then []
    else Of(log[..|log| - 1], r) + (if log[|log| - 1].request == r then [log[|log| - 1].text] else [])
  }

  predicate CallOk(w: World, r: nat)
    requires r < |w.calls|
  {
    var c := w.calls[r];
    c.sent <= |c.made| && c.made != [] && (c.state.Answering? ==> c.sent == 0) && Of(w.put, r) == c.made[..c.sent]
  }

  predicate QueueOk(bound: nat, w: World) {
    && |w.queue| <= bound
    && w.taken <= w.put && (w.writing ==> w.put == w.taken + w.queue)
    && (forall i | 0 <= i < |w.put| :: w.put[i].request < |w.calls|)
  }

  /** What was taken is the batches and the one being gathered, each under the
      budget; the output is the batches', and no more than what was taken. */
  predicate WriterOk(w: World) {
    && w.taken == Joined(w.batches) + w.batch
    && (forall i | 0 <= i < |w.batches| :: UnderBudget(w.batches[i]))
    && (w.batch != [] ==> UnderBudget(w.batch)) && (w.closed ==> w.batch != [])
    && Lines(Texts(Joined(w.batches))) <= w.out <= Lines(Texts(w.taken))
    && (w.writing ==> w.out == Lines(Texts(Joined(w.batches))))
  }

  predicate Inv(bound: nat, w: World) {
    QueueOk(bound, w) && WriterOk(w) && forall r | 0 <= r < |w.calls| :: CallOk(w, r)
  }

  lemma OfThen(log: seq<Message>, m: Message, r: nat)
    ensures Of(log + [m], r) == Of(log, r) + (if m.request == r then [m.text] else [])
  {
    assert (log + [m])[..|log|] == log;
  }

  lemma {:induction false} OfNobody(log: seq<Message>, r: nat)
    requires forall i | 0 <= i < |log| :: log[i].request < r
    ensures Of(log, r) == []
  {
    if log != [] {
      OfNobody(log[..|log| - 1], r);
    }
  }

  lemma {:induction false} OfPrefix(a: seq<Message>, b: seq<Message>, r: nat)
    requires a <= b
    ensures Of(a, r) <= Of(b, r)
  {
    if |a| < |b| {
      OfPrefix(a, b[..|b| - 1], r);
    } else {
      assert a == b;
    }
  }

  lemma PutKeepsCalls(w: World, r: nat, state: State, i: nat)
    requires r < |w.calls| && w.calls[r].sent < |w.calls[r].made| && !state.Answering?
    requires i < |w.calls| && CallOk(w, i) && CallOk(w, r)
    ensures CallOk(Put(w, r, state), i)
  {
    var c := w.calls[r];
    OfThen(w.put, Message(r, c.made[c.sent]), i);
    hide Of;
    if i == r {
      assert c.made[..c.sent] + [c.made[c.sent]] == c.made[..c.sent + 1];
    }
  }

  lemma NextCallsOk(bound: nat, w: World, a: Act, i: nat)
    requires Inv(bound, w) && Enabled(bound, w, a) && i < |Next(bound, w, a).calls|
    ensures CallOk(Next(bound, w, a), i)
  {
    hide Of, WriterOk, Lines;
    var v := Next(bound, w, a);
    assert i < |w.calls| ==> CallOk(w, i);
    if a.PutAnswer? || a.Forward? {
      var r := if a.Forward? then a.r else |w.calls| - 1;
      assert CallOk(w, r);
      PutKeepsCalls(w, r, Live, i);
    } else {
      OfNobody(w.put, |w.calls|);
      assert i < |w.calls| ==> v.calls[i].made[..v.calls[i].sent] == w.calls[i].made[..w.calls[i].sent];
    }
  }

  lemma NextQueueOk(bound: nat, w: World, a: Act)
    requires QueueOk(bound, w) && Enabled(bound, w, a)
    ensures QueueOk(bound, Next(bound, w, a))
  {
    hide Lines, Texts;
    var v := Next(bound, w, a);
    assert a.First? || a.More? ==> w.taken + w.queue == w.taken + [w.queue[0]] + w.queue[1..];
    assert v.put != w.put && w.writing ==> v.put == w.taken + w.queue + [v.put[|w.put|]];
  }

  lemma JoinedThen(batches: seq<seq<Message>>, batch: seq<Message>)
    ensures Joined(batches + [batch]) == Joined(batches) + batch
  {
    assert (batches + [batch])[..|batches|] == batches;
  }

  lemma LinesOfTexts(a: seq<Message>, b: seq<Message>)
    ensures Lines(Texts(a + b)) == Lines(Texts(a)) + Lines(Texts(b))
  {
    assert Texts(a + b) == Texts(a) + Texts(b);
    LinesOfBoth(Texts(a), Texts(b));
  }

  lemma TakeWriterOk(w: World)
    requires WriterOk(w) && w.writing && w.queue != [] && !w.closed && |Gathered(w)| < WRITE_BUDGET
    ensures WriterOk(Take(w))
  {
    var v, m := Take(w), w.queue[0];
    assert v.batch[..|v.batch| - 1] == w.batch;
    assert Joined(w.batches) + (w.batch + [m]) == Joined(w.batches) + w.batch + [m];
    LinesOfTexts(Joined(w.batches), v.batch);
    hide Lines, Texts, Joined;
  }

  lemma WriteWriterOk(bound: nat, w: World)
    requires WriterOk(w) && Enabled(bound, w, Write)
    ensures WriterOk(Next(bound, w, Write))
  {
    JoinedThen(w.batches, w.batch);
    LinesOfTexts(Joined(w.batches), w.batch);
    hide UnderBudget, Joined, Lines, Texts;
    assert Joined(w.batches) + w.batch + [] == Joined(w.batches) + w.batch;
  }

  lemma StopWriterOk(bound: nat, w: World, part: nat)
    requires WriterOk(w) && Enabled(bound, w, Stop(part))
    ensures WriterOk(Next(bound, w, Stop(part)))
  {
    LinesOfTexts(Joined(w.batches), w.batch);
    hide UnderBudget, Joined, Lines, Texts;
  }

  lemma NextWriterOk(bound: nat, w: World, a: Act)
    requires WriterOk(w) && Enabled(bound, w, a)
    ensures WriterOk(Next(bound, w, a))
  {
    assert w.batch == [] ==> Gathered(w) == [];
    hide UnderBudget, Joined, Lines, Texts, Gathered;
    if a.First? || a.More? {
      assert w.batch == [] ==> !w.closed;
      TakeWriterOk(w);
    } else if a.Write? {
      WriteWriterOk(bound, w);
    } else if a.Stop? {
      StopWriterOk(bound, w, a.part);
    }
  }

  lemma NextKeepsInv(bound: nat, w: World, a: Act)
    requires Inv(bound, w) && Enabled(bound, w, a)
    ensures Inv(bound, Next(bound, w, a))
  {
    NextQueueOk(bound, w, a);
    NextWriterOk(bound, w, a);
    var v := Next(bound, w, a);
    hide QueueOk, WriterOk, Enabled, Next, CallOk;
    forall r | 0 <= r < |v.calls| ensures CallOk(v, r) {
      NextCallsOk(bound, w, a, r);
    }
  }

  /** A run: the reader, any streams, the writer, in any interleaving. */
  predicate Runs(bound: nat, w: World, acts: seq<Act>)
    decreases |acts|
  {
    acts != [] ==> Enabled(bound, w, acts[0]) && Runs(bound, Next(bound, w, acts[0]), acts[1..])
  }

  function Run(bound: nat, w: World, acts: seq<Act>): World
    requires Runs(bound, w, acts)
    decreases |acts|
  {
    if acts == [] then w else Run(bound, Next(bound, w, acts[0]), acts[1..])
  }

  lemma {:induction false} RunOn(bound: nat, w: World, acts: seq<Act>, a: Act)
    requires Runs(bound, w, acts) && Enabled(bound, Run(bound, w, acts), a)
    ensures Runs(bound, w, acts + [a]) && Run(bound, w, acts + [a]) == Next(bound, Run(bound, w, acts), a)
    decreases |acts|
  {
    hide Enabled, Next;
    if acts == [] {
      assert (acts + [a])[1..] == [];
    } else {
      RunOn(bound, Next(bound, w, acts[0]), acts[1..], a);
      assert (acts + [a])[1..] == acts[1..] + [a];
    }
  }

  lemma {:induction false} RunKeepsInv(bound: nat, w: World, acts: seq<Act>)
    requires Inv(bound, w) && Runs(bound, w, acts)
    ensures Inv(bound, Run(bound, w, acts))
    decreases |acts|
  {
    hide Inv, Enabled, Next;
    if acts != [] {
      NextKeepsInv(bound, w, acts[0]);
      RunKeepsInv(bound, Next(bound, w, acts[0]), acts[1..]);
    }
  }

  lemma StartInv(bound: nat)
    ensures Inv(bound, START)
  {
    assert Joined([]) == [] && Texts([]) == [] && Lines([]) == [];
  }

  // --------------------------------------------------------------- main result

  /** Over every interleaving, with every batch cut wherever it is and a write
      failing wherever it does: the output, split at its newlines, is the first
      `k` lines taken, each whole and once, and a part of the next, which is
      nothing while no write has failed; every line belongs to a request; and of
      each request's lines the output holds, in order, the answer and then the
      first of its items. Each batch written is under the budget but for its last
      line. */
  lemma OutputIsAShuffle(bound: nat, acts: seq<Act>) returns (k: nat, part: string)
    requires Runs(bound, START, acts)
    requires NoNewline(Texts(Run(bound, START, acts).taken))
    ensures var w := Run(bound, START, acts);
            && k <= |w.taken| && WholeLinesAndAPart(Texts(w.taken), Split(w.out, '\n'), k, part)
            && (w.writing ==> part == [] && w.taken[..k] == Joined(w.batches))
            && (forall i | 0 <= i < |w.taken| :: w.taken[i].request < |w.calls|)
            && (forall r | 0 <= r < |w.calls| :: Of(w.taken[..k], r) <= w.calls[r].made)
            && (forall i | 0 <= i < |w.batches| ::
                  var n := |w.batches[i]|; n > 0 && |Lines(Texts(w.batches[i][..n - 1]))| < 65536)
  {
    StartInv(bound);
    RunKeepsInv(bound, START, acts);
    var w := Run(bound, START, acts);
    hide Run, Runs;
    assert forall i | 0 <= i < |w.batches| :: UnderBudget(w.batches[i]);
    if w.writing {
      k, part := |Joined(w.batches)|, [];
      assert w.taken[..k] == Joined(w.batches);
      WholeOutput(w, k);
    } else {
      hide Joined, UnderBudget;
      k, part := CutShort(Texts(w.taken), w.out);
    }
    hide Joined, UnderBudget, Lines, Split, WholeLinesAndAPart, NoNewline;
    forall r | 0 <= r < |w.calls| ensures Of(w.taken[..k], r) <= w.calls[r].made {
      assert CallOk(w, r);
      OfPrefix(w.taken[..k], w.put, r);
    }
  }

  lemma WholeOutput(w: World, k: nat)
    requires k <= |w.taken| && w.out == Lines(Texts(w.taken[..k])) && NoNewline(Texts(w.taken))
    ensures WholeLinesAndAPart(Texts(w.taken), Split(w.out, '\n'), k, [])
  {
    assert Texts(w.taken[..k]) == Texts(w.taken)[..k];
    LinesReadBack(Texts(w.taken[..k]));
    hide Lines, Split;
  }

  /** Once the writer has nothing left to take or write, all that was queued is
      out: of each request, every line its streams got to queue. */
  lemma AllQueuedIsOut(bound: nat, acts: seq<Act>, r: nat)
    requires Runs(bound, START, acts)
    requires var w := Run(bound, START, acts); w.writing && w.queue == [] && w.batch == [] && r < |w.calls|
    ensures var w := Run(bound, START, acts);
            w.out == Lines(Texts(w.put)) && |Of(w.taken, r)| == w.calls[r].sent
  {
    StartInv(bound);
    RunKeepsInv(bound, START, acts);
    var w := Run(bound, START, acts);
    assert CallOk(w, r);
    hide Of, Lines, Joined, Run, Runs;
    assert w.taken == w.put && w.taken == Joined(w.batches);
  }

  lemma EndedStays(bound: nat, w: World, a: Act)
    requires Enabled(bound, w, a) && AllEnded(w)
    ensures AllEnded(Next(bound, w, a)) && Next(bound, w, a).put == w.put
  {}

  predicate AllEnded(w: World) {
    !w.reading && forall i | 0 <= i < |w.calls| :: w.calls[i].state.Ended?
  }

  lemma {:induction false} NothingMore(bound: nat, w: World, acts: seq<Act>)
    requires Runs(bound, w, acts) && AllEnded(w)
    ensures Run(bound, w, acts).put == w.put && !Run(bound, w, acts).reading
    decreases |acts|
  {
    hide Enabled, Next;
    if acts != [] {
      EndedStays(bound, w, acts[0]);
      NothingMore(bound, Next(bound, w, acts[0]), acts[1..]);
    }
  }

  /** Once the input is over no stream goes on: whatever else runs, nothing is
      queued any more. */
  lemma EndOfInputEndsEveryCall(bound: nat, w: World, acts: seq<Act>)
    requires Runs(bound, w, [EndInput] + acts)
    ensures Run(bound, w, [EndInput] + acts).put == w.put
  {
    assert ([EndInput] + acts)[1..] == acts;
    NothingMore(bound, Next(bound, w, EndInput), acts);
  }

  // ----------------------------------------------------------------- the writer

  /** The transport around the writer: what its reader, module and streams do
      next, in some order, and an output that may fail once it has taken so many
      bytes. Every step taken is one of a run. */
  class Transport {
    const bound: nat
    const takes: Option<nat>
    var w: World
    var coming: seq<Act>
    ghost var acts: seq<Act>

    ghost predicate Valid()
      reads this`w, this`acts, this`coming
    {
      && Runs(bound, START, acts) && w == Run(bound, START, acts)
      && forall i | 0 <= i < |coming| :: !Writers(coming[i])
    }

    static predicate Writers(a: Act) {
      a.First? || a.More? || a.Close? || a.Write? || a.Stop?
    }

    ghost function Work(): nat
      reads this`w, this`coming
    {
      2 * |coming| + |w.queue|
    }

    constructor (bound: nat, takes: Option<nat>, coming: seq<Act>)
      requires forall i | 0 <= i < |coming| :: !Writers(coming[i])
      ensures Valid() && w == START && acts == [] && this.coming == coming && this.bound == bound && this.takes == takes
    {
      this.bound, this.takes, this.coming, w, acts := bound, takes, coming, START, [];
    }

    method Step(a: Act)
      requires Valid() && Enabled(bound, w, a)
      modifies this`w, this`acts
      ensures Valid() && w == Next(bound, old(w), a) && acts == old(acts) + [a]
    {
      RunOn(bound, START, acts, a);
      hide Enabled, Next, Run, Runs;
      w, acts := Next(bound, w, a), acts + [a];
    }

    /** Whoever is next to queue a line has to wait for room. */
    predicate Waits()
      reads this`w, this`coming
    {
      coming != [] && (coming[0].PutAnswer? || coming[0].Forward?) && |w.queue| >= bound && w.queue != []
    }

    /** The next thing the others do; what can never be done is given up. */
    method Advance()
      requires Valid() && coming != [] && !Waits()
      modifies this`w, this`acts, this`coming
      ensures Valid() && Work() < old(Work()) && SameWriter(old(w), w) && |w.queue| >= |old(w).queue|
      ensures w == (if Enabled(bound, old(w), old(coming)[0]) then Next(bound, old(w), old(coming)[0]) else old(w))
      ensures old(acts) <= acts
    {
      var a := coming[0];
      if Enabled(bound, w, a) {
        Step(a);
      }
      hide Run, Runs, Enabled, Next, SameWriter;
      coming := coming[1..];
    }

    /** The writer's own state. */
    predicate SameWriter(w: World, v: World) {
      && v.taken == w.taken && v.batch == w.batch && v.closed == w.closed && v.batches == w.batches
      && v.out == w.out && v.writing == w.writing
    }

    method Meanwhile()
      requires Valid()
      modifies this`w, this`acts, this`coming
      ensures Valid() && Work() <= old(Work()) && SameWriter(old(w), w)
      ensures old(acts) <= acts
    {
      hide Run, Runs;
      var k: nat := *;
      while k > 0 && coming != [] && !Waits()
        invariant Valid() && Work() <= old(Work()) && SameWriter(old(w), w) && old(acts) <= acts
      {
        Advance();
        k := k - 1;
      }
    }

    /** Waits for a line; `None` once nobody is left to queue one. */
    method Recv() returns (line: Option<string>)
      requires Valid() && w.writing && w.batch == [] && !w.closed
      modifies this`w, this`acts, this`coming
      ensures Valid() && w.writing && !w.closed && w.out == old(w.out) && old(acts) <= acts
      ensures line.None? ==> coming == [] && w.queue == [] && w.batch == []
      ensures line.Some? ==> |w.batch| == 1 && w.batch[0].text == line.value && Work() < old(Work())
    {
      hide Run, Runs;
      Meanwhile();
      while w.queue == [] && coming != []
        invariant Valid() && SameWriter(old(w), w) && Work() <= old(Work()) && old(acts) <= acts
        decreases |coming|
      {
        Advance();
      }
      if w.queue == [] {
        return None;
      }
      line := Some(w.queue[0].text);
      Step(First);
    }

    /** A line if one is ready. */
    method TryRecv() returns (line: Option<string>)
      requires Valid() && w.writing && w.batch != [] && !w.closed && |Gathered(w)| < WRITE_BUDGET
      modifies this`w, this`acts, this`coming
      ensures Valid() && w.writing && !w.closed && w.out == old(w.out) && old(acts) <= acts
      ensures line.None? ==> w.queue == [] && w.batch == old(w.batch) && Work() <= old(Work())
      ensures line.Some? ==>
                |w.batch| > 0 && w.batch[..|w.batch| - 1] == old(w.batch) && w.batch[|w.batch| - 1].text == line.value
      ensures line.Some? ==> Work() < old(Work())
    {
      hide Run, Runs, Gathered;
      Meanwhile();
      SameGathered(old(w), w);
      if w.queue == [] {
        return None;
      }
      line := Some(w.queue[0].text);
      Step(More);
    }

    lemma SameGathered(w: World, v: World)
      requires SameWriter(w, v)
      ensures Gathered(w) == Gathered(v)
    {}

    /** The whole buffer, or as much of it as the output takes. */
    method WriteAll(buf: string) returns (ok: bool)
      requires Valid() && w.writing && w.closed && buf == Gathered(w)
      modifies this`w, this`acts, this`coming
      ensures Valid() && Work() <= old(Work()) && old(acts) <= acts
      ensures ok ==> w.writing && w.batch == [] && !w.closed && w.out == old(w.out) + buf
      ensures !ok ==> takes.Some? && !w.writing && w.out <= old(w.out) + buf
      ensures !ok ==> |w.out| >= takes.value && |Lines(Texts(w.taken))| > takes.value
    {
      hide Run, Runs, Gathered, Lines, Texts;
      Meanwhile();
      OutAndBatch();
      SameGathered(old(w), w);
      if takes.None? || |w.out| + |buf| <= takes.value {
        Step(Write);
        return true;
      }
      var part := if takes.value < |w.out| then 0 else takes.value - |w.out|;
      Step(Stop(part));
      return false;
    }

    /** What has been taken is what is out and what is gathered. */
    lemma OutAndBatch()
      requires Valid() && w.writing
      ensures Lines(Texts(w.taken)) == w.out + Gathered(w)
    {
      StartInv(bound);
      RunKeepsInv(bound, START, acts);
      LinesOfTexts(Joined(w.batches), w.batch);
      hide Run, Runs, Lines, Texts, Joined;
    }

    /** One batch: a line waited for, and every line ready after it, up to the
        budget. */
    method Gather() returns (buf: string)
      requires Valid() && w.writing && w.batch == [] && !w.closed
      modifies this`w, this`acts, this`coming
      ensures Valid() && w.writing && w.out == old(w.out) && buf == Gathered(w) && old(acts) <= acts
      ensures buf == [] ==> coming == [] && w.queue == [] && w.batch == [] && !w.closed
      ensures buf != [] ==> w.closed && Work() < old(Work()) && (w.queue == [] || |buf| >= WRITE_BUDGET)
    {
      hide Run, Runs;
      buf := [];
      var first := Recv();
      if first.None? {
        return;
      }
      GatheredOne(w);
      buf := first.value + "\n";
      hide Gathered;
      while |buf| < WRITE_BUDGET
        invariant Valid() && w.writing && !w.closed && w.batch != [] && buf == Gathered(w) && buf != []
        invariant w.out == old(w.out) && Work() < old(Work()) && old(acts) <= acts
        decreases Work()
      {
        ghost var before := w;
        var more := TryRecv();
        if more.None? {
          break;
        }
        GatheredMore(before, w);
        buf := buf + more.value + "\n";
      }
      CloseBatch();
    }

    /** Nothing more is added to the batch. */
    method CloseBatch()
      requires Valid() && w.writing && !w.closed && w.batch != [] && (w.queue == [] || |Gathered(w)| >= WRITE_BUDGET)
      modifies this`w, this`acts
      ensures Valid() && w == old(w).(closed := true) && old(acts) <= acts
    {
      hide Run, Runs;
      Step(Close);
    }

    lemma GatheredOne(w: World)
      requires |w.batch| == 1
      ensures Gathered(w) == w.batch[0].text + "\n"
    {
      LinesThen([], w.batch[0].text);
      assert Texts(w.batch) == [] + [w.batch[0].text];
    }

    lemma GatheredMore(w: World, v: World)
      requires v.batch != [] && v.batch[..|v.batch| - 1] == w.batch
      ensures Gathered(v) == Gathered(w) + v.batch[|v.batch| - 1].text + "\n"
    {
      var n := |v.batch| - 1;
      assert Texts(v.batch) == Texts(w.batch) + [v.batch[n].text];
      LinesThen(Texts(w.batch), v.batch[n].text);
    }

    /** Batch after batch goes out, until nobody is left to queue a line and all
        that was queued is out, or a write fails: and one fails only when the
        output has taken all it will, and the lines taken are more. */
    method WriteLines() returns (ok: bool)
      requires Valid() && w.writing && w.batch == [] && !w.closed
      modifies this`w, this`acts, this`coming
      ensures Valid() && old(acts) <= acts
      ensures ok ==> w.writing && coming == [] && w.queue == [] && w.batch == [] && w.out == Lines(Texts(w.put))
      ensures !ok ==>
                !w.writing && takes.Some? && |w.out| >= takes.value && |Lines(Texts(w.taken))| > takes.value
    {
      hide Run, Runs, Gathered, Lines, Texts;
      while true
        invariant Valid() && w.writing && w.batch == [] && !w.closed && old(acts) <= acts
        decreases Work()
      {
        var buf := Gather();
        if buf == [] {
          AllOut();
          return true;
        }
        var wrote := WriteAll(buf);
        if !wrote {
          return false;
        }
      }
    }

    lemma AllOut()
      requires Valid() && w.writing && w.queue == [] && w.batch == []
      ensures w.out == Lines(Texts(w.put))
    {
      StartInv(bound);
      RunKeepsInv(bound, START, acts);
      hide Run, Runs, Lines;
      assert w.taken == w.put && w.taken == Joined(w.batches);
    }
  }
}
