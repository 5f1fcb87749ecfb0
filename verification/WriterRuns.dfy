/** The writer of one socket as a transition system: the producers put frames
    on three queues at any moment, the loop makes answers of its own, and the
    writer hands frames to the socket one at a time. What holds after every
    step holds in every run, however the steps interleave. */
module WriterRuns {
  import opened Base

  /** A frame put by this end of the socket itself. */
  datatype OwnMsg = OwnMsg(id: nat, size: nat)

  /** A frame of the method table's; `answers` names the call whose
      subscription it answers. */
  datatype TableMsg = TableMsg(answers: Option<nat>, size: nat)

  /** A call's frame: part 0 is its first, the one that is fenced. */
  datatype CallFrame = CallFrame(call: nat, part: nat, size: nat)

  /** What the loop puts in its own deque: a ping, or an answer it made. */
  datatype Reply = Ping | Made(id: nat, size: nat)

  /** A frame as the socket is handed it, with where it came from. */
  datatype Sent = FromLoop(r: Reply) | FromOwn(o: OwnMsg) | FromTable(t: TableMsg) | FromFrames(f: CallFrame)

  datatype Queue = Own | Table | Frames

  /** What a poll of the socket answers. */
  datatype SocketSays = Ready | Waits | Broken

  /** `socket` answers the polls of the socket, each by its number, and `falsely`
      says of the polls of the queues which come back empty-handed whatever the
      queue holds. */
  datatype Setting = Setting(budget: nat, queue: nat, socket: nat -> SocketSays, falsely: nat -> bool)

  /** `put...`, `made` and `sent` record everything put, made and handed over
      so far; the rest is the loop's own state. `asked` counts the queues asked
      so far in the turn being taken; `flushedAt` is how much had been handed
      over at the last completed flush; `asks` and `polled` count the polls of
      the socket and of the queues, and `heard` the messages read. The socket is
      `ready` once it has said so, for one frame. */
  datatype Writer = Writer(
    out: seq<Reply>, own: seq<OwnMsg>, table: seq<TableMsg>, frames: seq<CallFrame>,
    fenced: Option<CallFrame>, turn: nat, asked: nat, gathered: nat, unflushed: bool,
    putOwn: seq<OwnMsg>, putTable: seq<TableMsg>, putFrames: seq<CallFrame>, made: seq<Reply>,
    sent: seq<Sent>, flushedAt: nat, asks: nat, polled: nat, heard: nat, ready: bool)

  const FRESH := Writer([], [], [], [], None, 0, 0, 0, false, [], [], [], [], [], 0, 0, 0, 0, false)

  datatype Act =
    | PutOwn(o: OwnMsg) | PutTable(t: TableMsg) | PutFrame(f: CallFrame)   // a producer
    | Respond(r: Reply) | PushPing                                        // the loop's own
    | HandReply                             // the deque's front
    | HandBehindFence                       // the table's front, ahead of the fenced frame
    | HandFenced                            // the fenced frame, the table empty
    | Miss(falsely: bool, q: Queue)         // a queue asked answers Pending
    | PassOver                              // this side's own queue is closed
    | HandTurn                              // a queue asked gives its front
    | Fence                                 // the frames' queue gives a first frame
    | Rest                                  // all three asked in vain
    | PollReady(a: SocketSays)                  // the socket is asked to take a frame
    | Flush(a: SocketSays)                      // and to take all it was handed
    | Hear                                  // a message is read

  function Size(s: Sent): nat {
    match s
    case FromLoop(r) => if r.Made? then r.size else 0
    case FromOwn(o) => o.size
    case FromTable(t) => t.size
    case FromFrames(f) => f.size
  }

  function Asking(w: Writer): Queue {
    var at := (w.turn + w.asked) % 3;
    if at == 0 then Own else if at == 1 then Table else Frames
  }

  predicate Waiting(w: Writer, q: Queue) {
    match q
    case Own => w.own != []
    case Table => w.table != []
    case Frames => w.frames != []
  }

  predicate HasAnswer(ts: seq<TableMsg>, call: nat) {
    exists i :: 0 <= i < |ts| && ts[i].answers == Some(call)
  }

  predicate HasPart(fs: seq<CallFrame>, call: nat, part: nat) {
    exists i :: 0 <= i < |fs| && fs[i].call == call && fs[i].part == part
  }

  /** A call answers its subscription before its first frame, and sends its
      frames one after another. */
  predicate InOrder(f: CallFrame, ts: seq<TableMsg>, fs: seq<CallFrame>) {
    if f.part == 0 then HasAnswer(ts, f.call) else HasPart(fs, f.call, f.part - 1)
  }

  /** The writer takes a frame only within its budget, and its own answers
      first, then what the fence holds back, then the queues by turns. */
  predicate CanHand(l: Setting, w: Writer) {
    w.gathered < l.budget && w.ready
  }

  predicate Turning(l: Setting, w: Writer) {
    CanHand(l, w) && w.out == [] && w.fenced.None? && w.asked < 3
  }

  /** The queue asked has a frame, and does not answer falsely. */
  predicate Gives(l: Setting, w: Writer) {
    Turning(l, w) && Waiting(w, Asking(w)) && !l.falsely(w.polled)
  }

  predicate Enabled(l: Setting, w: Writer, a: Act) {
    match a
    case PutOwn(_) => |w.own| < l.queue
    case PutTable(_) => |w.table| < l.queue
    case PutFrame(f) => |w.frames| < l.queue && InOrder(f, w.putTable, w.putFrames)
    case Respond(r) => r.Made? && w.asked == 0
    case PushPing => w.asked == 0
    case HandReply => CanHand(l, w) && w.out != [] && w.asked == 0
    case HandBehindFence => CanHand(l, w) && w.out == [] && w.fenced.Some? && w.table != []
    case HandFenced => CanHand(l, w) && w.out == [] && w.fenced.Some? && w.table == []
    case Miss(falsely, q) =>
      Turning(l, w) && q == Asking(w) && falsely == l.falsely(w.polled) && (falsely || !Waiting(w, q))
    case PassOver => Turning(l, w) && Asking(w).Own? && w.own == []
    case HandTurn => Gives(l, w) && (Asking(w).Frames? ==> w.frames[0].part > 0)
    case Fence => Gives(l, w) && Asking(w).Frames? && w.frames[0].part == 0
    case Rest => w.asked == 3
    case PollReady(a) => w.asked == 0 && a == l.socket(w.asks)
    case Flush(a) => w.asked == 0 && w.unflushed && a == l.socket(w.asks)
    case Hear => true
  }

  function Hand(w: Writer, s: Sent): Writer {
    w.(sent := w.sent + [s], gathered := w.gathered + Size(s), unflushed := true, ready := false)
  }

  function NextTurn(w: Writer): Writer {
    w.(turn := (w.turn + w.asked + 1) % 3, asked := 0, polled := w.polled + 1)
  }

  function Next(l: Setting, w: Writer, a: Act): Writer
    requires Enabled(l, w, a)
  {
    match a
    case PutOwn(o) => w.(own := w.own + [o], putOwn := w.putOwn + [o])
    case PutTable(t) => w.(table := w.table + [t], putTable := w.putTable + [t])
    case PutFrame(f) => w.(frames := w.frames + [f], putFrames := w.putFrames + [f])
    case Respond(r) => w.(out := w.out + [r], made := w.made + [r])
    case PushPing => w.(out := [Ping] + w.out)
    case HandReply => Hand(w.(out := w.out[1..]), FromLoop(w.out[0]))
    case HandBehindFence => Hand(w.(table := w.table[1..]), FromTable(w.table[0]))
    case HandFenced => Hand(w.(fenced := None), FromFrames(w.fenced.value))
    case Miss(_, _) => w.(asked := w.asked + 1, polled := w.polled + 1)
    case PassOver => w.(asked := w.asked + 1)
    case HandTurn =>
      (match Asking(w)
       case Own => Hand(NextTurn(w.(own := w.own[1..])), FromOwn(w.own[0]))
       case Table => Hand(NextTurn(w.(table := w.table[1..])), FromTable(w.table[0]))
       case Frames => Hand(NextTurn(w.(frames := w.frames[1..])), FromFrames(w.frames[0])))
    case Fence => NextTurn(w.(frames := w.frames[1..], fenced := Some(w.frames[0])))
    case Rest => w.(asked := 0)
    case PollReady(a) => w.(asks := w.asks + 1, ready := a.Ready?)
    case Flush(a) =>
      if a.Ready? then w.(unflushed := false, gathered := 0, flushedAt := |w.sent|, asks := w.asks + 1)
      else w.(asks := w.asks + 1)
    case Hear => w.(heard := w.heard + 1)
  }

  /** A run: each act enabled where it is taken. */
  predicate Runs(l: Setting, w: Writer, acts: seq<Act>)
    decreases |acts|
  {
    acts == [] || (Enabled(l, w, acts[0]) && Runs(l, Next(l, w, acts[0]), acts[1..]))
  }

  function Run(l: Setting, w: Writer, acts: seq<Act>): Writer
    requires Runs(l, w, acts)
    decreases |acts|
  {
    if acts == [] then w else Run(l, Next(l, w, acts[0]), acts[1..])
  }

  lemma {:induction false} RunOn(l: Setting, w: Writer, acts: seq<Act>, a: Act)
    requires Runs(l, w, acts) && Enabled(l, Run(l, w, acts), a)
    ensures Runs(l, w, acts + [a]) && Run(l, w, acts + [a]) == Next(l, Run(l, w, acts), a)
    decreases |acts|
  {
    if acts == [] {
      assert (acts + [a])[1..] == [];
    } else {
      RunOn(l, Next(l, w, acts[0]), acts[1..], a);
      assert (acts + [a])[1..] == acts[1..] + [a];
    }
  }

  /** What has been handed over stays so. */
  lemma {:induction false} SentOnlyGrows(l: Setting, w: Writer, acts: seq<Act>, k: nat)
    requires Runs(l, w, acts) && k <= |acts|
    ensures Runs(l, w, acts[..k]) && Run(l, w, acts[..k]).sent <= Run(l, w, acts).sent
    decreases |acts|
  {
    if acts != [] {
      var v := Next(l, w, acts[0]);
      SentOnlyGrows(l, v, acts[1..], if k == 0 then 0 else k - 1);
      if k == 0 {
        assert acts[1..][..0] == [];
      } else {
        assert acts[..k][1..] == acts[1..][..k - 1];
      }
    }
  }

  // ------------------------------------------------------ what came from where

  function OwnOf(s: seq<Sent>): seq<OwnMsg> {
    if s == [] then [] else OwnOf(s[..|s| - 1]) + (if s[|s| - 1].FromOwn? then [s[|s| - 1].o] else [])
  }

  function TableOf(s: seq<Sent>): seq<TableMsg> {
    if s == [] then [] else TableOf(s[..|s| - 1]) + (if s[|s| - 1].FromTable? then [s[|s| - 1].t] else [])
  }

  function FramesOf(s: seq<Sent>): seq<CallFrame> {
    if s == [] then [] else FramesOf(s[..|s| - 1]) + (if s[|s| - 1].FromFrames? then [s[|s| - 1].f] else [])
  }

  /** The answers among the deque's frames, pings left out. */
  function AnswersOf(s: seq<Sent>): seq<Reply> {
    if s == [] then []
    else AnswersOf(s[..|s| - 1]) + (if s[|s| - 1].FromLoop? && s[|s| - 1].r.Made? then [s[|s| - 1].r] else [])
  }

  function Answers(rs: seq<Reply>): seq<Reply> {
    if rs == [] then [] else (if rs[0].Made? then [rs[0]] else []) + Answers(rs[1..])
  }

  function Bytes(s: seq<Sent>): nat {
    if s == [] then 0 else Bytes(s[..|s| - 1]) + Size(s[|s| - 1])
  }

  lemma {:induction false} AnswersAppend(rs: seq<Reply>, r: Reply)
    ensures Answers(rs + [r]) == Answers(rs) + (if r.Made? then [r] else [])
  {
    if rs == [] {
      assert (rs + [r])[1..] == [];
    } else {
      AnswersAppend(rs[1..], r);
      assert (rs + [r])[1..] == rs[1..] + [r];
    }
  }

  lemma HandedOne(s: seq<Sent>, x: Sent)
    ensures OwnOf(s + [x]) == OwnOf(s) + (if x.FromOwn? then [x.o] else [])
    ensures TableOf(s + [x]) == TableOf(s) + (if x.FromTable? then [x.t] else [])
    ensures FramesOf(s + [x]) == FramesOf(s) + (if x.FromFrames? then [x.f] else [])
    ensures AnswersOf(s + [x]) == AnswersOf(s) + (if x.FromLoop? && x.r.Made? then [x.r] else [])
    ensures Bytes(s + [x]) == Bytes(s) + Size(x)
  {
    assert (s + [x])[..|s|] == s;
  }

  // ------------------------------------------------------------ the invariants

  function FencedPart(w: Writer): seq<CallFrame> {
    if w.fenced.Some? then [w.fenced.value] else []
  }

  /** Every frame put or made is handed over already, or waits: nothing is
      lost, repeated or out of its queue's order. The fenced frame counts
      once. */
  predicate Conserved(w: Writer) {
    && w.putOwn == OwnOf(w.sent) + w.own
    && w.putTable == TableOf(w.sent) + w.table
    && w.putFrames == FramesOf(w.sent) + FencedPart(w) + w.frames
    && w.made == AnswersOf(w.sent) + Answers(w.out)
  }

  /** Each frame put came after what its call owed first. */
  predicate PutInOrder(ts: seq<TableMsg>, fs: seq<CallFrame>) {
    forall j | 0 <= j < |fs| :: InOrder(fs[j], ts, fs[..j])
  }

  /** The socket has had a call's answer before any frame of the call. */
  predicate FenceKept(s: seq<Sent>) {
    forall j | 0 <= j < |s| && s[j].FromFrames? :: HasAnswer(TableOf(s[..j]), s[j].f.call)
  }

  predicate Metered(l: Setting, w: Writer) {
    && w.flushedAt <= |w.sent|
    && w.gathered == Bytes(w.sent[w.flushedAt..])
    && (w.unflushed <==> w.flushedAt < |w.sent|)
    && (w.unflushed ==> w.gathered < l.budget + Size(w.sent[|w.sent| - 1]))
  }

  predicate Tidy(w: Writer) {
    && w.turn < 3 && w.asked <= 3
    && (w.asked > 0 ==> w.fenced.None? && w.out == [])
    && (w.fenced.Some? ==> w.fenced.value.part == 0)
  }

  predicate Inv(l: Setting, w: Writer) {
    && Conserved(w) && PutInOrder(w.putTable, w.putFrames) && FenceKept(w.sent) && Metered(l, w) && Tidy(w)
    && |w.own| <= l.queue && |w.table| <= l.queue && |w.frames| <= l.queue
  }

  lemma PutKeepsOrder(ts: seq<TableMsg>, t: TableMsg, fs: seq<CallFrame>)
    requires PutInOrder(ts, fs)
    ensures PutInOrder(ts + [t], fs)
  {
    forall j | 0 <= j < |fs|
      ensures InOrder(fs[j], ts + [t], fs[..j])
    {
      if fs[j].part == 0 {
        var i :| 0 <= i < |ts| && ts[i].answers == Some(fs[j].call);
        assert (ts + [t])[i].answers == Some(fs[j].call);
      }
    }
  }

  lemma FramePutInOrder(ts: seq<TableMsg>, fs: seq<CallFrame>, f: CallFrame)
    requires PutInOrder(ts, fs) && InOrder(f, ts, fs)
    ensures PutInOrder(ts, fs + [f])
  {
    forall j | 0 <= j < |fs + [f]|
      ensures InOrder((fs + [f])[j], ts, (fs + [f])[..j])
    {
      assert (fs + [f])[..j] == fs[..j];
      assert fs[..|fs|] == fs;
    }
  }

  lemma FenceKeptOn(s: seq<Sent>, x: Sent)
    requires FenceKept(s) && (x.FromFrames? ==> HasAnswer(TableOf(s), x.f.call))
    ensures FenceKept(s + [x])
  {
    forall j | 0 <= j < |s + [x]| && (s + [x])[j].FromFrames?
      ensures HasAnswer(TableOf((s + [x])[..j]), (s + [x])[j].f.call)
    {
      assert (s + [x])[..j] == s[..j];
      assert s[..|s|] == s;
    }
  }

  /** A frame that is next out of the frames' queue finds its call answered:
      a first frame once the table is empty, a later one always. */
  lemma AnsweredBefore(l: Setting, w: Writer, f: CallFrame)
    requires Inv(l, w) && FramesOf(w.sent) + [f] <= w.putFrames
    requires f.part == 0 ==> w.table == []
    ensures HasAnswer(TableOf(w.sent), f.call)
  {
    var had := FramesOf(w.sent);
    var k := |had|;
    assert w.putFrames[k] == f && w.putFrames[..k] == had;
    assert InOrder(w.putFrames[k], w.putTable, w.putFrames[..k]);
    if f.part > 0 {
      var i :| 0 <= i < |had| && had[i].call == f.call && had[i].part == f.part - 1;
      PartSentAnswered(w.sent, i);
    }
  }

  /** A call with a frame handed over has had its answer handed over. */
  lemma {:induction false} PartSentAnswered(s: seq<Sent>, i: nat)
    requires FenceKept(s) && i < |FramesOf(s)|
    ensures HasAnswer(TableOf(s), FramesOf(s)[i].call)
  {
    var front, last := s[..|s| - 1], s[|s| - 1];
    if i < |FramesOf(front)| {
      assert FenceKept(front) by {
        forall j | 0 <= j < |front| && front[j].FromFrames?
          ensures HasAnswer(TableOf(front[..j]), front[j].f.call)
        {
          assert front[..j] == s[..j] && front[j] == s[j];
        }
      }
      PartSentAnswered(front, i);
    }
    var t := TableOf(front);
    var n :| 0 <= n < |t| && t[n].answers == Some(FramesOf(s)[i].call);
    assert TableOf(s)[n] == t[n];
  }

  lemma HandKeepsMeter(l: Setting, w: Writer, x: Sent)
    requires Metered(l, w) && w.gathered < l.budget
    ensures Metered(l, Hand(w, x))
  {
    var s := w.sent + [x];
    HandedOne(w.sent[w.flushedAt..], x);
    assert s[w.flushedAt..] == w.sent[w.flushedAt..] + [x];
  }

  lemma PutOwnKeepsInv(l: Setting, w: Writer, o: OwnMsg)
    requires Inv(l, w) && Enabled(l, w, PutOwn(o))
    ensures Inv(l, Next(l, w, PutOwn(o)))
  {
    hide OwnOf, TableOf, FramesOf, AnswersOf, Answers, PutInOrder, FenceKept, Bytes;
    assert OwnOf(w.sent) + (w.own + [o]) == OwnOf(w.sent) + w.own + [o];
  }

  lemma PutTableKeepsInv(l: Setting, w: Writer, t: TableMsg)
    requires Inv(l, w) && Enabled(l, w, PutTable(t))
    ensures Inv(l, Next(l, w, PutTable(t)))
  {
    hide OwnOf, TableOf, FramesOf, AnswersOf, Answers, PutInOrder, FenceKept, Bytes;
    assert TableOf(w.sent) + (w.table + [t]) == TableOf(w.sent) + w.table + [t];
    PutKeepsOrder(w.putTable, t, w.putFrames);
  }

  lemma PutFrameKeepsInv(l: Setting, w: Writer, f: CallFrame)
    requires Inv(l, w) && Enabled(l, w, PutFrame(f))
    ensures Inv(l, Next(l, w, PutFrame(f)))
  {
    hide OwnOf, TableOf, FramesOf, AnswersOf, Answers, PutInOrder, FenceKept, Bytes;
    var given := FramesOf(w.sent) + FencedPart(w);
    assert given + (w.frames + [f]) == given + w.frames + [f];
    FramePutInOrder(w.putTable, w.putFrames, f);
  }

  lemma RespondKeepsInv(l: Setting, w: Writer, r: Reply)
    requires Inv(l, w) && Enabled(l, w, Respond(r))
    ensures Inv(l, Next(l, w, Respond(r)))
  {
    hide OwnOf, TableOf, FramesOf, AnswersOf, Answers, PutInOrder, FenceKept, Bytes;
    AnswersAppend(w.out, r);
    assert AnswersOf(w.sent) + (Answers(w.out) + [r]) == AnswersOf(w.sent) + Answers(w.out) + [r];
  }

  lemma PingKeepsInv(l: Setting, w: Writer)
    requires Inv(l, w) && Enabled(l, w, PushPing)
    ensures Inv(l, Next(l, w, PushPing))
  {
    assert Answers([Ping] + w.out) == Answers(w.out) by {
      assert ([Ping] + w.out)[1..] == w.out;
    }
    hide OwnOf, TableOf, FramesOf, AnswersOf, Answers, PutInOrder, FenceKept, Bytes;
  }

  lemma FenceKeepsInv(l: Setting, w: Writer)
    requires Inv(l, w) && Enabled(l, w, Fence)
    ensures Inv(l, Next(l, w, Fence))
  {
    hide OwnOf, TableOf, FramesOf, AnswersOf, Answers, PutInOrder, FenceKept, Bytes;
    assert FramesOf(w.sent) + [] + w.frames == FramesOf(w.sent) + [w.frames[0]] + w.frames[1..];
  }

  lemma FlushKeepsInv(l: Setting, w: Writer, a: SocketSays)
    requires Inv(l, w) && Enabled(l, w, Flush(a))
    ensures Inv(l, Next(l, w, Flush(a)))
  {
    assert w.sent[|w.sent|..] == [] && Bytes([]) == 0;
    hide OwnOf, TableOf, FramesOf, AnswersOf, Answers, PutInOrder, FenceKept, Bytes;
  }

  lemma AskKeepsInv(l: Setting, w: Writer, a: Act)
    requires Inv(l, w) && Enabled(l, w, a)
    requires a.Miss? || a.PassOver? || a.Rest? || a.PollReady? || a.Hear?
    ensures Inv(l, Next(l, w, a))
  {
    hide OwnOf, TableOf, FramesOf, AnswersOf, Answers, PutInOrder, FenceKept, Bytes;
  }

  lemma Moved<T>(given: seq<T>, waiting: seq<T>, x: seq<T>, left: seq<T>)
    requires waiting == x + left
    ensures given + waiting == (given + x) + left
  {}

  /** Handing `x` over, `v` being the state with `x` taken from where it
      waited. */
  lemma HandConserves(w: Writer, v: Writer, x: Sent)
    requires Conserved(w) && v.sent == w.sent
    requires v.putOwn == w.putOwn && v.putTable == w.putTable && v.putFrames == w.putFrames && v.made == w.made
    requires w.own == (if x.FromOwn? then [x.o] else []) + v.own
    requires w.table == (if x.FromTable? then [x.t] else []) + v.table
    requires FencedPart(w) + w.frames == (if x.FromFrames? then [x.f] else []) + (FencedPart(v) + v.frames)
    requires Answers(w.out) == (if x.FromLoop? && x.r.Made? then [x.r] else []) + Answers(v.out)
    ensures Conserved(Hand(v, x))
  {
    hide OwnOf, TableOf, FramesOf, AnswersOf, Answers;
    var u := Hand(v, x);
    HandedOne(w.sent, x);
    assert u.putOwn == OwnOf(u.sent) + u.own by {
      Moved(OwnOf(w.sent), w.own, if x.FromOwn? then [x.o] else [], v.own);
    }
    assert u.putTable == TableOf(u.sent) + u.table by {
      Moved(TableOf(w.sent), w.table, if x.FromTable? then [x.t] else [], v.table);
    }
    assert u.made == AnswersOf(u.sent) + Answers(u.out) by {
      Moved(AnswersOf(w.sent), Answers(w.out), if x.FromLoop? && x.r.Made? then [x.r] else [], Answers(v.out));
    }
    assert u.putFrames == FramesOf(u.sent) + FencedPart(u) + u.frames by {
      Moved(FramesOf(w.sent), FencedPart(w) + w.frames, if x.FromFrames? then [x.f] else [], FencedPart(v) + v.frames);
      assert FramesOf(w.sent) + FencedPart(w) + w.frames == FramesOf(w.sent) + (FencedPart(w) + w.frames);
      assert FramesOf(u.sent) + FencedPart(u) + u.frames == FramesOf(u.sent) + (FencedPart(u) + u.frames);
    }
  }

  lemma HandKeepsInv(l: Setting, w: Writer, v: Writer, x: Sent)
    requires Inv(l, w) && CanHand(l, w) && v.sent == w.sent
    requires v.flushedAt == w.flushedAt && v.gathered == w.gathered && v.unflushed == w.unflushed
    requires Tidy(v) && (x.FromFrames? ==> HasAnswer(TableOf(w.sent), x.f.call))
    requires v.putOwn == w.putOwn && v.putTable == w.putTable && v.putFrames == w.putFrames && v.made == w.made
    requires w.own == (if x.FromOwn? then [x.o] else []) + v.own
    requires w.table == (if x.FromTable? then [x.t] else []) + v.table
    requires FencedPart(w) + w.frames == (if x.FromFrames? then [x.f] else []) + (FencedPart(v) + v.frames)
    requires Answers(w.out) == (if x.FromLoop? && x.r.Made? then [x.r] else []) + Answers(v.out)
    requires |v.frames| <= |w.frames|
    ensures Inv(l, Hand(v, x))
  {
    hide OwnOf, TableOf, FramesOf, AnswersOf, Answers;
    HandConserves(w, v, x);
    HandKeepsMeter(l, v, x);
    FenceKeptOn(w.sent, x);
  }

  lemma HandOwnKeepsInv(l: Setting, w: Writer)
    requires Inv(l, w) && Enabled(l, w, HandTurn) && Asking(w).Own?
    ensures Inv(l, Next(l, w, HandTurn))
  {
    var v, x := NextTurn(w.(own := w.own[1..])), FromOwn(w.own[0]);
    assert Next(l, w, HandTurn) == Hand(v, x);
    HandKeepsInv(l, w, v, x);
  }

  lemma HandTableKeepsInv(l: Setting, w: Writer)
    requires Inv(l, w) && Enabled(l, w, HandTurn) && Asking(w).Table?
    ensures Inv(l, Next(l, w, HandTurn))
  {
    var v, x := NextTurn(w.(table := w.table[1..])), FromTable(w.table[0]);
    assert Next(l, w, HandTurn) == Hand(v, x);
    HandKeepsInv(l, w, v, x);
  }

  lemma HandFramesKeepsInv(l: Setting, w: Writer)
    requires Inv(l, w) && Enabled(l, w, HandTurn) && Asking(w).Frames?
    ensures Inv(l, Next(l, w, HandTurn))
  {
    var f := w.frames[0];
    var v, x := NextTurn(w.(frames := w.frames[1..])), FromFrames(f);
    assert Next(l, w, HandTurn) == Hand(v, x);
    assert w.putFrames == (FramesOf(w.sent) + [f]) + w.frames[1..];
    AnsweredBefore(l, w, f);
    HandKeepsInv(l, w, v, x);
  }

  lemma HandFencedKeepsInv(l: Setting, w: Writer)
    requires Inv(l, w) && Enabled(l, w, HandFenced)
    ensures Inv(l, Next(l, w, HandFenced))
  {
    var f := w.fenced.value;
    assert w.putFrames == (FramesOf(w.sent) + [f]) + w.frames;
    AnsweredBefore(l, w, f);
    HandKeepsInv(l, w, w.(fenced := None), FromFrames(f));
  }

  lemma NextKeepsInv(l: Setting, w: Writer, a: Act)
    requires Inv(l, w) && Enabled(l, w, a)
    ensures Inv(l, Next(l, w, a))
  {
    match a
    case HandReply => HandKeepsInv(l, w, w.(out := w.out[1..]), FromLoop(w.out[0]));
    case HandBehindFence => HandKeepsInv(l, w, w.(table := w.table[1..]), FromTable(w.table[0]));
    case HandFenced => HandFencedKeepsInv(l, w);
    case HandTurn =>
      if Asking(w).Own? {
        HandOwnKeepsInv(l, w);
      } else if Asking(w).Table? {
        HandTableKeepsInv(l, w);
      } else {
        HandFramesKeepsInv(l, w);
      }
    case PutOwn(o) => PutOwnKeepsInv(l, w, o);
    case PutTable(t) => PutTableKeepsInv(l, w, t);
    case PutFrame(f) => PutFrameKeepsInv(l, w, f);
    case Respond(r) => RespondKeepsInv(l, w, r);
    case PushPing => PingKeepsInv(l, w);
    case Fence => FenceKeepsInv(l, w);
    case Flush(x) => FlushKeepsInv(l, w, x);
    case _ => AskKeepsInv(l, w, a);
  }

  lemma {:induction false} RunKeepsInv(l: Setting, w: Writer, acts: seq<Act>)
    requires Inv(l, w) && Runs(l, w, acts)
    ensures Inv(l, Run(l, w, acts))
    decreases |acts|
  {
    if acts != [] {
      NextKeepsInv(l, w, acts[0]);
      RunKeepsInv(l, Next(l, w, acts[0]), acts[1..]);
    }
  }

  // -------------------------------------------------------------- main results

  /** At every step of every run, what the socket has had from each queue is
      what was put there first, in order; what has not gone is there still; and
      the loop's own answers have left in the order they were made. No queue
      ever holds more than its bound. */
  lemma WriterConserves(l: Setting, acts: seq<Act>)
    requires l.budget > 0 && Runs(l, FRESH, acts)
    ensures var w := Run(l, FRESH, acts);
            && OwnOf(w.sent) <= w.putOwn && |w.putOwn| == |OwnOf(w.sent)| + |w.own|
            && TableOf(w.sent) <= w.putTable && |w.putTable| == |TableOf(w.sent)| + |w.table|
            && FramesOf(w.sent) <= w.putFrames
            && |w.putFrames| == |FramesOf(w.sent)| + (if w.fenced.Some? then 1 else 0) + |w.frames|
            && AnswersOf(w.sent) <= w.made && w.made == AnswersOf(w.sent) + Answers(w.out)
            && |w.own| <= l.queue && |w.table| <= l.queue && |w.frames| <= l.queue
  {
    RunKeepsInv(l, FRESH, acts);
  }

  /** In every interleaving the socket is handed a call's answer, then its
      first frame, then its later frames in order; the frames of other calls
      fall where they may. */
  lemma FenceOrder(l: Setting, acts: seq<Act>, j: nat)
    requires l.budget > 0 && Runs(l, FRESH, acts)
    requires j < |Run(l, FRESH, acts).sent| && Run(l, FRESH, acts).sent[j].FromFrames?
    ensures var s := Run(l, FRESH, acts).sent;
            var f := s[j].f;
            HasAnswer(TableOf(s[..j]), f.call) && (f.part > 0 ==> HasPart(FramesOf(s[..j]), f.call, f.part - 1))
  {
    RunKeepsInv(l, FRESH, acts);
    var w := Run(l, FRESH, acts);
    FrameSentInOrder(w, j);
  }

  /** So no call has had a frame handed over whose answer has not been. */
  lemma EveryCallAnswered(l: Setting, acts: seq<Act>, i: nat)
    requires l.budget > 0 && Runs(l, FRESH, acts)
    requires i < |FramesOf(Run(l, FRESH, acts).sent)|
    ensures var s := Run(l, FRESH, acts).sent; HasAnswer(TableOf(s), FramesOf(s)[i].call)
  {
    RunKeepsInv(l, FRESH, acts);
    PartSentAnswered(Run(l, FRESH, acts).sent, i);
  }

  lemma FrameSentInOrder(w: Writer, j: nat)
    requires Conserved(w) && PutInOrder(w.putTable, w.putFrames) && j < |w.sent| && w.sent[j].FromFrames?
    ensures var f := w.sent[j].f; f.part > 0 ==> HasPart(FramesOf(w.sent[..j]), f.call, f.part - 1)
  {
    var f, before := w.sent[j].f, FramesOf(w.sent[..j]);
    assert FramesOf(w.sent[..j + 1]) == before + [f] by {
      HandedOne(w.sent[..j], w.sent[j]);
      assert w.sent[..j] + [w.sent[j]] == w.sent[..j + 1];
    }
    FramesOfPrefix(w.sent, j + 1);
    assert w.putFrames[|before|] == f && w.putFrames[..|before|] == before;
    assert InOrder(w.putFrames[|before|], w.putTable, w.putFrames[..|before|]);
  }

  lemma {:induction false} FramesOfPrefix(s: seq<Sent>, j: nat)
    requires j <= |s|
    ensures FramesOf(s[..j]) <= FramesOf(s)
    decreases |s| - j
  {
    if j == |s| {
      assert s[..j] == s;
    } else {
      HandedOne(s[..j], s[j]);
      assert s[..j] + [s[j]] == s[..j + 1];
      FramesOfPrefix(s, j + 1);
    }
  }

  function OwnBytes(s: seq<OwnMsg>): nat {
    if s == [] then 0 else OwnBytes(s[..|s| - 1]) + s[|s| - 1].size
  }

  function TableBytes(s: seq<TableMsg>): nat {
    if s == [] then 0 else TableBytes(s[..|s| - 1]) + s[|s| - 1].size
  }

  function FrameBytes(s: seq<CallFrame>): nat {
    if s == [] then 0 else FrameBytes(s[..|s| - 1]) + s[|s| - 1].size
  }

  function AnswerBytes(s: seq<Reply>): nat {
    if s == [] then 0 else AnswerBytes(s[..|s| - 1]) + (if s[|s| - 1].Made? then s[|s| - 1].size else 0)
  }

  function MessageBytes(s: seq<Sent>): nat {
    OwnBytes(OwnOf(s)) + TableBytes(TableOf(s)) + FrameBytes(FramesOf(s)) + AnswerBytes(AnswersOf(s))
  }

  lemma BytesOnTop(o: seq<OwnMsg>, t: seq<TableMsg>, f: seq<CallFrame>, r: seq<Reply>, x: Sent)
    ensures OwnBytes(o + (if x.FromOwn? then [x.o] else [])) == OwnBytes(o) + (if x.FromOwn? then x.o.size else 0)
    ensures TableBytes(t + (if x.FromTable? then [x.t] else []))
         == TableBytes(t) + (if x.FromTable? then x.t.size else 0)
    ensures FrameBytes(f + (if x.FromFrames? then [x.f] else []))
         == FrameBytes(f) + (if x.FromFrames? then x.f.size else 0)
    ensures AnswerBytes(r + (if x.FromLoop? && x.r.Made? then [x.r] else []))
         == AnswerBytes(r) + (if x.FromLoop? && x.r.Made? then x.r.size else 0)
  {
    assert o + [] == o && t + [] == t && f + [] == f && r + [] == r;
    match x
    case FromOwn(y) => assert (o + [y])[..|o|] == o;
    case FromTable(y) => assert (t + [y])[..|t|] == t;
    case FromFrames(y) => assert (f + [y])[..|f|] == f;
    case FromLoop(y) => assert (r + [y])[..|r|] == r;
  }

  /** What was handed over weighs what its messages do; a ping weighs nothing. */
  lemma {:induction false} BytesAreTheMessages(s: seq<Sent>)
    ensures Bytes(s) == MessageBytes(s)
  {
    if s != [] {
      var front, x := s[..|s| - 1], s[|s| - 1];
      BytesAreTheMessages(front);
      HandedOne(front, x);
      assert s == front + [x];
      BytesOnTop(OwnOf(front), TableOf(front), FramesOf(front), AnswersOf(front), x);
      hide OwnOf, TableOf, FramesOf, AnswersOf, OwnBytes, TableBytes, FrameBytes, AnswerBytes;
    }
  }

  /** Since the last completed flush the socket has been handed less than the
      budget and then at most one frame more, each measured by its message's
      size. */
  lemma BytesPerFlush(l: Setting, acts: seq<Act>)
    requires l.budget > 0 && Runs(l, FRESH, acts)
    ensures var w := Run(l, FRESH, acts);
            && w.flushedAt <= |w.sent|
            && (w.flushedAt < |w.sent| ==>
                  MessageBytes(w.sent[w.flushedAt..|w.sent| - 1]) < l.budget)
            && (!w.unflushed ==> w.gathered == 0 && w.flushedAt == |w.sent|)
  {
    hide *;
    var w := Run(l, FRESH, acts);
    RunMetered(l, acts);
    WithinBudget(l, w);
    if w.flushedAt < |w.sent| {
      BytesAreTheMessages(w.sent[w.flushedAt..|w.sent| - 1]);
    }
  }

  lemma RunMetered(l: Setting, acts: seq<Act>)
    requires l.budget > 0 && Runs(l, FRESH, acts)
    ensures Metered(l, Run(l, FRESH, acts))
  {
    RunKeepsInv(l, FRESH, acts);
  }

  lemma WithinBudget(l: Setting, w: Writer)
    requires Metered(l, w)
    ensures w.flushedAt <= |w.sent| && (!w.unflushed ==> w.gathered == 0 && w.flushedAt == |w.sent|)
    ensures w.flushedAt < |w.sent| ==> Bytes(w.sent[w.flushedAt..|w.sent| - 1]) < l.budget
  {
    assert !w.unflushed ==> w.sent[w.flushedAt..] == [];
    if w.flushedAt < |w.sent| {
      var s := w.sent[w.flushedAt..|w.sent| - 1];
      assert w.sent[w.flushedAt..] == s + [w.sent[|w.sent| - 1]];
      HandedOne(s, w.sent[|w.sent| - 1]);
    }
  }

  // -------------------------------------------------------------- round robin

  /** How many queues are asked before `q` in the turn being taken. */
  function Ahead(w: Writer, q: Queue): nat
    requires w.turn < 3
  {
    ((match q case Own => 0 case Table => 1 case Frames => 2) - w.turn + 3) % 3
  }

  /** `q` is never empty, no poll is answered Pending falsely, and no frame is
      taken from `q` by turn, all along the run. */
  predicate Starved(l: Setting, w: Writer, acts: seq<Act>, q: Queue)
    requires Runs(l, w, acts)
    decreases |acts|
  {
    && Waiting(w, q)
    && (acts != [] ==>
          && !(acts[0].Miss? && acts[0].falsely)
          && ((acts[0].HandTurn? || acts[0].Fence?) ==> Asking(w) != q)
          && Starved(l, Next(l, w, acts[0]), acts[1..], q))
  }

  /** The frames taken from the queues by turns: handed at once, or fenced. */
  function Taken(acts: seq<Act>): (n: nat)
    ensures n == 0 <==> forall i | 0 <= i < |acts| :: !acts[i].HandTurn? && !acts[i].Fence?
  {
    if acts == [] then 0 else (if acts[0].HandTurn? || acts[0].Fence? then 1 else 0) + Taken(acts[1..])
  }

  /** A turn taken by a queue asked before `q` brings `q` nearer. */
  lemma TurnBringsNearer(w: Writer, q: Queue)
    requires w.turn < 3 && w.asked < 3 && w.asked <= Ahead(w, q) && Asking(w) != q
    ensures w.asked < Ahead(w, q) && Ahead(NextTurn(w), q) == Ahead(w, q) - w.asked - 1
  {}

  /** How a step moves the turn. */
  lemma StepTurns(l: Setting, w: Writer, a: Act)
    requires Enabled(l, w, a)
    ensures var v := Next(l, w, a);
            if a.HandTurn? || a.Fence? then v.turn == NextTurn(w).turn && v.asked == 0
            else v.turn == w.turn && (v.asked == 0 || v.asked == w.asked + (if a.Miss? || a.PassOver? then 1 else 0))
  {
    hide InOrder;
  }

  lemma StepNearer(l: Setting, w: Writer, a: Act, q: Queue)
    requires w.turn < 3 && w.asked <= Ahead(w, q) && Waiting(w, q) && Enabled(l, w, a)
    requires !(a.Miss? && a.falsely)
    requires a.HandTurn? || a.Fence? ==> Asking(w) != q
    ensures var v := Next(l, w, a);
            v.turn < 3 && v.asked <= Ahead(v, q) && Ahead(v, q) + Taken([a]) <= Ahead(w, q)
  {
    StepTurns(l, w, a);
    assert a.HandTurn? || a.Fence? || a.Miss? || a.PassOver? ==> w.asked < 3 && Asking(w) != q;
    hide Next, Enabled, Ahead, Asking, Waiting;
    var v := Next(l, w, a);
    if a.HandTurn? || a.Fence? || a.Miss? || a.PassOver? {
      TurnBringsNearer(w, q);
    }
    SameTurn(v, if a.HandTurn? || a.Fence? then NextTurn(w) else w, q);
  }

  lemma SameTurn(v: Writer, w: Writer, q: Queue)
    requires v.turn == w.turn < 3
    ensures Ahead(v, q) == Ahead(w, q)
  {}

  lemma {:induction false} TakenBeforeServed(l: Setting, w: Writer, acts: seq<Act>, q: Queue)
    requires w.turn < 3 && w.asked <= Ahead(w, q)
    requires Runs(l, w, acts) && Starved(l, w, acts, q)
    ensures Taken(acts) <= Ahead(w, q)
    decreases |acts|
  {
    if acts != [] {
      StepNearer(l, w, acts[0], q);
      TakenBeforeServed(l, Next(l, w, acts[0]), acts[1..], q);
    }
  }

  /** From any turn's start, a queue that stays non-empty supplies one of any
      three frames taken by turns. */
  lemma RoundRobin(l: Setting, w: Writer, acts: seq<Act>, q: Queue)
    requires Inv(l, w) && w.asked == 0 && Runs(l, w, acts)
    requires Taken(acts) >= 3
    ensures !Starved(l, w, acts, q)
  {
    if Starved(l, w, acts, q) {
      TakenBeforeServed(l, w, acts, q);
    }
  }
}
