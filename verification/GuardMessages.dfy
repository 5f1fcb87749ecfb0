/** What the guard does to messages. For whole frames, whatever their order, the
    stream that comes out is said frame by frame: which frames leave where each
    one stood. For frames fragmented as section 5.4 of RFC 6455 allows, these are
    the control frames in order and every message within the cap, whole, in one
    piece and byte for byte, where its last frame stood; the messages past the cap
    are gone and counted once each. Messages are found here by looking back from a
    frame to its message's first, not by following the guard. */
module GuardMessages {
  import opened Base
  import opened Wire
  import opened GuardSpec

  datatype Frame = Frame(h: Header, bytes: seq<Byte>)

  predicate Whole(f: Frame) {
    !IllegalLength(f.bytes) && ParseHeader(f.bytes) == Some(f.h) && |f.bytes| == f.h.size + f.h.len
  }

  function Concat(fs: seq<Frame>): seq<Byte> {
    if fs == [] then [] else fs[0].bytes + Concat(fs[1..])
  }

  /** The first frame of the message open after the first `k` frames. A frame
      out of place leaves none open. */
  function Open(fs: seq<Frame>, k: nat): (start: Option<nat>)
    requires k <= |fs|
    ensures start.Some? ==> start.value < k && !IsControl(fs[start.value].h)
    decreases k, 0
  {
    if k == 0 then None
    else if IsControl(fs[k - 1].h) then Open(fs, k - 1)
    else if fs[k - 1].h.fin || OutOfPlace(fs, k - 1) then None
    else if fs[k - 1].h.opcode != 0 then Some(k - 1)
    else Open(fs, k - 1)
  }

  /** Section 5.4: a continuation continues an open message, and a new message
      begins only when none is open. Control frames may stand anywhere. */
  predicate OutOfPlace(fs: seq<Frame>, k: nat)
    requires k < |fs|
    decreases k, 1
  {
    !IsControl(fs[k].h) && (fs[k].h.opcode == 0 <==> Open(fs, k).None?)
  }

  predicate WellFragmented(fs: seq<Frame>) {
    forall k | 0 <= k < |fs| :: !OutOfPlace(fs, k)
  }

  /** The payload of the data frames among `fs[j..k]`, and which those are. */
  function Payload(fs: seq<Frame>, j: nat, k: nat): nat
    requires j <= k <= |fs|
  {
    if k == j then 0 else Payload(fs, j, k - 1) + (if IsControl(fs[k - 1].h) then 0 else fs[k - 1].h.len)
  }

  function DataFrames(fs: seq<Frame>, j: nat, k: nat): (these: seq<nat>)
    requires j <= k <= |fs|
    ensures Indices(these, k)
  {
    if k == j then [] else DataFrames(fs, j, k - 1) + (if IsControl(fs[k - 1].h) then [] else [k - 1])
  }

  predicate Indices(these: seq<nat>, n: nat) {
    forall j | 0 <= j < |these| :: these[j] < n
  }

  /** The bytes of these frames, one after another. */
  function Spell(fs: seq<Frame>, these: seq<nat>): seq<Byte>
    requires Indices(these, |fs|)
  {
    if these == [] then [] else Spell(fs, these[..|these| - 1]) + fs[these[|these| - 1]].bytes
  }

  /** The first frame of the message that data frame `k`, in its place, belongs to. */
  function First(fs: seq<Frame>, k: nat): (j: nat)
    requires k < |fs|
    ensures j <= k
  {
    if Open(fs, k).Some? then Open(fs, k).value else k
  }

  /** The frames of an open message that is not too large yet. */
  function HeldFrames(cap: nat, fs: seq<Frame>, k: nat): (these: seq<nat>)
    requires k <= |fs|
    ensures Indices(these, k)
  {
    if MsgAt(cap, fs, k).Holding? then DataFrames(fs, Open(fs, k).value, k) else []
  }

  /** The frames that come out where frame `k` stood: a control frame itself; a
      frame out of place, after whatever of a message it interrupts was held; a
      message within the cap at its last frame. */
  function At(cap: nat, fs: seq<Frame>, k: nat): (these: seq<nat>)
    requires k < |fs|
    ensures Indices(these, k + 1)
  {
    if IsControl(fs[k].h) then [k]
    else if OutOfPlace(fs, k) then HeldFrames(cap, fs, k) + [k]
    else if fs[k].h.fin && Payload(fs, First(fs, k), k + 1) <= cap then DataFrames(fs, First(fs, k), k + 1)
    else []
  }

  function Out(cap: nat, fs: seq<Frame>, k: nat): (these: seq<nat>)
    requires k <= |fs|
    ensures Indices(these, |fs|)
    decreases |fs| - k
  {
    if k == |fs| then [] else At(cap, fs, k) + Out(cap, fs, k + 1)
  }

  /** Whether a message too large ends where frame `k` stands: at its last
      frame, or interrupted by one out of place. */
  predicate EndsPast(cap: nat, fs: seq<Frame>, k: nat)
    requires k < |fs|
  {
    && !IsControl(fs[k].h)
    && (if OutOfPlace(fs, k) then Open(fs, k).Some? && Payload(fs, Open(fs, k).value, k) > cap
        else fs[k].h.fin && Payload(fs, First(fs, k), k + 1) > cap)
  }

  /** The messages past the cap among those that end at frame `k` or later, or
      are open when the frames end. */
  function PastTheCap(cap: nat, fs: seq<Frame>, k: nat): nat
    requires k <= |fs|
    decreases |fs| - k
  {
    if k == |fs| then (if Open(fs, k).Some? && Payload(fs, Open(fs, k).value, k) > cap then 1 else 0)
    else PastTheCap(cap, fs, k + 1) + (if EndsPast(cap, fs, k) then 1 else 0)
  }

  /** Where the guard's message stands after the first `k` frames, what it
      holds, and whether the open message is counted already. */
  function MsgAt(cap: nat, fs: seq<Frame>, k: nat): Msg
    requires k <= |fs|
  {
    if Open(fs, k).None? then Idle
    else if Payload(fs, Open(fs, k).value, k) <= cap then Holding(Payload(fs, Open(fs, k).value, k))
    else Skipping
  }

  function HeldAt(cap: nat, fs: seq<Frame>, k: nat): seq<Byte>
    requires k <= |fs|
  {
    Spell(fs, HeldFrames(cap, fs, k))
  }

  function CountedAt(cap: nat, fs: seq<Frame>, k: nat): nat
    requires k <= |fs|
  {
    if MsgAt(cap, fs, k).Skipping? then 1 else 0
  }

  /** One whole frame, then the rest of the stream. */
  function Along(cap: nat, msg: Msg, held: seq<Byte>, f: Frame, rest: seq<Byte>): Outcome {
    match Judge(cap, msg, f.h)
    case Control => Before(f.bytes, 0, Through(cap, msg, held, rest))
    case Relay => Before(held + f.bytes, 0, Through(cap, Idle, [], rest))
    case Drop(counted) => Before([], if counted then 1 else 0, Through(cap, After(f.h, Skipping), [], rest))
    case Keep(total) =>
      if f.h.fin then Before(held + f.bytes, 0, Through(cap, Idle, [], rest))
      else Through(cap, Holding(total), held + f.bytes, rest)
  }

  lemma PassedWhole(cap: nat, msg: Msg, held: seq<Byte>, before: seq<Byte>, payload: seq<Byte>, rest: seq<Byte>)
    ensures Before(before, 0, Passing(cap, msg, held, |payload|, payload + rest))
         == Before(before + payload, 0, Through(cap, msg, held, rest))
  {
    assert (payload + rest)[..|payload|] == payload && (payload + rest)[|payload|..] == rest;
    BeforeBefore(before, 0, payload, 0, Through(cap, msg, held, rest));
  }

  lemma WholeFrame(cap: nat, msg: Msg, held: seq<Byte>, f: Frame, rest: seq<Byte>)
    requires Whole(f)
    ensures Through(cap, msg, held, f.bytes + rest) == Along(cap, msg, held, f, rest)
  {
    hide ParseHeader, IllegalLength;
    var h, s := f.h, f.bytes + rest;
    assert ParseHeader(s) == Some(h) && !IllegalLength(s) by {
      HeaderIsAPrefix(f.bytes, rest);
    }
    var header, payload := s[..h.size], f.bytes[h.size..];
    assert s[h.size..] == payload + rest && header + payload == f.bytes;
    match Judge(cap, msg, h)
    case Control =>
      assert Through(cap, msg, held, s) == Before(header, 0, Passing(cap, msg, held, h.len, payload + rest));
      PassedWhole(cap, msg, held, header, payload, rest);
    case Relay =>
      assert Through(cap, msg, held, s) == Before(held + header, 0, Passing(cap, Idle, [], h.len, payload + rest));
      PassedWhole(cap, Idle, [], held + header, payload, rest);
      assert (held + header) + payload == held + f.bytes;
    case Drop(_) =>
      assert (payload + rest)[h.len..] == rest;
    case Keep(total) =>
      assert (payload + rest)[..h.len] == payload && (payload + rest)[h.len..] == rest;
      assert (held + header) + payload == held + f.bytes;
      assert Through(cap, msg, held, s) == Keeping(cap, total, h.fin, held + header, h.len, payload + rest);
  }

  lemma SpellOne(fs: seq<Frame>, these: seq<nat>, i: nat)
    requires Indices(these, |fs|) && i < |fs|
    ensures Spell(fs, these + [i]) == Spell(fs, these) + fs[i].bytes
  {
    assert (these + [i])[..|these|] == these;
  }

  lemma {:induction false} SpellBoth(fs: seq<Frame>, a: seq<nat>, b: seq<nat>)
    requires Indices(a, |fs|) && Indices(b, |fs|)
    ensures Spell(fs, a + b) == Spell(fs, a) + Spell(fs, b)
    decreases |b|
  {
    if b == [] {
      assert a + b == a;
    } else {
      var init, i := b[..|b| - 1], b[|b| - 1];
      assert a + b == a + init + [i] && b == init + [i];
      SpellBoth(fs, a, init);
      SpellOne(fs, a + init, i);
      SpellOne(fs, init, i);
      hide Spell;
    }
  }

  /** A control frame changes nothing of the message open around it. */
  lemma AroundControl(cap: nat, fs: seq<Frame>, k: nat)
    requires k < |fs| && IsControl(fs[k].h)
    ensures MsgAt(cap, fs, k + 1) == MsgAt(cap, fs, k) && HeldAt(cap, fs, k + 1) == HeldAt(cap, fs, k)
    ensures Spell(fs, At(cap, fs, k)) == fs[k].bytes
  {
    SpellOne(fs, [], k);
    assert Spell(fs, []) == [] && [] + [k] == [k];
    assert Spell(fs, At(cap, fs, k)) == fs[k].bytes by {
      hide Spell;
    }
    hide Spell, At, OutOfPlace;
    assert Open(fs, k + 1) == Open(fs, k);
    if Open(fs, k).Some? {
      var j := Open(fs, k).value;
      assert DataFrames(fs, j, k + 1) == DataFrames(fs, j, k);
      assert Payload(fs, j, k + 1) == Payload(fs, j, k);
    }
    hide Open, DataFrames, Payload;
  }

  /** A frame out of place is passed on after what was held, and ends the message. */
  lemma FrameOutOfPlace(cap: nat, fs: seq<Frame>, k: nat)
    requires k < |fs| && OutOfPlace(fs, k)
    ensures Judge(cap, MsgAt(cap, fs, k), fs[k].h).Relay?
    ensures MsgAt(cap, fs, k + 1) == Idle && HeldAt(cap, fs, k + 1) == []
    ensures Spell(fs, At(cap, fs, k)) == HeldAt(cap, fs, k) + fs[k].bytes
  {
    SpellOne(fs, HeldFrames(cap, fs, k), k);
  }

  /** A data frame in its place: what the guard makes of it. */
  lemma DataFrameJudged(cap: nat, fs: seq<Frame>, k: nat)
    requires k < |fs| && !OutOfPlace(fs, k) && !IsControl(fs[k].h)
    ensures var msg, held, h := MsgAt(cap, fs, k), HeldAt(cap, fs, k), fs[k].h;
            var sum := Payload(fs, First(fs, k), k + 1);
            && MsgAt(cap, fs, k + 1) == (if h.fin then Idle else if sum <= cap then Holding(sum) else Skipping)
            && (sum <= cap ==> Judge(cap, msg, h) == Keep(sum) || (Judge(cap, msg, h).Relay? && h.fin && held == []))
            && (sum > cap ==> Judge(cap, msg, h) == Drop(!msg.Skipping?))
            && (msg.Skipping? ==> sum > cap)
  {
    var j := First(fs, k);
    assert Payload(fs, j, k + 1) == Payload(fs, j, k) + fs[k].h.len;
    assert Open(fs, k).None? ==> Payload(fs, j, k) == 0 && DataFrames(fs, j, k) == [];
    hide DataFrames, Payload;
  }

  /** And what of it comes out or is held. */
  lemma DataFrameHeld(cap: nat, fs: seq<Frame>, k: nat)
    requires k < |fs| && !OutOfPlace(fs, k) && !IsControl(fs[k].h)
    ensures var held, h := HeldAt(cap, fs, k), fs[k].h;
            var sum := Payload(fs, First(fs, k), k + 1);
            && Spell(fs, At(cap, fs, k)) == (if sum <= cap && h.fin then held + fs[k].bytes else [])
            && HeldAt(cap, fs, k + 1) == (if sum <= cap && !h.fin then held + fs[k].bytes else [])
  {
    DataFrameJudged(cap, fs, k);
    var j := First(fs, k);
    var these := DataFrames(fs, j, k);
    assert Payload(fs, j, k + 1) == Payload(fs, j, k) + fs[k].h.len;
    assert DataFrames(fs, j, k + 1) == these + [k];
    assert Open(fs, k).None? ==> these == [];
    SpellOne(fs, these, k);
    assert Spell(fs, []) == [];
    hide DataFrames, Payload, Judge, Spell;
    assert Payload(fs, j, k + 1) <= cap ==> HeldFrames(cap, fs, k) == these;
  }

  /** What looking back says of frame `k` and those after it, `end` being what
      becomes of the bytes after the last. */
  function Outlook(cap: nat, fs: seq<Frame>, k: nat, end: Outcome): Outcome
    requires k <= |fs|
  {
    var past, counted := PastTheCap(cap, fs, k), CountedAt(cap, fs, k);
    Before(Spell(fs, Out(cap, fs, k)), if counted <= past then past - counted else 0, end)
  }

  lemma {:induction false} CountedIsPast(cap: nat, fs: seq<Frame>, k: nat)
    requires k <= |fs|
    ensures CountedAt(cap, fs, k) <= PastTheCap(cap, fs, k)
    decreases |fs| - k
  {
    if k < |fs| {
      CountedIsPast(cap, fs, k + 1);
      if IsControl(fs[k].h) {
        AroundControl(cap, fs, k);
      } else if !OutOfPlace(fs, k) {
        DataFrameJudged(cap, fs, k);
        assert Open(fs, k).Some? ==> Payload(fs, Open(fs, k).value, k) <= Payload(fs, First(fs, k), k + 1);
      }
      hide Payload, Judge;
    }
  }

  lemma PastStep(cap: nat, fs: seq<Frame>, k: nat)
    requires k < |fs|
    ensures PastTheCap(cap, fs, k) == PastTheCap(cap, fs, k + 1) + (if EndsPast(cap, fs, k) then 1 else 0)
  {}

  lemma OutlookCounts(cap: nat, fs: seq<Frame>, k: nat, end: Outcome)
    requires k < |fs|
    ensures Outlook(cap, fs, k, end).dropped + CountedAt(cap, fs, k)
         == Outlook(cap, fs, k + 1, end).dropped + CountedAt(cap, fs, k + 1) + (if EndsPast(cap, fs, k) then 1 else 0)
  {
    hide At, Spell, CountedAt, EndsPast, Out, PastTheCap;
    CountedIsPast(cap, fs, k);
    CountedIsPast(cap, fs, k + 1);
    PastStep(cap, fs, k);
  }

  lemma SpellOut(cap: nat, fs: seq<Frame>, k: nat)
    requires k < |fs|
    ensures Spell(fs, Out(cap, fs, k)) == Spell(fs, At(cap, fs, k)) + Spell(fs, Out(cap, fs, k + 1))
  {
    SpellBoth(fs, At(cap, fs, k), Out(cap, fs, k + 1));
    assert Out(cap, fs, k) == At(cap, fs, k) + Out(cap, fs, k + 1);
    hide At, Spell, Out;
  }

  lemma OutlookStep(cap: nat, fs: seq<Frame>, k: nat, end: Outcome)
    requires k < |fs|
    ensures Outlook(cap, fs, k, end).out == Spell(fs, At(cap, fs, k)) + Outlook(cap, fs, k + 1, end).out
  {
    hide At, Spell, CountedAt, PastTheCap, Out;
    SpellOut(cap, fs, k);
    var here, on := Spell(fs, At(cap, fs, k)), Spell(fs, Out(cap, fs, k + 1));
    assert here + on + end.out == here + (on + end.out);
  }

  /** The steps of `FramesFrom`: what frame `k` adds. */
  lemma ControlStep(cap: nat, fs: seq<Frame>, k: nat, rest: seq<Byte>, end: Outcome)
    requires k < |fs|
    requires Through(cap, MsgAt(cap, fs, k + 1), HeldAt(cap, fs, k + 1), rest) == Outlook(cap, fs, k + 1, end)
    requires IsControl(fs[k].h)
    ensures Along(cap, MsgAt(cap, fs, k), HeldAt(cap, fs, k), fs[k], rest) == Outlook(cap, fs, k, end)
  {
    OutlookStep(cap, fs, k, end);
    OutlookCounts(cap, fs, k, end);
    AroundControl(cap, fs, k);
    assert Outlook(cap, fs, k, end).refused == Outlook(cap, fs, k + 1, end).refused;
    hide At, Spell, HeldFrames, Outlook, HeldAt, Through, MsgAt, Payload;
  }

  lemma OutOfPlaceStep(cap: nat, fs: seq<Frame>, k: nat, rest: seq<Byte>, end: Outcome)
    requires k < |fs|
    requires Through(cap, MsgAt(cap, fs, k + 1), HeldAt(cap, fs, k + 1), rest) == Outlook(cap, fs, k + 1, end)
    requires OutOfPlace(fs, k)
    ensures Along(cap, MsgAt(cap, fs, k), HeldAt(cap, fs, k), fs[k], rest) == Outlook(cap, fs, k, end)
  {
    OutlookStep(cap, fs, k, end);
    OutlookCounts(cap, fs, k, end);
    FrameOutOfPlace(cap, fs, k);
    PastAlready(cap, fs, k);
    assert Outlook(cap, fs, k, end).refused == Outlook(cap, fs, k + 1, end).refused;
    hide At, Spell, HeldFrames, Outlook, HeldAt, Through, MsgAt, Payload, EndsPast, OutOfPlace, Judge;
  }

  lemma AlongData(cap: nat, msg: Msg, held: seq<Byte>, f: Frame, rest: seq<Byte>, sum: nat, on: Msg,
      heldOn: seq<Byte>, here: seq<Byte>)
    requires sum <= cap ==> Judge(cap, msg, f.h) == Keep(sum) || (Judge(cap, msg, f.h).Relay? && f.h.fin && held == [])
    requires sum > cap ==> Judge(cap, msg, f.h) == Drop(!msg.Skipping?)
    requires on == if f.h.fin then Idle else if sum <= cap then Holding(sum) else Skipping
    requires here == if sum <= cap && f.h.fin then held + f.bytes else []
    requires heldOn == if sum <= cap && !f.h.fin then held + f.bytes else []
    ensures Along(cap, msg, held, f, rest)
         == Before(here, if sum > cap && !msg.Skipping? then 1 else 0, Through(cap, on, heldOn, rest))
  {
    hide Judge, Through;
    BeforeNothing(Through(cap, on, heldOn, rest));
  }

  lemma DataOutcome(
    cap: nat, msg: Msg, held: seq<Byte>, f: Frame, rest: seq<Byte>, sum: nat, on: Msg, heldOn: seq<Byte>,
    here: seq<Byte>, more: Outcome, all: Outcome)
    requires sum <= cap ==> Judge(cap, msg, f.h) == Keep(sum) || (Judge(cap, msg, f.h).Relay? && f.h.fin && held == [])
    requires sum > cap ==> Judge(cap, msg, f.h) == Drop(!msg.Skipping?)
    requires msg.Skipping? ==> sum > cap
    requires on == if f.h.fin then Idle else if sum <= cap then Holding(sum) else Skipping
    requires here == if sum <= cap && f.h.fin then held + f.bytes else []
    requires heldOn == if sum <= cap && !f.h.fin then held + f.bytes else []
    requires Through(cap, on, heldOn, rest) == more && all.out == here + more.out && all.refused == more.refused
    requires all.dropped + (if msg.Skipping? then 1 else 0)
          == more.dropped + (if on.Skipping? then 1 else 0) + (if f.h.fin && sum > cap then 1 else 0)
    ensures Along(cap, msg, held, f, rest) == all
  {
    hide Judge, Through, Along;
    AlongData(cap, msg, held, f, rest, sum, on, heldOn, here);
  }

  lemma DataStep(cap: nat, fs: seq<Frame>, k: nat, rest: seq<Byte>, end: Outcome)
    requires k < |fs|
    requires Through(cap, MsgAt(cap, fs, k + 1), HeldAt(cap, fs, k + 1), rest) == Outlook(cap, fs, k + 1, end)
    requires !IsControl(fs[k].h) && !OutOfPlace(fs, k)
    ensures Along(cap, MsgAt(cap, fs, k), HeldAt(cap, fs, k), fs[k], rest) == Outlook(cap, fs, k, end)
  {
    hide At, Spell, HeldFrames, HeldAt, Through, MsgAt, Payload, Judge, Along, PastTheCap, Out;
    assert Outlook(cap, fs, k, end).refused == Outlook(cap, fs, k + 1, end).refused;
    hide Outlook;
    OutlookStep(cap, fs, k, end);
    OutlookCounts(cap, fs, k, end);
    DataFrameJudged(cap, fs, k);
    DataFrameHeld(cap, fs, k);
    var sum := Payload(fs, First(fs, k), k + 1);
    assert EndsPast(cap, fs, k) <==> fs[k].h.fin && sum > cap;
    hide EndsPast, OutOfPlace, First;
    DataOutcome(cap, MsgAt(cap, fs, k), HeldAt(cap, fs, k), fs[k], rest, sum,
                MsgAt(cap, fs, k + 1), HeldAt(cap, fs, k + 1),
                Spell(fs, At(cap, fs, k)), Outlook(cap, fs, k + 1, end), Outlook(cap, fs, k, end));
  }

  /** A frame out of place is one the guard finds stray. */
  lemma OutOfPlaceIsStray(cap: nat, fs: seq<Frame>, k: nat)
    requires k < |fs|
    ensures OutOfPlace(fs, k) <==> Stray(MsgAt(cap, fs, k), fs[k].h)
  {}

  lemma PastAlready(cap: nat, fs: seq<Frame>, k: nat)
    requires k < |fs| && OutOfPlace(fs, k)
    ensures EndsPast(cap, fs, k) <==> MsgAt(cap, fs, k).Skipping?
  {}

  /** From frame `k` on, the guard does what looking back says, whatever bytes
      `t` come after the frames. */
  lemma {:induction false} FramesFrom(cap: nat, fs: seq<Frame>, k: nat, t: seq<Byte>)
    requires (forall f | f in fs :: Whole(f)) && k <= |fs|
    ensures var end := Through(cap, MsgAt(cap, fs, |fs|), HeldAt(cap, fs, |fs|), t);
            Through(cap, MsgAt(cap, fs, k), HeldAt(cap, fs, k), Concat(fs[k..]) + t) == Outlook(cap, fs, k, end)
    decreases |fs| - k
  {
    hide ParseHeader, IllegalLength, Along, Outlook, MsgAt, HeldAt, Through;
    var end := Through(cap, MsgAt(cap, fs, |fs|), HeldAt(cap, fs, |fs|), t);
    if k < |fs| {
      var f, rest := fs[k], Concat(fs[k + 1..]) + t;
      assert fs[k..][1..] == fs[k + 1..];
      assert Concat(fs[k..]) + t == f.bytes + rest;
      hide Concat, OutOfPlace;
      assert Whole(f);
      FramesFrom(cap, fs, k + 1, t);
      WholeFrame(cap, MsgAt(cap, fs, k), HeldAt(cap, fs, k), f, rest);
      if IsControl(fs[k].h) {
        ControlStep(cap, fs, k, rest, end);
      } else if OutOfPlace(fs, k) {
        OutOfPlaceStep(cap, fs, k, rest, end);
      } else {
        DataStep(cap, fs, k, rest, end);
      }
    } else {
      NothingLeft(cap, fs, end);
      assert Concat(fs[k..]) + t == t;
    }
  }

  lemma NothingLeft(cap: nat, fs: seq<Frame>, end: Outcome)
    ensures Outlook(cap, fs, |fs|, end) == end
  {
    assert Spell(fs, []) == [];
    assert PastTheCap(cap, fs, |fs|) == CountedAt(cap, fs, |fs|);
    hide PastTheCap, CountedAt, Spell;
    BeforeNothing(end);
  }

  /** Any whole frames, in any order: what comes out of their stream, frame by
      frame. */
  lemma FramesHandedOn(cap: nat, fs: seq<Frame>)
    requires forall f | f in fs :: Whole(f)
    ensures Guarded(cap, Concat(fs)) == Outcome(Spell(fs, Out(cap, fs, 0)), PastTheCap(cap, fs, 0), false)
  {
    StreamHandedOn(cap, fs, []);
    hide Out, PastTheCap, Spell, Concat, Guarded;
    assert Concat(fs) + [] == Concat(fs);
    assert Spell(fs, Out(cap, fs, 0)) + [] == Spell(fs, Out(cap, fs, 0));
  }

  /** One frame by itself, as a client writes it: by its opcode a control frame
      comes out byte for byte, whatever its length; a message of one frame comes
      out within the cap and is counted past it; a first fragment within the cap
      is awaited; and a continuation of nothing comes out. */
  lemma OneFrameByItself(cap: nat, fin: bool, rsv: nat, opcode: nat, form: Form, key: Option<seq<Byte>>,
      payload: seq<Byte>)
    requires rsv < 8 && opcode < 16 && Fits(form, |payload|) && |payload| < 0x8000_0000_0000_0000
    requires key.Some? ==> |key.value| == 4
    ensures var frame := EncodeHeader(fin, rsv, opcode, form, |payload|, key) + payload;
            Guarded(cap, frame) ==
              if 8 <= opcode <= 15 || opcode == 0 then Outcome(frame, 0, false)
              else if |payload| > cap then Outcome([], 1, false)
              else Outcome(if fin then frame else [], 0, false)
  {
    var header := EncodeHeader(fin, rsv, opcode, form, |payload|, key);
    HeaderRoundTrip(fin, rsv, opcode, form, |payload|, key, payload);
    IllegalLengthIsTopBit(header + payload);
    var f := Frame(Header(fin, opcode, |payload|, |header|), header + payload);
    assert Whole(f);
    hide *;
    AloneFrame(cap, f);
  }

  lemma AloneFrame(cap: nat, f: Frame)
    requires Whole(f) && f.h.opcode < 16
    ensures Guarded(cap, f.bytes) ==
              if 8 <= f.h.opcode <= 15 || f.h.opcode == 0 then Outcome(f.bytes, 0, false)
              else if f.h.len > cap then Outcome([], 1, false)
              else Outcome(if f.h.fin then f.bytes else [], 0, false)
  {
    WholeFrame(cap, Idle, [], f, []);
    NoHeader();
    assert forall msg, held :: Through(cap, msg, held, []) == NOTHING;
    hide Through, Whole;
    assert f.bytes + [] == f.bytes && [] + f.bytes == f.bytes;
  }

  lemma NoHeader()
    ensures ParseHeader([]).None? && !IllegalLength([])
  {}

  // ----------------------------------------------------------- any stream at all

  /** Bytes that do not begin with a whole frame, or begin one refused. */
  predicate PartOfAFrame(t: seq<Byte>) {
    IllegalLength(t) ||
    match ParseHeader(t)
    case None => true
    case Some(h) => |t| < h.size + h.len
  }

  /** What becomes of such bytes, by their frame's header alone. */
  function Rest(cap: nat, msg: Msg, held: seq<Byte>, t: seq<Byte>): Outcome {
    if IllegalLength(t) then REFUSAL else
    match ParseHeader(t)
    case None => NOTHING
    case Some(h) =>
      match Judge(cap, msg, h)
      case Control => Outcome(t, 0, false)
      case Relay => Outcome(held + t, 0, false)
      case Drop(counted) => Outcome([], if counted then 1 else 0, false)
      case Keep(_) => NOTHING
  }

  lemma RestOfTheStream(cap: nat, msg: Msg, held: seq<Byte>, t: seq<Byte>)
    requires PartOfAFrame(t)
    ensures Through(cap, msg, held, t) == Rest(cap, msg, held, t)
  {
    if !IllegalLength(t) && ParseHeader(t).Some? {
      var h := ParseHeader(t).value;
      var header, rest := t[..h.size], t[h.size..];
      hide ParseHeader, IllegalLength, Judge;
      assert header + rest == t;
      assert (held + header) + rest == held + t;
    }
  }

  /** A stream cut into whole frames, and what is left of it. */
  ghost predicate Cut(s: seq<Byte>, fs: seq<Frame>, t: seq<Byte>) {
    s == Concat(fs) + t && (forall f | f in fs :: Whole(f)) && PartOfAFrame(t)
  }

  lemma FirstFrame(s: seq<Byte>) returns (f: Frame)
    requires !PartOfAFrame(s)
    ensures Whole(f) && 0 < |f.bytes| <= |s| && f.bytes == s[..|f.bytes|]
  {
    var h := ParseHeader(s).value;
    var header, payload, rest := s[..h.size], s[h.size..h.size + h.len], s[h.size..];
    f := Frame(h, s[..h.size + h.len]);
    HeaderIsAPrefix(s, []);
    HeaderIsAPrefix(header, payload);
    HeaderIsAPrefix(header, rest);
    hide ParseHeader, IllegalLength;
    assert header + payload == f.bytes && header + rest == s;
  }

  lemma ConcatThen(f: Frame, fs: seq<Frame>)
    ensures Concat([f] + fs) == f.bytes + Concat(fs)
  {
    assert ([f] + fs)[1..] == fs;
  }

  /** Every stream is some whole frames and a part of one. */
  lemma {:induction false} EveryStreamIsCut(s: seq<Byte>) returns (fs: seq<Frame>, t: seq<Byte>)
    ensures Cut(s, fs, t)
    decreases |s|
  {
    hide Whole, PartOfAFrame;
    if PartOfAFrame(s) {
      fs, t := [], s;
      assert Concat([]) + s == s;
    } else {
      hide Concat;
      var f := FirstFrame(s);
      var more;
      more, t := EveryStreamIsCut(s[|f.bytes|..]);
      fs := [f] + more;
      ConcatThen(f, more);
      assert s == f.bytes + s[|f.bytes|..];
      assert f.bytes + (Concat(more) + t) == f.bytes + Concat(more) + t;
    }
  }

  /** What comes of any stream at all: its whole frames frame by frame, then what
      is left after them. */
  lemma StreamHandedOn(cap: nat, fs: seq<Frame>, t: seq<Byte>)
    requires (forall f | f in fs :: Whole(f)) && PartOfAFrame(t)
    ensures Guarded(cap, Concat(fs) + t)
         == Before(Spell(fs, Out(cap, fs, 0)), PastTheCap(cap, fs, 0),
                   Rest(cap, MsgAt(cap, fs, |fs|), HeldAt(cap, fs, |fs|), t))
  {
    FramesFrom(cap, fs, 0, t);
    RestOfTheStream(cap, MsgAt(cap, fs, |fs|), HeldAt(cap, fs, |fs|), t);
    assert fs[0..] == fs && MsgAt(cap, fs, 0) == Idle && HeldAt(cap, fs, 0) == [];
    assert CountedAt(cap, fs, 0) == 0;
    hide Through, Concat, Out, PastTheCap, Spell, MsgAt, HeldAt, CountedAt, Rest;
  }

  /** A stream is refused if and only if its frames, read one after another, come
      to an illegal length. */
  lemma RefusedExactlyAtAnIllegalLength(cap: nat, s: seq<Byte>)
    ensures Guarded(cap, s).refused <==> exists fs, t :: Cut(s, fs, t) && IllegalLength(t)
  {
    hide Cut, Concat, Out, PastTheCap, Spell, MsgAt, HeldAt, Guarded;
    var gs, u := EveryStreamIsCut(s);
    CutDecides(cap, s, gs, u);
    forall fs, t | Cut(s, fs, t) ensures Guarded(cap, s).refused <==> IllegalLength(t) {
      CutDecides(cap, s, fs, t);
    }
  }

  lemma CutDecides(cap: nat, s: seq<Byte>, fs: seq<Frame>, t: seq<Byte>)
    requires Cut(s, fs, t)
    ensures Guarded(cap, s).refused <==> IllegalLength(t)
  {
    StreamHandedOn(cap, fs, t);
    hide Concat, Out, PastTheCap, Spell, MsgAt, HeldAt, Guarded;
  }

  // ------------------------------------------------------- which frames come out

  /** Frame `i` comes out where frame `m` stood. */
  predicate LeavesAt(cap: nat, fs: seq<Frame>, m: nat, i: nat) {
    m < |fs| && i in At(cap, fs, m)
  }

  lemma {:induction false} OutIsSomewhere(cap: nat, fs: seq<Frame>, k: nat, i: nat)
    requires k <= |fs|
    ensures i in Out(cap, fs, k) <==> exists m: nat :: k <= m && LeavesAt(cap, fs, m, i)
    decreases |fs| - k
  {
    if k == |fs| {
      assert Out(cap, fs, k) == [];
    } else {
      OutIsSomewhere(cap, fs, k + 1, i);
      OutHereOrOn(cap, fs, k, i);
      assert LeavesAt(cap, fs, k, i) <==> i in At(cap, fs, k);
      hide Out, At, LeavesAt;
    }
  }

  lemma OutHereOrOn(cap: nat, fs: seq<Frame>, k: nat, i: nat)
    requires k < |fs|
    ensures i in Out(cap, fs, k) <==> i in At(cap, fs, k) || i in Out(cap, fs, k + 1)
  {
    var here, on := At(cap, fs, k), Out(cap, fs, k + 1);
    assert Out(cap, fs, k) == here + on;
    hide Out, At;
  }

  lemma {:induction false} AmongDataFrames(fs: seq<Frame>, j: nat, k: nat, i: nat)
    requires j <= k <= |fs|
    ensures i in DataFrames(fs, j, k) <==> j <= i < k && !IsControl(fs[i].h)
    ensures i in DataFrames(fs, j, k) ==> fs[i].h.len <= Payload(fs, j, k)
  {
    if j < k {
      AmongDataFrames(fs, j, k - 1, i);
    }
  }

  /** A data frame past the cap leaves only where it stood itself, out of place. */
  lemma PastLeavesOutOfPlace(cap: nat, fs: seq<Frame>, m: nat, i: nat)
    requires i < |fs| && !IsControl(fs[i].h) && fs[i].h.len > cap
    ensures LeavesAt(cap, fs, m, i) <==> m == i && OutOfPlace(fs, i)
  {
    if m < |fs| {
      AmongDataFrames(fs, First(fs, m), m + 1, i);
      if Open(fs, m).Some? {
        AmongDataFrames(fs, Open(fs, m).value, m, i);
      }
      hide DataFrames, Payload;
    }
  }

  /** In any stream of whole frames, a data frame past the cap is handed on if
      and only if it is out of place, for the framing library to refuse. */
  lemma PastTheCapOnlyOutOfPlace(cap: nat, fs: seq<Frame>, i: nat)
    requires i < |fs| && !IsControl(fs[i].h) && fs[i].h.len > cap
    ensures i in Out(cap, fs, 0) <==> OutOfPlace(fs, i)
  {
    OutIsSomewhere(cap, fs, 0, i);
    forall m: nat ensures LeavesAt(cap, fs, m, i) <==> m == i && OutOfPlace(fs, i) {
      PastLeavesOutOfPlace(cap, fs, m, i);
    }
    hide LeavesAt, Out, OutOfPlace;
    assert LeavesAt(cap, fs, i, i) <==> OutOfPlace(fs, i);
  }

  /** Data frame `i` is one of a message within the cap whose last frame is `m`. */
  predicate OfAMessageWithin(cap: nat, fs: seq<Frame>, i: nat, m: nat) {
    && i <= m < |fs| && !IsControl(fs[m].h) && fs[m].h.fin && First(fs, m) <= i
    && Payload(fs, First(fs, m), m + 1) <= cap
  }

  lemma LeavesWithItsMessage(cap: nat, fs: seq<Frame>, m: nat, i: nat)
    requires WellFragmented(fs) && i < |fs| && !IsControl(fs[i].h)
    ensures LeavesAt(cap, fs, m, i) <==> OfAMessageWithin(cap, fs, i, m)
  {
    if m < |fs| {
      AmongDataFrames(fs, First(fs, m), m + 1, i);
      assert !OutOfPlace(fs, m);
      hide DataFrames, Payload;
    }
  }

  // ------------------------------------------------------------- once, in order

  /** With no message open after frame `m`, one open later began later. */
  lemma {:induction false} OpenedSince(fs: seq<Frame>, m: nat, k: nat)
    requires m < k <= |fs| && Open(fs, m + 1).None?
    ensures Open(fs, k).Some? ==> Open(fs, k).value > m
    decreases k
  {
    if m + 1 < k {
      OpenedSince(fs, m, k - 1);
    }
  }

  /** Which frames leave where frame `m` stood. */
  predicate LeavesWith(cap: nat, fs: seq<Frame>, m: nat, i: nat)
    requires m < |fs| && i < |fs|
  {
    if IsControl(fs[m].h) then i == m
    else if IsControl(fs[i].h) then false
    else if OutOfPlace(fs, m) then i == m || (MsgAt(cap, fs, m).Holding? && Open(fs, m).value <= i < m)
    else fs[m].h.fin && Payload(fs, First(fs, m), m + 1) <= cap && First(fs, m) <= i <= m
  }

  lemma LeavesAtIs(cap: nat, fs: seq<Frame>, m: nat, i: nat)
    requires m < |fs| && i < |fs|
    ensures LeavesAt(cap, fs, m, i) <==> LeavesWith(cap, fs, m, i)
  {
    AmongDataFrames(fs, First(fs, m), m + 1, i);
    if Open(fs, m).Some? {
      AmongDataFrames(fs, Open(fs, m).value, m, i);
    }
    hide DataFrames, Payload;
  }

  /** Where a data frame leaves, the message is over. */
  lemma LeavesAtTheEnd(cap: nat, fs: seq<Frame>, m: nat, i: nat)
    requires LeavesAt(cap, fs, m, i) && i < |fs|
    ensures i <= m < |fs| && (IsControl(fs[i].h) ==> i == m)
    ensures !IsControl(fs[i].h) ==> !IsControl(fs[m].h) && Open(fs, m + 1).None?
  {
    LeavesAtIs(cap, fs, m, i);
    hide LeavesAt, At, Payload, MsgAt;
  }

  /** A data frame leaves no earlier than its message began. */
  lemma LeavesAfterItsStart(cap: nat, fs: seq<Frame>, m: nat, i: nat)
    requires LeavesAt(cap, fs, m, i) && i < |fs| && !IsControl(fs[i].h)
    ensures m < |fs| && (i == m || (Open(fs, m).Some? && Open(fs, m).value <= i))
  {
    LeavesAtIs(cap, fs, m, i);
    hide LeavesAt, At, Payload, MsgAt;
  }

  lemma NotLeftAgain(cap: nat, fs: seq<Frame>, i: nat, m: nat, n: nat)
    requires i < |fs| && m < n && LeavesAt(cap, fs, m, i)
    ensures !LeavesAt(cap, fs, n, i)
  {
    hide At;
    LeavesAtTheEnd(cap, fs, m, i);
    if LeavesAt(cap, fs, n, i) {
      LeavesAtTheEnd(cap, fs, n, i);
      if !IsControl(fs[i].h) {
        LeavesAfterItsStart(cap, fs, n, i);
        OpenedSince(fs, m, n);
      }
    }
  }

  predicate Distinct(these: seq<nat>) {
    forall p, q | 0 <= p < q < |these| :: these[p] != these[q]
  }

  lemma {:induction false} DataFramesDistinct(fs: seq<Frame>, j: nat, k: nat)
    requires j <= k <= |fs|
    ensures Distinct(DataFrames(fs, j, k))
  {
    if j < k {
      DataFramesDistinct(fs, j, k - 1);
    }
  }

  lemma LeaveDistinct(cap: nat, fs: seq<Frame>, m: nat)
    requires m < |fs|
    ensures Distinct(At(cap, fs, m))
  {
    DataFramesDistinct(fs, First(fs, m), m + 1);
    if Open(fs, m).Some? {
      DataFramesDistinct(fs, Open(fs, m).value, m);
    }
    hide DataFrames, Payload;
  }

  lemma {:induction false} OutDistinct(cap: nat, fs: seq<Frame>, k: nat)
    requires k <= |fs|
    ensures Distinct(Out(cap, fs, k))
    decreases |fs| - k
  {
    if k < |fs| {
      OutDistinct(cap, fs, k + 1);
      LeaveDistinct(cap, fs, k);
      var here, on := At(cap, fs, k), Out(cap, fs, k + 1);
      assert Out(cap, fs, k) == here + on;
      forall i | i in here && i in on ensures false {
        OutIsSomewhere(cap, fs, k + 1, i);
        assert LeavesAt(cap, fs, k, i);
        var n: nat :| k + 1 <= n && LeavesAt(cap, fs, n, i);
        NotLeftAgain(cap, fs, i, k, n);
      }
      hide At, Out;
      DistinctBoth(here, on);
    }
  }

  lemma DistinctBoth(a: seq<nat>, b: seq<nat>)
    requires Distinct(a) && Distinct(b) && forall i | i in a :: i !in b
    ensures Distinct(a + b)
  {
    forall p, q | 0 <= p < q < |a + b| ensures (a + b)[p] != (a + b)[q] {
      if p < |a| <= q {
        assert a[p] in a && b[q - |a|] in b;
      }
    }
  }

  lemma OneThenTheOther(a: seq<nat>, b: seq<nat>, i: nat, j: nat) returns (p: nat, q: nat)
    requires i in a && j in b
    ensures p < q < |a + b| && (a + b)[p] == i && (a + b)[q] == j
  {
    p :| 0 <= p < |a| && a[p] == i;
    var x :| 0 <= x < |b| && b[x] == j;
    q := |a| + x;
  }

  lemma OutIs(cap: nat, fs: seq<Frame>, k: nat)
    requires k < |fs|
    ensures Out(cap, fs, k) == At(cap, fs, k) + Out(cap, fs, k + 1)
  {}

  lemma LeavesIsIn(cap: nat, fs: seq<Frame>, m: nat, i: nat)
    requires LeavesAt(cap, fs, m, i)
    ensures m < |fs| && i in At(cap, fs, m)
  {}

  /** What leaves where an earlier frame stood comes out earlier. */
  lemma {:induction false} OutInOrder(cap: nat, fs: seq<Frame>, k: nat, i: nat, m: nat, j: nat, n: nat)
    returns (p: nat, q: nat)
    requires k <= m < n && LeavesAt(cap, fs, m, i) && LeavesAt(cap, fs, n, j)
    ensures k < |fs| && p < q < |Out(cap, fs, k)| && Out(cap, fs, k)[p] == i && Out(cap, fs, k)[q] == j
    decreases |fs| - k
  {
    hide *;
    LeavesIsIn(cap, fs, m, i);
    LeavesIsIn(cap, fs, n, j);
    OutIs(cap, fs, k);
    var here, on := At(cap, fs, k), Out(cap, fs, k + 1);
    if k == m {
      OutIsSomewhere(cap, fs, k + 1, j);
      p, q := OneThenTheOther(here, on, i, j);
    } else {
      var x, y := OutInOrder(cap, fs, k + 1, i, m, j, n);
      p, q := |here| + x, |here| + y;
    }
  }

  /** Of any whole frames, none comes out twice, and the control frames all do, in
      their order. */
  lemma OnceAndInOrder(cap: nat, fs: seq<Frame>)
    ensures Distinct(Out(cap, fs, 0))
    ensures forall i | 0 <= i < |fs| && IsControl(fs[i].h) :: i in Out(cap, fs, 0)
    ensures var out := Out(cap, fs, 0);
            forall p, q | 0 <= p < q < |out| && IsControl(fs[out[p]].h) && IsControl(fs[out[q]].h) :: out[p] < out[q]
  {
    OutDistinct(cap, fs, 0);
    forall i | 0 <= i < |fs| && IsControl(fs[i].h) ensures LeavesAt(cap, fs, i, i) && i in Out(cap, fs, 0) {
      assert LeavesAt(cap, fs, i, i);
      OutIsSomewhere(cap, fs, 0, i);
    }
    var out := Out(cap, fs, 0);
    hide Out, At, LeavesAt;
    forall p, q | 0 <= p < q < |out| && IsControl(fs[out[p]].h) && IsControl(fs[out[q]].h) ensures out[p] < out[q] {
      if out[q] < out[p] {
        var x, y := OutInOrder(cap, fs, 0, out[q], out[q], out[p], out[p]);
      }
    }
  }

  /** Message preservation, for any whole frames fragmented by the rules: the
      data frames that come out are those of the messages within the cap that
      came to their last frame, each once; and every control frame comes out,
      once and in order. */
  lemma MessagesPreserved(cap: nat, fs: seq<Frame>)
    requires (forall f | f in fs :: Whole(f)) && WellFragmented(fs)
    ensures Guarded(cap, Concat(fs)) == Outcome(Spell(fs, Out(cap, fs, 0)), PastTheCap(cap, fs, 0), false)
    ensures forall i | 0 <= i < |fs| && !IsControl(fs[i].h) ::
              i in Out(cap, fs, 0) <==> exists m: nat :: OfAMessageWithin(cap, fs, i, m)
    ensures Distinct(Out(cap, fs, 0))
    ensures forall i | 0 <= i < |fs| && IsControl(fs[i].h) :: i in Out(cap, fs, 0)
    ensures var out := Out(cap, fs, 0);
            forall p, q | 0 <= p < q < |out| && IsControl(fs[out[p]].h) && IsControl(fs[out[q]].h) :: out[p] < out[q]
  {
    FramesHandedOn(cap, fs);
    OnceAndInOrder(cap, fs);
    hide Out, At, LeavesAt, OfAMessageWithin, Guarded, Concat, WellFragmented;
    forall i | 0 <= i < |fs| && !IsControl(fs[i].h)
      ensures i in Out(cap, fs, 0) <==> exists m: nat :: OfAMessageWithin(cap, fs, i, m)
    {
      OutIsSomewhere(cap, fs, 0, i);
      forall m: nat ensures LeavesAt(cap, fs, m, i) <==> OfAMessageWithin(cap, fs, i, m) {
        LeavesWithItsMessage(cap, fs, m, i);
      }
    }
  }
}
