/** The guard itself: a machine that can be suspended at any byte, reading a
    socket whose client and network choose every chunk. */
module Guard {
  import opened Base
  import opened Wire
  import opened GuardSpec
  import opened GuardSteps

  // ---------------------------------------------------------------- the socket

  /** What the network does next: some bytes arrive, nothing is there yet, or
      the read fails. After the last of these the stream has ended. */
  datatype Arrival = Bytes(b: seq<Byte>) | NotYet | Fault

  /** A read's answer; `Data([])` is the stream's end. */
  datatype SocketRead = Data(b: seq<Byte>) | Waiting | Failed

  /** The bytes the client sends, however they are cut up. */
  function Stream(coming: seq<Arrival>): seq<Byte> {
    if coming == [] then []
    else (if coming[0].Bytes? then coming[0].b else []) + Stream(coming[1..])
  }

  /** The times the socket will have nothing yet, and those it will fail. */
  function Pauses(coming: seq<Arrival>): nat {
    if coming == [] then 0
    else (if coming[0].NotYet? || (coming[0].Bytes? && coming[0].b == []) then 1 else 0) + Pauses(coming[1..])
  }

  function Faults(coming: seq<Arrival>): nat {
    if coming == [] then 0 else (if coming[0].Fault? then 1 else 0) + Faults(coming[1..])
  }

  /** Of what was to come, one pause is over if the reader was told to wait, and
      one fault if it was told of one; and no others. */
  predicate Told(was: seq<Arrival>, coming: seq<Arrival>, paused: bool, failed: bool) {
    && Pauses(was) == Pauses(coming) + (if paused then 1 else 0)
    && Faults(was) == Faults(coming) + (if failed then 1 else 0)
  }

  class Socket {
    var coming: seq<Arrival>

    constructor (coming: seq<Arrival>)
      ensures this.coming == coming
    {
      this.coming := coming;
    }

    ghost function Ahead(): seq<Byte>
      reads this
    {
      Stream(coming)
    }

    ghost function Cost(): nat
      reads this
    {
      |coming| + |Ahead()|
    }

    /** At most `room` of the bytes that have arrived. */
    method Read(room: nat) returns (r: SocketRead)
      requires room > 0
      modifies this
      ensures r.Data? ==> |r.b| <= room && old(Ahead()) == r.b + Ahead()
      ensures r.Data? && r.b == [] ==> coming == [] && unchanged(this)
      ensures r.Data? ==> Cost() + |r.b| <= old(Cost())
      ensures !r.Data? ==> Ahead() == old(Ahead()) && Cost() < old(Cost())
      ensures Told(old(coming), coming, r.Waiting?, r.Failed?)
    {
      if coming == [] {
        return Data([]);
      }
      var next, later := coming[0], coming[1..];
      match next
      case Bytes(b) =>
        if b == [] {
          coming := later;
          return Waiting;
        }
        var k := Min(room, |b|);
        assert b + Stream(later) == b[..k] + (b[k..] + Stream(later));
        if k == |b| {
          coming := later;
        } else {
          coming := [Bytes(b[k..])] + later;
          assert coming[1..] == later;
        }
        return Data(b[..k]);
      case NotYet =>
        coming := later;
        return Waiting;
      case Fault =>
        coming := later;
        return Failed;
    }
  }

  // ----------------------------------------------------------------- the guard

  /** A read of the guard: more must arrive first, bytes handed on (none at the
      stream's end), the socket's own failure, or the guard's refusal. */
  datatype ReadResult = Pending | Ok | IoError | Refused

  /** One turn of the guard's loop: go round again, or the read is done. */
  datatype Progress = Again | Done(r: ReadResult, got: seq<Byte>)

  predicate ToldOf(was: seq<Arrival>, coming: seq<Arrival>, p: Progress) {
    Told(was, coming, p.Done? && p.r.Pending?, p.Done? && p.r.IoError?)
  }

  /** `checked_add` on 64 bits. */
  function CheckedAdd(a: nat, b: nat): Option<nat> {
    if a + b <= U64_MAX then Some(a + b) else None
  }

  class Guard {
    const io: Socket
    const cap: nat
    var buf: seq<Byte>      // in from the socket, its fate perhaps open
    var ready: seq<Byte>    // messages let go, out ahead of `buf`
    var hold: seq<Byte>     // what there is of a message not complete yet
    var state: In
    var msg: Msg
    var release: bool       // this fragment completes its message
    var dropped: nat        // how many messages were too large

    /** A frame with an illegal length is next: every read refuses. */
    ghost predicate Refusing()
      reads this
    {
      state.AtHeader? && IllegalLength(buf)
    }

    ghost predicate Valid()
      reads this
    {
      && cap <= U64_MAX
      && (release ==> state.Hold?)
      && (state.Hold? ==> msg.Holding?)
      && (state.Skip? ==> !msg.Holding?)
      && (!msg.Holding? ==> hold == [])
      && (msg.Holding? && !Refusing() ==>
            msg.len <= cap && Holds(hold, if state.Hold? then state.n else 0, msg.len))
    }

    /** The bytes the guard has not looked at, read or still to come. */
    ghost function Unread(): seq<Byte>
      reads this, io
    {
      buf + io.Ahead()
    }

    /** What is still to be handed on, counted and refused. */
    ghost function Owed(): Outcome
      reads this, io
    {
      Before(ready, 0, Onward(cap, state, msg, release, hold, Unread()))
    }

    /** What the bytes already read oblige the guard to do. */
    ghost function OwedNow(): Outcome
      reads this
    {
      Before(ready, 0, Onward(cap, state, msg, release, hold, buf))
    }

    /** The bytes read stop short of the next decision. */
    ghost predicate Quiet()
      reads this
    {
      && ready == []
      && (if state.AtHeader? then !IllegalLength(buf) && ParseHeader(buf).None? else buf == [] && state.n > 0)
    }

    /** A guard that waits holds back nothing the bytes read have settled. */
    lemma QuietOwesNothing()
      requires Quiet()
      ensures OwedNow() == NOTHING
    {
      ShortOfADecision(cap, state, msg, release, hold, buf);
    }

    lemma EndOwesNothing()
      requires Quiet() && io.coming == []
      ensures Owed() == NOTHING
    {
      QuietOwesNothing();
      assert Unread() == buf;
    }

    /** One that refuses owes nothing else, whatever the client still sends. */
    lemma RefusingOwesRefusal()
      requires Refusing() && ready == []
      ensures Owed() == OwedNow() == REFUSAL
    {
      RefusedWhatever(cap, msg, hold, buf, io.Ahead());
    }

    /** Until a refusal, the payload bytes held and those awaited make up the
        message's length so far, which is within the cap. */
    lemma HoldAccount()
      requires Valid() && msg.Holding? && !Refusing()
      ensures PayloadBytes(hold) + (if state.Hold? then state.n else 0) == msg.len <= cap
    {
      HeldPlusAwaited(hold, if state.Hold? then state.n else 0, msg.len);
    }

    ghost function Cost(): nat
      reads this, io
    {
      |ready| + |hold| + |buf| + io.Cost()
    }

    constructor (io: Socket, cap: nat)
      requires cap <= U64_MAX
      ensures Valid() && this.io == io && this.cap == cap && dropped == 0
      ensures Owed() == Guarded(cap, io.Ahead())
      ensures Cost() == io.Cost() && !Refusing()
    {
      this.io, this.cap := io, cap;
      buf, ready, hold := [], [], [];
      state, msg, release, dropped := AtHeader, Idle, false, 0;
      new;
      assert [] + io.Ahead() == io.Ahead();
    }

    /** A frame's fate is settled by its header, which `buf` begins with. */
    method Decide(h: Header)
      requires Valid() && state.AtHeader? && ready == []
      requires !IllegalLength(buf) && ParseHeader(buf) == Some(h)
      modifies this
      ensures Valid()
      ensures dropped >= old(dropped) && old(Owed()) == Before([], dropped - old(dropped), Owed())
      ensures Cost() <= old(Cost())
      ensures |buf| < old(|buf|) || (buf == old(buf) && state.Pass? && state.n > 0)
    {
      hide ParseHeader, IllegalLength, Holds;
      if h.opcode >= 8 {
        // No data: the framing library judges it.
        ControlOwes(cap, msg, hold, buf, io.Ahead(), h);
        state := Pass(Total(h));
      } else if h.opcode == 0 {
        DecideContinuation(h);
      } else {
        DecideNewMessage(h);
      }
    }

    method DecideContinuation(h: Header)
      requires Valid() && state.AtHeader? && ready == []
      requires !IllegalLength(buf) && ParseHeader(buf) == Some(h) && h.opcode == 0
      modifies this
      ensures Valid()
      ensures dropped >= old(dropped) && old(Owed()) == Before([], dropped - old(dropped), Owed())
      ensures Cost() <= old(Cost())
      ensures |buf| < old(|buf|) || (buf == old(buf) && state.Pass? && state.n > 0)
    {
      hide ParseHeader, IllegalLength;
      match msg
      case Skipping =>
        DropFrame(h, false);
      case Holding(len) =>
        var sum := CheckedAdd(len, h.len);
        if sum.None? || sum.value > cap {
          DropFrame(h, true);
        } else {
          HoldOwes(cap, msg, hold, buf, io.Ahead(), h);
          HoldFrame(h.size, h.len, h.fin, sum.value);
        }
      case Idle =>
        // No message to continue: untouched, as any the library refuses.
        RelayOwes(cap, msg, hold, buf, io.Ahead(), h);
        HandOn(Total(h));
    }

    method DecideNewMessage(h: Header)
      requires Valid() && state.AtHeader? && ready == []
      requires !IllegalLength(buf) && ParseHeader(buf) == Some(h) && 0 < h.opcode < 8
      modifies this
      ensures Valid()
      ensures dropped >= old(dropped) && old(Owed()) == Before([], dropped - old(dropped), Owed())
      ensures Cost() <= old(Cost())
      ensures |buf| < old(|buf|) || (buf == old(buf) && state.Pass? && state.n > 0)
    {
      hide ParseHeader, IllegalLength;
      if !msg.Idle? || (h.len <= cap && h.fin) {
        // Inside a message held, which goes out first as it came, or dropped;
        // or whole and within the cap.
        RelayOwes(cap, msg, hold, buf, io.Ahead(), h);
        HandOn(Total(h));
      } else if h.len > cap {
        DropFrame(h, true);
      } else {
        HoldOwes(cap, msg, hold, buf, io.Ahead(), h);
        HoldFrame(h.size, h.len, h.fin, h.len);
      }
    }

    /** The frame, `total` bytes of it, goes on as it comes, whatever is held
        before it. */
    method HandOn(total: nat)
      requires Valid() && state.AtHeader? && ready == [] && total > 0
      requires Through(cap, msg, hold, Unread()) == Before(hold, 0, Passing(cap, Idle, [], total, Unread()))
      modifies this
      ensures Valid() && dropped == old(dropped)
      ensures old(Owed()) == Owed()
      ensures Cost() <= old(Cost())
      ensures buf == old(buf) && state.Pass? && state.n > 0
    {
      assert [] + hold == hold;
      ready := ready + hold;
      hold := [];
      msg := Idle;
      state := Pass(total);
    }

    /** The frame is dropped as it streams in, with anything held; the first of
        its message past the cap is counted. */
    method DropFrame(h: Header, count: bool)
      requires Valid() && state.AtHeader? && ready == []
      requires !IllegalLength(buf) && ParseHeader(buf) == Some(h)
      requires Judge(cap, msg, h) == Drop(count)
      modifies this
      ensures Valid() && dropped == old(dropped) + (if count then 1 else 0)
      ensures old(Owed()) == Before([], dropped - old(dropped), Owed())
      ensures Cost() <= old(Cost()) && |buf| < old(|buf|)
    {
      hide ParseHeader, IllegalLength;
      DropOwes(cap, msg, hold, buf, io.Ahead(), h);
      buf := buf[h.size..];
      hold := [];
      state := Skip(h.len);
      msg := if h.fin then Idle else Skipping;
      if count {
        dropped := dropped + 1;
      }
    }

    /** A fragment is kept back: the `size` bytes of its header now, its payload
        of `len` as that arrives. It brings its message to `total`, and completes
        it if `fin`. */
    method HoldFrame(size: nat, len: nat, fin: bool, total: nat)
      requires Valid() && state.AtHeader? && ready == [] && 0 < size <= |buf| && total <= cap
      requires Through(cap, msg, hold, Unread()) ==
               Keeping(cap, total, fin, hold + buf[..size], len, buf[size..] + io.Ahead())
      requires Holds(hold + buf[..size], len, total)
      modifies this
      ensures Valid() && dropped == old(dropped)
      ensures old(Owed()) == Owed()
      ensures Cost() <= old(Cost()) && |buf| < old(|buf|)
    {
      msg := Holding(total);
      hold := hold + buf[..size];
      buf := buf[size..];
      release := fin;
      state := Hold(len);
      if len == 0 {
        EndHold();
      }
    }

    /** All of a kept fragment has arrived. The guard looks for a header again,
        and lets the message go if nothing of it is missing. */
    method EndHold()
      requires Valid() && state == Hold(0)
      modifies this
      ensures Valid() && state.AtHeader? && dropped == old(dropped)
      ensures Owed() == old(Owed())
      ensures buf == old(buf) && Cost() == old(Cost())
    {
      DoneWith(cap, msg, msg.len, hold, Unread());
      BeforeBefore(ready, 0, hold, 0, Through(cap, Idle, [], Unread()));
      state := AtHeader;
      if release {
        ready := ready + hold;
        hold := [];
        msg := Idle;
        release := false;
      }
    }

    /** How far the guard is from handing something on or needing more. */
    ghost function Rank(): nat
      reads this
    {
      if state.AtHeader? then 1 else if state.n == 0 then 2 else 0
    }

    /** As much of the released fragments as fits. */
    method HandReady(room: nat) returns (got: seq<Byte>)
      requires Valid() && ready != []
      modifies this
      ensures Valid() && dropped == old(dropped) && |got| <= room
      ensures old(Owed()) == Before(got, 0, Owed())
      ensures Cost() + |got| <= old(Cost()) && (room > 0 ==> got != [])
    {
      var k := Min(|ready|, room);
      got := ready[..k];
      assert ready == got + ready[k..];
      ready := ready[k..];
    }

    /** As much of the frame being passed on as is buffered and fits. */
    method PassBuffered(room: nat) returns (got: seq<Byte>)
      requires Valid() && ready == [] && state.Pass? && state.n > 0 && buf != []
      modifies this
      ensures Valid() && dropped == old(dropped) && |got| <= room
      ensures old(Owed()) == Before(got, 0, Owed())
      ensures Cost() + |got| <= old(Cost()) && (room > 0 ==> got != [])
    {
      var k := Min(Min(state.n, |buf|), room);
      got := buf[..k];
      assert buf + io.Ahead() == got + (buf[k..] + io.Ahead());
      PassSome(cap, state.n, msg, hold, got, buf[k..] + io.Ahead());
      BeforeNothing(Passing(cap, msg, hold, state.n, Unread()));
      BeforeNothing(Passing(cap, msg, hold, state.n - k, buf[k..] + io.Ahead()));
      buf := buf[k..];
      state := Pass(state.n - k);
    }

    /** With an empty buffer the socket fills the reader's own, up to where the
        frame ends. */
    method PassStraight(room: nat) returns (r: ReadResult, got: seq<Byte>)
      requires Valid() && ready == [] && state.Pass? && state.n > 0 && buf == [] && room > 0
      modifies this`state, io
      ensures Valid() && |got| <= room
      ensures !r.Refused? && (!r.Ok? ==> got == [])
      ensures old(Owed()) == Before(got, 0, Owed())
      ensures Cost() + |got| <= old(Cost()) && (!r.Ok? ==> Cost() < old(Cost()))
      ensures got == [] ==> state == old(state) && (r.Ok? ==> io.coming == [])
      ensures Told(old(io.coming), io.coming, r.Pending?, r.IoError?)
    {
      hide ParseHeader, IllegalLength, Holds, Told;
      ghost var owed := Owed();
      assert owed == Passing(cap, msg, hold, state.n, io.Ahead()) by {
        assert buf + io.Ahead() == io.Ahead();
        BeforeNothing(Passing(cap, msg, hold, state.n, io.Ahead()));
      }
      var x := io.Read(Min(state.n, room));
      r := if x.Waiting? then Pending else if x.Failed? then IoError else Ok;
      got := if x.Data? then x.b else [];
      assert old(io.Ahead()) == got + io.Ahead();
      assert owed == Before(got, 0, Passing(cap, msg, hold, state.n - |got|, io.Ahead())) by {
        PassSome(cap, state.n, msg, hold, got, io.Ahead());
      }
      if |got| > 0 {
        state := Pass(state.n - |got|);
      }
      assert Owed() == Passing(cap, msg, hold, state.n, io.Ahead()) by {
        assert buf + io.Ahead() == io.Ahead();
        BeforeNothing(Passing(cap, msg, hold, state.n, io.Ahead()));
      }
    }

    /** As much of the fragment being held as is buffered. */
    method HoldBuffered()
      requires Valid() && ready == [] && state.Hold? && state.n > 0 && buf != []
      modifies this
      ensures Valid() && dropped == old(dropped)
      ensures old(Owed()) == Owed()
      ensures Cost() <= old(Cost()) && |buf| < |old(buf)|
    {
      hide ParseHeader, IllegalLength;
      var k := Min(state.n, |buf|);
      var more := buf[..k];
      assert buf + io.Ahead() == more + (buf[k..] + io.Ahead());
      HoldSome(cap, msg.len, release, state.n, hold, more, buf[k..] + io.Ahead());
      HoldsMorePayload(hold, state.n, msg.len, more);
      hold := hold + more;
      buf := buf[k..];
      state := Hold(state.n - k);
      if state.n == 0 {
        EndHold();
      }
    }

    /** As much of the frame being dropped as is buffered. */
    method SkipBuffered()
      requires Valid() && state.Skip? && state.n > 0 && buf != []
      modifies this
      ensures Valid() && dropped == old(dropped)
      ensures old(Owed()) == Owed()
      ensures Cost() <= old(Cost()) && |buf| < |old(buf)|
    {
      var k := Min(state.n, |buf|);
      assert buf + io.Ahead() == buf[..k] + (buf[k..] + io.Ahead());
      SkipSome(cap, state.n, msg, buf[..k], buf[k..] + io.Ahead());
      buf := buf[k..];
      state := Skip(state.n - k);
    }

    /** The machine has moved on, so its loop ends: fewer bytes to come, or
        fewer buffered, or nearer to handing something on. */
    twostate predicate Nearer()
      reads this, io
    {
      || io.Cost() < old(io.Cost())
      || (io.Cost() == old(io.Cost()) && |buf| < old(|buf|))
      || (io.Cost() == old(io.Cost()) && |buf| == old(|buf|) && Rank() < old(Rank()))
    }

    /** What is buffered decides nothing: the buffer is filled further, with
        room for 4096 bytes or more. */
    method Fill() returns (p: Progress)
      requires Valid() && Quiet()
      modifies this`buf, io
      ensures Valid() && Owed() == old(Owed()) && Cost() <= old(Cost())
      ensures p.Again? ==> io.Cost() < old(io.Cost())
      ensures p.Done? ==> p.got == [] && Quiet() && !p.r.Refused?
      ensures p.Done? ==> if p.r.Ok? then io.coming == [] else Cost() < old(Cost())
      ensures ToldOf(old(io.coming), io.coming, p)
    {
      var spare: nat :| spare >= 4096;
      var x := io.Read(spare);
      match x
      case Waiting => return Done(Pending, []);
      case Failed => return Done(IoError, []);
      case Data(b) =>
        assert buf + (b + io.Ahead()) == (buf + b) + io.Ahead();
        if b == [] {
          return Done(Ok, []);
        }
        buf := buf + b;
        return Again;
    }

    /** At a header, perhaps not all there yet. */
    method AtHeaderStep() returns (p: Progress)
      requires Valid() && ready == [] && state.AtHeader?
      modifies this, io
      ensures Valid() && dropped >= old(dropped) && Cost() <= old(Cost())
      ensures old(Owed()) == Before([], dropped - old(dropped), Owed())
      ensures p.Again? ==> Nearer() && !old(Refusing())
      ensures p.Done? ==> p.got == [] && (p.r.Refused? || Quiet())
      ensures p.Done? && p.r.Ok? ==> io.coming == []
      ensures p.Done? && (p.r.Pending? || p.r.IoError?) ==> Cost() < old(Cost())
      ensures p.Done? && p.r.Refused? ==> Refusing() && ready == [] && hold == []
      ensures old(Refusing()) ==> p == Done(Refused, []) && dropped == old(dropped) && buf == old(buf)
      ensures ToldOf(old(io.coming), io.coming, p)
    {
      if IllegalLength(buf) {
        hold := [];
        return Done(Refused, []);
      }
      var h := ParseHeader(buf);
      if h.Some? {
        Decide(h.value);
        return Again;
      }
      p := Fill();
    }

    /** Inside a frame or at its end. */
    method InsideStep(room: nat) returns (p: Progress)
      requires Valid() && ready == [] && !state.AtHeader?
      modifies this, io
      ensures Valid() && dropped == old(dropped) && Cost() <= old(Cost())
      ensures p.Again? ==> Nearer() && Owed() == old(Owed())
      ensures p.Done? ==> |p.got| <= room && !p.r.Refused? && (!p.r.Ok? ==> p.got == [])
      ensures p.Done? ==> old(Owed()) == Before(p.got, 0, Owed()) && Cost() + |p.got| <= old(Cost())
      ensures p.Done? && room > 0 && p.got == [] ==> Quiet() && (p.r.Ok? ==> io.coming == [])
      ensures p.Done? && p.r.Pending? ==> Quiet()
      ensures p.Done? && (p.r.Pending? || p.r.IoError?) ==> Cost() < old(Cost())
      ensures ToldOf(old(io.coming), io.coming, p)
    {
      hide ParseHeader, IllegalLength, Holds;
      if state.n == 0 {
        if state.Hold? {
          EndHold();
        } else {
          state := AtHeader;
        }
        return Again;
      }
      if state.Pass? {
        if buf != [] {
          var got := PassBuffered(room);
          return Done(Ok, got);
        }
        if room == 0 {
          return Done(Ok, []);
        }
        var r, got := PassStraight(room);
        return Done(r, got);
      }
      if buf == [] {
        p := Fill();
      } else if state.Hold? {
        HoldBuffered();
        return Again;
      } else {
        SkipBuffered();
        return Again;
      }
    }

    /** Once round the loop of a read. */
    method Turn(room: nat) returns (p: Progress)
      requires Valid()
      modifies this, io
      ensures Valid() && dropped >= old(dropped) && Cost() <= old(Cost())
      ensures p.Again? ==> Nearer() && old(Owed()) == Before([], dropped - old(dropped), Owed())
      ensures p.Done? ==> old(Owed()) == Before(p.got, dropped - old(dropped), Owed())
      ensures p.Done? ==> |p.got| <= room && (!p.r.Ok? ==> p.got == []) && Cost() + |p.got| <= old(Cost())
      ensures p.Done? && (p.r.Pending? || (p.r.Ok? && p.got == [] && room > 0)) ==> Quiet()
      ensures p.Done? && p.r.Ok? && p.got == [] && room > 0 ==> io.coming == []
      ensures p.Done? && p.r.Refused? ==> Refusing() && ready == [] && hold == []
      ensures old(Refusing() && ready == []) ==> p == Done(Refused, []) && dropped == old(dropped) && buf == old(buf)
      ensures p.Done? && (p.r.Pending? || p.r.IoError?) ==> Cost() < old(Cost())
      ensures ToldOf(old(io.coming), io.coming, p)
    {
      hide Onward, ParseHeader, IllegalLength, Holds;
      if ready != [] {
        var got := HandReady(room);
        return Done(Ok, got);
      } else if state.AtHeader? {
        p := AtHeaderStep();
      } else {
        p := InsideStep(room);
      }
    }

    /** One read into a buffer with room for `room` bytes. */
    method PollRead(room: nat) returns (r: ReadResult, got: seq<Byte>)
      requires Valid()
      modifies this, io
      ensures Valid() && |got| <= room && (!r.Ok? ==> got == [])
      // What is handed on and counted is exactly what was owed, and the rest
      // is owed still.
      ensures dropped >= old(dropped) && old(Owed()) == Before(got, dropped - old(dropped), Owed())
      // It waits, or reports the end, only when the bytes read oblige it to
      // nothing more; it reports the end only at the end.
      ensures r.Pending? || (r.Ok? && got == [] && room > 0) ==> Quiet()
      ensures r.Ok? && got == [] && room > 0 ==> io.coming == []
      // A refusal comes after everything before it, keeps nothing, and stays.
      ensures r.Refused? ==> Refusing() && ready == [] && hold == []
      ensures old(Refusing() && ready == []) ==> r.Refused? && dropped == old(dropped) && buf == old(buf)
      // Reading goes on to an end.
      ensures Cost() + |got| <= old(Cost()) && (r.Pending? || r.IoError? ==> Cost() < old(Cost()))
      // It waits when the socket told it to, and fails when the socket did.
      ensures Told(old(io.coming), io.coming, r.Pending?, r.IoError?)
    {
      hide Onward, ParseHeader, IllegalLength, Holds, Pauses, Faults;
      while true
        invariant Valid()
        invariant dropped >= old(dropped) && old(Owed()) == Before([], dropped - old(dropped), Owed())
        invariant Cost() <= old(Cost()) && Told(old(io.coming), io.coming, false, false)
        invariant old(Refusing() && ready == []) ==>
                    Refusing() && ready == [] && dropped == old(dropped) && buf == old(buf)
        decreases io.Cost(), |buf|, Rank()
      {
        ghost var n, owed := dropped - old(dropped), Owed();
        var p := Turn(room);
        ghost var out := if p.Done? then p.got else [];
        assert old(Owed()) == Before(out, dropped - old(dropped), Owed()) by {
          assert [] + out == out;
        }
        if p.Done? {
          return p.r, p.got;
        }
      }
    }

    /** One read on the way to the end: `out` has been received so far of what
        `all` promises. */
    method ReadOnto(room: nat, out: seq<Byte>, ghost all: Outcome) returns (more: seq<Byte>, done: bool, refused: bool)
      requires Valid() && room > 0 && all == Before(out, dropped, Owed())
      modifies this, io
      ensures Valid() && all == Before(more, dropped, Owed())
      ensures done ==> all == Outcome(more, dropped, refused)
      ensures !done ==> Cost() < old(Cost())
    {
      hide Onward, ParseHeader, IllegalLength, Holds;
      ghost var n := dropped;
      var r, got := PollRead(room);
      more := out + got;
      assert all == Before(more, dropped, Owed()) by {
        BeforeBefore(out, n, got, dropped - n, Owed());
      }
      refused := r.Refused?;
      done := refused || (r.Ok? && got == []);
      if done {
        assert Owed() == Outcome([], 0, refused) by {
          if refused {
            RefusingOwesRefusal();
          } else {
            EndOwesNothing();
          }
        }
        assert more + [] == more;
      }
    }
  }

  // ------------------------------------------------------------- whole streams

  /** A reader reads a socket to its end, its i-th buffer of any size
      `rooms(i)`. However the client's bytes are cut into arrivals, delayed or
      interrupted by failed reads, and whatever the buffers, it receives what
      the stream alone determines. */
  method ReadToEnd(coming: seq<Arrival>, cap: nat, rooms: nat -> nat)
    returns (out: seq<Byte>, dropped: nat, refused: bool)
    requires cap <= U64_MAX && forall i :: rooms(i) > 0
    ensures Outcome(out, dropped, refused) == Guarded(cap, Stream(coming))
  {
    var io := new Socket(coming);
    var g := new Guard(io, cap);
    ghost var all := Guarded(cap, Stream(coming));
    out, refused := [], false;
    var i, done := 0, false;
    while !done
      invariant g.Valid() && fresh(g) && fresh(g.io)
      invariant all == Before(out, g.dropped, g.Owed())
      invariant done ==> all == Outcome(out, g.dropped, refused)
      decreases !done, g.Cost()
    {
      out, done, refused := g.ReadOnto(rooms(i), out, all);
      i := i + 1;
    }
    dropped := g.dropped;
  }
}
