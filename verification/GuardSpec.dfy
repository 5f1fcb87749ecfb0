/** What the guard promises, as a function of the client's whole byte stream:
    the stream is read as frames, each frame's fate is decided by its header
    alone, and lengths are plain numbers that neither wrap nor saturate. No
    read, chunk or buffer appears here. */
module GuardSpec {
  import opened Base
  import opened Wire

  /** The message a data frame would continue. */
  datatype Msg = Idle | Holding(len: nat) | Skipping

  /** What becomes of a stream: the bytes handed on, the messages dropped and
      counted, and whether reading it ends in a refusal. */
  datatype Outcome = Outcome(out: seq<Byte>, dropped: nat, refused: bool)

  const NOTHING := Outcome([], 0, false)
  const REFUSAL := Outcome([], 0, true)

  /** `bytes` handed on and `dropped` messages counted before `rest`. */
  function Before(bytes: seq<Byte>, dropped: nat, rest: Outcome): Outcome {
    Outcome(bytes + rest.out, dropped + rest.dropped, rest.refused)
  }

  lemma BeforeBefore(a: seq<Byte>, m: nat, b: seq<Byte>, n: nat, o: Outcome)
    ensures Before(a, m, Before(b, n, o)) == Before(a + b, m + n, o)
  {
    assert a + (b + o.out) == (a + b) + o.out;
  }

  lemma BeforeNothing(o: Outcome)
    ensures Before([], 0, o) == o
  {}

  /** A frame's fate. */
  datatype Fate =
    | Control               // handed on, the message untouched
    | Relay                 // handed on as it came, after anything held
    | Keep(total: nat)      // held: the message is `total` bytes so far
    | Drop(counted: bool)   // dropped, with anything held

  function Judge(cap: nat, msg: Msg, h: Header): Fate {
    if IsControl(h) then Control
    else if h.opcode == 0 then
      match msg
      case Skipping => Drop(false)
      case Holding(len) => if len + h.len > cap then Drop(true) else Keep(len + h.len)
      case Idle => Relay
    else if msg.Idle? then
      if h.len > cap then Drop(true) else if h.fin then Relay else Keep(h.len)
    else Relay
  }

  /** A frame the guard passes on although the message state does not expect
      it (section 5.4 of RFC 6455): a continuation of
      nothing, or a message begun inside another. */
  predicate Stray(msg: Msg, h: Header) {
    !IsControl(h) && (h.opcode == 0 <==> msg.Idle?)
  }

  function After(h: Header, open: Msg): Msg {
    if h.fin then Idle else open
  }

  /** The outcome of the stream `s` from a frame's header on, with the message
      at `msg` and `held` held: the frame's fate, then what follows it. */
  function Through(cap: nat, msg: Msg, held: seq<Byte>, s: seq<Byte>): Outcome
    decreases |s|, 0
  {
    if IllegalLength(s) then REFUSAL else
    match ParseHeader(s)
    case None => NOTHING
    case Some(h) =>
      var header, rest := s[..h.size], s[h.size..];
      match Judge(cap, msg, h)
      case Control => Before(header, 0, Passing(cap, msg, held, h.len, rest))
      case Relay => Before(held + header, 0, Passing(cap, Idle, [], h.len, rest))
      case Drop(counted) => Before([], if counted then 1 else 0, Dropping(cap, After(h, Skipping), h.len, rest))
      case Keep(total) => Keeping(cap, total, h.fin, held + header, h.len, rest)
  }

  /** `n` more bytes are handed on as they come. */
  function Passing(cap: nat, msg: Msg, held: seq<Byte>, n: nat, s: seq<Byte>): Outcome
    decreases |s|, 1
  {
    if |s| < n then Outcome(s, 0, false) else Before(s[..n], 0, Through(cap, msg, held, s[n..]))
  }

  /** `n` more bytes are dropped. */
  function Dropping(cap: nat, msg: Msg, n: nat, s: seq<Byte>): Outcome
    decreases |s|, 1
  {
    if |s| < n then NOTHING else Through(cap, msg, [], s[n..])
  }

  /** `n` more bytes are held, and settle nothing until the last has come; if
      `last`, they are their message's last and all of it goes out. */
  function Keeping(cap: nat, total: nat, last: bool, held: seq<Byte>, n: nat, s: seq<Byte>): Outcome
    decreases |s|, 1
  {
    if |s| < n then NOTHING
    else if last then Before(held + s[..n], 0, Through(cap, Idle, [], s[n..]))
    else Through(cap, Holding(total), held + s[..n], s[n..])
  }

  /** The guard's promise for a fresh socket. */
  function Guarded(cap: nat, s: seq<Byte>): Outcome {
    Through(cap, Idle, [], s)
  }

  /** A refusal is seen at the frame's third byte, and nothing after it
      matters. */
  lemma RefusedAtTheThirdByte(cap: nat, msg: Msg, held: seq<Byte>, s: seq<Byte>, t: seq<Byte>)
    requires |s| == 3 && IllegalLength(s)
    ensures Through(cap, msg, held, s) == Through(cap, msg, held, s + t) == REFUSAL
    ensures !IllegalLength(s[..2]) && Through(cap, msg, held, s[..2]) == NOTHING
  {
    assert (s + t)[1] == s[1] && (s + t)[2] == s[2];
  }

  /** `b` keeps everything `a` settled; a refusal is final. */
  predicate Begins(a: Outcome, b: Outcome) {
    a.out <= b.out && a.dropped <= b.dropped && (a.refused ==> a == b)
  }

  lemma BeforeBegins(out: seq<Byte>, n: nat, a: Outcome, b: Outcome)
    requires Begins(a, b)
    ensures Begins(Before(out, n, a), Before(out, n, b))
  {}

  lemma MorePassing(cap: nat, msg: Msg, held: seq<Byte>, n: nat, s: seq<Byte>, t: seq<Byte>)
    requires n <= |s| ==> Begins(Through(cap, msg, held, s[n..]), Through(cap, msg, held, s[n..] + t))
    ensures Begins(Passing(cap, msg, held, n, s), Passing(cap, msg, held, n, s + t))
  {
    if n <= |s| {
      assert (s + t)[..n] == s[..n] && (s + t)[n..] == s[n..] + t;
      BeforeBegins(s[..n], 0, Through(cap, msg, held, s[n..]), Through(cap, msg, held, s[n..] + t));
    } else if n <= |s + t| {
      assert s <= (s + t)[..n];
    }
  }

  /** Reading on never takes anything back: what a stream's beginning settles
      begins what the whole stream settles, and a refusal is final. */
  lemma {:induction false} MoreBytesOnlyAdd(cap: nat, msg: Msg, held: seq<Byte>, s: seq<Byte>, t: seq<Byte>)
    ensures Begins(Through(cap, msg, held, s), Through(cap, msg, held, s + t))
    decreases |s|
  {
    if IllegalLength(s) {
      assert (s + t)[1] == s[1] && (s + t)[2] == s[2];
    } else if ParseHeader(s).Some? {
      HeaderIsAPrefix(s, t);
      var h := ParseHeader(s).value;
      var header, rest := s[..h.size], s[h.size..];
      var after := rest[Min(h.len, |rest|)..];
      assert (s + t)[..h.size] == header && (s + t)[h.size..] == rest + t;
      assert h.len <= |rest| ==> (rest + t)[..h.len] == rest[..h.len] && (rest + t)[h.len..] == after + t;
      match Judge(cap, msg, h)
      case Control =>
        MoreBytesOnlyAdd(cap, msg, held, after, t);
        MorePassing(cap, msg, held, h.len, rest, t);
        BeforeBegins(header, 0, Passing(cap, msg, held, h.len, rest), Passing(cap, msg, held, h.len, rest + t));
      case Relay =>
        MoreBytesOnlyAdd(cap, Idle, [], after, t);
        MorePassing(cap, Idle, [], h.len, rest, t);
        BeforeBegins(held + header, 0, Passing(cap, Idle, [], h.len, rest), Passing(cap, Idle, [], h.len, rest + t));
      case Drop(counted) =>
        MoreBytesOnlyAdd(cap, After(h, Skipping), [], after, t);
      case Keep(total) =>
        if h.len <= |rest| {
          var kept := held + header + rest[..h.len];
          MoreBytesOnlyAdd(cap, Idle, [], after, t);
          MoreBytesOnlyAdd(cap, Holding(total), kept, after, t);
          BeforeBegins(kept, 0, Through(cap, Idle, [], after), Through(cap, Idle, [], after + t));
        }
    }
  }

  // ------------------------------------------------------------ what is held

  /** `hold` is whole frames, then perhaps one still short of `awaited` payload
      bytes; `len` is the payload of all of them, complete. */
  predicate Holds(hold: seq<Byte>, awaited: nat, len: nat)
    decreases |hold|
  {
    if hold == [] then awaited == 0 && len == 0 else
    match ParseHeader(hold)
    case None => false
    case Some(h) =>
      var whole := h.size + h.len;
      if |hold| < whole then awaited == whole - |hold| && len == h.len
      else h.len <= len && Holds(hold[whole..], awaited, len - h.len)
  }

  /** The payload bytes in `hold`: its bytes without the headers stored with
      them. */
  function PayloadBytes(hold: seq<Byte>): nat
    decreases |hold|
  {
    match ParseHeader(hold)
    case None => 0
    case Some(h) =>
      var end := Min(h.size + h.len, |hold|);
      end - h.size + PayloadBytes(hold[end..])
  }

  /** The payload bytes held plus those awaited are the message's length so
      far. */
  lemma {:induction false} HeldPlusAwaited(hold: seq<Byte>, awaited: nat, len: nat)
    requires Holds(hold, awaited, len)
    ensures PayloadBytes(hold) + awaited == len
    decreases |hold|
  {
    if hold != [] {
      var h := ParseHeader(hold).value;
      if |hold| < h.size + h.len {
        assert hold[|hold|..] == [];
      } else {
        HeldPlusAwaited(hold[h.size + h.len..], awaited, len - h.len);
      }
    }
  }

  lemma {:induction false} HoldsMorePayload(hold: seq<Byte>, awaited: nat, len: nat, more: seq<Byte>)
    requires Holds(hold, awaited, len) && |more| <= awaited
    ensures Holds(hold + more, awaited - |more|, len)
    decreases |hold|
  {
    if hold != [] {
      HeaderIsAPrefix(hold, more);
      var h := ParseHeader(hold).value;
      var whole := h.size + h.len;
      if whole <= |hold| {
        HoldsMorePayload(hold[whole..], awaited, len - h.len, more);
        assert (hold + more)[whole..] == hold[whole..] + more;
      } else if |more| == awaited {
        assert (hold + more)[whole..] == [];
      }
    } else {
      assert hold + more == [];
    }
  }

  lemma HoldsAHeader(b: seq<Byte>)
    requires ParseHeader(b).Some? && |b| == ParseHeader(b).value.size
    ensures var n := ParseHeader(b).value.len; Holds(b, n, n)
  {
    if ParseHeader(b).value.len == 0 {
      assert b[|b|..] == [];
    }
  }

  lemma {:induction false} HoldsAnotherHeader(hold: seq<Byte>, len: nat, b: seq<Byte>)
    requires Holds(hold, 0, len)
    requires ParseHeader(b).Some? && |b| == ParseHeader(b).value.size
    ensures var n := ParseHeader(b).value.len; Holds(hold + b, n, len + n)
    decreases |hold|
  {
    hide ParseHeader;
    HoldsAHeader(b);
    var n := ParseHeader(b).value.len;
    if hold == [] {
      assert hold + b == b;
    } else {
      HeaderIsAPrefix(hold, b);
      var h := ParseHeader(hold).value;
      var whole := h.size + h.len;
      HoldsAnotherHeader(hold[whole..], len - h.len, b);
      assert (hold + b)[whole..] == hold[whole..] + b;
      assert Holds((hold + b)[whole..], n, len - h.len + n);
    }
  }
}
