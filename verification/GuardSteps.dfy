/** What a guard suspended at any byte still owes, and how each step of its
    machine keeps that debt. */
module GuardSteps {
  import opened Base
  import opened Wire
  import opened GuardSpec

  /** What the next byte of the stream is to the guard. */
  datatype In = AtHeader | Pass(n: nat) | Hold(n: nat) | Skip(n: nat)

  /** The outcome of the bytes `s` not yet looked at, from where the guard
      stands. */
  function Onward(cap: nat, state: In, msg: Msg, release: bool, hold: seq<Byte>, s: seq<Byte>): Outcome {
    match state
    case AtHeader => Through(cap, msg, hold, s)
    case Pass(n) => Passing(cap, msg, hold, n, s)
    case Skip(n) => Dropping(cap, msg, n, s)
    case Hold(n) => Keeping(cap, if msg.Holding? then msg.len else 0, release, hold, n, s)
  }

  lemma PassSome(cap: nat, n: nat, msg: Msg, hold: seq<Byte>, a: seq<Byte>, s: seq<Byte>)
    requires |a| <= n
    ensures Passing(cap, msg, hold, n, a + s) == Before(a, 0, Passing(cap, msg, hold, n - |a|, s))
  {
    if n <= |a + s| {
      assert (a + s)[..n] == a + s[..n - |a|] && (a + s)[n..] == s[n - |a|..];
      BeforeBefore(a, 0, s[..n - |a|], 0, Through(cap, msg, hold, s[n - |a|..]));
    }
  }

  lemma SkipSome(cap: nat, n: nat, msg: Msg, a: seq<Byte>, s: seq<Byte>)
    requires |a| <= n
    ensures Dropping(cap, msg, n, a + s) == Dropping(cap, msg, n - |a|, s)
  {
    if n <= |a + s| {
      assert (a + s)[n..] == s[n - |a|..];
    }
  }

  lemma HoldSome(cap: nat, total: nat, release: bool, n: nat, hold: seq<Byte>, a: seq<Byte>, s: seq<Byte>)
    requires |a| <= n
    ensures Keeping(cap, total, release, hold, n, a + s) == Keeping(cap, total, release, hold + a, n - |a|, s)
  {
    if n <= |a + s| {
      assert (a + s)[..n] == a + s[..n - |a|] && (a + s)[n..] == s[n - |a|..];
      assert hold + (a + s[..n - |a|]) == (hold + a) + s[..n - |a|];
    }
  }

  /** A frame or stretch done with leaves the guard at the next header. */
  lemma DoneWith(cap: nat, msg: Msg, total: nat, hold: seq<Byte>, s: seq<Byte>)
    ensures Passing(cap, msg, hold, 0, s) == Through(cap, msg, hold, s)
    ensures Dropping(cap, msg, 0, s) == Through(cap, msg, [], s)
    ensures Keeping(cap, total, true, hold, 0, s) == Before(hold, 0, Through(cap, Idle, [], s))
    ensures Keeping(cap, total, false, hold, 0, s) == Through(cap, Holding(total), hold, s)
  {
    assert s[..0] == [] && s[0..] == s;
    assert hold + [] == hold;
    BeforeNothing(Through(cap, msg, hold, s));
  }

  /** A frame decided on, its header buffered in `buf` and the bytes `ahead` not
      read. */
  lemma ControlOwes(cap: nat, msg: Msg, hold: seq<Byte>, buf: seq<Byte>, ahead: seq<Byte>, h: Header)
    requires ParseHeader(buf) == Some(h) && !IllegalLength(buf) && Judge(cap, msg, h).Control?
    ensures Through(cap, msg, hold, buf + ahead) == Passing(cap, msg, hold, Total(h), buf + ahead)
    ensures Total(h) > 0
  {
    var s := buf + ahead;
    assert ParseHeader(s) == Some(h) && !IllegalLength(s) by {
      HeaderIsAPrefix(buf, ahead);
    }
    assert Total(h) == h.size + h.len by {
      IllegalLengthIsTopBit(buf);
    }
    var header, rest := s[..h.size], s[h.size..];
    assert Through(cap, msg, hold, s) == Before(header, 0, Passing(cap, msg, hold, h.len, rest));
    assert s == header + rest;
    PassSome(cap, Total(h), msg, hold, header, rest);
  }

  lemma RelayOwes(cap: nat, msg: Msg, hold: seq<Byte>, buf: seq<Byte>, ahead: seq<Byte>, h: Header)
    requires ParseHeader(buf) == Some(h) && !IllegalLength(buf) && Judge(cap, msg, h).Relay?
    ensures Through(cap, msg, hold, buf + ahead) == Before(hold, 0, Passing(cap, Idle, [], Total(h), buf + ahead))
    ensures Total(h) > 0
  {
    var s := buf + ahead;
    HeaderIsAPrefix(buf, ahead);
    IllegalLengthIsTopBit(buf);
    assert s == s[..h.size] + s[h.size..];
    PassSome(cap, Total(h), Idle, [], s[..h.size], s[h.size..]);
    BeforeBefore(hold, 0, s[..h.size], 0, Passing(cap, Idle, [], h.len, s[h.size..]));
  }

  lemma DropOwes(cap: nat, msg: Msg, hold: seq<Byte>, buf: seq<Byte>, ahead: seq<Byte>, h: Header)
    requires ParseHeader(buf) == Some(h) && !IllegalLength(buf) && Judge(cap, msg, h).Drop?
    ensures Through(cap, msg, hold, buf + ahead)
         == Before([], if Judge(cap, msg, h).counted then 1 else 0,
                   Dropping(cap, After(h, Skipping), h.len, buf[h.size..] + ahead))
  {
    HeaderIsAPrefix(buf, ahead);
    assert (buf + ahead)[h.size..] == buf[h.size..] + ahead;
  }

  lemma HoldOwes(cap: nat, msg: Msg, hold: seq<Byte>, buf: seq<Byte>, ahead: seq<Byte>, h: Header)
    requires ParseHeader(buf) == Some(h) && !IllegalLength(buf) && Judge(cap, msg, h).Keep?
    requires Holds(hold, 0, if msg.Holding? then msg.len else 0)
    ensures Through(cap, msg, hold, buf + ahead)
         == Keeping(cap, Judge(cap, msg, h).total, h.fin, hold + buf[..h.size], h.len, buf[h.size..] + ahead)
    ensures Holds(hold + buf[..h.size], h.len, Judge(cap, msg, h).total)
  {
    HeaderIsAPrefix(buf, ahead);
    assert (buf + ahead)[h.size..] == buf[h.size..] + ahead && (buf + ahead)[..h.size] == buf[..h.size];
    HoldsAnotherHeader(hold, Judge(cap, msg, h).total - h.len, buf[..h.size]);
  }

  /** Nothing is owed for bytes that stop short of the next decision. */
  lemma ShortOfADecision(cap: nat, state: In, msg: Msg, release: bool, hold: seq<Byte>, s: seq<Byte>)
    requires match state
             case AtHeader => !IllegalLength(s) && ParseHeader(s).None?
             case _ => s == [] && state.n > 0
    ensures Onward(cap, state, msg, release, hold, s) == NOTHING
  {}

  /** An illegal length is refused whatever follows it and whatever was held. */
  lemma RefusedWhatever(cap: nat, msg: Msg, hold: seq<Byte>, buf: seq<Byte>, ahead: seq<Byte>)
    requires IllegalLength(buf)
    ensures Through(cap, msg, hold, buf + ahead) == REFUSAL
  {
    assert (buf + ahead)[1] == buf[1] && (buf + ahead)[2] == buf[2];
  }
}
