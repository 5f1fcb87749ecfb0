/** The certificate a handshake presents, cached under its files' stamps; any
    number of handshakes at once, over files that may be written between any
    two looks at them. A file is its stamp and its contents, and a pair loads or
    not by what the two files hold. */
module Tls {
  import opened Base

  type Stamp = nat
  type Body = nat
  type Pair = nat

  /** A file that cannot be looked at has no stamp. */
  datatype File = File(stamp: Option<Stamp>, body: Body)

  datatype Stamps = Stamps(cert: Option<Stamp>, key: Option<Stamp>)

  datatype Cache = Cache(stamps: Stamps, pair: Pair)

  type Loads = (Body, Body) -> Option<Pair>

  /** Every version of a file so far, the last what it is now. */
  type History = s: seq<File> | s != [] witness [File(None, 0)]

  function Now(h: History): File {
    h[|h| - 1]
  }

  function StampsNow(certs: History, keys: History): Stamps {
    Stamps(Now(certs).stamp, Now(keys).stamp)
  }

  function LoadsNow(loads: Loads, certs: History, keys: History): Option<Pair> {
    loads(Now(certs).body, Now(keys).body)
  }

  /** One version of each file. */
  datatype Versions = Versions(cert: nat, key: nat)

  predicate Within(v: Versions, certs: History, keys: History) {
    v.cert < |certs| && v.key < |keys|
  }

  predicate NoLater(v: Versions, w: Versions) {
    v.cert <= w.cert && v.key <= w.key
  }

  function Last(certs: History, keys: History): (v: Versions)
    ensures Within(v, certs, keys)
  {
    Versions(|certs| - 1, |keys| - 1)
  }

  function StampsOf(certs: History, keys: History, v: Versions): Stamps
    requires Within(v, certs, keys)
  {
    Stamps(certs[v.cert].stamp, keys[v.key].stamp)
  }

  /** `result` may have been found under the stamps `s`: they are of some
      versions, and it is what the same or later ones load as. */
  ghost predicate Found(loads: Loads, certs: History, keys: History, s: Stamps, result: Option<Pair>) {
    exists saw, read :: FoundAt(loads, certs, keys, s, result, saw, read)
  }

  predicate FoundAt(loads: Loads, certs: History, keys: History, s: Stamps, result: Option<Pair>, saw: Versions,
      read: Versions) {
    && NoLater(saw, read) && Within(read, certs, keys)
    && s == StampsOf(certs, keys, saw)
    && result == loads(certs[read.cert].body, keys[read.key].body)
  }

  /** Under the stamps the files have now, something else than what they load as
      may have been found. */
  ghost predicate Misled(loads: Loads, certs: History, keys: History) {
    exists result :: Found(loads, certs, keys, StampsNow(certs, keys), result) && result != LoadsNow(loads, certs, keys)
  }

  lemma FoundRight(loads: Loads, certs: History, keys: History, result: Option<Pair>)
    requires !Misled(loads, certs, keys) && Found(loads, certs, keys, StampsNow(certs, keys), result)
    ensures result == LoadsNow(loads, certs, keys)
  {}

  /** A pair that some certificate and some key the files have held loaded as. */
  ghost predicate Loaded(loads: Loads, certs: History, keys: History, pair: Pair) {
    exists read: Versions ::
      Within(read, certs, keys) && loads(certs[read.cert].body, keys[read.key].body) == Some(pair)
  }

  /** What is remembered was found. */
  ghost predicate Remembered(loads: Loads, certs: History, keys: History, current: Cache, failed: Option<Stamps>) {
    && Found(loads, certs, keys, current.stamps, Some(current.pair))
    && (failed.Some? ==> Found(loads, certs, keys, failed.value, None))
  }

  lemma StillFound(loads: Loads, certs: History, keys: History, s: Stamps, result: Option<Pair>, certsOn: History,
      keysOn: History)
    requires Found(loads, certs, keys, s, result) && certs <= certsOn && keys <= keysOn
    ensures Found(loads, certsOn, keysOn, s, result)
  {
    var saw, read :| FoundAt(loads, certs, keys, s, result, saw, read);
    assert FoundAt(loads, certsOn, keysOn, s, result, saw, read);
  }

  lemma StillRemembered(loads: Loads, certs: History, keys: History, current: Cache, failed: Option<Stamps>,
      certsOn: History, keysOn: History)
    requires Remembered(loads, certs, keys, current, failed) && certs <= certsOn && keys <= keysOn
    ensures Remembered(loads, certsOn, keysOn, current, failed)
  {
    StillFound(loads, certs, keys, current.stamps, Some(current.pair), certsOn, keysOn);
    if failed.Some? {
      StillFound(loads, certs, keys, failed.value, None, certsOn, keysOn);
    }
  }

  lemma FoundIsLoaded(loads: Loads, certs: History, keys: History, s: Stamps, pair: Pair)
    requires Found(loads, certs, keys, s, Some(pair))
    ensures Loaded(loads, certs, keys, pair)
  {
    var saw, read :| FoundAt(loads, certs, keys, s, Some(pair), saw, read);
  }

  /** No earlier version of either file carried the stamp it has now. */
  predicate StampsAreNew(certs: History, keys: History) {
    && (forall i | 0 <= i < |certs| - 1 :: certs[i].stamp != Now(certs).stamp)
    && (forall j | 0 <= j < |keys| - 1 :: keys[j].stamp != Now(keys).stamp)
  }

  /** New stamps do not mislead. */
  lemma NewStampsDoNotMislead(loads: Loads, certs: History, keys: History)
    requires StampsAreNew(certs, keys)
    ensures !Misled(loads, certs, keys)
  {
    forall result, saw, read | FoundAt(loads, certs, keys, StampsNow(certs, keys), result, saw, read)
      ensures result == LoadsNow(loads, certs, keys)
    {
      assert saw.cert == |certs| - 1 && saw.key == |keys| - 1;
    }
  }

  lemma FoundBy(loads: Loads, certs: History, keys: History, s: Stamps, result: Option<Pair>, saw: Versions,
      read: Versions)
    requires FoundAt(loads, certs, keys, s, result, saw, read)
    ensures Found(loads, certs, keys, s, result)
  {}

  // ------------------------------------------------------- every handshake

  /** How far a handshake has come: the versions there were when it `began`, and
      those it `saw` the stamps of. It holds the lock from `Locked` on. */
  datatype Handshake =
    | Away
    | StampedCert(began: Versions, saw: Versions, cert: Option<Stamp>)
    | Stamped(began: Versions, saw: Versions, stamps: Stamps)
    | Missed(began: Versions, saw: Versions, stamps: Stamps)
    | Locked(began: Versions, saw: Versions, stamps: Stamps)
    | Loading(began: Versions, saw: Versions, stamps: Stamps)
    | ReadTheCert(began: Versions, saw: Versions, stamps: Stamps, read: nat, body: Body)

  datatype Shown = Shown(pair: Pair, began: Versions, saw: Versions)

  /** `fileReads` counts the files read. */
  datatype World = World(
    certs: History, keys: History, current: Cache, failed: Option<Stamps>,
    owner: Option<nat>, threads: map<nat, Handshake>, shown: seq<Shown>, fileReads: nat)

  datatype Act =
    | WriteCert(f: File) | WriteKey(f: File)
    | StampCert(t: nat) | StampKey(t: nat) | LookUp(t: nat) | Lock(t: nat)
    | LookAgain(t: nat) | ReadCert(t: nat) | ReadKey(t: nat)

  function At(w: World, t: nat): Handshake {
    if t in w.threads then w.threads[t] else Away
  }

  predicate Enabled(w: World, a: Act) {
    match a
    case WriteCert(_) => true
    case WriteKey(_) => true
    case StampCert(t) => At(w, t).Away?
    case StampKey(t) => At(w, t).StampedCert?
    case LookUp(t) => At(w, t).Stamped? && w.owner.None?
    case Lock(t) => At(w, t).Missed? && w.owner.None?
    case LookAgain(t) => At(w, t).Locked?
    case ReadCert(t) => At(w, t).Loading?
    case ReadKey(t) => At(w, t).ReadTheCert?
  }

  function Goes(w: World, t: nat, h: Handshake): World {
    w.(threads := w.threads[t := h])
  }

  /** The handshake has its pair, and holds no lock. */
  function Shows(w: World, t: nat, pair: Pair, h: Handshake): World
    requires !h.Away?
  {
    w.(threads := w.threads[t := Away], owner := None, shown := w.shown + [Shown(pair, h.began, h.saw)])
  }

  /** A pair remembered under these stamps, or that they do not load. */
  predicate Known(w: World, s: Stamps) {
    w.current.stamps == s || w.failed == Some(s)
  }

  function Next(loads: Loads, w: World, a: Act): World
    requires Enabled(w, a)
  {
    match a
    case WriteCert(f) => w.(certs := w.certs + [f])
    case WriteKey(f) => w.(keys := w.keys + [f])
    case StampCert(t) =>
      Goes(w, t, StampedCert(Last(w.certs, w.keys), Last(w.certs, w.keys), Now(w.certs).stamp))
    case StampKey(t) =>
      var h := At(w, t);
      Goes(w, t, Stamped(h.began, Versions(h.saw.cert, |w.keys| - 1), Stamps(h.cert, Now(w.keys).stamp)))
    case LookUp(t) =>
      var h := At(w, t);
      if w.current.stamps == h.stamps then Shows(w, t, w.current.pair, h)
      else Goes(w, t, Missed(h.began, h.saw, h.stamps))
    case Lock(t) =>
      var h := At(w, t);
      Goes(w, t, Locked(h.began, h.saw, h.stamps)).(owner := Some(t))
    case LookAgain(t) =>
      var h := At(w, t);
      if Known(w, h.stamps) then Shows(w, t, w.current.pair, h) else Goes(w, t, Loading(h.began, h.saw, h.stamps))
    case ReadCert(t) =>
      var h := At(w, t);
      Goes(w, t, ReadTheCert(h.began, h.saw, h.stamps, |w.certs| - 1, Now(w.certs).body)).(fileReads := w.fileReads + 1)
    case ReadKey(t) =>
      var h := At(w, t);
      var v := w.(fileReads := w.fileReads + 1);
      match loads(h.body, Now(w.keys).body)
      case Some(p) => Shows(v.(current := Cache(h.stamps, p), failed := None), t, p, h)
      case None => Shows(v.(failed := Some(h.stamps)), t, w.current.pair, h)
  }

  predicate Holds(h: Handshake) {
    h.Locked? || h.Loading? || h.ReadTheCert?
  }

  /** What a handshake has of the files is of the versions it saw, no older than
      those it began with. */
  predicate SawRight(w: World, h: Handshake) {
    match h
    case Away => true
    case StampedCert(began, saw, c) =>
      NoLater(began, saw) && Within(saw, w.certs, w.keys) && c == w.certs[saw.cert].stamp
    case _ =>
      && NoLater(h.began, h.saw) && Within(h.saw, w.certs, w.keys) && h.stamps == StampsOf(w.certs, w.keys, h.saw)
      && (h.ReadTheCert? ==> h.saw.cert <= h.read < |w.certs| && h.body == w.certs[h.read].body)
  }

  /** A pair shown loaded; and it was found under the stamps seen, or they were
      found not to load. */
  ghost predicate ShownRight(loads: Loads, w: World, s: Shown) {
    && NoLater(s.began, s.saw) && Within(s.saw, w.certs, w.keys)
    && Loaded(loads, w.certs, w.keys, s.pair)
    && (|| Found(loads, w.certs, w.keys, StampsOf(w.certs, w.keys, s.saw), Some(s.pair))
        || Found(loads, w.certs, w.keys, StampsOf(w.certs, w.keys, s.saw), None))
  }

  predicate LockRight(w: World) {
    && (forall t | t in w.threads && Holds(w.threads[t]) :: w.owner == Some(t))
    && (w.owner.Some? ==> w.owner.value in w.threads && Holds(w.threads[w.owner.value]))
  }

  ghost predicate Inv(loads: Loads, w: World) {
    && Remembered(loads, w.certs, w.keys, w.current, w.failed)
    && LockRight(w)
    && (forall t | t in w.threads :: SawRight(w, w.threads[t]))
    && (forall i | 0 <= i < |w.shown| :: ShownRight(loads, w, w.shown[i]))
  }

  /** A listener opened: it looked at the files, then read them, and they load. */
  function Opened(certs: History, keys: History, saw: Versions, pair: Pair): World
    requires Within(saw, certs, keys)
  {
    World(certs, keys, Cache(StampsOf(certs, keys, saw), pair), None, None, map[], [], 2)
  }

  lemma OpenedInv(loads: Loads, certs: History, keys: History, saw: Versions, read: Versions, pair: Pair)
    requires NoLater(saw, read) && Within(read, certs, keys)
    requires loads(certs[read.cert].body, keys[read.key].body) == Some(pair)
    ensures Inv(loads, Opened(certs, keys, saw, pair))
  {
    assert FoundAt(loads, certs, keys, StampsOf(certs, keys, saw), Some(pair), saw, read);
  }

  lemma StillSawRight(w: World, v: World, h: Handshake)
    requires SawRight(w, h) && w.certs <= v.certs && w.keys <= v.keys
    ensures SawRight(v, h)
  {}

  lemma NextSawRight(loads: Loads, w: World, a: Act, t: nat)
    requires (forall x | x in w.threads :: SawRight(w, w.threads[x])) && Enabled(w, a)
    requires t in Next(loads, w, a).threads
    ensures SawRight(Next(loads, w, a), Next(loads, w, a).threads[t])
  {
    var v := Next(loads, w, a);
    if t in w.threads && v.threads[t] == w.threads[t] {
      StillSawRight(w, v, w.threads[t]);
      hide SawRight;
    }
  }

  lemma NextLockRight(loads: Loads, w: World, a: Act)
    requires LockRight(w) && Enabled(w, a)
    ensures LockRight(Next(loads, w, a))
  {
  }

  lemma NextRemembered(loads: Loads, w: World, a: Act)
    requires Inv(loads, w) && Enabled(w, a)
    ensures var v := Next(loads, w, a); Remembered(loads, v.certs, v.keys, v.current, v.failed)
  {
    hide Found, ShownRight;
    var v := Next(loads, w, a);
    StillRemembered(loads, w.certs, w.keys, w.current, w.failed, v.certs, v.keys);
    if a.ReadKey? {
      var h := w.threads[a.t];
      assert SawRight(w, h);
      FoundBy(loads, w.certs, w.keys, h.stamps, loads(h.body, Now(w.keys).body), h.saw, Versions(h.read, |w.keys| - 1));
    }
  }

  lemma StillShownRight(loads: Loads, w: World, v: World, s: Shown)
    requires ShownRight(loads, w, s) && w.certs <= v.certs && w.keys <= v.keys
    ensures ShownRight(loads, v, s)
  {
    var read: Versions :|
      Within(read, w.certs, w.keys) && loads(w.certs[read.cert].body, w.keys[read.key].body) == Some(s.pair);
    assert Within(read, v.certs, v.keys) && loads(v.certs[read.cert].body, v.keys[read.key].body) == Some(s.pair);
    hide Found, Loaded;
    var stamps := StampsOf(w.certs, w.keys, s.saw);
    if Found(loads, w.certs, w.keys, stamps, Some(s.pair)) {
      StillFound(loads, w.certs, w.keys, stamps, Some(s.pair), v.certs, v.keys);
    } else {
      StillFound(loads, w.certs, w.keys, stamps, None, v.certs, v.keys);
    }
  }

  lemma NextShownRight(loads: Loads, w: World, a: Act, i: nat)
    requires Inv(loads, w) && Enabled(w, a)
    requires i < |Next(loads, w, a).shown|
    ensures var v := Next(loads, w, a); ShownRight(loads, v, v.shown[i])
  {
    hide Found, Loaded;
    var v := Next(loads, w, a);
    if i < |w.shown| {
      StillShownRight(loads, w, v, w.shown[i]);
    } else {
      NextRemembered(loads, w, a);
      FoundIsLoaded(loads, v.certs, v.keys, v.current.stamps, v.current.pair);
      assert SawRight(w, w.threads[a.t]);
    }
  }

  lemma NextKeepsInv(loads: Loads, w: World, a: Act)
    requires Inv(loads, w) && Enabled(w, a)
    ensures Inv(loads, Next(loads, w, a))
  {
    hide Remembered, ShownRight, SawRight, LockRight, Next, Enabled;
    var v := Next(loads, w, a);
    NextRemembered(loads, w, a);
    NextLockRight(loads, w, a);
    forall t | t in v.threads ensures SawRight(v, v.threads[t]) {
      NextSawRight(loads, w, a, t);
    }
    forall i | 0 <= i < |v.shown| ensures ShownRight(loads, v, v.shown[i]) {
      NextShownRight(loads, w, a, i);
    }
  }

  /** A run: any handshakes, any writes, any interleaving. */
  predicate Runs(loads: Loads, w: World, acts: seq<Act>)
    decreases |acts|
  {
    acts != [] ==> Enabled(w, acts[0]) && Runs(loads, Next(loads, w, acts[0]), acts[1..])
  }

  function Run(loads: Loads, w: World, acts: seq<Act>): World
    requires Runs(loads, w, acts)
    decreases |acts|
  {
    if acts == [] then w else Run(loads, Next(loads, w, acts[0]), acts[1..])
  }

  lemma {:induction false} RunKeepsInv(loads: Loads, w: World, acts: seq<Act>)
    requires Inv(loads, w) && Runs(loads, w, acts)
    ensures Inv(loads, Run(loads, w, acts))
    decreases |acts|
  {
    if acts != [] {
      NextKeepsInv(loads, w, acts[0]);
      RunKeepsInv(loads, Next(loads, w, acts[0]), acts[1..]);
    }
  }

  /** A handshake's pair, the files not written since it began. */
  predicate Fresh(w: World, s: Shown) {
    s.began == Last(w.certs, w.keys)
  }

  lemma FreshShowsRight(loads: Loads, v: World, i: nat)
    requires Inv(loads, v) && i < |v.shown|
    ensures var s, pair := v.shown[i], LoadsNow(loads, v.certs, v.keys);
            && Loaded(loads, v.certs, v.keys, s.pair)
            && (Fresh(v, s) && pair.Some? && !Misled(loads, v.certs, v.keys) ==> Some(s.pair) == pair)
  {
    hide Found, Loaded, Misled, Remembered, SawRight, LockRight;
    var s := v.shown[i];
    assert ShownRight(loads, v, s);
    if Fresh(v, s) && !Misled(loads, v.certs, v.keys) {
      assert StampsOf(v.certs, v.keys, s.saw) == StampsNow(v.certs, v.keys);
      if Found(loads, v.certs, v.keys, StampsNow(v.certs, v.keys), Some(s.pair)) {
        FoundRight(loads, v.certs, v.keys, Some(s.pair));
      } else {
        FoundRight(loads, v.certs, v.keys, None);
      }
    }
  }

  /** Over every interleaving of handshakes and writes: every pair presented is
      one that loaded; and a handshake begun after the last write presents the
      pair the files hold, if they hold one and their stamps do not mislead,
      late handshakes with older stamps or not. */
  lemma PresentsWhatTheDiskHolds(loads: Loads, w: World, acts: seq<Act>, i: nat)
    requires Inv(loads, w) && Runs(loads, w, acts)
    requires i < |Run(loads, w, acts).shown|
    ensures var v := Run(loads, w, acts);
            var s, pair := v.shown[i], LoadsNow(loads, v.certs, v.keys);
            && Loaded(loads, v.certs, v.keys, s.pair)
            && (Fresh(v, s) && pair.Some? && !Misled(loads, v.certs, v.keys) ==> Some(s.pair) == pair)
  {
    RunKeepsInv(loads, w, acts);
    hide Run, Runs;
    var v := Run(loads, w, acts);
    FreshShowsRight(loads, v, i);
  }

  // ---------------------------------------------------- one handshake's program

  predicate SameFiles(w: World, v: World) {
    v.certs == w.certs && v.keys == w.keys
  }

  /** The steps a handshake has yet to take before its last. */
  function Steps(h: Handshake): nat {
    match h
    case StampedCert(_, _, _) => 5
    case Stamped(_, _, _) => 4
    case Missed(_, _, _) => 3
    case Locked(_, _, _) => 2
    case Loading(_, _, _) => 1
    case _ => 0
  }

  predicate Mine(a: Act, t: nat) {
    !a.WriteCert? && !a.WriteKey? && a.t == t
  }

  lemma {:induction false} RunOn(loads: Loads, w: World, acts: seq<Act>, a: Act)
    requires Runs(loads, w, acts) && Enabled(Run(loads, w, acts), a)
    ensures Runs(loads, w, acts + [a]) && Run(loads, w, acts + [a]) == Next(loads, Run(loads, w, acts), a)
    decreases |acts|
  {
    hide Enabled, Next;
    if acts == [] {
      assert (acts + [a])[1..] == [];
    } else {
      RunOn(loads, Next(loads, w, acts[0]), acts[1..], a);
      assert (acts + [a])[1..] == acts[1..] + [a];
    }
  }

  /** What other handshakes and the files' writers leave alone: how far handshake
      `t` has come, and, while it holds the lock, what is remembered. */
  predicate LeftAlone(w: World, v: World, t: nat) {
    && At(v, t) == At(w, t) && w.certs <= v.certs && w.keys <= v.keys
    && (Holds(At(w, t)) ==> v.current == w.current && v.failed == w.failed)
  }

  lemma OthersLeaveAlone(loads: Loads, w: World, a: Act, t: nat)
    requires LockRight(w) && Enabled(w, a) && !Mine(a, t)
    ensures LeftAlone(w, Next(loads, w, a), t)
  {}

  lemma InvRight(loads: Loads, w: World, t: nat)
    requires Inv(loads, w)
    ensures LockRight(w) && SawRight(w, At(w, t))
  {}

  /** The next step of the handshake that holds the lock. */
  function HoldersStep(w: World): (a: Act)
    requires LockRight(w) && w.owner.Some?
    ensures Enabled(w, a) && Mine(a, w.owner.value)
  {
    var t := w.owner.value;
    match w.threads[t]
    case Locked(_, _, _) => LookAgain(t)
    case Loading(_, _, _) => ReadCert(t)
    case _ => ReadKey(t)
  }

  lemma HoldersStepNearer(loads: Loads, w: World)
    requires LockRight(w) && w.owner.Some?
    ensures var v := Next(loads, w, HoldersStep(w));
            v.owner.Some? ==> v.owner == w.owner && Steps(At(v, v.owner.value)) < Steps(At(w, w.owner.value))
  {}

  predicate ShownLast(w: World, s: Shown) {
    w.shown != [] && w.shown[|w.shown| - 1] == s
  }

  lemma ShownAtItsVersions(loads: Loads, w: World, i: nat)
    requires Inv(loads, w) && i < |w.shown|
    ensures NoLater(w.shown[i].began, w.shown[i].saw) && Within(w.shown[i].saw, w.certs, w.keys)
  {
    assert ShownRight(loads, w, w.shown[i]);
  }

  /** The versions `read` were found under `stamps`: the pair they load as is
      cached and presented; or they do not load, which is remembered, and the
      pair cached before is presented. */
  predicate Kept(loads: Loads, before: World, w: World, stamps: Stamps, pair: Pair, read: Versions)
    requires Within(read, w.certs, w.keys)
  {
    match loads(w.certs[read.cert].body, w.keys[read.key].body)
    case Some(p) => pair == p && w.current == Cache(stamps, p) && w.failed.None?
    case None => pair == before.current.pair && w.current == before.current && w.failed == Some(stamps)
  }

  /** The world before the last of the steps. */
  predicate Before(loads: Loads, start: World, acts: seq<Act>, before: World) {
    && acts != [] && Runs(loads, start, acts[..|acts| - 1])
    && Run(loads, start, acts[..|acts| - 1]) == before
  }

  /** The last step is handshake `t`'s, from the world `before` it: one that kept
      what the files load as, in a cache that did not know the stamps; or one
      that found them known, and changes nothing remembered. */
  predicate LastStep(loads: Loads, start: World, acts: seq<Act>, before: World, w: World, t: nat, stamps: Stamps,
      pair: Pair, read: Versions)
  {
    && Before(loads, start, acts, before) && Mine(acts[|acts| - 1], t)
    && match acts[|acts| - 1]
       case ReadKey(_) =>
         !Known(before, stamps) && Within(read, w.certs, w.keys) && Kept(loads, before, w, stamps, pair, read)
       case _ => Known(before, stamps) && w.current == before.current && w.failed == before.failed
  }

  /** Handshake `me`, among others and the files' writers, which do what they do
      in an order of their own. Every step is a step of a run. */
  class Reloading {
    const loads: Loads
    const me: nat
    const start: World
    var w: World
    var others: seq<Act>
    ghost var acts: seq<Act>

    ghost predicate Valid()
      reads this
    {
      && Inv(loads, w)
      && Runs(loads, start, acts) && Run(loads, start, acts) == w
      && forall i | 0 <= i < |others| :: !Mine(others[i], me)
    }

    constructor (loads: Loads, me: nat, w: World, others: seq<Act>)
      requires Inv(loads, w) && forall i | 0 <= i < |others| :: !Mine(others[i], me)
      ensures Valid() && this.loads == loads && this.me == me && this.w == this.start == w && this.others == others
    {
      this.loads, this.me, this.start, this.w, this.others, this.acts := loads, me, w, w, others, [];
    }

    method Step(a: Act)
      requires Valid() && Enabled(w, a)
      modifies this`w, this`acts
      ensures Valid() && w == Next(loads, old(w), a) && acts == old(acts) + [a]
    {
      RunOn(loads, start, acts, a);
      NextKeepsInv(loads, w, a);
      hide *;
      acts := acts + [a];
      w := Next(loads, w, a);
    }

    method StepOfAnother(a: Act)
      requires Valid() && Enabled(w, a) && !Mine(a, me)
      modifies this`w, this`acts
      ensures Valid() && w == Next(loads, old(w), a) && acts == old(acts) + [a] && LeftAlone(old(w), w, me)
    {
      OthersLeaveAlone(loads, w, a, me);
      hide *;
      Step(a);
    }

    /** The next thing the others do; what they cannot do is given up. */
    method Advance()
      requires Valid() && others != []
      modifies this`w, this`acts, this`others
      ensures Valid() && LeftAlone(old(w), w, me) && old(acts) <= acts && others == old(others)[1..]
      ensures w == (if Enabled(old(w), old(others)[0]) then Next(loads, old(w), old(others)[0]) else old(w))
    {
      hide Inv, Run, Runs, Enabled, Next, Mine;
      if Enabled(w, others[0]) {
        StepOfAnother(others[0]);
      }
      others := others[1..];
    }

    /** Whatever the others do meanwhile. */
    method Meanwhile()
      requires Valid()
      modifies this`w, this`acts, this`others
      ensures Valid() && LeftAlone(old(w), w, me) && old(acts) <= acts
    {
      hide Inv, Run, Runs, Enabled, Next, Mine;
      var k := |others|;
      if * {
        k :| 0 <= k <= |others|;
      }
      while k > 0
        invariant Valid() && LeftAlone(old(w), w, me) && old(acts) <= acts && k <= |others|
      {
        Advance();
        k := k - 1;
      }
    }

    /** Until nobody holds the lock: whoever does is soon done. */
    method UntilFree()
      requires Valid() && !Holds(At(w, me))
      modifies this`w, this`acts, this`others
      ensures Valid() && LeftAlone(old(w), w, me) && old(acts) <= acts && w.owner.None?
    {
      hide Inv, Run, Runs, Enabled, Next, Mine, Steps;
      Meanwhile();
      while w.owner.Some?
        invariant Valid() && LeftAlone(old(w), w, me) && old(acts) <= acts
        decreases if w.owner.Some? then Steps(At(w, w.owner.value)) + 1 else 0
      {
        AnotherHolds();
        HoldersStepNearer(loads, w);
        StepOfAnother(HoldersStep(w));
      }
    }

    lemma AnotherHolds()
      requires Valid() && !Holds(At(w, me)) && w.owner.Some?
      ensures LockRight(w) && !Mine(HoldersStep(w), me)
    {
      InvRight(loads, w, me);
      hide Inv;
    }

    /** Both files' stamps, one looked at after the other. */
    method Stamp() returns (s: Stamps, ghost began: Versions, ghost saw: Versions)
      requires Valid() && At(w, me).Away?
      modifies this`w, this`acts, this`others
      ensures Valid() && old(w.certs) <= w.certs && old(w.keys) <= w.keys && old(acts) <= acts
      ensures At(w, me) == Stamped(began, saw, s) && NoLater(old(Last(w.certs, w.keys)), began)
      ensures Within(saw, w.certs, w.keys) && NoLater(began, saw) && s == StampsOf(w.certs, w.keys, saw)
    {
      hide Inv, Run, Runs, Mine;
      Meanwhile();
      Step(StampCert(me));
      began := At(w, me).began;
      Meanwhile();
      Step(StampKey(me));
      s, saw := At(w, me).stamps, At(w, me).saw;
    }

    /** The two files read, one after the other, and what they load as kept. */
    method Load(stamps: Stamps) returns (pair: Pair, ghost before: World, ghost read: Versions)
      requires Valid() && At(w, me).Loading? && At(w, me).stamps == stamps
      modifies this`w, this`acts, this`others
      ensures Valid() && old(w.certs) <= w.certs && old(w.keys) <= w.keys && old(acts) <= acts
      ensures acts != [] && acts[|acts| - 1] == ReadKey(me) && At(w, me).Away? && Before(loads, start, acts, before)
      ensures ShownLast(w, Shown(pair, old(At(w, me)).began, old(At(w, me)).saw))
      ensures before.current == old(w.current) && before.failed == old(w.failed)
      ensures Within(read, w.certs, w.keys) && NoLater(old(Last(w.certs, w.keys)), read)
      ensures Kept(loads, before, w, stamps, pair, read)
    {
      hide Inv, Run, Runs, Mine, Next;
      Meanwhile();
      read := Last(w.certs, w.keys);
      ReadFirst();
      Meanwhile();
      before, read := w, read.(key := |w.keys| - 1);
      pair := ReadSecond();
    }

    method ReadFirst()
      requires Valid() && At(w, me).Loading?
      modifies this`w, this`acts
      ensures Valid() && acts == old(acts) + [ReadCert(me)] && SameFiles(old(w), w)
      ensures var h := old(At(w, me));
              At(w, me) == ReadTheCert(h.began, h.saw, h.stamps, |w.certs| - 1, Now(w.certs).body)
      ensures w.current == old(w.current) && w.failed == old(w.failed)
    {
      hide Inv, Run, Runs;
      Step(ReadCert(me));
    }

    method ReadSecond() returns (pair: Pair)
      requires Valid() && At(w, me).ReadTheCert?
      modifies this`w, this`acts
      ensures Valid() && acts == old(acts) + [ReadKey(me)] && SameFiles(old(w), w) && At(w, me).Away?
      ensures var h := old(At(w, me));
              && ShownLast(w, Shown(pair, h.began, h.saw))
              && match loads(h.body, Now(w.keys).body)
                 case Some(p) => pair == p && w.current == Cache(h.stamps, p) && w.failed.None?
                 case None => pair == w.current.pair && w.current == old(w.current) && w.failed == Some(h.stamps)
    {
      hide Inv, Run, Runs;
      Step(ReadKey(me));
      pair := w.current.pair;
    }

    /** Looks for the stamps among those remembered: at first only the cached
        pair's, and with the lock held also those that failed. */
    method Look(stamps: Stamps) returns (pair: Option<Pair>)
      requires Valid() && ((At(w, me).Stamped? && w.owner.None?) || At(w, me).Locked?) && At(w, me).stamps == stamps
      modifies this`w, this`acts
      ensures Valid() && acts != [] && acts[..|acts| - 1] == old(acts)
      ensures Mine(acts[|acts| - 1], me) && !acts[|acts| - 1].ReadKey?
      ensures SameFiles(old(w), w) && w.current == old(w.current) && w.failed == old(w.failed)
      ensures var h := old(At(w, me));
              match pair
              case Some(p) => ShownLast(w, Shown(p, h.began, h.saw)) && At(w, me).Away? && p == w.current.pair
              case None =>
                At(w, me) == if h.Locked? then Loading(h.began, h.saw, stamps) else Missed(h.began, h.saw, stamps)
      ensures pair.Some? <==> if old(At(w, me)).Locked? then Known(w, stamps) else w.current.stamps == stamps
    {
      hide Inv, Run, Runs;
      var known := w.current.stamps == stamps || (At(w, me).Locked? && w.failed == Some(stamps));
      pair := if known then Some(w.current.pair) else None;
      Step(if At(w, me).Locked? then LookAgain(me) else LookUp(me));
    }

    method TakeLock()
      requires Valid() && At(w, me).Missed?
      modifies this`w, this`acts, this`others
      ensures Valid() && old(w.certs) <= w.certs && old(w.keys) <= w.keys && old(acts) <= acts
      ensures var h := old(At(w, me)); At(w, me) == Locked(h.began, h.saw, h.stamps)
    {
      hide Inv, Run, Runs;
      UntilFree();
      Step(Lock(me));
    }

    /** What the runs' lemmas say of the handshake just done. */
    lemma ShownIsRight(was: World, s: Shown)
      requires Valid() && ShownLast(w, s) && was.certs <= w.certs && was.keys <= w.keys
      requires NoLater(Last(was.certs, was.keys), s.began)
      ensures Within(s.saw, w.certs, w.keys) && Loaded(loads, w.certs, w.keys, s.pair)
      ensures SameFiles(was, w) ==> s.saw == Last(w.certs, w.keys)
      ensures SameFiles(was, w) && !Misled(loads, w.certs, w.keys) ==>
                LoadsNow(loads, w.certs, w.keys).Some? ==> Some(s.pair) == LoadsNow(loads, w.certs, w.keys)
    {
      FreshShowsRight(loads, w, |w.shown| - 1);
      ShownAtItsVersions(loads, w, |w.shown| - 1);
      hide Inv, Run, Runs, Loaded, Misled;
    }

    /** With the lock held, the stamps are looked for again, and failing that the
        files read. */
    method LookAndLoad(stamps: Stamps) returns (pair: Pair, ghost before: World, ghost read: Versions)
      requires Valid() && At(w, me).Missed? && At(w, me).stamps == stamps
      modifies this`w, this`acts, this`others
      ensures Valid() && old(w.certs) <= w.certs && old(w.keys) <= w.keys && old(acts) < acts
      ensures At(w, me).Away? && ShownLast(w, Shown(pair, old(At(w, me)).began, old(At(w, me)).saw))
      ensures pair == w.current.pair && Known(w, stamps)
      ensures LastStep(loads, start, acts, before, w, me, stamps, pair, read)
    {
      hide Inv, Run, Runs, Loaded, Misled, Next, LockRight;
      TakeLock();
      Meanwhile();
      before, read := w, Last(w.certs, w.keys);
      var found := Look(stamps);
      match found {
        case Some(p) => pair := p;
        case None => pair, before, read := Load(stamps);
      }
    }

    /** The pair to present, which is the one remembered now. The files' stamps
        as the handshake saw them are then remembered, with that pair or as not
        loading. From the world just `before` the handshake's last step: it read
        the files only if it held the lock on a cache that knew nothing of those
        stamps, and then remembers what they load as, or goes on with the pair
        cached before; otherwise it changes nothing. The pair loaded; and of
        files not written since the handshake began, whose stamps do not
        mislead, it is the one they hold. */
    method Current() returns (pair: Pair, stamps: Stamps, ghost before: World, ghost read: Versions)
      requires Valid() && At(w, me).Away?
      modifies this`w, this`acts, this`others
      ensures Valid() && At(w, me).Away? && old(w.certs) <= w.certs && old(w.keys) <= w.keys && old(acts) < acts
      ensures pair == w.current.pair && Known(w, stamps)
      ensures SameFiles(old(w), w) ==> stamps == StampsNow(w.certs, w.keys)
      ensures LastStep(loads, start, acts, before, w, me, stamps, pair, read)
      ensures Loaded(loads, w.certs, w.keys, pair)
      ensures SameFiles(old(w), w) && !Misled(loads, w.certs, w.keys) ==>
                LoadsNow(loads, w.certs, w.keys).Some? ==> Some(pair) == LoadsNow(loads, w.certs, w.keys)
    {
      hide Inv, Run, Runs, Loaded, Misled, Next, LockRight;
      ghost var began, saw;
      stamps, began, saw := Stamp();
      UntilFree();
      before, read := w, saw;
      var found := Look(stamps);
      match found {
        case Some(p) => pair := p;
        case None => pair, before, read := LookAndLoad(stamps);
      }
      ShownIsRight(old(w), Shown(pair, began, saw));
    }
  }

  // ------------------------------------------------------------ runs put together

  /** Some run leads from `w` to `v`. */
  ghost predicate Reaches(loads: Loads, w: World, v: World) {
    exists acts :: Runs(loads, w, acts) && Run(loads, w, acts) == v
  }

  lemma {:induction false} RunThen(loads: Loads, w: World, a: seq<Act>, b: seq<Act>)
    requires Runs(loads, w, a) && Runs(loads, Run(loads, w, a), b)
    ensures Runs(loads, w, a + b) && Run(loads, w, a + b) == Run(loads, Run(loads, w, a), b)
    decreases |a|
  {
    if a == [] {
      assert a + b == b;
    } else {
      RunThen(loads, Next(loads, w, a[0]), a[1..], b);
      assert (a + b)[1..] == a[1..] + b;
    }
  }

  lemma ReachesSelf(loads: Loads, w: World)
    ensures Reaches(loads, w, w)
  {
    assert Runs(loads, w, []) && Run(loads, w, []) == w;
  }

  lemma ReachesOn(loads: Loads, w: World, v: World, u: World)
    requires Reaches(loads, w, v) && Reaches(loads, v, u)
    ensures Reaches(loads, w, u)
  {
    var a :| Runs(loads, w, a) && Run(loads, w, a) == v;
    var b :| Runs(loads, v, b) && Run(loads, v, b) == u;
    RunThen(loads, w, a, b);
  }

  lemma ReachesNext(loads: Loads, w: World, v: World, a: Act)
    requires Reaches(loads, w, v) && Enabled(v, a)
    ensures Reaches(loads, w, Next(loads, v, a))
  {
    assert [a][1..] == [];
    assert Runs(loads, Next(loads, v, a), []);
    assert Runs(loads, v, [a]) && Run(loads, v, [a]) == Next(loads, v, a);
    ReachesOn(loads, w, v, Next(loads, v, a));
  }

  /** The files written on to the next versions of their histories. */
  lemma {:induction false} ReachesWrites(loads: Loads, w: World, v: World, certs: History, keys: History)
    requires Reaches(loads, w, v) && v.certs <= certs && v.keys <= keys
    ensures Reaches(loads, w, v.(certs := certs, keys := keys))
    decreases |certs| - |v.certs| + |keys| - |v.keys|
  {
    hide Reaches;
    var u := v.(certs := certs, keys := keys);
    if |v.certs| < |certs| {
      var f := certs[|v.certs|];
      ReachesNext(loads, w, v, WriteCert(f));
      ReachesWrites(loads, w, Next(loads, v, WriteCert(f)), certs, keys);
    } else if |v.keys| < |keys| {
      var f := keys[|v.keys|];
      ReachesNext(loads, w, v, WriteKey(f));
      ReachesWrites(loads, w, Next(loads, v, WriteKey(f)), certs, keys);
    } else {
      assert v.certs == certs && v.keys == keys;
      assert u == v;
    }
  }

  lemma ReachesKeepsInv(loads: Loads, w: World, v: World)
    requires Inv(loads, w) && Reaches(loads, w, v)
    ensures Inv(loads, v)
  {
    var acts :| Runs(loads, w, acts) && Run(loads, w, acts) == v;
    RunKeepsInv(loads, w, acts);
  }

  // -------------------------------------------------------- what misleads a run

  /** A handshake begun after the last write was presented another pair than
      the files hold. */
  predicate PresentsWrong(loads: Loads, w: World) {
    exists i | 0 <= i < |w.shown| :: Fresh(w, w.shown[i]) && Some(w.shown[i].pair) != LoadsNow(loads, w.certs, w.keys)
  }

  /** A listener that opened on the files' first versions. */
  function OpenedFirst(loads: Loads, certs: History, keys: History): World
    requires loads(certs[0].body, keys[0].body).Some?
  {
    Opened([certs[0]], [keys[0]], Versions(0, 0), loads(certs[0].body, keys[0].body).value)
  }

  /** The files as they had been up to some versions. */
  function UpTo(h: History, n: nat): (r: History)
    requires n < |h|
    ensures r <= h && |r| == n + 1 && Now(r) == h[n]
  {
    h[..n + 1]
  }

  /** One handshake looks and misses, at the versions `saw`. */
  lemma LooksAndMisses(loads: Loads, w: World, certs: History, keys: History, saw: Versions) returns (v: World)
    requires Within(saw, certs, keys) && loads(certs[0].body, keys[0].body).Some?
    requires w == OpenedFirst(loads, certs, keys)
    requires w.current.stamps != StampsOf(certs, keys, saw)
    ensures Reaches(loads, w, v) && v.current == w.current && v.failed.None? && v.shown == []
    ensures v.certs == UpTo(certs, saw.cert) && v.keys == UpTo(keys, saw.key)
    ensures v.owner == Some(0) && v.threads.Keys == {0}
    ensures At(v, 0).Loading? && At(v, 0).stamps == StampsOf(certs, keys, saw)
  {
    hide Reaches;
    ReachesSelf(loads, w);
    v := w;
    ReachesWrites(loads, w, v, UpTo(certs, saw.cert), v.keys);
    v := v.(certs := UpTo(certs, saw.cert));
    ReachesNext(loads, w, v, StampCert(0));
    v := Next(loads, v, StampCert(0));
    ReachesWrites(loads, w, v, v.certs, UpTo(keys, saw.key));
    v := v.(keys := UpTo(keys, saw.key));
    ReachesNext(loads, w, v, StampKey(0));
    v := Next(loads, v, StampKey(0));
    ReachesNext(loads, w, v, LookUp(0));
    v := Next(loads, v, LookUp(0));
    ReachesNext(loads, w, v, Lock(0));
    v := Next(loads, v, Lock(0));
    ReachesNext(loads, w, v, LookAgain(0));
    v := Next(loads, v, LookAgain(0));
  }

  /** It then reads the versions `read`, and keeps what it finds under the
      stamps of those it saw. */
  lemma ReadsAndKeeps(loads: Loads, w: World, u: World, certs: History, keys: History, saw: Versions, read: Versions)
    returns (v: World)
    requires NoLater(saw, read) && Within(read, certs, keys)
    requires Reaches(loads, w, u) && u.failed.None? && u.certs == UpTo(certs, saw.cert) && u.keys == UpTo(keys, saw.key)
    requires u.owner == Some(0) && u.threads.Keys == {0} && At(u, 0).Loading?
    ensures Reaches(loads, w, v) && v.owner.None? && At(v, 1).Away?
    ensures v.certs == UpTo(certs, read.cert) && v.keys == UpTo(keys, read.key)
    ensures match loads(certs[read.cert].body, keys[read.key].body)
            case Some(p) => v.current == Cache(At(u, 0).stamps, p)
            case None => v.current == u.current && v.failed == Some(At(u, 0).stamps)
  {
    hide Reaches;
    v := u;
    ReachesWrites(loads, w, v, UpTo(certs, read.cert), v.keys);
    v := v.(certs := UpTo(certs, read.cert));
    ReachesNext(loads, w, v, ReadCert(0));
    v := Next(loads, v, ReadCert(0));
    ReachesWrites(loads, w, v, v.certs, UpTo(keys, read.key));
    v := v.(keys := UpTo(keys, read.key));
    ReachesNext(loads, w, v, ReadKey(0));
    v := Next(loads, v, ReadKey(0));
  }

  /** The files written to the last, a new handshake is presented what is
      remembered under their stamps, or, if that is a failure, what was cached
      before. */
  lemma ShowsTheRemembered(loads: Loads, w: World, u: World, certs: History, keys: History) returns (v: World)
    requires Reaches(loads, w, u) && u.certs <= certs && u.keys <= keys && u.owner.None? && At(u, 1).Away?
    requires Known(u, StampsNow(certs, keys))
    ensures Reaches(loads, w, v) && v.certs == certs && v.keys == keys
    ensures |v.shown| > 0 && Fresh(v, v.shown[|v.shown| - 1]) && v.shown[|v.shown| - 1].pair == u.current.pair
  {
    hide Reaches;
    ReachesWrites(loads, w, u, certs, keys);
    v := u.(certs := certs, keys := keys);
    ReachesNext(loads, w, v, StampCert(1));
    v := Next(loads, v, StampCert(1));
    ReachesNext(loads, w, v, StampKey(1));
    v := Next(loads, v, StampKey(1));
    ReachesNext(loads, w, v, LookUp(1));
    v := Next(loads, v, LookUp(1));
    if At(v, 1).Missed? {
      ReachesNext(loads, w, v, Lock(1));
      v := Next(loads, v, Lock(1));
      ReachesNext(loads, w, v, LookAgain(1));
      v := Next(loads, v, LookAgain(1));
    }
  }

  /** The files have another pair than the listener opened on; or it opened under
      other stamps, and under those they have now nothing failed to load. */
  ghost predicate PairOrStampsChanged(loads: Loads, certs: History, keys: History) {
    || LoadsNow(loads, certs, keys) != loads(certs[0].body, keys[0].body)
    || (StampsNow(certs, keys) != StampsOf(certs, keys, Versions(0, 0))
        && !Found(loads, certs, keys, StampsNow(certs, keys), None))
  }

  lemma MisledPresentsWrong(loads: Loads, certs: History, keys: History) returns (v: World)
    requires loads(certs[0].body, keys[0].body).Some? && LoadsNow(loads, certs, keys).Some?
    requires PairOrStampsChanged(loads, certs, keys) && Misled(loads, certs, keys)
    ensures Reaches(loads, OpenedFirst(loads, certs, keys), v)
    ensures v.certs == certs && v.keys == keys && PresentsWrong(loads, v)
  {
    hide Reaches;
    var w := OpenedFirst(loads, certs, keys);
    var stamps := StampsNow(certs, keys);
    var result :| Found(loads, certs, keys, stamps, result) && result != LoadsNow(loads, certs, keys);
    var saw, read :| FoundAt(loads, certs, keys, stamps, result, saw, read);
    var u := w;
    ReachesSelf(loads, w);
    if w.current.stamps != stamps {
      u := LooksAndMisses(loads, w, certs, keys, saw);
      u := ReadsAndKeeps(loads, w, u, certs, keys, saw, read);
    }
    v := ShowsTheRemembered(loads, w, u, certs, keys);
  }

  /** What the proviso of `PresentsWhatTheDiskHolds` comes to. Whatever the files
      have been since a listener opened on them, ending on another pair or under
      other stamps: some run presents the wrong pair to a handshake begun after
      the last write exactly when something else than they hold may have been
      found under the stamps they have. */
  lemma WrongExactlyWhenMisled(loads: Loads, certs: History, keys: History)
    requires loads(certs[0].body, keys[0].body).Some? && LoadsNow(loads, certs, keys).Some?
    requires PairOrStampsChanged(loads, certs, keys)
    ensures (exists v :: Reaches(loads, OpenedFirst(loads, certs, keys), v)
               && v.certs == certs && v.keys == keys && PresentsWrong(loads, v))
       <==> Misled(loads, certs, keys)
  {
    hide Misled;
    var w := OpenedFirst(loads, certs, keys);
    if Misled(loads, certs, keys) {
      var v := MisledPresentsWrong(loads, certs, keys);
    }
    forall v | Reaches(loads, w, v) && v.certs == certs && v.keys == keys && PresentsWrong(loads, v)
      ensures Misled(loads, certs, keys)
    {
      WrongOnlyWhenMisled(loads, certs, keys, v);
    }
  }

  /** Whatever they ended on, a wrong pair needs that, and another pair than the
      files hold to have loaded. */
  lemma WrongOnlyWhenMisled(loads: Loads, certs: History, keys: History, v: World)
    requires loads(certs[0].body, keys[0].body).Some? && LoadsNow(loads, certs, keys).Some?
    requires Reaches(loads, OpenedFirst(loads, certs, keys), v)
    requires v.certs == certs && v.keys == keys && PresentsWrong(loads, v)
    ensures Misled(loads, certs, keys)
    ensures exists pair: Pair :: Loaded(loads, certs, keys, pair) && Some(pair) != LoadsNow(loads, certs, keys)
  {
    var pair := loads(certs[0].body, keys[0].body).value;
    OpenedInv(loads, [certs[0]], [keys[0]], Versions(0, 0), Versions(0, 0), pair);
    ReachesKeepsInv(loads, OpenedFirst(loads, certs, keys), v);
    hide Reaches, Inv, Loaded, Misled;
    var i :| 0 <= i < |v.shown| && Fresh(v, v.shown[i]) && Some(v.shown[i].pair) != LoadsNow(loads, certs, keys);
    FreshShowsRight(loads, v, i);
  }

  /** A certificate written once: its stamps mislead exactly when the new
      version carries the old one's and they load differently, the old one
      perhaps not at all. */
  lemma CertWrittenOnce(loads: Loads, was: File, now: File, key: File)
    ensures Misled(loads, [was, now], [key]) <==>
              was.stamp == now.stamp && loads(was.body, key.body) != loads(now.body, key.body)
  {
    var certs, keys := [was, now], [key];
    if was.stamp == now.stamp {
      FoundBy(loads, certs, keys, StampsNow(certs, keys), loads(was.body, key.body), Versions(0, 0), Versions(0, 0));
      forall result | Found(loads, certs, keys, StampsNow(certs, keys), result)
        ensures result == loads(was.body, key.body) || result == loads(now.body, key.body)
      {
        var saw, read :| FoundAt(loads, certs, keys, StampsNow(certs, keys), result, saw, read);
      }
    } else {
      NewStampsDoNotMislead(loads, certs, keys);
    }
  }

  /** And a key likewise. */
  lemma KeyWrittenOnce(loads: Loads, cert: File, was: File, now: File)
    ensures Misled(loads, [cert], [was, now]) <==>
              was.stamp == now.stamp && loads(cert.body, was.body) != loads(cert.body, now.body)
  {
    var certs, keys := [cert], [was, now];
    if was.stamp == now.stamp {
      FoundBy(loads, certs, keys, StampsNow(certs, keys), loads(cert.body, was.body), Versions(0, 0), Versions(0, 0));
      forall result | Found(loads, certs, keys, StampsNow(certs, keys), result)
        ensures result == loads(cert.body, was.body) || result == loads(cert.body, now.body)
      {
        var saw, read :| FoundAt(loads, certs, keys, StampsNow(certs, keys), result, saw, read);
      }
    } else {
      NewStampsDoNotMislead(loads, certs, keys);
    }
  }

  // ----------------------------------------------------------- how often it reads

  /** The files' stamps are remembered. */
  predicate Tried(w: World) {
    Known(w, StampsNow(w.certs, w.keys))
  }

  /** A handshake under way that is reading the files, or will find the stamps
      it has of them unknown. */
  predicate Late(w: World, h: Handshake) {
    match h
    case Away => false
    case StampedCert(_, _, c) => !Known(w, Stamps(c, Now(w.keys).stamp))
    case Loading(_, _, _) => true
    case ReadTheCert(_, _, _, _, _) => true
    case _ => !Known(w, h.stamps)
  }

  predicate SomeLate(w: World) {
    exists t | t in w.threads :: Late(w, w.threads[t])
  }

  lemma {:induction false} HistoriesGrow(loads: Loads, w: World, acts: seq<Act>)
    requires Runs(loads, w, acts)
    ensures w.certs <= Run(loads, w, acts).certs && w.keys <= Run(loads, w, acts).keys
    decreases |acts|
  {
    if acts != [] {
      HistoriesGrow(loads, Next(loads, w, acts[0]), acts[1..]);
    }
  }

  lemma NextStaysTried(loads: Loads, w: World, a: Act)
    requires Tried(w) && !SomeLate(w) && Enabled(w, a) && !a.WriteCert? && !a.WriteKey?
    ensures var v := Next(loads, w, a);
            Tried(v) && !SomeLate(v) && SameFiles(w, v) && v.current == w.current && v.fileReads == w.fileReads
  {
    var v := Next(loads, w, a);
    assert a.t in w.threads ==> !Late(w, w.threads[a.t]);
    assert forall t | t in v.threads && t != a.t :: t in w.threads && v.threads[t] == w.threads[t];
  }

  lemma {:induction false} NotReadAgain(loads: Loads, w: World, acts: seq<Act>)
    requires Tried(w) && !SomeLate(w) && Runs(loads, w, acts) && SameFiles(w, Run(loads, w, acts))
    ensures Run(loads, w, acts).fileReads == w.fileReads && Run(loads, w, acts).current == w.current
    decreases |acts|
  {
    if acts != [] {
      HistoriesGrow(loads, Next(loads, w, acts[0]), acts[1..]);
      NextStaysTried(loads, w, acts[0]);
      NotReadAgain(loads, Next(loads, w, acts[0]), acts[1..]);
    }
  }

  /** The step that brings a late handshake nearer to reading: its own, or, of one
      that waits for the lock, the holder's. */
  function Nearer(v: World, t: nat): Act
    requires LockRight(v) && t in v.threads
  {
    var h := v.threads[t];
    var waits := (h.Stamped? || h.Missed?) && v.owner.Some?;
    var who := if waits then v.owner.value else t;
    match v.threads[who]
    case StampedCert(_, _, _) => StampKey(who)
    case Stamped(_, _, _) => LookUp(who)
    case Missed(_, _, _) => Lock(who)
    case Locked(_, _, _) => LookAgain(who)
    case Loading(_, _, _) => ReadCert(who)
    case _ => ReadKey(who)
  }

  /** A late handshake comes to read. */
  lemma {:induction false} LateReads(loads: Loads, w: World, v: World, t: nat) returns (u: World)
    requires Reaches(loads, w, v) && LockRight(v) && t in v.threads && Late(v, v.threads[t])
    ensures Reaches(loads, w, u) && SameFiles(v, u) && u.fileReads > v.fileReads
    decreases Steps(v.threads[t]), if v.owner.Some? then 1 else 0
  {
    hide Reaches;
    var h := v.threads[t];
    var a := Nearer(v, t);
    ReachesNext(loads, w, v, a);
    NextLockRight(loads, v, a);
    u := Next(loads, v, a);
    if !a.ReadKey? && !a.ReadCert? {
      var x := if a.LookAgain? && u.threads[a.t].Loading? then a.t else t;
      u := LateReads(loads, w, u, x);
    }
  }

  /** Files whose stamps are remembered, loading or not, and not written again,
      are read again in some run exactly when a handshake is late: reading them
      already, or with stamps that are remembered neither with the pair nor as
      failing. */
  lemma ReadAgainExactlyWhenLate(loads: Loads, w: World)
    requires Inv(loads, w) && Tried(w)
    ensures (exists v :: Reaches(loads, w, v) && SameFiles(w, v) && v.fileReads > w.fileReads) <==> SomeLate(w)
  {
    if SomeLate(w) {
      var t :| t in w.threads && Late(w, w.threads[t]);
      ReachesSelf(loads, w);
      var u := LateReads(loads, w, w, t);
    } else {
      forall v | Reaches(loads, w, v) && SameFiles(w, v) ensures v.fileReads == w.fileReads {
        var acts :| Runs(loads, w, acts) && Run(loads, w, acts) == v;
        NotReadAgain(loads, w, acts);
      }
    }
  }

  /** A handshake finds the files' stamps unknown. */
  lemma UnknownIsMissed(loads: Loads, w: World, u: World, t: nat) returns (v: World)
    requires Reaches(loads, w, u) && u.owner.None? && At(u, t).Away? && !Known(u, StampsNow(u.certs, u.keys))
    ensures Reaches(loads, w, v)
    ensures v == Goes(u, t, Missed(Last(u.certs, u.keys), Last(u.certs, u.keys), StampsNow(u.certs, u.keys)))
  {
    hide Reaches;
    ReachesNext(loads, w, u, StampCert(t));
    v := Next(loads, u, StampCert(t));
    ReachesNext(loads, w, v, StampKey(t));
    v := Next(loads, v, StampKey(t));
    ReachesNext(loads, w, v, LookUp(t));
    v := Next(loads, v, LookUp(t));
    assert v.threads == u.threads[t := v.threads[t]];
  }

  /** And comes to read them. */
  lemma UnknownIsRead(loads: Loads, w: World, u: World, t: nat) returns (v: World)
    requires Reaches(loads, w, u) && u.owner.None? && At(u, t).Away? && !Known(u, StampsNow(u.certs, u.keys))
    ensures Reaches(loads, w, v) && SameFiles(u, v) && v.fileReads == u.fileReads + 1
    ensures At(v, t).ReadTheCert? && At(v, t).began == Last(u.certs, u.keys)
    ensures At(v, t).stamps == StampsNow(u.certs, u.keys) && At(v, t).body == Now(u.certs).body
    ensures v.owner == Some(t) && v.current == u.current && v.failed == u.failed
    ensures forall x | x != t :: At(v, x) == At(u, x)
  {
    hide Reaches;
    v := UnknownIsMissed(loads, w, u, t);
    ReachesNext(loads, w, v, Lock(t));
    v := Next(loads, v, Lock(t));
    ReachesNext(loads, w, v, LookAgain(t));
    v := Next(loads, v, LookAgain(t));
    ReachesNext(loads, w, v, ReadCert(t));
    v := Next(loads, v, ReadCert(t));
  }

  /** Such a run: a handshake with older stamps, reading already, takes the
      cache over, and the next one begun reads the same files again. */
  lemma LateHandshakeTakesOver(loads: Loads, w: World, late: nat, next: nat) returns (v: World)
    requires LoadsNow(loads, w.certs, w.keys).Some?
    requires At(w, late).Loading? && At(w, late).stamps != StampsNow(w.certs, w.keys)
    requires At(w, next).Away?
    ensures Reaches(loads, w, v) && SameFiles(w, v) && v.fileReads == w.fileReads + 3
    ensures At(v, next).ReadTheCert? && At(v, next).began == Last(w.certs, w.keys)
  {
    hide Reaches;
    ReachesSelf(loads, w);
    ReachesNext(loads, w, w, ReadCert(late));
    v := Next(loads, w, ReadCert(late));
    ReachesNext(loads, w, v, ReadKey(late));
    v := Next(loads, v, ReadKey(late));
    v := UnknownIsRead(loads, w, v, next);
  }

  /** A handshake looks at the files, and they are written before it is done. */
  lemma LooksBeforeTheWrite(loads: Loads, w: World, f: File, g: File) returns (v: World)
    requires w.threads == map[] && w.owner.None?
    ensures Reaches(loads, w, v) && v.certs == w.certs + [f, g] && v.keys == w.keys
    ensures v.current == w.current && v.failed == w.failed && v.owner.None? && At(v, 2).Away?
    ensures At(v, 1).Stamped? && At(v, 1).stamps == Stamps(f.stamp, Now(w.keys).stamp)
  {
    hide Reaches;
    ReachesSelf(loads, w);
    ReachesNext(loads, w, w, WriteCert(f));
    v := Next(loads, w, WriteCert(f));
    ReachesNext(loads, w, v, StampCert(1));
    v := Next(loads, v, StampCert(1));
    ReachesNext(loads, w, v, StampKey(1));
    v := Next(loads, v, StampKey(1));
    ReachesNext(loads, w, v, WriteCert(g));
    v := Next(loads, v, WriteCert(g));
    assert w.certs + [f] + [g] == w.certs + [f, g];
  }

  /** Files that failed are tried again too: a certificate written twice, its
      last version not loading, and a handshake that looked between the writes.
      The failure is remembered under the stamps the files have, and yet some run
      reads the same files again. */
  lemma FailedFilesAreReadAgain(loads: Loads, served: Body, first: Body, second: Body, key: Body)
    returns (v: World, u: World)
    requires loads(served, key).Some? && loads(second, key).None?
    ensures Reaches(loads, OpenedFirst(loads, [File(Some(0), served)], [File(Some(0), key)]), v)
    ensures v.failed == Some(StampsNow(v.certs, v.keys)) && LoadsNow(loads, v.certs, v.keys).None? && SomeLate(v)
    ensures Reaches(loads, v, u) && SameFiles(v, u) && u.fileReads > v.fileReads
  {
    hide Reaches;
    var w := OpenedFirst(loads, [File(Some(0), served)], [File(Some(0), key)]);
    OpenedInv(loads, w.certs, w.keys, Versions(0, 0), Versions(0, 0), loads(served, key).value);
    v := LooksBeforeTheWrite(loads, w, File(Some(1), first), File(Some(2), second));
    v := UnknownIsRead(loads, w, v, 2);
    ReachesNext(loads, w, v, ReadKey(2));
    v := Next(loads, v, ReadKey(2));
    ReachesKeepsInv(loads, w, v);
    hide Inv;
    assert At(v, 1).Stamped? && Late(v, v.threads[1]);
    assert LockRight(v) by { InvLockRight(loads, v); }
    ReachesSelf(loads, v);
    u := LateReads(loads, v, v, 1);
  }

  lemma InvLockRight(loads: Loads, w: World)
    requires Inv(loads, w)
    ensures LockRight(w)
  {}
}
