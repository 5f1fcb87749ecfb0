/** Header text: what the header readers share of string handling. A header
    value that is text holds visible ASCII, spaces and tabs. */
module Text {
  import opened Base

  predicate IsSpace(c: char) {
    c == ' ' || c == '\t' || c == '\n' || c == '\r'
  }

  /** Where the spaces from `lo` on end, and where those before `hi` start. */
  function SpacesEnd(s: string, lo: nat): (n: nat)
    requires lo <= |s|
    ensures lo <= n <= |s| && (forall i | lo <= i < n :: IsSpace(s[i])) && (n < |s| ==> !IsSpace(s[n]))
    decreases |s| - lo
  {
    if lo < |s| && IsSpace(s[lo]) then SpacesEnd(s, lo + 1) else lo
  }

  function SpacesStart(s: string, lo: nat, hi: nat): (n: nat)
    requires lo <= hi <= |s|
    ensures lo <= n <= hi && (forall i | n <= i < hi :: IsSpace(s[i])) && (n > lo ==> !IsSpace(s[n - 1]))
  {
    if hi > lo && IsSpace(s[hi - 1]) then SpacesStart(s, lo, hi - 1) else hi
  }

  /** The text without the spaces at its ends, and with no space left there. */
  function Trim(s: string): (t: string)
    ensures exists lo, hi :: TrimmedTo(s, lo, hi, t)
  {
    var lo := SpacesEnd(s, 0);
    var hi := SpacesStart(s, lo, |s|);
    assert TrimmedTo(s, lo, hi, s[lo..hi]);
    s[lo..hi]
  }

  predicate TrimmedTo(s: string, lo: nat, hi: nat, t: string) {
    && lo <= hi <= |s| && t == s[lo..hi]
    && (forall i | 0 <= i < lo :: IsSpace(s[i])) && (forall i | hi <= i < |s| :: IsSpace(s[i]))
    && (lo < hi ==> !IsSpace(s[lo]) && !IsSpace(s[hi - 1]))
  }

  lemma TrimOfNone(s: string)
    requires s != [] && !IsSpace(s[0]) && !IsSpace(s[|s| - 1])
    ensures Trim(s) == s
  {}

  function Lower(s: string): (r: string)
    ensures |r| == |s|
    ensures forall i | 0 <= i < |s| :: r[i] == if 'A' <= s[i] <= 'Z' then s[i] - 'A' + 'a' else s[i]
  {
    if s == [] then [] else [if 'A' <= s[0] <= 'Z' then s[0] - 'A' + 'a' else s[0]] + Lower(s[1..])
  }

  /** The parts between the separators: one more than there are separators. */
  function Split(s: string, sep: char): (parts: seq<string>)
    ensures |parts| > 0
    ensures forall p | p in parts :: sep !in p
  {
    if s == [] then [[]]
    else if s[0] == sep then [[]] + Split(s[1..], sep)
    else Onto(s[0], Split(s[1..], sep))
  }

  /** One more character at the start of the first part. */
  function Onto(c: char, parts: seq<string>): (r: seq<string>)
    requires parts != []
    ensures |r| == |parts|
  {
    [[c] + parts[0]] + parts[1..]
  }

  lemma OntoTheFirst(c: char, a: seq<string>, b: seq<string>)
    requires a != []
    ensures Onto(c, a + b) == Onto(c, a) + b
  {}

  lemma {:induction false} SplitOfOne(s: string, sep: char)
    requires sep !in s
    ensures Split(s, sep) == [s]
  {
    if s != [] {
      SplitOfOne(s[1..], sep);
      assert s == [s[0]] + s[1..];
    }
  }

  /** What is before the first separator and what is after it. */
  function SplitOnce(s: string, sep: char): (r: Option<(string, string)>)
    ensures r.None? <==> sep !in s
    ensures r.Some? ==> s == r.value.0 + [sep] + r.value.1 && sep !in r.value.0
  {
    if s == [] then None
    else if s[0] == sep then Some(([], s[1..]))
    else match SplitOnce(s[1..], sep)
      case None => None
      case Some((a, b)) => Some(([s[0]] + a, b))
  }

  /** The parts with the separator between them. */
  function Rejoined(parts: seq<string>, sep: char): string
    requires parts != []
  {
    if |parts| == 1 then parts[0] else parts[0] + [sep] + Rejoined(parts[1..], sep)
  }

  /** Nothing is lost in splitting. */
  lemma {:induction false} SplitLosesNothing(s: string, sep: char)
    ensures Rejoined(Split(s, sep), sep) == s
  {
    if s != [] {
      var rest := Split(s[1..], sep);
      SplitLosesNothing(s[1..], sep);
      SplitCons(s, sep);
      if s[0] == sep {
        assert ([[]] + rest)[1..] == rest;
      } else {
        var all := Onto(s[0], rest);
        assert all[1..] == rest[1..];
        assert Rejoined(all, sep) == [s[0]] + Rejoined(rest, sep);
      }
    }
  }

  /** The first separator is at `i`. */
  predicate CutAt(s: string, sep: char, i: nat) {
    i < |s| && s[i] == sep && forall j | 0 <= j < i :: s[j] != sep
  }

  lemma FirstCut(s: string, sep: char)
    ensures SplitOnce(s, sep).None? ==> forall i: nat :: !CutAt(s, sep, i)
    ensures forall i: nat | CutAt(s, sep, i) :: SplitOnce(s, sep) == Some((s[..i], s[i + 1..]))
    ensures SplitOnce(s, sep).Some? ==> CutAt(s, sep, |SplitOnce(s, sep).value.0|)
  {
    var r := SplitOnce(s, sep);
    hide SplitOnce;
    if r.Some? {
      var a, b := r.value.0, r.value.1;
      assert s[|a|] == sep && forall j | 0 <= j < |a| :: s[j] == a[j];
      assert CutAt(s, sep, |a|);
      assert s[..|a|] == a && s[|a| + 1..] == b;
      assert forall i: nat | CutAt(s, sep, i) :: i == |a|;
    }
  }

  lemma SplitCons(s: string, sep: char)
    requires s != []
    ensures Split(s, sep) == if s[0] == sep then [[]] + Split(s[1..], sep) else Onto(s[0], Split(s[1..], sep))
  {}

  /** Splitting two texts joined by a separator splits each. */
  lemma {:induction false} SplitJoined(a: string, b: string, sep: char)
    ensures Split(a + [sep] + b, sep) == Split(a, sep) + Split(b, sep)
  {
    var all := a + [sep] + b;
    SplitCons(all, sep);
    if a == [] {
      assert all[1..] == b;
      assert Split([], sep) == [[]];
    } else {
      assert all[0] == a[0] && all[1..] == a[1..] + [sep] + b;
      SplitJoined(a[1..], b, sep);
      SplitCons(a, sep);
      hide Split, Onto;
      if a[0] == sep {
        Regroup([[]], Split(a[1..], sep), Split(b, sep));
      } else {
        OntoTheFirst(a[0], Split(a[1..], sep), Split(b, sep));
      }
    }
  }

  function Map<S, T>(f: S -> T, xs: seq<S>): (ys: seq<T>)
    ensures |ys| == |xs| && forall i | 0 <= i < |xs| :: ys[i] == f(xs[i])
  {
    seq(|xs|, i requires 0 <= i < |xs| => f(xs[i]))
  }

  // ----------------------------------------------------------------- headers

  /** A header as sent; its value `None` when it is not text. */
  datatype Header = Header(name: string, value: Option<string>)

  /** The headers of one name, as they follow each other. */
  function GetAll(headers: seq<Header>, name: string): seq<Header> {
    if headers == [] then []
    else (if headers[0].name == name then [headers[0]] else []) + GetAll(headers[1..], name)
  }

  predicate Contains(headers: seq<Header>, name: string)
    ensures Contains(headers, name) <==> exists i | 0 <= i < |headers| :: headers[i].name == name
    ensures Contains(headers, name) <==> exists i: nat :: FirstNamed(headers, name, i)
  {
    FoundIn(headers, name);
    GetAll(headers, name) != []
  }

  /** The first header of its name. */
  predicate FirstNamed(headers: seq<Header>, name: string, i: nat) {
    i < |headers| && headers[i].name == name && forall j | 0 <= j < i :: headers[j].name != name
  }

  lemma {:induction false} FoundIn(headers: seq<Header>, name: string)
    ensures GetAll(headers, name) == [] <==> forall i | 0 <= i < |headers| :: headers[i].name != name
    ensures GetAll(headers, name) != [] ==> exists i: nat :: FirstNamed(headers, name, i)
    ensures forall i: nat | FirstNamed(headers, name, i) ::
              GetAll(headers, name) != [] && GetAll(headers, name)[0] == headers[i]
    decreases |headers|
  {
    if headers != [] {
      var rest := headers[1..];
      FoundIn(rest, name);
      if headers[0].name == name {
        assert FirstNamed(headers, name, 0);
      } else {
        if i: nat :| FirstNamed(rest, name, i) {
          assert FirstNamed(headers, name, i + 1);
        }
        assert forall i | 0 <= i < |rest| :: rest[i] == headers[i + 1];
        forall i: nat | FirstNamed(headers, name, i)
          ensures GetAll(headers, name) != [] && GetAll(headers, name)[0] == headers[i]
        {
          assert FirstNamed(rest, name, i - 1);
        }
      }
    }
  }

  /** The first header named `name`, as text if it is that. */
  function GetText(headers: seq<Header>, name: string): (v: Option<string>)
    ensures (forall i | 0 <= i < |headers| :: headers[i].name != name) ==> v.None?
    ensures forall i: nat | FirstNamed(headers, name, i) :: v == headers[i].value
  {
    FoundIn(headers, name);
    var all := GetAll(headers, name);
    if all == [] then None else all[0].value
  }

  /** What the headers of one name list between them, those that are text. */
  function List(headers: seq<Header>, name: string, sep: char): seq<string> {
    if headers == [] then [] else Parts(headers[0], name, sep) + List(headers[1..], name, sep)
  }

  function Parts(header: Header, name: string, sep: char): seq<string> {
    if header.name == name && header.value.Some? then Split(header.value.value, sep) else []
  }

  lemma Regroup<T>(a: seq<T>, b: seq<T>, c: seq<T>)
    ensures a + (b + c) == a + b + c
  {}

  lemma ListCons(headers: seq<Header>, name: string, sep: char)
    requires headers != []
    ensures List(headers, name, sep) == Parts(headers[0], name, sep) + List(headers[1..], name, sep)
  {}

  lemma {:induction false} ListOfBoth(a: seq<Header>, b: seq<Header>, name: string, sep: char)
    ensures List(a + b, name, sep) == List(a, name, sep) + List(b, name, sep)
  {
    hide List, Parts;
    if a == [] {
      assert a + b == b;
      ListNil(name, sep);
    } else {
      var rest := a[1..];
      assert (a + b)[0] == a[0] && (a + b)[1..] == rest + b;
      ListOfBoth(rest, b, name, sep);
      ListCons(a + b, name, sep);
      ListCons(a, name, sep);
      Regroup(Parts(a[0], name, sep), List(rest, name, sep), List(b, name, sep));
    }
  }

  /** What is listed is a part of one of those headers. */
  lemma {:induction false} ListHolds(headers: seq<Header>, name: string, sep: char, part: string)
    ensures part in List(headers, name, sep) <==>
              exists i | 0 <= i < |headers| ::
                headers[i].name == name && headers[i].value.Some? && part in Split(headers[i].value.value, sep)
    decreases |headers|
  {
    if headers != [] {
      var rest := headers[1..];
      ListHolds(rest, name, sep, part);
      ListCons(headers, name, sep);
      hide List, Split;
      if i :| 0 <= i < |headers| && headers[i].name == name && headers[i].value.Some?
              && part in Split(headers[i].value.value, sep) {
        if i > 0 {
          assert rest[i - 1] == headers[i];
        }
      }
      if i :| 0 <= i < |rest| && rest[i].name == name && rest[i].value.Some?
              && part in Split(rest[i].value.value, sep) {
        assert headers[i + 1] == rest[i];
      }
    }
  }

  lemma ListNil(name: string, sep: char)
    ensures List([], name, sep) == []
  {}

  /** One list, however it is divided among headers of its name. */
  lemma ListDividedAnywhere(before: seq<Header>, a: string, b: string, after: seq<Header>, name: string, sep: char,
      of: string)
    ensures List(before + [Header(of, Some(a + [sep] + b))] + after, name, sep)
         == List(before + [Header(of, Some(a)), Header(of, Some(b))] + after, name, sep)
  {
    var one, two := [Header(of, Some(a + [sep] + b))], [Header(of, Some(a)), Header(of, Some(b))];
    SplitJoined(a, b, sep);
    assert two[1..] == [Header(of, Some(b))] && one[1..] == [] && two[1..][1..] == [];
    assert List(one, name, sep) == List(two, name, sep);
    ListOfBoth(before + one, after, name, sep);
    ListOfBoth(before, one, name, sep);
    ListOfBoth(before + two, after, name, sep);
    ListOfBoth(before, two, name, sep);
  }
}
