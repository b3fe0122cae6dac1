/** Byte streams of Annex B of ITU-T H.264 (internal/media/h264.go): start codes, NAL units, access units. */
module AnnexB {
  import opened Basics

  /** The largest access unit the server accepts. */
  const MAX_UNIT: nat := 20 * 1024 * 1024
  /** The NAL unit type of an access unit delimiter. */
  const AUD: nat := 9

  // ---------- Start codes ----------

  /** The length of the start code at a position; zero when there is none. */
  function CodeAt(data: seq<Byte>, i: nat): (n: nat)
    ensures n == 0 || (3 <= n <= 4 && i + n <= |data| && data[i + n - 1] == 1)
  {
    if i + 3 <= |data| && data[i] == 0 && data[i + 1] == 0 then
      if data[i + 2] == 1 then 3
      else if i + 4 <= |data| && data[i + 2] == 0 && data[i + 3] == 1 then 4
      else 0
    else 0
  }

  /** Where the first start code at or after a position begins, or -1. */
  function NextCode(data: seq<Byte>, i: nat): (r: int)
    ensures r == -1 || (i <= r < |data| && CodeAt(data, r) > 0)
    ensures forall k: nat :: i <= k && (r < 0 || k < r) ==> CodeAt(data, k) == 0
    decreases |data| - i
  {
    if i + 3 > |data| then -1
    else if CodeAt(data, i) > 0 then i
    else NextCode(data, i + 1)
  }

  /** The first position with a code is the only one with nothing before it. */
  lemma NextCodeIs(data: seq<Byte>, i: nat, r: int)
    requires r == -1 || (i <= r && CodeAt(data, r) > 0)
    requires forall k: nat :: i <= k && (r < 0 || k < r) ==> CodeAt(data, k) == 0
    ensures NextCode(data, i) == r
  {
  }

  /** The loop of annexBStartCodeAt. */
  method AnnexBStartCodeAt(data: seq<Byte>, offset: nat) returns (start: int, size: nat)
    ensures start == NextCode(data, offset)
    ensures size == if start < 0 then 0 else CodeAt(data, start)
  {
    hide NextCode;
    var index := offset;
    while index + 3 <= |data|
      invariant offset <= index
      invariant forall k: nat :: offset <= k < index ==> CodeAt(data, k) == 0
      decreases |data| - index
    {
      if data[index] == 0 && data[index + 1] == 0 {
        if data[index + 2] == 1 {
          NextCodeIs(data, offset, index);
          return index, 3;
        }
        if index + 4 <= |data| && data[index + 2] == 0 && data[index + 3] == 1 {
          NextCodeIs(data, offset, index);
          return index, 4;
        }
      }
      index := index + 1;
    }
    NextCodeIs(data, offset, -1);
    return -1, 0;
  }

  lemma CodeShift(data: seq<Byte>, c: nat, i: nat)
    requires c <= |data|
    ensures CodeAt(data[c..], i) == CodeAt(data, c + i)
  {
  }

  lemma NextShift(data: seq<Byte>, c: nat, i: nat)
    requires c <= |data|
    ensures NextCode(data[c..], i) == if NextCode(data, c + i) < 0 then -1 else NextCode(data, c + i) - c
  {
    hide CodeAt, NextCode;
    var r := NextCode(data, c + i);
    forall k: nat
      ensures CodeAt(data[c..], k) == CodeAt(data, c + k)
    {
      CodeShift(data, c, k);
    }
    NextCodeIs(data[c..], i, if r < 0 then -1 else r - c);
  }

  lemma CodeInPrefix(data: seq<Byte>, p: nat, k: nat)
    requires p <= |data|
    ensures CodeAt(data[..p], k) > 0 ==> CodeAt(data, k) == CodeAt(data[..p], k)
    ensures CodeAt(data, k) > 0 && k + CodeAt(data, k) <= p ==> CodeAt(data[..p], k) == CodeAt(data, k)
  {
  }

  /** What a prefix shows of the next start code: all of it, or nothing. */
  lemma NextInPrefix(data: seq<Byte>, p: nat, i: nat)
    requires p <= |data|
    ensures var r := NextCode(data, i);
            if r >= 0 && r + CodeAt(data, r) <= p then NextCode(data[..p], i) == r && CodeAt(data[..p], r) == CodeAt(data, r)
            else NextCode(data[..p], i) == -1
  {
    hide CodeAt, NextCode;
    var r := NextCode(data, i);
    var shown := r >= 0 && r + CodeAt(data, r) <= p;
    forall k: nat | i <= k && (!shown || k < r)
      ensures CodeAt(data[..p], k) == 0
    {
      CodeInPrefix(data, p, k);
    }
    if shown {
      CodeInPrefix(data, p, r);
    }
    NextCodeIs(data[..p], i, if shown then r else -1);
  }

  // ---------- Access units ----------

  /** The start of the second access unit delimiter met by scanning from q, when `saw` says one was met before; the length
      of the data when there is none.  A scan goes on right behind each start code. */
  function SecondAud(s: seq<Byte>, q: nat, saw: bool): (r: nat)
    ensures r <= |s| && (NextCode(s, q) < 0 ==> r == |s|) && (NextCode(s, q) >= 0 ==> NextCode(s, q) <= r)
    decreases |s| - q
  {
    var i := NextCode(s, q);
    if i < 0 || i + CodeAt(s, i) >= |s| then |s|
    else if s[i + CodeAt(s, i)] % 32 == AUD then if saw then i else SecondAud(s, i + CodeAt(s, i), true)
    else SecondAud(s, i + CodeAt(s, i), saw)
  }

  /** The starts of all access unit delimiters, by one scan of the whole stream from left to right. */
  function AudStarts(s: seq<Byte>, q: nat): seq<nat>
    decreases |s| - q
  {
    var i := NextCode(s, q);
    if i < 0 || i + CodeAt(s, i) >= |s| then []
    else (if s[i + CodeAt(s, i)] % 32 == AUD then [i] else []) + AudStarts(s, i + CodeAt(s, i))
  }

  /** An access unit delimiter at a position, byte by byte: a start code of four bytes, or of three that are not the end of one
      of four within the scanned part, and then a unit header of type nine. */
  predicate DelimiterAt(s: seq<Byte>, i: int, from: nat) {
    0 <= i &&
    (|| (i + 4 < |s| && s[i] == 0 && s[i + 1] == 0 && s[i + 2] == 0 && s[i + 3] == 1 && s[i + 4] % 32 == 9)
     || (i + 3 < |s| && s[i] == 0 && s[i + 1] == 0 && s[i + 2] == 1 && s[i + 3] % 32 == 9 && !(i > from && s[i - 1] == 0)))
  }

  lemma DelimiterCode(s: seq<Byte>, i: nat, from: nat)
    ensures DelimiterAt(s, i, from) ==> CodeAt(s, i) > 0
    ensures CodeAt(s, i) > 0 && i + CodeAt(s, i) < |s| && (CodeAt(s, i) == 4 || !(i > from && s[i - 1] == 0)) ==>
              (DelimiterAt(s, i, from) <==> s[i + CodeAt(s, i)] % 32 == 9)
    ensures CodeAt(s, i) > 0 && i + CodeAt(s, i) >= |s| ==> !DelimiterAt(s, i, from)
  {
  }

  /** Inside a start code there is no delimiter. */
  lemma InsideCode(s: seq<Byte>, i: nat, j: nat, from: nat)
    requires from <= i < j < i + CodeAt(s, i)
    ensures !DelimiterAt(s, j, from)
  {
  }

  /** Right behind a start code it does not matter where the scan began. */
  lemma BehindCode(s: seq<Byte>, i: nat, j: nat, from: nat)
    requires from <= i && CodeAt(s, i) > 0 && i + CodeAt(s, i) <= j
    ensures DelimiterAt(s, j, from) <==> DelimiterAt(s, j, i + CodeAt(s, i))
  {
  }

  /** The scan finds exactly the delimiters. */
  lemma {:induction false} AudStartsExactly(s: seq<Byte>, q: nat, j: nat)
    ensures j in AudStarts(s, q) <==> j >= q && DelimiterAt(s, j, q)
    decreases |s| - q
  {
    hide CodeAt, NextCode, DelimiterAt, AudStarts;
    ScanStep(s, q);
    var i := NextCode(s, q);
    DelimiterCode(s, j, q);
    if i >= 0 {
      DelimiterCode(s, i, q);
      CodeBegins(s, q, i);
      var n := i + CodeAt(s, i);
      if n < |s| {
        AudStartsExactly(s, n, j);
      }
      if i < j < n {
        InsideCode(s, i, j, q);
      } else if j >= n {
        BehindCode(s, i, j, q);
        BeyondEnd(s, j, q);
      }
    }
  }

  lemma BeyondEnd(s: seq<Byte>, j: nat, q: nat)
    ensures j >= |s| ==> !DelimiterAt(s, j, q)
  {
  }

  /** The first start code of a scan is not the end of a longer one. */
  lemma CodeBegins(s: seq<Byte>, q: nat, i: nat)
    requires NextCode(s, q) == i
    ensures CodeAt(s, i) == 4 || !(i > q && s[i - 1] == 0)
  {
    if i > q {
      assert CodeAt(s, i - 1) == 0;
    }
  }

  /** The access unit at the front ends where the second delimiter starts. */
  function Cut(s: seq<Byte>): (c: nat)
    requires s != []
    ensures 0 < c <= |s|
  {
    SecondAfterFirst(s, 0);
    SecondAud(s, 0, false)
  }

  lemma {:induction false} SecondAfterFirst(s: seq<Byte>, q: nat)
    requires q < |s|
    ensures SecondAud(s, q, false) > q
    decreases |s| - q
  {
    var i := NextCode(s, q);
    if i >= 0 && i + CodeAt(s, i) < |s| && s[i + CodeAt(s, i)] % 32 != AUD {
      SecondAfterFirst(s, i + CodeAt(s, i));
    }
  }

  function Units(s: seq<Byte>): seq<seq<Byte>> {
    if s == [] then [] else [s[..Cut(s)]] + Units(s[Cut(s)..])
  }

  function Concat(parts: seq<seq<Byte>>): seq<Byte> {
    if parts == [] then [] else parts[0] + Concat(parts[1..])
  }

  /** Where each unit but the first starts. */
  function Boundaries(parts: seq<seq<Byte>>, at: nat): seq<nat> {
    if |parts| <= 1 then [] else [at + |parts[0]|] + Boundaries(parts[1..], at + |parts[0]|)
  }

  lemma {:induction false} UnitsConcat(s: seq<Byte>)
    ensures Concat(Units(s)) == s
    decreases |s|
  {
    if s != [] {
      UnitsConcat(s[Cut(s)..]);
      assert Units(s)[1..] == Units(s[Cut(s)..]);
      assert s[..Cut(s)] + s[Cut(s)..] == s;
    }
  }

  /** The second delimiter is the second entry of the one-shot scan. */
  lemma {:induction false} SecondIsSecond(s: seq<Byte>, q: nat)
    ensures var a := AudStarts(s, q);
            && SecondAud(s, q, true) == (if |a| >= 1 then a[0] else |s|)
            && SecondAud(s, q, false) == (if |a| >= 2 then a[1] else |s|)
    decreases |s| - q
  {
    hide CodeAt, NextCode;
    var i := NextCode(s, q);
    if i >= 0 && i + CodeAt(s, i) < |s| {
      SecondIsSecond(s, i + CodeAt(s, i));
    }
  }

  /** Scanning from a delimiter the scan found gives the rest of the scan. */
  lemma {:induction false} ScanResumes(s: seq<Byte>, q: nat, k: nat)
    requires k < |AudStarts(s, q)|
    ensures AudStarts(s, AudStarts(s, q)[k]) == AudStarts(s, q)[k..]
    ensures q <= AudStarts(s, q)[k] < |s|
    decreases |s| - q
  {
    hide CodeAt, NextCode, AudStarts;
    ScanStep(s, q);
    var i := NextCode(s, q);
    var rest := AudStarts(s, i + CodeAt(s, i));
    NextCodeIs(s, i, i);
    ScanStep(s, i);
    if s[i + CodeAt(s, i)] % 32 == AUD {
      if k > 0 {
        ScanResumes(s, i + CodeAt(s, i), k - 1);
        assert AudStarts(s, q)[k..] == rest[k - 1..];
      }
    } else {
      assert AudStarts(s, q) == rest;
      ScanResumes(s, i + CodeAt(s, i), k);
    }
  }

  function Raised(a: seq<nat>, c: nat): seq<nat> { seq(|a|, i requires 0 <= i < |a| => a[i] + c) }

  lemma RaisedFront(i: nat, rest: seq<nat>, c: nat)
    ensures Raised([i] + rest, c) == [i + c] + Raised(rest, c)
    ensures Raised([] + rest, c) == [] + Raised(rest, c)
  {
    assert [] + rest == rest;
  }

  function Tail(a: seq<nat>): seq<nat> { if a == [] then [] else a[1..] }

  /** One step of the scan, so that larger proofs need not unfold it. */
  lemma ScanStep(s: seq<Byte>, q: nat)
    ensures var i := NextCode(s, q);
            AudStarts(s, q) ==
            if i < 0 || i + CodeAt(s, i) >= |s| then []
            else (if s[i + CodeAt(s, i)] % 32 == AUD then [i] else []) + AudStarts(s, i + CodeAt(s, i))
  {
  }

  /** Scanning a suffix is scanning the whole from where the suffix starts. */
  lemma {:induction false} ScanShift(s: seq<Byte>, c: nat, q: nat)
    requires c <= |s|
    ensures AudStarts(s, c + q) == Raised(AudStarts(s[c..], q), c)
    decreases |s| - c - q
  {
    hide CodeAt, NextCode, AudStarts, Raised;
    var t := s[c..];
    NextShift(s, c, q);
    ScanStep(s, c + q);
    ScanStep(t, q);
    var i := NextCode(t, q);
    assert Raised([], c) == [] by { RaisedNone(c); }
    if i >= 0 {
      CodeShift(s, c, i);
      var next := i + CodeAt(t, i);
      if next < |t| {
        ScanShift(s, c, next);
        RaisedFront(i, AudStarts(t, next), c);
        assert t[next] == s[c + next];
      }
    }
  }

  lemma RaisedNone(c: nat)
    ensures Raised([], c) == []
  {
  }

  lemma RaisedTwice(auds: seq<nat>, inner: seq<nat>, c: nat, at: nat)
    requires |auds| >= 2 && auds[1] == c && auds[1..] == Raised(inner, c)
    ensures Raised(Tail(auds), at) == [at + c] + Raised(Tail(inner), at + c)
  {
    assert forall k :: 0 <= k < |inner| ==> auds[1..][k] == inner[k] + c;
  }

  lemma BoundariesStep(first: seq<Byte>, rest: seq<seq<Byte>>, at: nat)
    ensures Boundaries([first] + rest, at) ==
            if rest == [] then [] else [at + |first|] + Boundaries(rest, at + |first|)
  {
    assert ([first] + rest)[1..] == rest;
  }

  lemma NoDelimiters(auds: seq<nat>, at: nat)
    requires |auds| <= 1
    ensures Raised(Tail(auds), at) == []
  {
  }

  /** Units are cut exactly at the second and later delimiters of the one-shot scan. */
  lemma {:induction false} CutsAreDelimiters(s: seq<Byte>, at: nat)
    ensures Boundaries(Units(s), at) == Raised(Tail(AudStarts(s, 0)), at)
    decreases |s|
  {
    hide CodeAt, NextCode, AudStarts, SecondAud, Raised, Tail, Boundaries;
    var auds := AudStarts(s, 0);
    SecondIsSecond(s, 0);
    if s != [] {
      var c := Cut(s);
      var rest := s[c..];
      BoundariesStep(s[..c], Units(rest), at);
      if |auds| >= 2 {
        ScanResumes(s, 0, 1);
        ScanShift(s, c, 0);
        CutsAreDelimiters(rest, at + c);
        RaisedTwice(auds, AudStarts(rest, 0), c, at);
      } else {
        NoDelimiters(auds, at);
      }
    } else {
      EmptyScan(s);
      NoDelimiters(auds, at);
      OneUnit(at);
    }
  }

  lemma EmptyScan(s: seq<Byte>)
    requires s == []
    ensures AudStarts(s, 0) == []
  {
  }

  lemma OneUnit(at: nat)
    ensures Boundaries([], at) == []
  {
  }
}
