/** The incremental access unit reader of internal/media/h264.go: it reads byte by byte, looks for delimiters in what it has,
    and now and then moves its scan offset backwards.  It is proved to cut exactly where one scan of the whole stream would. */
module AccessUnitReaders {
  import opened Basics
  import opened AnnexB

  /** Where the reader stands in the stream s with p bytes buffered: every start code before q is dealt with, the next one has
      its header in the last buffered byte at the earliest, and the scan offset finds that same next start code. */
  ghost predicate Scanning(s: seq<Byte>, p: nat, q: nat, offset: nat, saw: bool) {
    && q <= p <= |s| && offset <= p
    && (q > 0 ==> q < p && s[q - 1] == 1)
    && (NextCode(s, q) >= 0 ==> NextCode(s, q) + CodeAt(s, NextCode(s, q)) >= p - 1)
    && (NextCode(s, offset) == NextCode(s, q) || (offset == p && 0 < q == p - 1))
    && SecondAud(s, q, saw) == SecondAud(s, 0, false)
  }

  /** Nothing more can be learnt from the p bytes buffered. */
  ghost predicate Quiet(s: seq<Byte>, p: nat, q: nat, offset: nat, saw: bool) {
    && Scanning(s, p, q, offset, saw)
    && NextCode(s, offset) == NextCode(s, q)
    && (NextCode(s, q) >= 0 ==> NextCode(s, q) + CodeAt(s, NextCode(s, q)) >= p)
  }

  /** Stepping back to three bytes before the end of the buffer loses no start code and finds no old one again. */
  lemma StepBack(s: seq<Byte>, p: nat, q: nat)
    requires q <= p <= |s| && (q > 0 ==> q < p && s[q - 1] == 1)
    requires NextCode(s, q) >= 0 ==> NextCode(s, q) + CodeAt(s, NextCode(s, q)) > p
    ensures NextCode(s, if p >= 3 then p - 3 else 0) == NextCode(s, q)
  {
    hide NextCode;
    var i := NextCode(s, q);
    var back := if p >= 3 then p - 3 else 0;
    forall k: nat | back <= k && (i < 0 || k < i)
      ensures CodeAt(s, k) == 0
    {
      if k < q {
        assert k == q - 1 || k == q - 2;
      }
    }
    NextCodeIs(s, back, i);
  }

  lemma QuietBehind(s: seq<Byte>, p: nat, q: nat, offset: nat, saw: bool)
    requires Scanning(s, p, q, offset, saw)
    requires NextCode(s, q) >= 0 ==> NextCode(s, q) + CodeAt(s, NextCode(s, q)) > p
    ensures Quiet(s, p, q, if p >= 3 then p - 3 else 0, saw)
  {
    StepBack(s, p, q);
    hide NextCode, CodeAt, SecondAud;
  }

  /** The next start code is complete but its header is still to come. */
  lemma QuietAtCode(s: seq<Byte>, p: nat, q: nat, offset: nat, saw: bool)
    requires Scanning(s, p, q, offset, saw) && NextCode(s, q) >= 0 && NextCode(s, q) + CodeAt(s, NextCode(s, q)) == p
    ensures Quiet(s, p, q, NextCode(s, q), saw)
  {
    NextCodeIs(s, NextCode(s, q), NextCode(s, q));
    hide NextCode, CodeAt, SecondAud;
  }

  /** The buffer shows the next start code exactly when it is complete. */
  lemma Sees(s: seq<Byte>, p: nat, q: nat, offset: nat, saw: bool)
    requires Scanning(s, p, q, offset, saw)
    ensures var i := NextCode(s, q);
            NextCode(s[..p], offset) == if i >= 0 && i + CodeAt(s, i) <= p then i else -1
    ensures NextCode(s, q) >= 0 && NextCode(s, q) + CodeAt(s, NextCode(s, q)) <= p ==>
              CodeAt(s[..p], NextCode(s, q)) == CodeAt(s, NextCode(s, q))
  {
    hide SecondAud, CodeAt;
    NextInPrefix(s, p, offset);
    NextInPrefix(s, p, q);
    hide NextCode;
  }

  /** A header was read: the scan goes on right behind its start code. */
  lemma HeaderRead(s: seq<Byte>, p: nat, q: nat, offset: nat, saw: bool)
    requires Scanning(s, p, q, offset, saw)
    requires NextCode(s, q) >= 0 && NextCode(s, q) + CodeAt(s, NextCode(s, q)) < p
    ensures var i := NextCode(s, q);
            var next := i + CodeAt(s, i);
            && q < next == p - 1 && NextCode(s, i) == i && CodeAt(s, i) > 0
            && (s[next] % 32 == AUD && saw ==> SecondAud(s, 0, false) == i)
            && (!(s[next] % 32 == AUD && saw) ==> Scanning(s, p, next, p, saw || s[next] % 32 == AUD))
  {
    hide CodeAt, NextCode, SecondAud;
    SecondStep(s, q, saw);
    var i := NextCode(s, q);
    NextCodeIs(s, i, i);
    NextAfter(s, i + CodeAt(s, i), p);
  }

  /** One step of the scan for the second delimiter. */
  lemma SecondStep(s: seq<Byte>, q: nat, saw: bool)
    requires NextCode(s, q) >= 0 && NextCode(s, q) + CodeAt(s, NextCode(s, q)) < |s|
    ensures var i := NextCode(s, q);
            var next := i + CodeAt(s, i);
            && (s[next] % 32 == AUD && saw ==> SecondAud(s, q, saw) == i)
            && (!(s[next] % 32 == AUD && saw) ==> SecondAud(s, q, saw) == SecondAud(s, next, saw || s[next] % 32 == AUD))
  {
    hide CodeAt, NextCode;
  }

  /** A start code that begins at the last buffered byte or later ends behind the buffer. */
  lemma NextAfter(s: seq<Byte>, q: nat, p: nat)
    requires q == p - 1
    ensures NextCode(s, q) >= 0 ==> NextCode(s, q) + CodeAt(s, NextCode(s, q)) >= p - 1
  {
    hide CodeAt, NextCode;
  }

  datatype ReadResult = Unit(bytes: seq<Byte>) | TooLarge | EndOfStream

  class AccessUnitReader {
    var input: seq<Byte>
    var buffer: seq<Byte>
    var scanOffset: nat
    var sawAUD: bool

    /** Everything not yet returned: what is buffered and what is still to come. */
    ghost function Rest(): seq<Byte>
      reads this
    {
      buffer + input
    }

    /** Between two calls the buffer is empty or ends with the header of the delimiter it starts with. */
    ghost predicate Valid()
      reads this
    {
      Scanning(Rest(), |buffer|, 0, scanOffset, sawAUD) && scanOffset == 0 && !sawAUD
    }

    constructor (stream: seq<Byte>)
      ensures Valid() && Rest() == stream
    {
      input, buffer, scanOffset, sawAUD := stream, [], 0, false;
    }

    /** Looks at what is buffered until a unit ends or more bytes are needed. */
    method ScanBuffered(ghost s: seq<Byte>, ghost from: nat) returns (cut: int, ghost q: nat)
      requires s == Rest() && Scanning(s, |buffer|, from, scanOffset, sawAUD)
      modifies this`scanOffset, this`sawAUD
      ensures cut >= 0 ==> cut == SecondAud(s, 0, false) && CodeAt(s, cut) > 0 && cut + CodeAt(s, cut) + 1 == |buffer|
      ensures cut >= 0 ==> NextCode(s, cut) == cut
      ensures cut < 0 ==> Quiet(s, |buffer|, q, scanOffset, sawAUD)
    {
      hide NextCode, CodeAt, SecondAud, Scanning, Quiet;
      q := from;
      assert buffer == s[..|buffer|];
      while true
        invariant Scanning(s, |buffer|, q, scanOffset, sawAUD)
        decreases |buffer| - q
      {
        Sees(s, |buffer|, q, scanOffset, sawAUD);
        var start, size := AnnexBStartCodeAt(buffer, scanOffset);
        if start < 0 {
          QuietBehind(s, |buffer|, q, scanOffset, sawAUD);
          scanOffset := if |buffer| >= 3 then |buffer| - 3 else 0;
          return -1, q;
        }
        if start + size >= |buffer| {
          QuietAtCode(s, |buffer|, q, scanOffset, sawAUD);
          scanOffset := start;
          return -1, q;
        }
        HeaderRead(s, |buffer|, q, scanOffset, sawAUD);
        if buffer[start + size] % 32 == AUD {
          if sawAUD {
            return start, q;
          }
          sawAUD := true;
        }
        q := start + size;
        scanOffset := start + size + 1;
      }
    }

    /** The next access unit: everything up to the second delimiter of what is left, or the error or end of stream. */
    method Read() returns (r: ReadResult)
      requires Valid()
      modifies this
      ensures r == if old(Rest()) == [] then EndOfStream
                   else if Cut(old(Rest())) > 20 * 1024 * 1024 then TooLarge
                   else Unit(old(Rest())[..Cut(old(Rest()))])
      ensures r.EndOfStream? ==> Valid() && Rest() == []
      ensures r.Unit? ==> Valid() && Rest() == old(Rest())[Cut(old(Rest()))..]
    {
      hide CodeAt, SecondAud, NextCode, Scanning, Quiet;
      ghost var s := Rest();
      ghost var q := 0;
      while true
        invariant s == Rest() == old(Rest()) && Scanning(s, |buffer|, q, scanOffset, sawAUD)
        decreases |input|
      {
        var cut;
        cut, q := ScanBuffered(s, q);
        if cut >= 0 {
          assert s != [] && cut == Cut(s);
          if cut > MAX_UNIT {
            return TooLarge;
          }
          var result := buffer[..cut];
          assert result == s[..cut];
          buffer := buffer[cut..];
          assert Rest() == s[cut..];
          scanOffset, sawAUD := 0, false;
          AfterCut(s, cut);
          return Unit(result);
        }
        QuietBound(s, |buffer|, q, scanOffset, sawAUD);
        if |buffer| > MAX_UNIT + 5 {
          return TooLarge;
        }
        if input == [] {
          assert s == buffer;
          if |buffer| == 0 {
            NoUnitLeft(s);
            scanOffset, sawAUD := 0, false;
            return EndOfStream;
          }
          if |buffer| > MAX_UNIT {
            return TooLarge;
          }
          var result := buffer;
          buffer, scanOffset, sawAUD := [], 0, false;
          assert s[..|s|] == s && s[|s|..] == [];
          NoUnitLeft(Rest());
          return Unit(result);
        }
        assert buffer + input == (buffer + [input[0]]) + input[1..];
        buffer, input := buffer + [input[0]], input[1..];
      }
    }

    /** All units of a stream, up to the first one that is too large. */
    method ReadAll() returns (units: seq<seq<Byte>>, complete: bool)
      requires Valid()
      modifies this
      ensures complete ==> units == Units(old(Rest()))
      ensures complete <==> forall i :: 0 <= i < |Units(old(Rest()))| ==> |Units(old(Rest()))[i]| <= 20 * 1024 * 1024
      ensures units <= Units(old(Rest()))
      ensures forall i :: 0 <= i < |units| ==> |units[i]| <= MAX_UNIT
    {
      hide CodeAt, SecondAud, NextCode, Scanning;
      units := [];
      ghost var all := Units(Rest());
      while true
        invariant Valid() && all == units + Units(Rest())
        invariant forall i :: 0 <= i < |units| ==> |units[i]| <= MAX_UNIT
        decreases |Rest()|
      {
        ghost var s := Rest();
        var r := Read();
        match r {
          case EndOfStream =>
            assert all == units;
            return units, true;
          case TooLarge =>
            assert all[|units|] == s[..Cut(s)];
            return units, false;
          case Unit(bytes) =>
            assert units + ([bytes] + Units(Rest())) == (units + [bytes]) + Units(Rest());
            units := units + [bytes];
        }
      }
    }
  }

  /** The rest of the stream after a cut starts with the delimiter whose header ended the buffer. */
  lemma AfterCut(s: seq<Byte>, cut: nat)
    requires cut < |s| && NextCode(s, cut) == cut && CodeAt(s, cut) > 0 && cut + CodeAt(s, cut) < |s|
    ensures Scanning(s[cut..], CodeAt(s, cut) + 1, 0, 0, false)
  {
    hide CodeAt, SecondAud, NextCode;
    NextShift(s, cut, 0);
    CodeShift(s, cut, 0);
  }

  /** What a quiet buffer says about the end of the unit. */
  lemma QuietBound(s: seq<Byte>, p: nat, q: nat, offset: nat, saw: bool)
    requires Quiet(s, p, q, offset, saw)
    ensures SecondAud(s, 0, false) + 4 >= p
    ensures p == |s| ==> SecondAud(s, 0, false) == |s|
    ensures p < |s| ==> Scanning(s, p + 1, q, offset, saw)
  {
    hide NextCode;
  }

  lemma NoUnitLeft(s: seq<Byte>)
    requires s == []
    ensures Scanning(s, 0, 0, 0, false)
  {
  }
}
