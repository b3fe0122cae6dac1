/** Splitting a byte stream into NAL units and removing emulation prevention (internal/media/h264.go), against the joining of
    Annex B and the insertion of section 7.4.1 of ITU-T H.264. */
module NalUnits {
  import opened Basics
  import opened AnnexB

  // ---------- Splitting ----------

  function Next(data: seq<Byte>, i: nat): (n: nat)
    ensures n <= |data|
  {
    if NextCode(data, i) < 0 then |data| else NextCode(data, i)
  }

  function Split(data: seq<Byte>, offset: nat): seq<seq<Byte>>
    decreases |data| - offset
  {
    var start := NextCode(data, offset);
    if start < 0 then []
    else
      var body := start + CodeAt(data, start);
      var next := Next(data, body);
      (if body < next then [data[body..next]] else []) + (if next == |data| then [] else Split(data, next))
  }

  function Piece(data: seq<Byte>, body: nat, next: nat): seq<seq<Byte>>
    requires next <= |data|
  {
    if body < next then [data[body..next]] else []
  }

  /** One step of the splitting, so that larger proofs need not unfold it. */
  lemma SplitStep(data: seq<Byte>, offset: nat)
    ensures var start := NextCode(data, offset);
            Split(data, offset) ==
            if start < 0 then []
            else
              var body := start + CodeAt(data, start);
              Piece(data, body, Next(data, body)) + if Next(data, body) == |data| then [] else Split(data, Next(data, body))
  {
  }

  /** Appending a piece to what was found so far. */
  lemma PieceFound(all: seq<seq<Byte>>, found: seq<seq<Byte>>, piece: seq<seq<Byte>>, rest: seq<seq<Byte>>)
    requires all == found + (piece + rest)
    ensures all == (found + piece) + rest
  {
  }

  /** The loop of splitAnnexBNALUs. */
  method SplitAnnexBNALUs(data: seq<Byte>) returns (result: seq<seq<Byte>>)
    ensures result == Split(data, 0)
  {
    hide NextCode, CodeAt, Split;
    result := [];
    var offset := 0;
    while true
      invariant Split(data, 0) == result + Split(data, offset)
      invariant offset <= |data|
      decreases |data| - offset
    {
      SplitStep(data, offset);
      var start, size := AnnexBStartCodeAt(data, offset);
      if start < 0 {
        break;
      }
      var next, _ := AnnexBStartCodeAt(data, start + size);
      if next < 0 {
        next := |data|;
      }
      PieceFound(Split(data, 0), result, Piece(data, start + size, next), if next == |data| then [] else Split(data, next));
      if start + size < next {
        result := result + [data[start + size..next]];
      } else {
        assert result + [] == result;
      }
      if next == |data| {
        break;
      }
      offset := next;
    }
  }

  function StartCode(long: bool): (c: seq<Byte>)
    ensures |c| == if long then 4 else 3
  {
    if long then [0, 0, 0, 1] else [0, 0, 1]
  }

  /** Units joined with three- or four-byte start codes. */
  function Join(nals: seq<seq<Byte>>, long: seq<bool>): seq<Byte>
    requires |nals| == |long|
  {
    if nals == [] then [] else StartCode(long[0]) + nals[0] + Join(nals[1..], long[1..])
  }

  /** Nothing inside a unit looks like a start code, and it does not end in zero. */
  ghost predicate Joinable(nal: seq<Byte>) {
    nal != [] && nal[|nal| - 1] != 0 && forall i: nat :: CodeAt(nal, i) == 0
  }

  /** A unit with a start code in front and the rest of a stream, empty or starting with a start code, behind. */
  lemma FrontUnit(long: bool, nal: seq<Byte>, rest: seq<Byte>)
    requires Joinable(nal) && (rest == [] || CodeAt(rest, 0) > 0)
    ensures var data := StartCode(long) + nal + rest;
            var body := |StartCode(long)|;
            && NextCode(data, 0) == 0 && CodeAt(data, 0) == body
            && Next(data, body) == body + |nal|
  {
    hide NextCode;
    var code := StartCode(long);
    var data := code + nal + rest;
    NextCodeIs(data, 0, 0);
    var end := |code| + |nal|;
    assert data[|code|..] == nal + rest && data[end..] == rest;
    forall k: nat | |code| <= k < end
      ensures CodeAt(data, k) == 0
    {
      CodeShift(data, |code|, k - |code|);
      InsideUnit(nal, rest, k - |code|);
    }
    if rest == [] {
      NextCodeIs(data, |code|, -1);
    } else {
      CodeShift(data, end, 0);
      NextCodeIs(data, |code|, end);
    }
  }

  /** A code cannot straddle the end of a unit, since the unit does not end in zero. */
  lemma InsideUnit(nal: seq<Byte>, rest: seq<Byte>, k: nat)
    requires Joinable(nal) && k < |nal|
    ensures CodeAt(nal + rest, k) == 0
  {
    assert CodeAt(nal, k) == 0;
    assert (nal + rest)[|nal| - 1] != 0;
    assert forall i :: 0 <= i < |nal| ==> (nal + rest)[i] == nal[i];
  }

  lemma PieceShift(data: seq<Byte>, c: nat, body: nat, next: nat)
    requires c <= |data| && c + next <= |data|
    ensures Piece(data[c..], body, next) == Piece(data, c + body, c + next)
  {
    if body < next {
      assert data[c..][body..next] == data[c + body..c + next];
    }
  }

  lemma {:induction false} SplitShift(data: seq<Byte>, c: nat, offset: nat)
    requires c <= |data|
    ensures Split(data[c..], offset) == Split(data, c + offset)
    decreases |data| - c - offset
  {
    hide NextCode, CodeAt, Split, Piece;
    var t := data[c..];
    SplitStep(t, offset);
    SplitStep(data, c + offset);
    NextShift(data, c, offset);
    var start := NextCode(t, offset);
    if start >= 0 {
      CodeShift(data, c, start);
      var body := start + CodeAt(t, start);
      NextShift(data, c, body);
      var next := Next(t, body);
      PieceShift(data, c, body, next);
      if next != |t| {
        SplitShift(data, c, next);
      }
    }
  }

  /** A front unit splits off. */
  lemma SplitFront(long: bool, nal: seq<Byte>, rest: seq<Byte>)
    requires Joinable(nal) && (rest == [] || CodeAt(rest, 0) > 0)
    ensures Split(StartCode(long) + nal + rest, 0) == [nal] + Split(rest, 0)
    ensures CodeAt(StartCode(long) + nal + rest, 0) > 0
  {
    hide NextCode, CodeAt, Split;
    var data := StartCode(long) + nal + rest;
    var body := |StartCode(long)|;
    var next := body + |nal|;
    FrontUnit(long, nal, rest);
    SplitStep(data, 0);
    assert data[body..next] == nal && data[next..] == rest;
    SplitShift(data, next, 0);
    EmptySplit();
  }

  /** Splitting undoes joining, for every list of joinable units and every choice of start codes. */
  lemma {:induction false} SplitUndoesJoin(nals: seq<seq<Byte>>, long: seq<bool>)
    requires |nals| == |long| && forall i :: 0 <= i < |nals| ==> Joinable(nals[i])
    ensures Split(Join(nals, long), 0) == nals
    ensures nals != [] ==> CodeAt(Join(nals, long), 0) > 0
    decreases |nals|
  {
    hide NextCode, CodeAt, Split, StartCode, Joinable;
    EmptySplit();
    if nals != [] {
      var rest := Join(nals[1..], long[1..]);
      SplitUndoesJoin(nals[1..], long[1..]);
      SplitFront(long[0], nals[0], rest);
    }
  }

  lemma EmptySplit()
    ensures Split([], 0) == []
  {
  }

  // ---------- Emulation prevention ----------

  /** What removeH264EmulationPrevention does, given the number of zero bytes just kept. */
  function Remove(data: seq<Byte>, zeros: nat): seq<Byte> {
    if data == [] then []
    else if zeros >= 2 && data[0] == 3 then Remove(data[1..], 0)
    else [data[0]] + Remove(data[1..], if data[0] == 0 then zeros + 1 else 0)
  }

  lemma RemoveStep(data: seq<Byte>, i: nat, zeros: nat)
    requires i < |data|
    ensures Remove(data[i..], zeros) ==
            if zeros >= 2 && data[i] == 3 then Remove(data[i + 1..], 0)
            else [data[i]] + Remove(data[i + 1..], if data[i] == 0 then zeros + 1 else 0)
  {
    assert data[i..][1..] == data[i + 1..];
  }

  method RemoveEmulationPrevention(data: seq<Byte>) returns (output: seq<Byte>)
    ensures output == Remove(data, 0)
  {
    output := [];
    var zeros := 0;
    var i := 0;
    assert data[0..] == data && Remove([], 0) == [];
    hide Remove;
    while i < |data|
      invariant 0 <= i <= |data|
      invariant Remove(data, 0) == output + Remove(data[i..], zeros)
    {
      RemoveStep(data, i, zeros);
      var value := data[i];
      if zeros >= 2 && value == 3 {
        zeros := 0;
      } else {
        output := output + [value];
        if value == 0 {
          zeros := zeros + 1;
        } else {
          zeros := 0;
        }
      }
      i := i + 1;
    }
    assert data[i..] == [];
    RemoveNothing(zeros);
  }

  lemma RemoveNothing(zeros: nat)
    ensures Remove([], zeros) == []
  {
  }

  predicate Stuffed(b: Byte, zeros: nat) { zeros >= 2 && b <= 3 }

  /** The zeros counted behind a byte, an inserted three counting as a break. */
  function Count(b: Byte, zeros: nat): nat { if b != 0 then 0 else if Stuffed(b, zeros) then 1 else zeros + 1 }

  /** The insertion of the standard: after two zero bytes, a byte of at most three gets a three in front of it. */
  function Escape(payload: seq<Byte>, zeros: nat): seq<Byte> {
    if payload == [] then []
    else (if Stuffed(payload[0], zeros) then [3, payload[0]] else [payload[0]]) + Escape(payload[1..], Count(payload[0], zeros))
  }

  /** One step of the insertion with anything behind, so that larger proofs need not unfold it. */
  lemma EscapeStep(payload: seq<Byte>, zeros: nat, behind: seq<Byte>)
    requires payload != []
    ensures var b := payload[0];
            var rest := Escape(payload[1..], Count(b, zeros)) + behind;
            Escape(payload, zeros) + behind == if Stuffed(b, zeros) then [3] + ([b] + rest) else [b] + rest
  {
  }

  /** The whole insertion: a payload that ends in zero gets a final three. */
  function Insert(payload: seq<Byte>): seq<Byte> {
    Escape(payload, 0) + if payload != [] && payload[|payload| - 1] == 0 then [3] else []
  }

  /** The zeros counted when the payload has been escaped: one or two while it ends in zeros. */
  function ZerosAfter(payload: seq<Byte>, zeros: nat): nat {
    if payload == [] then zeros else ZerosAfter(payload[1..], Count(payload[0], zeros))
  }

  function TrailingZeros(payload: seq<Byte>): nat {
    if payload == [] || payload[|payload| - 1] != 0 then 0 else 1 + TrailingZeros(payload[..|payload| - 1])
  }

  lemma RemoveFront(b: Byte, rest: seq<Byte>, zeros: nat)
    ensures Remove([b] + rest, zeros) ==
            if zeros >= 2 && b == 3 then Remove(rest, 0) else [b] + Remove(rest, if b == 0 then zeros + 1 else 0)
  {
    assert ([b] + rest)[1..] == rest;
  }

  /** Removing with anything behind: the escaped payload comes back, and the count carries on behind it. */
  lemma {:induction false} RemoveUndoesEscape(payload: seq<Byte>, zeros: nat, behind: seq<Byte>)
    requires zeros <= 2
    ensures Remove(Escape(payload, zeros) + behind, zeros) == payload + Remove(behind, ZerosAfter(payload, zeros))
    decreases |payload|
  {
    if payload == [] {
      assert Escape(payload, zeros) + behind == behind;
    } else {
      EscapeStep(payload, zeros, behind);
      hide Escape, Remove;
      var b, tail := payload[0], payload[1..];
      var rest := Escape(tail, Count(b, zeros)) + behind;
      RemoveUndoesEscape(tail, Count(b, zeros), behind);
      RemoveStuffed(b, rest, zeros);
      FrontOf(payload, Remove(behind, ZerosAfter(payload, zeros)));
    }
  }

  lemma RemoveStuffed(b: Byte, rest: seq<Byte>, zeros: nat)
    requires zeros <= 2
    ensures Remove(if Stuffed(b, zeros) then [3] + ([b] + rest) else [b] + rest, zeros) == [b] + Remove(rest, Count(b, zeros))
  {
    hide Remove;
    RemoveFront(3, [b] + rest, zeros);
    RemoveFront(b, rest, if Stuffed(b, zeros) then 0 else zeros);
  }

  lemma FrontOf(s: seq<Byte>, r: seq<Byte>)
    requires s != []
    ensures s + r == [s[0]] + (s[1..] + r)
  {
  }

  lemma {:induction false} ZerosAfterAppend(payload: seq<Byte>, b: Byte, zeros: nat)
    requires zeros <= 2
    ensures ZerosAfter(payload, zeros) <= 2 && ZerosAfter(payload + [b], zeros) == Count(b, ZerosAfter(payload, zeros))
    decreases |payload|
  {
    if payload == [] {
      assert payload + [b] == [b] && [b][1..] == [];
    } else {
      assert (payload + [b])[1..] == payload[1..] + [b];
      ZerosAfterAppend(payload[1..], b, Count(payload[0], zeros));
    }
  }

  lemma {:induction false} ZerosAfterParity(payload: seq<Byte>)
    ensures ZerosAfter(payload, 0) == if TrailingZeros(payload) == 0 then 0 else if TrailingZeros(payload) % 2 == 1 then 1 else 2
    decreases |payload|
  {
    if payload != [] {
      var front := payload[..|payload| - 1];
      assert payload == front + [payload[|payload| - 1]];
      ZerosAfterAppend(front, payload[|payload| - 1], 0);
      ZerosAfterParity(front);
    }
  }

  /** Removing undoes the insertion exactly for payloads whose run of final zero bytes has even length, which is what final
      cabac_zero_words give.  After an odd run the final three is not recognised and stays. */
  lemma RemoveUndoesInsert(payload: seq<Byte>)
    ensures Remove(Insert(payload), 0) == payload <==> TrailingZeros(payload) % 2 == 0
    ensures TrailingZeros(payload) % 2 == 1 ==> Remove(Insert(payload), 0) == payload + [3]
  {
    var behind: seq<Byte> := if payload != [] && payload[|payload| - 1] == 0 then [3] else [];
    RemoveUndoesEscape(payload, 0, behind);
    ZerosAfterParity(payload);
    var z := ZerosAfter(payload, 0);
    assert Remove([], 0) == [] && [3][1..] == [];
    if behind == [] {
      assert Remove(behind, z) == [] && payload + [] == payload;
    } else if z >= 2 {
      assert Remove(behind, z) == Remove([], 0) && payload + [] == payload;
    } else {
      assert Remove(behind, z) == [3];
      assert |payload + [3]| != |payload|;
    }
  }

  /** What section 7.4.1 forbids: two zero bytes followed by zero, one or two, and a final zero byte. */
  ghost predicate Allowed(nal: seq<Byte>) {
    && (nal != [] ==> nal[|nal| - 1] != 0)
    && forall i: nat :: i + 2 < |nal| ==> !(nal[i] == 0 && nal[i + 1] == 0 && nal[i + 2] <= 2)
  }

  /** The same by counting zeros from left to right. */
  predicate Clean(data: seq<Byte>, zeros: nat) {
    data == [] || ((zeros >= 2 ==> data[0] >= 3) && Clean(data[1..], if data[0] == 0 then zeros + 1 else 0))
  }

  lemma {:induction false} CleanAt(data: seq<Byte>, zeros: nat, i: nat)
    requires Clean(data, zeros) && i + 2 < |data|
    ensures !(data[i] == 0 && data[i + 1] == 0 && data[i + 2] <= 2)
    decreases i
  {
    if i == 0 {
      var one := if data[0] == 0 then zeros + 1 else 0;
      assert Clean(data[1..], one);
      assert Clean(data[1..][1..], if data[1] == 0 then one + 1 else 0);
      assert data[1..][1..][0] == data[2];
    } else {
      CleanAt(data[1..], if data[0] == 0 then zeros + 1 else 0, i - 1);
    }
  }

  lemma CleanFront(b: Byte, rest: seq<Byte>, zeros: nat)
    requires (zeros >= 2 ==> b >= 3) && Clean(rest, if b == 0 then zeros + 1 else 0)
    ensures Clean([b] + rest, zeros)
  {
    assert ([b] + rest)[1..] == rest;
  }

  lemma {:induction false} EscapeIsClean(payload: seq<Byte>, zeros: nat, behind: seq<Byte>)
    requires zeros <= 2 && (behind == [] || behind == [3])
    ensures Clean(Escape(payload, zeros) + behind, zeros)
    decreases |payload|
  {
    if payload == [] {
      assert Escape(payload, zeros) + behind == behind;
    } else {
      EscapeStep(payload, zeros, behind);
      hide Escape, Clean;
      var b := payload[0];
      var rest := Escape(payload[1..], Count(b, zeros)) + behind;
      EscapeIsClean(payload[1..], Count(b, zeros), behind);
      CleanFront(b, rest, if Stuffed(b, zeros) then 0 else zeros);
      if Stuffed(b, zeros) {
        CleanFront(3, [b] + rest, zeros);
      }
    }
  }

  lemma {:induction false} EscapeEnds(payload: seq<Byte>, zeros: nat)
    requires payload != []
    ensures Escape(payload, zeros) != [] && Escape(payload, zeros)[|Escape(payload, zeros)| - 1] == payload[|payload| - 1]
    decreases |payload|
  {
    if |payload| > 1 {
      EscapeEnds(payload[1..], Count(payload[0], zeros));
    } else {
      assert payload[1..] == [];
    }
  }

  /** The insertion yields only what the standard allows, and that can always be joined: so units made from any payloads
      survive joining and splitting. */
  lemma InsertIsAllowed(payload: seq<Byte>)
    requires payload != []
    ensures Allowed(Insert(payload)) && Joinable(Insert(payload))
  {
    var nal := Insert(payload);
    EscapeIsClean(payload, 0, if payload[|payload| - 1] == 0 then [3] else []);
    EscapeEnds(payload, 0);
    forall i: nat | i + 2 < |nal|
      ensures !(nal[i] == 0 && nal[i + 1] == 0 && nal[i + 2] <= 2)
    {
      CleanAt(nal, 0, i);
    }
  }

  lemma AllowedIsJoinable(nal: seq<Byte>)
    requires Allowed(nal) && nal != []
    ensures Joinable(nal)
  {
  }

  /** Whatever units the standard allows: joined under any start codes, they come apart again. */
  lemma AllowedUnitsSurvive(nals: seq<seq<Byte>>, long: seq<bool>)
    requires |nals| == |long| && forall i :: 0 <= i < |nals| ==> nals[i] != [] && Allowed(nals[i])
    ensures Split(Join(nals, long), 0) == nals
  {
    hide Allowed, Joinable, Split, Join;
    forall i | 0 <= i < |nals|
      ensures Joinable(nals[i])
    {
      AllowedIsJoinable(nals[i]);
    }
    SplitUndoesJoin(nals, long);
  }

  /** Payloads in, payloads out: escape, join, split, unescape. */
  lemma PayloadsSurvive(payloads: seq<seq<Byte>>, long: seq<bool>)
    requires |payloads| == |long|
    requires forall i :: 0 <= i < |payloads| ==> payloads[i] != [] && TrailingZeros(payloads[i]) % 2 == 0
    ensures var nals := seq(|payloads|, i requires 0 <= i < |payloads| => Insert(payloads[i]));
            var got := Split(Join(nals, long), 0);
            |got| == |payloads| && forall i :: 0 <= i < |got| ==> Remove(got[i], 0) == payloads[i]
  {
    hide Insert, Remove, Split, Join, TrailingZeros;
    var nals := seq(|payloads|, i requires 0 <= i < |payloads| => Insert(payloads[i]));
    forall i | 0 <= i < |payloads|
      ensures Joinable(nals[i]) && Remove(nals[i], 0) == payloads[i]
    {
      InsertIsAllowed(payloads[i]);
      RemoveUndoesInsert(payloads[i]);
    }
    SplitUndoesJoin(nals, long);
  }
}
