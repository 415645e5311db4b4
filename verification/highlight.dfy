/** Highlighting some byte positions of a text in UTF-8: whole characters are wrapped in colour codes, and
    the rest is copied. */
module Highlighting {

  type Byte = b: int | 0 <= b < 256 witness 0

  const ESC: Byte := 27
  const END: Byte := 109

  /** The top two bits are 1 and 0 (section 3 of RFC 3629). */
  predicate IsContinuation(b: Byte) { 128 <= b < 192 }

  // ---- Colour codes ----

  function Digits(n: nat): seq<Byte> {
    if n < 10 then [48 + n] else Digits(n / 10) + [48 + n % 10]
  }

  function Itoa(n: int): seq<Byte> { if n < 0 then [45] + Digits(-n) else Digits(n) }

  /** ESC[38;5;Nm */
  function StartCode(color: int): seq<Byte> { [ESC, 91, 51, 56, 59, 53, 59] + Itoa(color) + [END] }

  /** ESC[0m */
  function ResetCode(): seq<Byte> { [ESC, 91, 48, END] }

  function Colorized(text: seq<Byte>, color: int): seq<Byte> { StartCode(color) + text + ResetCode() }

  /** The value of decimal digits, the most significant first. */
  function Denotes(digits: seq<Byte>): int {
    if digits == [] then 0 else 10 * Denotes(digits[..|digits| - 1]) + digits[|digits| - 1] as int - 48
  }

  /** Decimal digits, the first of them no zero unless it is the only one. */
  predicate IsNumeral(digits: seq<Byte>) {
    && digits != [] && (forall i :: 0 <= i < |digits| ==> 48 <= digits[i] <= 57)
    && (|digits| > 1 ==> digits[0] != 48)
  }

  lemma {:induction false} DigitsDenote(n: nat)
    ensures IsNumeral(Digits(n)) && Denotes(Digits(n)) == n && (n > 0 ==> Digits(n)[0] != 48)
  {
    if n >= 10 {
      var last: Byte := 48 + n % 10;
      DigitsDenote(n / 10);
      assert (Digits(n / 10) + [last])[..|Digits(n / 10)|] == Digits(n / 10);
    } else {
      assert Digits(n)[..0] == [];
    }
  }

  lemma {:induction false} NumeralIsPositive(digits: seq<Byte>)
    requires IsNumeral(digits) && digits[0] != 48
    ensures Denotes(digits) > 0
  {
    if |digits| > 1 { NumeralIsPositive(digits[..|digits| - 1]); }
  }

  /** The digits of a number are its one decimal numeral. */
  lemma {:induction false} DigitsIff(n: nat, digits: seq<Byte>)
    ensures digits == Digits(n) <==> IsNumeral(digits) && Denotes(digits) == n
  {
    DigitsDenote(n);
    if IsNumeral(digits) && Denotes(digits) == n {
      var front, last := digits[..|digits| - 1], digits[|digits| - 1];
      if front == [] {
        assert digits == [last];
      } else {
        NumeralIsPositive(front);
        DigitsIff(n / 10, front);
        assert digits == front + [last];
      }
    }
  }

  /** Wrapped text stands between ESC[38;5;Nm, where N is the numeral of the colour, and ESC[0m. */
  lemma {:induction false} ColorizedIff(text: seq<Byte>, color: int, out: seq<Byte>)
    ensures out == Colorized(text, color) <==>
              exists digits :: IsNumeral(digits) && Denotes(digits) == (if color < 0 then -color else color)
                               && out == [27, 91, 51, 56, 59, 53, 59] + (if color < 0 then [45] else [])
                                         + digits + [109] + text + [27, 91, 48, 109]
  {
    hide Digits, Denotes, IsNumeral;
    var n := if color < 0 then -color else color;
    DigitsIff(n, Digits(n));
    forall digits | IsNumeral(digits) && Denotes(digits) == n ensures digits == Digits(n) { DigitsIff(n, digits); }
    if color >= 0 { assert [27, 91, 51, 56, 59, 53, 59] + [] == [27, 91, 51, 56, 59, 53, 59]; }
  }

  // ---- What becomes of each byte, byte by byte ----

  /** Some character of which byte `k` is a later byte starts at `j`. */
  predicate LeadOf(bb: seq<Byte>, j: int, k: int) {
    0 <= j < k < |bb| && !IsContinuation(bb[j]) && forall l :: j < l <= k ==> IsContinuation(bb[l])
  }

  /** The byte is a later byte of a highlighted character. */
  predicate Inside(bb: seq<Byte>, marked: set<int>, k: int) {
    exists j :: 0 <= j < k && j in marked && LeadOf(bb, j, k)
  }

  /** A highlighted continuation byte outside any highlighted character. */
  predicate Stray(bb: seq<Byte>, marked: set<int>, k: int) {
    0 <= k < |bb| && k in marked && IsContinuation(bb[k]) && !Inside(bb, marked, k)
  }

  function CharEnd(bb: seq<Byte>, k: int): (end: int)
    requires 0 <= k <= |bb|
    ensures k <= end <= |bb| && (forall l :: k <= l < end ==> IsContinuation(bb[l]))
    ensures end < |bb| ==> !IsContinuation(bb[end])
    decreases |bb| - k
  {
    if k < |bb| && IsContinuation(bb[k]) then CharEnd(bb, k + 1) else k
  }

  datatype Piece = Raw(value: Byte) | Wrapped(text: seq<Byte>)

  /** What stands in the result for byte `k`: a highlighted lead byte stands for its whole character. */
  function PieceAt(bb: seq<Byte>, marked: set<int>, k: int): seq<Piece>
    requires 0 <= k < |bb|
  {
    if Inside(bb, marked, k) then []
    else if k !in marked then [Raw(bb[k])]
    else if IsContinuation(bb[k]) then []
    else [Wrapped(bb[k..CharEnd(bb, k + 1)])]
  }

  function Pieces(bb: seq<Byte>, marked: set<int>, end: int): seq<Piece>
    requires 0 <= end <= |bb|
  {
    if end == 0 then [] else Pieces(bb, marked, end - 1) + PieceAt(bb, marked, end - 1)
  }

  function RenderPiece(p: Piece, color: int): seq<Byte> {
    match p
    case Raw(b) => [b]
    case Wrapped(text) => Colorized(text, color)
  }

  function Render(pieces: seq<Piece>, color: int): seq<Byte> {
    if pieces == [] then []
    else Render(pieces[..|pieces| - 1], color) + RenderPiece(pieces[|pieces| - 1], color)
  }

  lemma {:induction false} RenderSnoc(pieces: seq<Piece>, p: Piece, color: int)
    ensures Render(pieces + [p], color) == Render(pieces, color) + RenderPiece(p, color)
  {
    assert (pieces + [p])[..|pieces|] == pieces;
  }

  /** Past a highlighted lead byte, its whole character adds nothing more. */
  lemma {:induction false} CharSkipped(bb: seq<Byte>, marked: set<int>, start: int, end: int)
    requires 0 <= start < end <= |bb| && end <= CharEnd(bb, start + 1)
    requires !IsContinuation(bb[start]) && start in marked
    ensures Pieces(bb, marked, end) == Pieces(bb, marked, start + 1)
    decreases end - start
  {
    if end > start + 1 {
      CharSkipped(bb, marked, start, end - 1);
      assert LeadOf(bb, start, end - 1);
      assert Inside(bb, marked, end - 1);
    }
  }

  /** Only a byte right after a highlighted lead, or after a byte inside a character, can be inside one. */
  lemma {:induction false} InsideStarts(bb: seq<Byte>, marked: set<int>, k: int)
    requires 0 <= k < |bb| && !Inside(bb, marked, k) && (k in marked ==> IsContinuation(bb[k]))
    ensures !Inside(bb, marked, k + 1)
  {
    assert forall j :: j < k && LeadOf(bb, j, k + 1) ==> LeadOf(bb, j, k);
  }

  lemma {:induction false} RawStep(bb: seq<Byte>, marked: set<int>, k: int, color: int)
    requires 0 <= k < |bb| && !Inside(bb, marked, k) && k !in marked
    ensures Render(Pieces(bb, marked, k + 1), color) == Render(Pieces(bb, marked, k), color) + [bb[k]]
    ensures !Inside(bb, marked, k + 1)
  {
    RenderSnoc(Pieces(bb, marked, k), Raw(bb[k]), color);
    InsideStarts(bb, marked, k);
  }

  lemma {:induction false} StrayStep(bb: seq<Byte>, marked: set<int>, k: int)
    requires 0 <= k < |bb| && !Inside(bb, marked, k) && k in marked && IsContinuation(bb[k])
    ensures Pieces(bb, marked, k + 1) == Pieces(bb, marked, k)
    ensures !Inside(bb, marked, k + 1)
  {
    InsideStarts(bb, marked, k);
  }

  lemma {:induction false} LeadPiece(bb: seq<Byte>, marked: set<int>, k: int)
    requires 0 <= k < |bb| && !Inside(bb, marked, k) && k in marked && !IsContinuation(bb[k])
    ensures Pieces(bb, marked, k + 1) == Pieces(bb, marked, k) + [Wrapped(bb[k..CharEnd(bb, k + 1)])]
  {
  }

  lemma {:induction false} LeadOutside(bb: seq<Byte>, marked: set<int>, k: int)
    requires 0 <= k < |bb| && !IsContinuation(bb[k])
    ensures !Inside(bb, marked, k)
  {
  }

  lemma {:induction false} StartOutside(bb: seq<Byte>, marked: set<int>, color: int)
    ensures Render(Pieces(bb, marked, 0), color) == [] && !Inside(bb, marked, 0)
  {
  }

  lemma {:induction false} WrapStep(bb: seq<Byte>, marked: set<int>, k: int, color: int)
    requires 0 <= k < |bb| && !Inside(bb, marked, k) && k in marked && !IsContinuation(bb[k])
    ensures var end := CharEnd(bb, k + 1);
            && Render(Pieces(bb, marked, end), color)
               == Render(Pieces(bb, marked, k), color) + Colorized(bb[k..end], color)
            && (end < |bb| ==> !Inside(bb, marked, end))
  {
    hide Inside, Pieces, Render, CharEnd, Colorized;
    var end := CharEnd(bb, k + 1);
    LeadPiece(bb, marked, k);
    RenderSnoc(Pieces(bb, marked, k), Wrapped(bb[k..end]), color);
    CharSkipped(bb, marked, k, end);
    if end < |bb| {
      LeadOutside(bb, marked, end);
    }
  }

  /** Where the character ends of which byte `start` is the first. */
  method FindCharEnd(bb: seq<Byte>, start: int) returns (charEnd: int)
    requires 0 <= start < |bb|
    ensures charEnd == CharEnd(bb, start + 1)
  {
    charEnd := start + 1;
    while charEnd < |bb| && IsContinuation(bb[charEnd])
      invariant start < charEnd <= |bb|
      invariant CharEnd(bb, charEnd) == CharEnd(bb, start + 1)
    {
      charEnd := charEnd + 1;
    }
  }

  method Positions(ii: seq<int>) returns (marked: set<int>)
    ensures marked == set p | p in ii
  {
    marked := {};
    for n := 0 to |ii|
      invariant marked == set p | p in ii[..n]
    {
      assert ii[..n + 1] == ii[..n] + [ii[n]];
      marked := marked + {ii[n]};
    }
    assert ii[..|ii|] == ii;
  }

  /** The next part of the result, and the position after it. */
  method Step(bb: seq<Byte>, marked: set<int>, i: int, color: int) returns (part: seq<Byte>, next: int)
    requires 0 <= i < |bb| && !Inside(bb, marked, i)
    ensures i < next <= |bb|
    ensures Render(Pieces(bb, marked, next), color) == Render(Pieces(bb, marked, i), color) + part
    ensures next < |bb| ==> !Inside(bb, marked, next)
  {
    hide Inside, Pieces, Render, CharEnd, Colorized;
    if i in marked {
      if !IsContinuation(bb[i]) {
        var charEnd := FindCharEnd(bb, i);
        WrapStep(bb, marked, i, color);
        return Colorized(bb[i..charEnd], color), charEnd;
      } else {
        StrayStep(bb, marked, i);
        return [], i + 1;
      }
    } else {
      RawStep(bb, marked, i, color);
      return [bb[i]], i + 1;
    }
  }

  method Highlight(bb: seq<Byte>, ii: seq<int>, color: int) returns (result: seq<Byte>)
    ensures ii == [] ==> result == bb
    ensures ii != [] ==> result == Render(Pieces(bb, set p | p in ii, |bb|), color)
  {
    hide Inside, Pieces, Render;
    if |ii| == 0 {
      return bb;
    }
    var highlightMap := Positions(ii);
    result := [];
    var i := 0;
    StartOutside(bb, highlightMap, color);
    while i < |bb|
      invariant 0 <= i <= |bb|
      invariant result == Render(Pieces(bb, highlightMap, i), color)
      invariant i < |bb| ==> !Inside(bb, highlightMap, i)
    {
      var part;
      part, i := Step(bb, highlightMap, i, color);
      result := result + part;
    }
  }

  // ---- Content ----

  function PayloadOf(p: Piece): seq<Byte> { match p case Raw(b) => [b] case Wrapped(text) => text }

  function Payload(pieces: seq<Piece>): seq<Byte> {
    if pieces == [] then [] else Payload(pieces[..|pieces| - 1]) + PayloadOf(pieces[|pieces| - 1])
  }

  lemma {:induction false} PayloadSnoc(pieces: seq<Piece>, p: Piece)
    ensures Payload(pieces + [p]) == Payload(pieces) + PayloadOf(p)
  {
    assert (pieces + [p])[..|pieces|] == pieces;
  }

  /** The input without its stray bytes. */
  function Kept(bb: seq<Byte>, marked: set<int>, end: int): (kept: seq<Byte>)
    requires 0 <= end <= |bb|
    ensures |kept| <= end
  {
    if end == 0 then []
    else Kept(bb, marked, end - 1) + (if Stray(bb, marked, end - 1) then [] else [bb[end - 1]])
  }

  /** The part of a highlighted character that lies beyond a position inside it. */
  function Ahead(bb: seq<Byte>, marked: set<int>, k: int): seq<Byte>
    requires 0 <= k <= |bb|
  {
    if k < |bb| && Inside(bb, marked, k) then bb[k..CharEnd(bb, k)] else []
  }

  /** Up to a position, the pieces hold what is kept and the rest of the character they are in. */
  ghost predicate HeldUpTo(bb: seq<Byte>, marked: set<int>, k: int)
    requires 0 <= k <= |bb|
  {
    Payload(Pieces(bb, marked, k)) == Kept(bb, marked, k) + Ahead(bb, marked, k)
  }

  /** A position inside a character adds no piece, and its byte is kept. */
  lemma {:induction false} InsideAdds(bb: seq<Byte>, marked: set<int>, k: int)
    requires 0 <= k < |bb| && Inside(bb, marked, k)
    ensures Pieces(bb, marked, k + 1) == Pieces(bb, marked, k)
    ensures Kept(bb, marked, k + 1) == Kept(bb, marked, k) + [bb[k]]
  {
    hide Inside;
  }

  lemma {:induction false} HeldInside(bb: seq<Byte>, marked: set<int>, k: int)
    requires 0 <= k < |bb| && Inside(bb, marked, k) && HeldUpTo(bb, marked, k)
    ensures HeldUpTo(bb, marked, k + 1)
  {
    hide Pieces, Payload, Inside, Ahead, Kept;
    InsideAdds(bb, marked, k);
    InsideNext(bb, marked, k);
    Regroup(Kept(bb, marked, k), bb[k], Ahead(bb, marked, k + 1));
  }

  lemma {:induction false} HeldRaw(bb: seq<Byte>, marked: set<int>, k: int)
    requires 0 <= k < |bb| && !Inside(bb, marked, k) && k !in marked && HeldUpTo(bb, marked, k)
    ensures HeldUpTo(bb, marked, k + 1)
  {
    PayloadSnoc(Pieces(bb, marked, k), Raw(bb[k]));
    InsideStarts(bb, marked, k);
    assert Kept(bb, marked, k + 1) == Kept(bb, marked, k) + [bb[k]];
  }

  lemma {:induction false} HeldStray(bb: seq<Byte>, marked: set<int>, k: int)
    requires 0 <= k < |bb| && Stray(bb, marked, k) && HeldUpTo(bb, marked, k)
    ensures HeldUpTo(bb, marked, k + 1)
  {
    StrayStep(bb, marked, k);
    assert Kept(bb, marked, k + 1) == Kept(bb, marked, k) + [];
  }

  lemma {:induction false} HeldLead(bb: seq<Byte>, marked: set<int>, k: int)
    requires 0 <= k < |bb| && !Inside(bb, marked, k) && k in marked && !IsContinuation(bb[k]) && HeldUpTo(bb, marked, k)
    ensures HeldUpTo(bb, marked, k + 1)
  {
    hide CharEnd, LeadOf;
    var pieces, text := Pieces(bb, marked, k), bb[k..CharEnd(bb, k + 1)];
    LeadNext(bb, marked, k);
    PayloadSnoc(pieces, Wrapped(text));
    Regroup(Payload(pieces), bb[k], Ahead(bb, marked, k + 1));
  }

  lemma {:induction false} Regroup(kept: seq<Byte>, b: Byte, ahead: seq<Byte>)
    ensures kept + ([b] + ahead) == kept + [b] + ahead
    ensures kept + [] == kept
  {
  }

  lemma {:induction false} PayloadUpTo(bb: seq<Byte>, marked: set<int>, end: int)
    requires 0 <= end <= |bb|
    ensures HeldUpTo(bb, marked, end)
  {
    if end > 0 {
      var k := end - 1;
      PayloadUpTo(bb, marked, k);
      if Inside(bb, marked, k) {
        HeldInside(bb, marked, k);
      } else if k !in marked {
        HeldRaw(bb, marked, k);
      } else if IsContinuation(bb[k]) {
        HeldStray(bb, marked, k);
      } else {
        HeldLead(bb, marked, k);
      }
    }
  }

  lemma {:induction false} SliceHead(bb: seq<Byte>, k: int, end: int)
    requires 0 <= k < end <= |bb|
    ensures bb[k..end] == [bb[k]] + bb[k + 1..end]
    ensures end == k + 1 ==> bb[k..end] == [bb[k]] + []
  {
  }

  /** Stepping along inside a highlighted character. */
  lemma {:induction false} InsideNext(bb: seq<Byte>, marked: set<int>, k: int)
    requires 0 <= k < |bb| && Inside(bb, marked, k)
    ensures Ahead(bb, marked, k) == [bb[k]] + Ahead(bb, marked, k + 1)
  {
    var j :| 0 <= j < k && j in marked && LeadOf(bb, j, k);
    SliceHead(bb, k, CharEnd(bb, k + 1));
    if k + 1 < |bb| && IsContinuation(bb[k + 1]) {
      assert LeadOf(bb, j, k + 1);
      assert Inside(bb, marked, k + 1);
    }
  }

  /** Stepping from a highlighted lead byte into its character. */
  lemma {:induction false} LeadNext(bb: seq<Byte>, marked: set<int>, k: int)
    requires 0 <= k < |bb| && k in marked && !IsContinuation(bb[k])
    ensures bb[k..CharEnd(bb, k + 1)] == [bb[k]] + Ahead(bb, marked, k + 1)
  {
    SliceHead(bb, k, CharEnd(bb, k + 1));
    if k + 1 < |bb| && IsContinuation(bb[k + 1]) {
      assert LeadOf(bb, k, k + 1);
      assert Inside(bb, marked, k + 1);
    }
  }

  lemma {:induction false} KeptLength(bb: seq<Byte>, marked: set<int>, end: int)
    requires 0 <= end <= |bb|
    ensures |Kept(bb, marked, end)| == end <==> forall k :: 0 <= k < end ==> !Stray(bb, marked, k)
    ensures |Kept(bb, marked, end)| == end ==> Kept(bb, marked, end) == bb[..end]
  {
    if end > 0 {
      KeptLength(bb, marked, end - 1);
    }
  }

  /** The pieces hold the whole input, in order, exactly when every highlighted continuation byte belongs to a
      character whose lead byte is highlighted too; otherwise just the stray bytes are missing. */
  lemma {:induction false} ContentKeptIff(bb: seq<Byte>, marked: set<int>)
    ensures Payload(Pieces(bb, marked, |bb|)) == Kept(bb, marked, |bb|)
    ensures Payload(Pieces(bb, marked, |bb|)) == bb <==> forall k :: !Stray(bb, marked, k)
  {
    PayloadUpTo(bb, marked, |bb|);
    KeptLength(bb, marked, |bb|);
    assert bb[..|bb|] == bb;
  }

  // ---- Taking the colour codes out again ----

  function AfterEnd(s: seq<Byte>): (rest: seq<Byte>)
    ensures |rest| <= |s|
  {
    if s == [] then [] else if s[0] == END then s[1..] else AfterEnd(s[1..])
  }

  /** The text without its escape sequences. */
  function Stripped(s: seq<Byte>): seq<Byte>
    decreases |s|
  {
    if s == [] then []
    else if s[0] == ESC then Stripped(AfterEnd(s[1..]))
    else [s[0]] + Stripped(s[1..])
  }

  lemma {:induction false} AfterCode(code: seq<Byte>, rest: seq<Byte>)
    requires forall i :: 0 <= i < |code| ==> code[i] != END
    ensures AfterEnd(code + [END] + rest) == rest
  {
    var s := code + [END] + rest;
    if code == [] {
      assert s[1..] == rest;
    } else {
      assert s[1..] == code[1..] + [END] + rest;
      AfterCode(code[1..], rest);
    }
  }

  lemma {:induction false} DigitsPlain(n: nat)
    ensures forall i :: 0 <= i < |Digits(n)| ==> Digits(n)[i] != END
  {
    if n >= 10 {
      DigitsPlain(n / 10);
    }
  }

  lemma {:induction false} StripCode(code: seq<Byte>, rest: seq<Byte>)
    requires forall i :: 0 <= i < |code| ==> code[i] != END
    ensures Stripped([ESC] + code + [END] + rest) == Stripped(rest)
  {
    var s := [ESC] + code + [END] + rest;
    assert s[1..] == code + [END] + rest;
    AfterCode(code, rest);
  }

  lemma {:induction false} StripText(text: seq<Byte>, rest: seq<Byte>)
    requires ESC !in text
    ensures Stripped(text + rest) == text + Stripped(rest)
  {
    if text == [] {
      assert text + rest == rest;
    } else {
      assert (text + rest)[1..] == text[1..] + rest;
      StripText(text[1..], rest);
    }
  }

  lemma {:induction false} StartPlain(color: int)
    ensures var start: seq<Byte> := [91, 51, 56, 59, 53, 59];
            && StartCode(color) == [ESC] + (start + Itoa(color)) + [END]
            && forall i :: 0 <= i < |start + Itoa(color)| ==> (start + Itoa(color))[i] != END
  {
    DigitsPlain(if color < 0 then -color else color);
  }

  lemma {:induction false} StripReset(rest: seq<Byte>)
    ensures Stripped(ResetCode() + rest) == Stripped(rest)
  {
    var reset: seq<Byte> := [91, 48];
    assert ResetCode() == [ESC] + reset + [END];
    StripCode(reset, rest);
  }

  lemma {:induction false} StripColorized(text: seq<Byte>, color: int, rest: seq<Byte>)
    requires ESC !in text
    ensures Stripped(Colorized(text, color) + rest) == text + Stripped(rest)
  {
    var start: seq<Byte> := [91, 51, 56, 59, 53, 59];
    var tail := text + (ResetCode() + rest);
    assert Colorized(text, color) + rest == StartCode(color) + tail;
    StartPlain(color);
    StripCode(start + Itoa(color), tail);
    StripText(text, ResetCode() + rest);
    StripReset(rest);
  }

  predicate Plain(p: Piece) {
    match p case Raw(b) => b != ESC case Wrapped(text) => ESC !in text
  }

  ghost predicate PlainPieces(pieces: seq<Piece>) { forall i :: 0 <= i < |pieces| ==> Plain(pieces[i]) }

  lemma {:induction false} StripPiece(p: Piece, color: int, rest: seq<Byte>)
    requires Plain(p)
    ensures Stripped(RenderPiece(p, color) + rest) == PayloadOf(p) + Stripped(rest)
  {
    match p
    case Raw(b) => StripText([b], rest);
    case Wrapped(text) => StripColorized(text, color, rest);
  }

  lemma {:induction false} StripRender(pieces: seq<Piece>, color: int, rest: seq<Byte>)
    requires PlainPieces(pieces)
    ensures Stripped(Render(pieces, color) + rest) == Payload(pieces) + Stripped(rest)
    decreases |pieces|
  {
    if pieces == [] {
      assert Render(pieces, color) + rest == rest;
    } else {
      var n := |pieces| - 1;
      var last := RenderPiece(pieces[n], color);
      assert Render(pieces, color) + rest == Render(pieces[..n], color) + (last + rest);
      StripRender(pieces[..n], color, last + rest);
      StripPiece(pieces[n], color, rest);
    }
  }

  lemma {:induction false} PiecesPlain(bb: seq<Byte>, marked: set<int>, end: int)
    requires 0 <= end <= |bb| && ESC !in bb
    ensures PlainPieces(Pieces(bb, marked, end))
  {
    if end > 0 {
      PiecesPlain(bb, marked, end - 1);
    }
  }

  /** For a text without escape bytes, removing the colour codes from the result gives the text back, up to
      its stray bytes: the text itself exactly when there are none. */
  lemma {:induction false} StripGivesTextBack(bb: seq<Byte>, ii: seq<int>, color: int)
    requires ESC !in bb && ii != []
    ensures var marked := set p | p in ii;
            var result := Render(Pieces(bb, marked, |bb|), color);
            && Stripped(result) == Kept(bb, marked, |bb|)
            && (Stripped(result) == bb <==> forall k :: !Stray(bb, marked, k))
  {
    var marked := set p | p in ii;
    var pieces := Pieces(bb, marked, |bb|);
    PiecesPlain(bb, marked, |bb|);
    StripRender(pieces, color, []);
    assert Render(pieces, color) + [] == Render(pieces, color);
    ContentKeptIff(bb, marked);
  }
}
