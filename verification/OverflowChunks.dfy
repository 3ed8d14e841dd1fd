/** What a message comes out as under its channel's length limits: every chunk is as long as it can be. */
module OverflowChunks {
  import opened Channel
  import opened Message
  import opened Overflow
  import opened Arithmetic

  // ------------------------------------------------------------- the chunks

  /** From start to end fits and one character more does not; a character that fits nowhere goes by itself. */
  predicate Longest(s: string, b: Budget, start: nat, end: nat) {
    && start < end <= |s|
    && (Fits(s[start..end], b) || end == start + 1)
    && (end < |s| ==> !Fits(s[start..end + 1], b))
  }

  /** Just after the last line break of the second half of the stretch, or at its end if there is none there. */
  predicate BrokenWell(s: string, start: nat, end: nat, cut: nat)
    requires start < end <= |s|
  {
    var half := start + (end - start) / 2;
    if exists j :: half < j < end && s[j] == '\n'
    then half < cut - 1 < end && s[cut - 1] == '\n' && forall j :: cut <= j < end ==> s[j] != '\n'
    else cut == end
  }

  lemma BrokenWellIsCut(s: string, start: nat, end: nat, cut: nat)
    requires start < end <= |s| && start <= cut
    ensures BrokenWell(s, start, end, cut) <==> IsCut(s[start..end], cut - start)
  {
    var w, half := s[start..end], (end - start) / 2;
    assert forall j :: 0 <= j < |w| ==> w[j] == s[start + j];
    assert forall j :: start <= j < end ==> s[j] == w[j - start];
    if j :| start + half < j < end && s[j] == '\n' {
      assert w[j - start] == '\n';
    }
  }

  /** The line breaks at the end are gone and nothing else is. */
  predicate Stripped(c: string, t: string) {
    && c <= t && (forall i :: |c| <= i < |t| ==> t[i] == '\n')
    && (c != "" ==> c[|c| - 1] != '\n')
  }

  ghost predicate ChunkRight(s: string, b: Budget, c: string, start: nat, cut: nat) {
    cut <= |s| &&
    exists end :: Longest(s, b, start, end) && BrokenWell(s, start, end, cut) && Stripped(c, s[start..cut])
  }

  /** These are the chunks of what follows start, cut at these places. */
  ghost predicate CutsRight(s: string, b: Budget, start: nat, chunks: seq<string>, cuts: seq<nat>) {
    && |cuts| == |chunks| + 1 && cuts[0] == start && cuts[|chunks|] == |s|
    && forall i :: 0 <= i < |chunks| ==> ChunkRight(s, b, chunks[i], cuts[i], cuts[i + 1])
  }

  /** A longest stretch is the window, and a well-placed cut the first one. */
  lemma FirstChunk(s: string, b: Budget, start: nat, end: nat, cut: nat)
    requires Longest(s, b, start, end) && BrokenWell(s, start, end, cut)
    ensures FirstCut(s[start..], b) == cut - start
  {
    var t, w := s[start..], s[start..end];
    assert t[..end - start] == w && (end < |s| ==> t[..end - start + 1] == s[start..end + 1]);
    if Fits(w, b) {
      LongestFitIs(t, b, end - start);
    } else {
      assert t[..0] == "" && t[..1] == w;
      LongestFitIs(t, b, 0);
    }
    assert Window(t, b) == w;
    hide Longest, LongestFit, Fits, Window;
    BrokenWellIsCut(s, start, end, cut);
    CutIsUnique(w, cut - start, CutOf(w));
  }

  lemma OneStrip(c: string, t: string)
    requires Stripped(c, t)
    ensures c == TrimBreaks(t)
  {
    var r := TrimBreaks(t);
    assert |c| == |r|;
  }

  /** The longest stretch from start. */
  lemma FirstStretch(s: string, b: Budget, start: nat) returns (end: nat)
    requires start < |s|
    ensures Longest(s, b, start, end) && s[start..end] == Window(s[start..], b)
  {
    var t := s[start..];
    var n := LongestFit(t, b);
    end := start + if n == 0 then 1 else n;
    assert t[..end - start] == s[start..end] && t[..n] == s[start..start + n];
    assert start + n < |s| ==> t[..n + 1] == s[start..start + n + 1];
    if n == 0 && end < |s| && Fits(s[start..end + 1], b) {
      assert t[..2] == s[start..end + 1];
      FitsShorter(t, b, 1, 2);
    }
  }

  lemma FirstBreak(s: string, b: Budget, start: nat, end: nat) returns (cut: nat)
    requires start < end <= |s| && s[start..end] == Window(s[start..], b)
    ensures BrokenWell(s, start, end, cut) && cut - start == FirstCut(s[start..], b) && cut > start
  {
    hide Window;
    cut := start + CutOf(s[start..end]);
    BrokenWellIsCut(s, start, end, cut);
  }

  lemma {:induction false} CutsAre(s: string, b: Budget, start: nat) returns (cuts: seq<nat>)
    requires start <= |s|
    ensures CutsRight(s, b, start, Chunks(s[start..], b), cuts)
    decreases |s| - start
  {
    if start == |s| {
      cuts := [start];
    } else {
      var end := FirstStretch(s, b, start);
      var cut := FirstBreak(s, b, start, end);
      ChunksStep(s, b, start, cut);
      var rest := CutsAre(s, b, cut);
      hide Chunks, FirstCut, TrimBreaks, Longest, BrokenWell;
      cuts := [start] + rest;
      StepRight(s, b, start, end, cut, Chunks(s[cut..], b), rest);
    }
  }

  lemma StepRight(s: string, b: Budget, start: nat, end: nat, cut: nat, chunks: seq<string>, rest: seq<nat>)
    requires Longest(s, b, start, end) && BrokenWell(s, start, end, cut) && CutsRight(s, b, cut, chunks, rest)
    ensures CutsRight(s, b, start, [TrimBreaks(s[start..cut])] + chunks, [start] + rest)
  {
    var c := TrimBreaks(s[start..cut]);
    assert ChunkRight(s, b, c, start, cut);
    hide ChunkRight, TrimBreaks;
    forall i | 0 <= i < |chunks| + 1
      ensures ChunkRight(s, b, ([c] + chunks)[i], ([start] + rest)[i], ([start] + rest)[i + 1])
    {
      if i > 0 {
        assert ChunkRight(s, b, chunks[i - 1], rest[i - 1], rest[i]);
      }
    }
  }

  lemma RestRight(s: string, b: Budget, start: nat, chunks: seq<string>, cuts: seq<nat>)
    requires chunks != [] && CutsRight(s, b, start, chunks, cuts)
    ensures CutsRight(s, b, cuts[1], chunks[1..], cuts[1..])
  {
    hide ChunkRight;
  }

  lemma OnlyFirst(s: string, b: Budget, c: string, start: nat, cut: nat)
    requires start <= |s| && ChunkRight(s, b, c, start, cut)
    ensures start < cut <= |s| && Chunks(s[start..], b) == [c] + Chunks(s[cut..], b)
  {
    var end :| Longest(s, b, start, end) && BrokenWell(s, start, end, cut) && Stripped(c, s[start..cut]);
    FirstChunk(s, b, start, end, cut);
    OneStrip(c, s[start..cut]);
    hide FirstCut, Chunks, TrimBreaks, Stripped;
    ChunksStep(s, b, start, cut);
  }

  /** No other way of cutting meets the description. */
  lemma {:induction false} CutsAreOnly(s: string, b: Budget, start: nat, chunks: seq<string>, cuts: seq<nat>)
    requires start <= |s| && CutsRight(s, b, start, chunks, cuts)
    ensures chunks == Chunks(s[start..], b)
    decreases |chunks|
  {
    if chunks == [] {
      assert s[start..] == "";
    } else {
      OnlyFirst(s, b, chunks[0], start, cuts[1]);
      RestRight(s, b, start, chunks, cuts);
      hide ChunkRight, CutsRight, Chunks;
      CutsAreOnly(s, b, cuts[1], chunks[1..], cuts[1..]);
    }
  }

  /**
   * The chunks of a body are what is left, without its trailing line breaks, of each piece of it from one cut to
   * the next, where every cut is at the last line break in the second half of the longest stretch that fits, or
   * at its end. That describes one way of cutting and no other.
   */
  lemma ChunksExactly(s: string, b: Budget, chunks: seq<string>)
    ensures chunks == Chunks(s, b) <==> exists cuts :: CutsRight(s, b, 0, chunks, cuts)
  {
    assert s[0..] == s;
    var cuts := CutsAre(s, b, 0);
    hide CutsRight;
    forall others | CutsRight(s, b, 0, chunks, others)
      ensures chunks == Chunks(s, b)
    {
      CutsAreOnly(s, b, 0, chunks, others);
    }
  }

  // ---------------------------------------------------------- how many there are

  /** The tighter of the two limits when every character is one byte; zero if there is neither. */
  function Tighter(b: Budget): nat {
    if b.runes > 0 && (b.bytes == 0 || b.runes <= b.bytes) then b.runes else b.bytes
  }

  predicate Unbroken(s: string) {
    Ascii(s) && forall i :: 0 <= i < |s| ==> s[i] != '\n'
  }

  lemma UnbrokenCut(s: string, b: Budget)
    requires s != "" && Unbroken(s) && Tighter(b) > 0
    ensures FirstCut(s, b) == if |s| <= Tighter(b) then |s| else Tighter(b)
  {
    var n := if |s| <= Tighter(b) then |s| else Tighter(b);
    ByteLenAscii(s[..n]);
    if n < |s| {
      ByteLenAscii(s[..n + 1]);
    }
    assert s[0..n] == s[..n] && s[0..] == s && (n < |s| ==> s[0..n + 1] == s[..n + 1]);
    assert Longest(s, b, 0, n);
    FirstChunk(s, b, 0, n, n);
  }

  /** As few chunks of at most n characters as hold len of them: all but the last are full. */
  predicate Fewest(chunks: seq<string>, len: nat, n: nat)
    requires n > 0
  {
    |chunks| == CeilDiv(len, n) && forall i :: 0 <= i < |chunks| - 1 ==> |chunks[i]| == n
  }

  lemma FewestStep(first: string, rest: seq<string>, len: nat, n: nat)
    requires 0 < n && 0 < |first| <= len && |first| == (if len <= n then len else n)
    requires Fewest(rest, len - |first|, n)
    ensures Fewest([first] + rest, len, n)
  {
    CeilStep(len, n);
    hide CeilDiv;
  }

  /** A plain body with no line breaks comes out in as few chunks as hold it. */
  lemma {:induction false} FewestChunks(s: string, b: Budget)
    requires Unbroken(s) && Tighter(b) > 0
    ensures Fewest(Chunks(s, b), |s|, Tighter(b))
    decreases |s|
  {
    if s == "" {
      CeilStep(0, Tighter(b));
    } else {
      UnbrokenCut(s, b);
      UnbrokenStep(s, b);
      hide Chunks, FirstCut, Tighter, Fewest;
      var cut := FirstCut(s, b);
      FewestChunks(s[cut..], b);
      FewestStep(s[..cut], Chunks(s[cut..], b), |s|, Tighter(b));
    }
  }

  lemma UnbrokenStep(s: string, b: Budget)
    requires s != "" && Unbroken(s)
    ensures var cut := FirstCut(s, b);
            Chunks(s, b) == [s[..cut]] + Chunks(s[cut..], b) && Unbroken(s[cut..])
  {
    hide FirstCut;
    var cut := FirstCut(s, b);
    ChunksUnfold(s, b, s[..cut], s[cut..]);
    assert TrimBreaks(s[..cut]) == s[..cut];
  }

  // ------------------------------------------------------- the whole message

  /** What is left for the body is the declared limit less everything else that goes out, and it is never nothing. */
  lemma BudgetExactly(cap: Capability, m: Message)
    ensures var runes := cap.overheadRunes + |m.title| + LinkRunes(m.links) + 12;
            var bytes := cap.overheadBytes + ByteLen(m.title) + LinkBytes(m.links) + 12;
            match BudgetOf(cap, m)
            case None => 0 < cap.bodyMaxLen <= runes || 0 < cap.bodyMaxBytes <= bytes
            case Some(b) =>
              && (if cap.bodyMaxLen == 0 then b.runes == 0 else b.runes > 0 && b.runes + runes == cap.bodyMaxLen)
              && (if cap.bodyMaxBytes == 0 then b.bytes == 0 else b.bytes > 0 && b.bytes + bytes == cap.bodyMaxBytes)
  {
  }

  function Shortened(title: string, limit: nat): string {
    if 0 < limit < |title| then title[..limit] else title
  }

  /**
   * A message goes out whole if its body fits; otherwise it is refused, goes out as the longest part of its body
   * that fits, or as its chunks in order, numbered if there are several. It is refused as well when nothing is
   * left for a body.
   */
  lemma AppliedExactly(m: Message, cap: Capability)
    ensures var out := m.(title := Shortened(m.title, cap.titleMaxLen));
            var budget := BudgetOf(cap, out);
            match Apply(m, cap)
            case TooLong => budget.None? || (!Fits(m.body, budget.value) && cap.mode == RejectLong)
            case Parts(parts) =>
              && budget.Some?
              && (Fits(m.body, budget.value) ==> parts == [out])
              && (!Fits(m.body, budget.value) ==> cap.mode != RejectLong)
              && (!Fits(m.body, budget.value) && cap.mode == Truncate ==>
                    |parts| == 1 && parts[0] == out.(body := parts[0].body) && parts[0].body < m.body &&
                    Fits(parts[0].body, budget.value) && !Fits(m.body[..|parts[0].body| + 1], budget.value))
              && (!Fits(m.body, budget.value) && cap.mode == Split ==>
                    |parts| == |Chunks(m.body, budget.value)| &&
                    forall i :: 0 <= i < |parts| ==>
                      parts[i] == out.(
                        body := Chunks(m.body, budget.value)[i],
                        title := if |parts| == 1 then out.title
                                 else Shortened(out.title + " [" + Digits(i + 1) + "/" + Digits(|parts|) + "]",
                                                cap.titleMaxLen)))
  {
    hide Chunks, LongestFit, Digits, FixedRunes, FixedBytes, ByteLen;
    var out := Titled(m, cap);
    var budget := BudgetOf(cap, out);
    hide BudgetOf;
    assert m.body[..|m.body|] == m.body;
    if budget.Some? && !Fits(m.body, budget.value) && cap.mode == Split {
      forall i | 0 <= i < |Chunks(m.body, budget.value)|
        ensures Apply(m, cap).parts[i].title ==
                if |Chunks(m.body, budget.value)| == 1 then out.title
                else Shortened(out.title + " [" + Digits(i + 1) + "/" + Digits(|Chunks(m.body, budget.value)|) + "]",
                               cap.titleMaxLen)
      {
        var n := |Chunks(m.body, budget.value)|;
        assert out.title + Marker(i, n) == out.title + " [" + Digits(i + 1) + "/" + Digits(n) + "]";
      }
    }
  }

  // -------------------------------------------------------------- its numbers

  predicate Decimal(d: string) {
    forall i :: 0 <= i < |d| ==> '0' <= d[i] <= '9'
  }

  /** The number a string of decimal digits stands for. */
  function Value(d: string): int {
    if d == "" then 0 else 10 * Value(d[..|d| - 1]) + (d[|d| - 1] as int - '0' as int)
  }

  /** A number is written in decimal, without leading zeros. */
  lemma {:induction false} DigitsRead(n: nat)
    ensures Decimal(Digits(n)) && Value(Digits(n)) == n && (Digits(n)[0] == '0' ==> n == 0)
  {
    if n >= 10 {
      DigitsRead(n / 10);
      assert Digits(n)[..|Digits(n)| - 1] == Digits(n / 10);
    } else {
      assert Digits(n)[..0] == "";
    }
  }
}
