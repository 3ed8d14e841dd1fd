/** The length limits a channel declares, enforced before it is called. */
module Overflow {
  import opened Channel
  import opened Message

  datatype Mode = RejectLong | Truncate | Split

  /** What a channel declares about length; zero means no limit. */
  datatype Capability = Capability(
    bodyMaxLen: nat, bodyMaxBytes: nat, titleMaxLen: nat, mode: Mode,
    overheadRunes: nat, overheadBytes: nat)

  /** Room for the body once everything around it is paid for. A zero field means unlimited. */
  datatype Budget = Budget(runes: nat, bytes: nat)

  predicate Fits(s: string, b: Budget) {
    && (b.runes > 0 ==> |s| <= b.runes)
    && (b.bytes > 0 ==> ByteLen(s) <= b.bytes)
  }

  lemma FitsPrefix(s: string, b: Budget, n: nat)
    requires n <= |s| && Fits(s, b)
    ensures Fits(s[..n], b)
  {
    ByteLenPrefix(s, n);
  }

  lemma FitsShorter(s: string, b: Budget, m: nat, n: nat)
    requires m <= n <= |s| && Fits(s[..n], b)
    ensures Fits(s[..m], b)
  {
    FitsPrefix(s[..n], b, m);
    assert s[..n][..m] == s[..m];
  }

  // --------------------------------------------------------------- budget

  const MARKER: nat := 12

  function LinkRunes(links: seq<Link>): nat {
    if links == [] then 0
    else
      var k := links[|links| - 1];
      LinkRunes(links[..|links| - 1]) + |k.text| + |k.url| + 4
  }

  function LinkBytes(links: seq<Link>): nat {
    if links == [] then 0
    else
      var k := links[|links| - 1];
      LinkBytes(links[..|links| - 1]) + ByteLen(k.text) + ByteLen(k.url) + 4
  }

  function FixedRunes(cap: Capability, m: Message): nat {
    cap.overheadRunes + |m.title| + LinkRunes(m.links) + MARKER
  }

  function FixedBytes(cap: Capability, m: Message): nat {
    cap.overheadBytes + ByteLen(m.title) + LinkBytes(m.links) + MARKER
  }

  /** No budget at all when a declared limit is already used up. */
  function BudgetOf(cap: Capability, m: Message): Option<Budget> {
    if (cap.bodyMaxLen > 0 && cap.bodyMaxLen <= FixedRunes(cap, m)) ||
       (cap.bodyMaxBytes > 0 && cap.bodyMaxBytes <= FixedBytes(cap, m))
    then None
    else Some(Budget(
      if cap.bodyMaxLen > 0 then cap.bodyMaxLen - FixedRunes(cap, m) else 0,
      if cap.bodyMaxBytes > 0 then cap.bodyMaxBytes - FixedBytes(cap, m) else 0))
  }

  method BodyBudget(cap: Capability, m: Message) returns (budget: Option<Budget>)
    ensures budget == BudgetOf(cap, m)
  {
    var linkRunes, linkBytes := 0, 0;
    for i := 0 to |m.links|
      invariant linkRunes == LinkRunes(m.links[..i]) && linkBytes == LinkBytes(m.links[..i])
    {
      assert m.links[..i + 1][..i] == m.links[..i];
      var k := m.links[i];
      linkRunes := linkRunes + |k.text| + |k.url| + 4;
      linkBytes := linkBytes + ByteLen(k.text) + ByteLen(k.url) + 4;
    }
    assert m.links[..|m.links|] == m.links;
    var fixedRunes := cap.overheadRunes + |m.title| + linkRunes + MARKER;
    var fixedBytes := cap.overheadBytes + ByteLen(m.title) + linkBytes + MARKER;
    var runes, bytes := 0, 0;
    if cap.bodyMaxLen > 0 {
      if cap.bodyMaxLen <= fixedRunes {
        return None;
      }
      runes := cap.bodyMaxLen - fixedRunes;
    }
    if cap.bodyMaxBytes > 0 {
      if cap.bodyMaxBytes <= fixedBytes {
        return None;
      }
      bytes := cap.bodyMaxBytes - fixedBytes;
    }
    return Some(Budget(runes, bytes));
  }

  // ------------------------------------------------------ the longest fit

  /** The length of the longest prefix that fits, found from the far end. */
  function LongestFit(s: string, b: Budget): (n: nat)
    ensures n <= |s| && Fits(s[..n], b)
    ensures n < |s| ==> !Fits(s[..n + 1], b)
  {
    if Fits(s, b) then
      assert s[..|s|] == s;
      |s|
    else
      var shorter := s[..|s| - 1];
      var n := LongestFit(shorter, b);
      assert s[..n] == shorter[..n];
      assert s[..n + 1] == if n < |shorter| then shorter[..n + 1] else s;
      n
  }

  /** A prefix that fits and cannot be extended is the longest. */
  lemma LongestFitIs(s: string, b: Budget, n: nat)
    requires n <= |s| && Fits(s[..n], b) && (n < |s| ==> !Fits(s[..n + 1], b))
    ensures LongestFit(s, b) == n
  {
    var m := LongestFit(s, b);
    if m < n {
      FitsShorter(s, b, m + 1, n);
    } else if n < m {
      FitsShorter(s, b, n + 1, m);
    }
  }

  // -------------------------------------------------------------- truncate

  /** The body cut to the longest prefix within both budgets. */
  method TruncateBody(s: string, b: Budget) returns (r: string)
    ensures r == s[..LongestFit(s, b)]
  {
    var end := |s|;
    if b.runes > 0 && end > b.runes {
      end := b.runes;
    }
    if b.bytes > 0 {
      var used, i := 0, 0;
      while i < end
        invariant 0 <= i <= end <= |s|
        invariant used == ByteLen(s[..i]) <= b.bytes
        invariant end < |s| ==> b.runes > 0 && end == b.runes
        invariant b.runes > 0 ==> end <= b.runes
      {
        var size := RuneSize(s[i]);
        assert s[..i + 1][..i] == s[..i];
        if used + size > b.bytes {
          LongestFitIs(s, b, i);
          return s[..i];
        }
        used := used + size;
        i := i + 1;
      }
    }
    LongestFitIs(s, b, end);
    return s[..end];
  }

  function TruncateRunes(s: string, limit: nat): (r: string)
    ensures r <= s && (limit > 0 ==> |r| <= limit) && (limit == 0 || |s| <= limit ==> r == s)
    ensures limit > 0 && |s| > limit ==> |r| == limit
  {
    if limit == 0 || |s| <= limit then s else s[..limit]
  }

  // ----------------------------------------------------------------- split

  /**
   * Where a window is cut: after the last line break of its second half, or at its end when there is none.
   */
  ghost predicate IsCut(w: string, cut: nat) {
    && 0 < cut <= |w|
    && (forall j :: cut <= j < |w| && j > |w| / 2 ==> w[j] != '\n')
    && (if exists j :: |w| / 2 < j < |w| && w[j] == '\n'
        then cut - 1 > |w| / 2 && w[cut - 1] == '\n' else cut == |w|)
  }

  function CutOf(w: string): (cut: nat)
    requires w != ""
    ensures IsCut(w, cut)
  {
    LastBreak(w, |w| - 1)
  }

  function LastBreak(w: string, i: nat): (cut: nat)
    requires i < |w| && forall j :: i < j < |w| ==> w[j] != '\n'
    ensures IsCut(w, cut)
  {
    if i <= |w| / 2 then |w|
    else if w[i] == '\n' then i + 1
    else LastBreak(w, i - 1)
  }

  lemma CutIsUnique(w: string, a: nat, b: nat)
    requires IsCut(w, a) && IsCut(w, b)
    ensures a == b
  {
  }

  /** Trailing line breaks off. */
  function TrimBreaks(s: string): (r: string)
    ensures r <= s && (forall i :: |r| <= i < |s| ==> s[i] == '\n')
    ensures r != "" ==> r[|r| - 1] != '\n'
  {
    if s != "" && s[|s| - 1] == '\n' then TrimBreaks(s[..|s| - 1]) else s
  }

  /** The next window of a body: as much as fits, but always at least one character. */
  function Window(s: string, b: Budget): (w: string)
    requires s != ""
    ensures w != "" && w <= s
  {
    var n := LongestFit(s, b);
    s[..if n == 0 then 1 else n]
  }

  function FirstCut(s: string, b: Budget): (cut: nat)
    requires s != ""
    ensures 0 < cut <= |s|
  {
    CutOf(Window(s, b))
  }

  function Chunks(s: string, b: Budget): seq<string>
    decreases |s|
  {
    if s == "" then []
    else [TrimBreaks(s[..FirstCut(s, b)])] + Chunks(s[FirstCut(s, b)..], b)
  }

  lemma ChunksUnfold(s: string, b: Budget, first: string, others: string)
    requires s != "" && first == s[..FirstCut(s, b)] && others == s[FirstCut(s, b)..]
    ensures Chunks(s, b) == [TrimBreaks(first)] + Chunks(others, b)
  {
  }

  /** The longest window from start on, grown one character at a time. */
  method GrowWindow(s: string, start: nat, b: Budget) returns (end: nat)
    requires start < |s|
    ensures start < end <= |s| && s[start..end] == Window(s[start..], b)
  {
    end := start;
    var used := 0;
    var rest := s[start..];
    while end < |s|
      invariant start <= end <= |s|
      invariant used == ByteLen(rest[..end - start]) && Fits(rest[..end - start], b)
    {
      assert rest[..end - start + 1][..end - start] == rest[..end - start];
      if b.runes > 0 && end - start + 1 > b.runes {
        break;
      }
      var size := RuneSize(s[end]);
      if b.bytes > 0 && used + size > b.bytes {
        break;
      }
      used := used + size;
      end := end + 1;
    }
    LongestFitIs(rest, b, end - start);
    if end == start {
      end := start + 1;
    }
    assert s[start..end] == rest[..end - start];
  }

  /** Search the second half of a window, backwards, for a line break. */
  method FindCut(s: string, start: nat, end: nat) returns (cut: nat)
    requires start < end <= |s|
    ensures start < cut <= end && cut - start == CutOf(s[start..end])
  {
    ghost var w := s[start..end];
    cut := end;
    var i := end - 1;
    while i > start + (end - start) / 2
      invariant start <= i < end && cut == end
      invariant forall j :: i - start < j < |w| ==> w[j] != '\n'
    {
      if s[i] == '\n' {
        cut := i + 1;
        assert w[cut - start - 1] == '\n';
        break;
      }
      assert w[i - start] != '\n';
      i := i - 1;
    }
    CutIsUnique(w, cut - start, CutOf(w));
  }

  lemma CutsAgree(s: string, b: Budget, start: nat, end: nat, cut: nat)
    requires start < end <= |s| && s[start..end] == Window(s[start..], b)
    requires start < cut <= end && cut - start == CutOf(s[start..end])
    ensures FirstCut(s[start..], b) == cut - start
  {
  }

  lemma ChunksStep(s: string, b: Budget, start: nat, cut: nat)
    requires start < cut <= |s| && FirstCut(s[start..], b) == cut - start
    ensures Chunks(s[start..], b) == [TrimBreaks(s[start..cut])] + Chunks(s[cut..], b)
  {
    assert s[start..][..cut - start] == s[start..cut] && s[start..][cut - start..] == s[cut..];
    ChunksUnfold(s[start..], b, s[start..cut], s[cut..]);
  }

  method SplitBody(s: string, b: Budget) returns (chunks: seq<string>)
    ensures chunks == Chunks(s, b)
  {
    chunks := [];
    var start := 0;
    assert s[0..] == s;
    while start < |s|
      invariant 0 <= start <= |s|
      invariant Chunks(s, b) == chunks + Chunks(s[start..], b)
      decreases |s| - start
    {
      var end := GrowWindow(s, start, b);
      var cut := FindCut(s, start, end);
      var chunk := TrimBreaks(s[start..cut]);
      CutsAgree(s, b, start, end, cut);
      ChunksStep(s, b, start, cut);
      assert chunks + ([chunk] + Chunks(s[cut..], b)) == chunks + [chunk] + Chunks(s[cut..], b);
      chunks := chunks + [chunk];
      start := cut;
    }
  }

  // ------------------------------------------------- what a split promises

  /** Within the budget, or the one character that no budget this small can take. */
  predicate ChunkFits(c: string, b: Budget) {
    Fits(c, b) || (|c| == 1 && 0 < b.bytes < RuneSize(c[0]))
  }

  lemma {:induction false} ChunksFit(s: string, b: Budget)
    ensures forall c :: c in Chunks(s, b) ==> ChunkFits(c, b)
    ensures b.bytes == 0 || b.bytes >= 4 ==> forall c :: c in Chunks(s, b) ==> Fits(c, b)
    decreases |s|
  {
    if s != "" {
      var w := Window(s, b);
      var cut := CutOf(w);
      var c := TrimBreaks(s[..cut]);
      assert c == w[..|c|];
      if LongestFit(s, b) > 0 {
        FitsPrefix(w, b, |c|);
      } else if c != "" {
        assert c == s[..1] && c[..0] == "";
      }
      ChunksFit(s[cut..], b);
    }
  }

  /** A character of four bytes, the most there are. */
  const WIDE: string := "\U{1F600}"

  /** Every chunk of every body is within the budget exactly when any one character is. */
  lemma ChunksFitExactly(b: Budget)
    ensures (forall s: string, c: string :: c in Chunks(s, b) ==> Fits(c, b)) <==> b.bytes == 0 || b.bytes >= 4
  {
    if b.bytes == 0 || b.bytes >= 4 {
      forall s: string, c: string | c in Chunks(s, b)
        ensures Fits(c, b)
      {
        ChunksFit(s, b);
      }
    } else {
      assert WIDE[..0] == "" && ByteLen(WIDE) == 4;
      var cut := FirstCut(WIDE, b);
      assert cut == 1 && WIDE[..1] == WIDE && TrimBreaks(WIDE) == WIDE;
      assert Chunks(WIDE, b)[0] == WIDE;
      assert WIDE in Chunks(WIDE, b) && !Fits(WIDE, b);
    }
  }

  function Breaks(n: nat): string {
    seq(n, i => '\n')
  }

  /** The chunks in order, each followed by its run of line breaks. */
  function Rejoin(chunks: seq<string>, gaps: seq<nat>): string
    requires |chunks| == |gaps|
  {
    if chunks == [] then "" else chunks[0] + Breaks(gaps[0]) + Rejoin(chunks[1..], gaps[1..])
  }

  lemma RejoinFirst(c: string, chunks: seq<string>, n: nat, gaps: seq<nat>)
    requires |chunks| == |gaps|
    ensures Rejoin([c] + chunks, [n] + gaps) == c + Breaks(n) + Rejoin(chunks, gaps)
  {
    assert ([c] + chunks)[1..] == chunks && ([n] + gaps)[1..] == gaps;
  }

  lemma TrimThenBreaks(s: string)
    ensures TrimBreaks(s) + Breaks(|s| - |TrimBreaks(s)|) == s
  {
  }

  lemma RejoinStep(s: string, b: Budget, others: string, rest: seq<nat>) returns (gap: nat)
    requires s != "" && others == s[FirstCut(s, b)..]
    requires |rest| == |Chunks(others, b)| && Rejoin(Chunks(others, b), rest) == others
    ensures |Chunks(s, b)| == 1 + |rest| && Rejoin(Chunks(s, b), [gap] + rest) == s
  {
    hide Chunks, FirstCut, Rejoin, TrimBreaks, Breaks;
    var first := s[..FirstCut(s, b)];
    gap := |first| - |TrimBreaks(first)|;
    ChunksUnfold(s, b, first, others);
    TrimThenBreaks(first);
    RejoinFirst(TrimBreaks(first), Chunks(others, b), gap, rest);
    Glue(TrimBreaks(first), Breaks(gap), others, first, s);
  }

  lemma Glue(c: string, breaks: string, others: string, first: string, s: string)
    requires c + breaks == first && first + others == s
    ensures c + breaks + others == s
  {
  }

  /** A split loses nothing but runs of line breaks at the ends of chunks. */
  lemma {:induction false} SplitRejoins(s: string, b: Budget) returns (gaps: seq<nat>)
    ensures |gaps| == |Chunks(s, b)| && Rejoin(Chunks(s, b), gaps) == s
    decreases |s|
  {
    if s == "" {
      gaps := [];
    } else {
      var others := s[FirstCut(s, b)..];
      var rest := SplitRejoins(others, b);
      var gap := RejoinStep(s, b, others, rest);
      gaps := [gap] + rest;
    }
  }

  /** A body that does not fit comes out in several chunks, unless it is a single character. */
  lemma SplitsIntoSeveral(s: string, b: Budget)
    requires !Fits(s, b)
    ensures Chunks(s, b) != [] && (|s| > 1 ==> |Chunks(s, b)| > 1)
  {
    assert s != "";
    var w := Window(s, b);
    assert s[..|s|] == s;
    assert |s| > 1 ==> |w| < |s|;
    var cut := CutOf(w);
    assert |s| > 1 ==> s[cut..] != "";
  }

  // ----------------------------------------------------------------- apply

  function Digits(n: nat): (d: string)
    ensures d != "" && Ascii(d)
  {
    if n < 10 then [('0' as int + n) as char] else Digits(n / 10) + Digits(n % 10)
  }

  lemma DigitsShort(n: nat)
    requires n <= 9999
    ensures |Digits(n)| <= 4
  {
    if n >= 100 {
      assert |Digits(n)| == |Digits(n / 10)| + 1;
      assert |Digits(n / 10)| == |Digits(n / 10 / 10)| + 1;
    }
  }

  lemma DigitsLong(n: nat)
    requires n >= 10000
    ensures |Digits(n)| >= 5
    decreases n
  {
    if n >= 100000 {
      DigitsLong(n / 10);
    } else {
      assert |Digits(n)| == |Digits(n / 10)| + 1;
      assert |Digits(n / 10)| == |Digits(n / 100)| + 1 by {
        assert n / 10 / 10 == n / 100;
      }
      assert |Digits(n / 100)| >= 3 by {
        assert |Digits(n / 100)| == |Digits(n / 100 / 10)| + 1;
        assert |Digits(n / 100 / 10)| == |Digits(n / 100 / 10 / 10)| + 1;
      }
    }
  }

  function Marker(i: nat, n: nat): string {
    " [" + Digits(i + 1) + "/" + Digits(n) + "]"
  }

  datatype Applied = Parts(parts: seq<Message>) | TooLong

  function PartTitle(title: string, limit: nat, i: nat, n: nat): string {
    if n > 1 then TruncateRunes(title + Marker(i, n), limit) else title
  }

  function PartOf(out: Message, cap: Capability, chunks: seq<string>, i: nat): Message
    requires i < |chunks|
  {
    out.(body := chunks[i], title := PartTitle(out.title, cap.titleMaxLen, i, |chunks|))
  }

  function Titled(m: Message, cap: Capability): Message {
    m.(title := TruncateRunes(m.title, cap.titleMaxLen))
  }

  function Apply(m: Message, cap: Capability): (r: Applied)
    ensures r.Parts? ==> r.parts != []
  {
    var out := Titled(m, cap);
    var budget := BudgetOf(cap, out);
    if budget.None? then TooLong
    else if Fits(out.body, budget.value) then Parts([out])
    else
      match cap.mode
      case RejectLong => TooLong
      case Truncate => Parts([out.(body := out.body[..LongestFit(out.body, budget.value)])])
      case Split =>
        SplitsIntoSeveral(out.body, budget.value);
        var chunks := Chunks(out.body, budget.value);
        Parts(seq(|chunks|, i requires 0 <= i < |chunks| => PartOf(out, cap, chunks, i)))
  }

  method ApplyLimits(m: Message, cap: Capability) returns (r: Applied)
    ensures r == Apply(m, cap)
  {
    var out := m;
    if cap.titleMaxLen > 0 {
      out := out.(title := TruncateRunes(out.title, cap.titleMaxLen));
    }
    assert out == Titled(m, cap);
    var budget := BodyBudget(cap, out);
    if budget.None? {
      return TooLong;
    }
    if Fits(out.body, budget.value) {
      return Parts([out]);
    }
    match cap.mode {
      case RejectLong =>
        return TooLong;
      case Truncate =>
        var body := TruncateBody(out.body, budget.value);
        return Parts([out.(body := body)]);
      case Split =>
        var chunks := SplitBody(out.body, budget.value);
        SplitsIntoSeveral(out.body, budget.value);
        var parts := NumberParts(out, cap, chunks);
        return Parts(parts);
    }
  }

  /** The marker can push a title past its limit, so the numbered title is cut again. */
  method NumberTitle(title: string, limit: nat, i: nat, n: nat) returns (t: string)
    ensures t == PartTitle(title, limit, i, n)
  {
    t := title;
    if n > 1 {
      t := t + Marker(i, n);
      if limit > 0 {
        t := TruncateRunes(t, limit);
      }
    }
  }

  /** One message per chunk, numbered in the title when there are several. */
  method NumberParts(out: Message, cap: Capability, chunks: seq<string>) returns (parts: seq<Message>)
    ensures parts == seq(|chunks|, i requires 0 <= i < |chunks| => PartOf(out, cap, chunks, i))
  {
    parts := [];
    for i := 0 to |chunks|
      invariant |parts| == i
      invariant forall j :: 0 <= j < i ==> parts[j] == PartOf(out, cap, chunks, j)
    {
      var title := NumberTitle(out.title, cap.titleMaxLen, i, |chunks|);
      parts := parts + [out.(body := chunks[i], title := title)];
    }
  }
}
