/** The text each IM channel puts on the wire, and how long it gets. */
module Payload {
  import opened Channel
  import opened Message
  import opened Overflow

  /** One per content builder: DingTalk, WeCom and Feishu have two message types each. */
  datatype Renderer =
    | DingTalkMarkdown | DingTalkText
    | WeComMarkdown | WeComText
    | FeishuMarkdown | FeishuText
    | SlackText

  function CapabilityOf(r: Renderer): Capability {
    match r
    case DingTalkMarkdown => Capability(5000, 20000, 0, Split, 32, 32)
    case DingTalkText => Capability(5000, 20000, 0, Split, 32, 32)
    case WeComMarkdown => Capability(1300, 4096, 0, Split, 64, 64)
    case WeComText => Capability(1300, 4096, 0, Split, 64, 64)
    case FeishuMarkdown => Capability(8000, 20000, 0, Split, 32, 32)
    case FeishuText => Capability(8000, 20000, 0, Split, 32, 32)
    case SlackText => Capability(4000, 0, 0, Split, 32, 32)
  }

  function Prefix(s: Severity): string {
    match s
    case Warning => "[WARN] "
    case Failure => "[ALERT] "
    case Success => "[OK] "
    case Info => ""
  }

  function Colour(s: Severity): string {
    match s
    case Success => "info"
    case Warning => "warning"
    case Failure => "warning"
    case Info => ""
  }

  /** What stands in front of the title, and between the title and the body. */
  function BeforeTitle(r: Renderer, s: Severity): string {
    match r
    case FeishuMarkdown => "**"
    case WeComMarkdown => if Colour(s) != "" then "<font color=\"" + Colour(s) + "\">" + Prefix(s) else Prefix(s)
    case _ => Prefix(s)
  }

  function AfterTitle(r: Renderer, s: Severity): string {
    match r
    case FeishuMarkdown => "**\n"
    case WeComMarkdown => if Colour(s) != "" then "</font>\n" else "\n"
    case SlackText => "\n"
    case _ => "\n\n"
  }

  function LinkLine(r: Renderer, k: Link): string {
    if k.text == "" then "\n" + k.url
    else if r == SlackText then "\n" + k.text + ": " + k.url
    else "\n" + "[" + k.text + "](" + k.url + ")"
  }

  function LinkLines(r: Renderer, links: seq<Link>): string {
    if links == [] then "" else LinkLines(r, links[..|links| - 1]) + LinkLine(r, links[|links| - 1])
  }

  function Text(r: Renderer, m: Message): string {
    BeforeTitle(r, m.severity) + m.title + AfterTitle(r, m.severity) + m.body + LinkLines(r, m.links)
  }

  method WriteLink(r: Renderer, k: Link, b: string) returns (text: string)
    ensures text == b + LinkLine(r, k)
  {
    var line := "\n";
    if k.text != "" {
      if r == SlackText {
        line := line + k.text + ": " + k.url;
      } else {
        line := line + "[" + k.text + "](" + k.url + ")";
      }
    } else {
      line := line + k.url;
    }
    text := b + line;
  }

  lemma LinkLinesStep(r: Renderer, links: seq<Link>, i: nat, b: string)
    requires i < |links|
    ensures b + LinkLines(r, links[..i + 1]) == b + LinkLines(r, links[..i]) + LinkLine(r, links[i])
  {
    assert links[..i + 1][..i] == links[..i];
  }

  method WriteLinks(r: Renderer, links: seq<Link>, b: string) returns (text: string)
    ensures text == b + LinkLines(r, links)
  {
    text := b;
    for i := 0 to |links|
      invariant text == b + LinkLines(r, links[..i])
    {
      LinkLinesStep(r, links, i, b);
      text := WriteLink(r, links[i], text);
    }
    assert links[..|links|] == links;
  }

  /** The builder: header, body, then one line per link. */
  method Render(r: Renderer, m: Message) returns (text: string)
    ensures text == Text(r, m)
  {
    text := BeforeTitle(r, m.severity);
    text := text + m.title;
    text := text + AfterTitle(r, m.severity);
    text := text + m.body;
    text := WriteLinks(r, m.links, text);
  }

  // ------------------------------------------------------------- what it reads

  /** What marks a severity. */
  predicate Marks(prefix: string, s: Severity) {
    prefix == if s == Warning then "[WARN] " else if s == Failure then "[ALERT] "
              else if s == Success then "[OK] " else ""
  }

  /** A message without links: its severity in front, the title, and the body below it. */
  lemma HeadReads(r: Renderer, m: Message, prefix: string)
    requires m.links == [] && Marks(prefix, m.severity)
    ensures r == DingTalkMarkdown || r == DingTalkText || r == WeComText || r == FeishuText ==>
              Text(r, m) == prefix + m.title + "\n\n" + m.body
    ensures r == SlackText ==> Text(r, m) == prefix + m.title + "\n" + m.body
    ensures r == FeishuMarkdown ==> Text(r, m) == "**" + m.title + "**\n" + m.body
    ensures r == WeComMarkdown ==>
              Text(r, m) == if m.severity == Info then m.title + "\n" + m.body
                            else "<font color=\"" + (if m.severity == Success then "info" else "warning") + "\">" +
                                 prefix + m.title + "</font>\n" + m.body
  {
    assert Text(r, m) == BeforeTitle(r, m.severity) + m.title + AfterTitle(r, m.severity) + m.body;
  }

  /** One link more is one line more at the end: in Markdown, Slack's own way, or the address by itself. */
  lemma LinkReads(r: Renderer, m: Message, k: Link)
    ensures Text(r, m.(links := m.links + [k])) ==
            Text(r, m) + "\n" + (if k.text == "" then k.url
                                 else if r == SlackText then k.text + ": " + k.url
                                 else "[" + k.text + "](" + k.url + ")")
  {
    OneLinkMore(r, m.links, k);
    hide LinkLines, BeforeTitle, AfterTitle;
    Appended(BeforeTitle(r, m.severity) + m.title + AfterTitle(r, m.severity) + m.body, LinkLines(r, m.links), "\n",
             if k.text == "" then k.url
             else if r == SlackText then k.text + ": " + k.url
             else "[" + k.text + "](" + k.url + ")");
  }

  lemma OneLinkMore(r: Renderer, links: seq<Link>, k: Link)
    ensures LinkLines(r, links + [k]) ==
            LinkLines(r, links) + ("\n" + (if k.text == "" then k.url
                                          else if r == SlackText then k.text + ": " + k.url
                                          else "[" + k.text + "](" + k.url + ")"))
  {
    assert (links + [k])[..|links|] == links;
    OneLinkReads(r, k);
    hide LinkLine;
  }

  lemma OneLinkReads(r: Renderer, k: Link)
    ensures LinkLine(r, k) ==
            "\n" + (if k.text == "" then k.url
                    else if r == SlackText then k.text + ": " + k.url
                    else "[" + k.text + "](" + k.url + ")")
  {
    if k.text != "" && r == SlackText {
      Assoc("\n", k.text, ": ");
      Assoc("\n", k.text + ": ", k.url);
    } else if k.text != "" {
      Assoc("\n", "[", k.text);
      Assoc("\n", "[" + k.text, "](");
      Assoc("\n", "[" + k.text + "](", k.url);
      Assoc("\n", "[" + k.text + "](" + k.url, ")");
    }
  }

  lemma Assoc(a: string, b: string, c: string)
    ensures a + (b + c) == a + b + c
  {
  }

  lemma Appended(a: string, b: string, c: string, d: string)
    ensures a + (b + (c + d)) == a + b + c + d
  {
  }

  /** The limits the platforms publish, in characters and in bytes; zero where there is none. */
  lemma PlatformLimits(r: Renderer)
    ensures var cap := CapabilityOf(r);
            && cap.mode == Split
            && (r == DingTalkMarkdown || r == DingTalkText ==> cap.bodyMaxLen == 5000 && cap.bodyMaxBytes == 20000)
            && (r == WeComMarkdown || r == WeComText ==> cap.bodyMaxLen == 1300 && cap.bodyMaxBytes == 4096)
            && (r == FeishuMarkdown || r == FeishuText ==> cap.bodyMaxLen == 8000 && cap.bodyMaxBytes == 20000)
            && (r == SlackText ==> cap.bodyMaxLen == 4000 && cap.bodyMaxBytes == 0)
  {
  }

  // ------------------------------------------------------------- measuring

  /** Characters, and bytes, that the channel itself puts around the title. */
  function HeadCost(r: Renderer, s: Severity): nat {
    |BeforeTitle(r, s)| + |AfterTitle(r, s)|
  }

  /** By how much the rendered links exceed what the budget set aside for them. */
  function LinkExcess(r: Renderer, links: seq<Link>): int {
    if links == [] then 0
    else
      LinkExcess(r, links[..|links| - 1]) +
      (if links[|links| - 1].text == "" then -3 else if r == SlackText then -1 else 1)
  }

  lemma PrefixIsAscii(s: Severity)
    ensures Ascii(Prefix(s)) && Ascii(Colour(s))
  {
  }

  lemma AsciiConcat(a: string, b: string)
    requires Ascii(a) && Ascii(b)
    ensures Ascii(a + b)
  {
  }

  lemma ColourTagIsAscii(s: Severity)
    ensures Ascii("<font color=\"" + Colour(s) + "\">" + Prefix(s))
  {
    PrefixIsAscii(s);
    assert Ascii("<font color=\"") && Ascii("\">");
    AsciiConcat("<font color=\"", Colour(s));
    AsciiConcat("<font color=\"" + Colour(s), "\">");
    AsciiConcat("<font color=\"" + Colour(s) + "\">", Prefix(s));
  }

  lemma HeadIsAscii(r: Renderer, s: Severity)
    ensures Ascii(BeforeTitle(r, s)) && Ascii(AfterTitle(r, s))
  {
    PrefixIsAscii(s);
    ColourTagIsAscii(s);
  }

  lemma LinkLineLength(r: Renderer, k: Link)
    ensures |LinkLine(r, k)| == |k.text| + |k.url| + 4 + LinkExcess(r, [k])
    ensures ByteLen(LinkLine(r, k)) == ByteLen(k.text) + ByteLen(k.url) + 4 + LinkExcess(r, [k])
  {
    assert [k][..0] == [];
    ByteLenAscii("\n");
    if k.text == "" {
      ByteLenConcat("\n", k.url);
    } else if r == SlackText {
      ByteLenConcat("\n", k.text);
      ByteLenConcat("\n" + k.text, ": ");
      ByteLenConcat("\n" + k.text + ": ", k.url);
      ByteLenAscii(": ");
    } else {
      ByteLenAscii("\n" + "[");
      ByteLenConcat("\n" + "[", k.text);
      ByteLenConcat("\n" + "[" + k.text, "](");
      ByteLenAscii("](");
      ByteLenConcat("\n" + "[" + k.text + "](", k.url);
      ByteLenConcat("\n" + "[" + k.text + "](" + k.url, ")");
      ByteLenAscii(")");
    }
  }

  lemma {:induction false} LinkLinesLength(r: Renderer, links: seq<Link>)
    ensures |LinkLines(r, links)| == LinkRunes(links) + LinkExcess(r, links)
    ensures ByteLen(LinkLines(r, links)) == LinkBytes(links) + LinkExcess(r, links)
  {
    if links != [] {
      var n := |links| - 1;
      LinkLinesLength(r, links[..n]);
      LinkLineLength(r, links[n]);
      assert [links[n]][..0] == [];
      ByteLenConcat(LinkLines(r, links[..n]), LinkLine(r, links[n]));
    }
  }

  /** The whole payload, to the character and to the byte. */
  lemma TextLength(r: Renderer, m: Message)
    ensures |Text(r, m)| == HeadCost(r, m.severity) + |m.title| + |m.body| + LinkRunes(m.links) + LinkExcess(r, m.links)
    ensures ByteLen(Text(r, m)) ==
            HeadCost(r, m.severity) + ByteLen(m.title) + ByteLen(m.body) + LinkBytes(m.links) + LinkExcess(r, m.links)
  {
    var a, z := BeforeTitle(r, m.severity), AfterTitle(r, m.severity);
    HeadIsAscii(r, m.severity);
    ByteLenAscii(a);
    ByteLenAscii(z);
    ByteLenConcat(a, m.title);
    ByteLenConcat(a + m.title, z);
    ByteLenConcat(a + m.title + z, m.body);
    ByteLenConcat(a + m.title + z + m.body, LinkLines(r, m.links));
    LinkLinesLength(r, m.links);
  }

  // ---------------------------------------------------------------- bounds

  /** The payload keeps to the limits its channel declares. */
  predicate Within(r: Renderer, m: Message) {
    && |Text(r, m)| <= CapabilityOf(r).bodyMaxLen
    && (CapabilityOf(r).bodyMaxBytes > 0 ==> ByteLen(Text(r, m)) <= CapabilityOf(r).bodyMaxBytes)
  }

  function Marked(m: Message, marker: string, body: string): Message {
    m.(title := m.title + marker, body := body)
  }

  /** Everything the budget did not see, against everything it set aside. */
  predicate PaidFor(r: Renderer, m: Message, marker: string) {
    HeadCost(r, m.severity) + LinkExcess(r, m.links) + |marker| <= CapabilityOf(r).overheadRunes + MARKER
  }

  lemma MarkedLength(r: Renderer, m: Message, marker: string, body: string, b: Budget)
    requires BudgetOf(CapabilityOf(r), m) == Some(b) && Ascii(marker)
    ensures var cap, m' := CapabilityOf(r), Marked(m, marker, body);
            var over := HeadCost(r, m.severity) + LinkExcess(r, m.links) + |marker| - cap.overheadRunes - MARKER;
            && |Text(r, m')| == cap.bodyMaxLen - b.runes + |body| + over
            && (cap.bodyMaxBytes > 0 ==> ByteLen(Text(r, m')) == cap.bodyMaxBytes - b.bytes + ByteLen(body) + over)
  {
    TextLength(r, Marked(m, marker, body));
    ByteLenAscii(marker);
    ByteLenConcat(m.title, marker);
  }

  function Filler(n: nat): (s: string)
    ensures |s| == n && Ascii(s)
  {
    seq(n, i => 'x')
  }

  /**
   * For a given title, severity, links and part marker: every body within the budget renders within the
   * declared limits exactly when head, links and marker together cost no more than the overhead and marker the
   * budget set aside.
   */
  lemma WithinExactly(r: Renderer, m: Message, marker: string, b: Budget)
    requires BudgetOf(CapabilityOf(r), m) == Some(b) && Ascii(marker)
    ensures (forall body: string :: Fits(body, b) ==> Within(r, Marked(m, marker, body))) <==> PaidFor(r, m, marker)
  {
    if PaidFor(r, m, marker) {
      forall body: string | Fits(body, b)
        ensures Within(r, Marked(m, marker, body))
      {
        MarkedLength(r, m, marker, body, b);
      }
    } else {
      var n := if b.bytes > 0 && b.bytes < b.runes then b.bytes else b.runes;
      var full := Filler(n);
      ByteLenAscii(full);
      MarkedLength(r, m, marker, full, b);
      assert Fits(full, b) && !Within(r, Marked(m, marker, full));
    }
  }

  lemma MarkerShort(i: nat, n: nat)
    requires i < n <= 9999
    ensures |Marker(i, n)| <= MARKER && Ascii(Marker(i, n))
  {
    DigitsShort(i + 1);
    DigitsShort(n);
  }

  /** What is set aside for the markers of n parts is enough for all of them exactly up to 9999. */
  lemma MarkersExactly(n: nat)
    ensures (forall i: nat :: i < n ==> |Marker(i, n)| <= MARKER) <==> n <= 9999
  {
    if n <= 9999 {
      forall i: nat | i < n
        ensures |Marker(i, n)| <= MARKER
      {
        MarkerShort(i, n);
      }
    } else {
      DigitsLong(n);
      assert |Marker(n - 1, n)| > MARKER;
    }
  }

  /**
   * End to end: whatever the body, every payload rendered from what the length limits let through keeps to the
   * declared limits, for up to 9999 parts, if the head and the links are within the declared overhead and the
   * byte budget can take any one character.
   */
  lemma PayloadsWithin(r: Renderer, m: Message)
    requires HeadCost(r, m.severity) + LinkExcess(r, m.links) <= CapabilityOf(r).overheadRunes
    ensures var a := Apply(m, CapabilityOf(r));
            a.Parts? && |a.parts| <= 9999 && TakesAnyCharacter(BudgetOf(CapabilityOf(r), m)) ==>
              forall p :: p in a.parts ==> Within(r, p)
  {
    var cap := CapabilityOf(r);
    assert Titled(m, cap) == m;
    hide Within, Fits, Chunks, LongestFit, TruncateRunes;
    var a, budget := Apply(m, cap), BudgetOf(cap, m);
    if a.Parts? && |a.parts| <= 9999 && TakesAnyCharacter(budget) {
      var b := budget.value;
      forall p | p in a.parts
        ensures Within(r, p)
      {
        var i :| 0 <= i < |a.parts| && a.parts[i] == p;
        if Fits(m.body, b) {
          WithinExactly(r, m, "", b);
          assert Marked(m, "", m.body) == m;
        } else {
          assert |a.parts| == |Chunks(m.body, b)|;
          PartWithin(r, m, b, i);
        }
      }
    }
  }

  predicate TakesAnyCharacter(budget: Option<Budget>) {
    budget.Some? && (budget.value.bytes == 0 || budget.value.bytes >= 4)
  }

  lemma PartWithin(r: Renderer, m: Message, b: Budget, i: nat)
    requires BudgetOf(CapabilityOf(r), m) == Some(b) && (b.bytes == 0 || b.bytes >= 4)
    requires i < |Chunks(m.body, b)| <= 9999
    requires HeadCost(r, m.severity) + LinkExcess(r, m.links) <= CapabilityOf(r).overheadRunes
    ensures Within(r, PartOf(m, CapabilityOf(r), Chunks(m.body, b), i))
  {
    var chunks := Chunks(m.body, b);
    ChunksFit(m.body, b);
    assert chunks[i] in chunks;
    MarkerShort(i, |chunks|);
    var marker := if |chunks| > 1 then Marker(i, |chunks|) else "";
    WithinExactly(r, m, marker, b);
    assert PartOf(m, CapabilityOf(r), chunks, i) == Marked(m, marker, chunks[i]);
  }

  /** How many links the declared overhead has room for; Slack's cost no more than they are budgeted. */
  function MaxLinks(r: Renderer): nat {
    match r
    case DingTalkMarkdown => 22
    case DingTalkText => 22
    case WeComMarkdown => 26
    case WeComText => 54
    case FeishuMarkdown => 27
    case FeishuText => 22
    case SlackText => 0
  }

  lemma {:induction false} LinkExcessBounds(r: Renderer, links: seq<Link>)
    ensures LinkExcess(r, links) <= if r == SlackText then 0 else |links|
    ensures r != SlackText && (forall k :: k in links ==> k.text != "") ==> LinkExcess(r, links) == |links|
  {
    if links != [] {
      LinkExcessBounds(r, links[..|links| - 1]);
    }
  }

  /** The link counts are the right ones: enough for every message, and one more is too many for some. */
  lemma MaxLinksExact(r: Renderer, n: nat)
    ensures (forall s: Severity, links: seq<Link> :: |links| <= n ==>
               HeadCost(r, s) + LinkExcess(r, links) <= CapabilityOf(r).overheadRunes)
            <==> r == SlackText || n <= MaxLinks(r)
  {
    HeadCosts(r);
    if r == SlackText || n <= MaxLinks(r) {
      forall s: Severity, links: seq<Link> | |links| <= n
        ensures HeadCost(r, s) + LinkExcess(r, links) <= CapabilityOf(r).overheadRunes
      {
        LinkExcessBounds(r, links);
      }
    } else {
      var links := seq(n, i => Link("t", "u"));
      LinkExcessBounds(r, links);
      assert HeadCost(r, Failure) + LinkExcess(r, links) > CapabilityOf(r).overheadRunes;
    }
  }

  /** A failure has the costliest head everywhere. */
  lemma HeadCosts(r: Renderer)
    ensures forall s: Severity :: HeadCost(r, s) <= HeadCost(r, Failure)
    ensures r != SlackText ==> HeadCost(r, Failure) + MaxLinks(r) == CapabilityOf(r).overheadRunes
    ensures HeadCost(SlackText, Failure) == 9
  {
  }
}
