/** The message model, and the two ways of measuring text. */
module Message {

  /** Text is a sequence of Unicode scalar values, which is what a valid UTF-8 string decodes to. */
  function RuneSize(c: char): (n: nat)
    ensures 1 <= n <= 4
  {
    var v := c as int;
    if v < 0x80 then 1 else if v < 0x800 then 2 else if v < 0x1_0000 then 3 else 4
  }

  function ByteLen(s: string): (n: nat)
    ensures |s| <= n <= 4 * |s|
  {
    if s == "" then 0 else ByteLen(s[..|s| - 1]) + RuneSize(s[|s| - 1])
  }

  datatype Severity = Info | Success | Warning | Failure

  datatype Link = Link(text: string, url: string)

  /** The fields that reach a rendered payload. */
  datatype Message = Message(title: string, body: string, severity: Severity, links: seq<Link>)

  lemma {:induction false} ByteLenConcat(a: string, b: string)
    ensures ByteLen(a + b) == ByteLen(a) + ByteLen(b)
  {
    if b == "" {
      assert a + b == a;
    } else {
      var n := |b| - 1;
      ByteLenConcat(a, b[..n]);
      assert (a + b)[..|a + b| - 1] == a + b[..n];
    }
  }

  predicate Ascii(s: string) {
    forall i :: 0 <= i < |s| ==> s[i] as int < 0x80
  }

  lemma {:induction false} ByteLenAscii(s: string)
    requires Ascii(s)
    ensures ByteLen(s) == |s|
  {
    if s != "" {
      ByteLenAscii(s[..|s| - 1]);
    }
  }

  lemma {:induction false} ByteLenPrefix(s: string, n: nat)
    requires n <= |s|
    ensures ByteLen(s[..n]) <= ByteLen(s)
  {
    if n == |s| {
      assert s[..n] == s;
    } else {
      ByteLenPrefix(s[..|s| - 1], n);
      assert s[..|s| - 1][..n] == s[..n];
    }
  }
}
