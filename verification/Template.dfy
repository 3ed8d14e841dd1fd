/** Placeholder substitution in message templates. */
module Template {

  predicate NameChar(c: char) {
    || 'a' <= c <= 'z' || 'A' <= c <= 'Z' || '0' <= c <= '9' || c == '_' || c == '.'
  }

  predicate IsName(s: string) {
    s != "" && forall i :: 0 <= i < |s| ==> NameChar(s[i])
  }

  // ------------------------------------------------------------ the grammar

  /** A template is a run of characters and holes; a hole is a name in braces, found leftmost first. */
  datatype Token = Literal(c: char) | Hole(name: string)

  /** Where the run of name characters starting at i ends. */
  function NameEnd(t: string, i: nat): (e: nat)
    requires i <= |t|
    ensures i <= e <= |t|
    decreases |t| - i
  {
    if i < |t| && NameChar(t[i]) then NameEnd(t, i + 1) else i
  }

  lemma {:induction false} NameEndIs(t: string, i: nat, e: nat)
    requires i <= e <= |t| && (forall j :: i <= j < e ==> NameChar(t[j])) && (e < |t| ==> !NameChar(t[e]))
    ensures NameEnd(t, i) == e
    decreases e - i
  {
    if i < e {
      NameEndIs(t, i + 1, e);
    }
  }

  lemma {:induction false} NameEndNames(t: string, i: nat)
    requires i <= |t|
    ensures forall j :: i <= j < NameEnd(t, i) ==> NameChar(t[j])
    decreases |t| - i
  {
    if i < |t| && NameChar(t[i]) {
      NameEndNames(t, i + 1);
    }
  }

  /** Whether a hole starts at i. */
  predicate HoleAt(t: string, i: nat) {
    i < |t| && t[i] == '{' && i + 1 < NameEnd(t, i + 1) < |t| && t[NameEnd(t, i + 1)] == '}'
  }

  function TokenAt(t: string, i: nat): Token
    requires i < |t|
  {
    if HoleAt(t, i) then Hole(t[i + 1..NameEnd(t, i + 1)]) else Literal(t[i])
  }

  function TokenEnd(t: string, i: nat): (e: nat)
    requires i < |t|
    ensures i < e <= |t|
  {
    if HoleAt(t, i) then NameEnd(t, i + 1) + 1 else i + 1
  }

  function Tokens(t: string, i: nat): seq<Token>
    requires i <= |t|
    decreases |t| - i
  {
    if i == |t| then [] else [TokenAt(t, i)] + Tokens(t, TokenEnd(t, i))
  }

  /** A known name gives its value; anything else stands for itself. */
  function Value(k: Token, vars: map<string, string>): string {
    match k
    case Literal(c) => [c]
    case Hole(name) => if name in vars then vars[name] else "{" + name + "}"
  }

  /** Values are put in place and never looked at again. */
  function Expand(ks: seq<Token>, vars: map<string, string>): string {
    if ks == [] then "" else Value(ks[0], vars) + Expand(ks[1..], vars)
  }

  /** What the template from i on renders to. */
  function Rest(t: string, i: nat, vars: map<string, string>): string
    requires i <= |t|
  {
    Expand(Tokens(t, i), vars)
  }

  function Rendered(t: string, vars: map<string, string>): string {
    Rest(t, 0, vars)
  }

  lemma Step(t: string, i: nat, vars: map<string, string>)
    requires i < |t|
    ensures Rest(t, i, vars) == Value(TokenAt(t, i), vars) + Rest(t, TokenEnd(t, i), vars)
  {
    var k, ks := TokenAt(t, i), Tokens(t, TokenEnd(t, i));
    assert Tokens(t, i) == [k] + ks;
    assert ([k] + ks)[1..] == ks;
  }

  // ---------------------------------------------------------- strings in pieces

  lemma Join(whole: string, a: string, rest: string, b: string, last: string)
    requires whole == a + rest && rest == b + last
    ensures whole == (a + b) + last
  {
  }

  lemma Cut(t: string, i: nat, j: nat, k: nat)
    requires i <= j <= k <= |t|
    ensures t[i..k] == t[i..j] + t[j..k]
  {
  }

  lemma CutHole(t: string, open: nat, close: nat)
    requires open < close < |t| && t[open] == '{' && t[close] == '}'
    ensures t[open..close + 1] == "{" + t[open + 1..close] + "}"
  {
  }

  // ------------------------------------------------------- rendering lemmas

  /** Where no hole starts, the character stands for itself. */
  lemma StepPlain(t: string, i: nat, vars: map<string, string>)
    requires i < |t| && !HoleAt(t, i)
    ensures Rest(t, i, vars) == t[i..i + 1] + Rest(t, i + 1, vars)
  {
    Step(t, i, vars);
    assert t[i..i + 1] == [t[i]];
  }

  lemma StepHole(t: string, open: nat, close: nat, vars: map<string, string>)
    requires HoleAt(t, open) && NameEnd(t, open + 1) == close
    ensures Rest(t, open, vars) == Value(Hole(t[open + 1..close]), vars) + Rest(t, close + 1, vars)
  {
    hide Rest, Tokens, Expand;
    Step(t, open, vars);
  }

  /** Text in which no hole starts stands for itself. */
  lemma {:induction false} PlainRun(t: string, i: nat, j: nat, vars: map<string, string>)
    requires i <= j <= |t| && forall n :: i <= n < j ==> !HoleAt(t, n)
    ensures Rest(t, i, vars) == t[i..j] + Rest(t, j, vars)
    decreases j - i
  {
    if i == j {
      assert t[i..j] == "";
    } else {
      StepPlain(t, i, vars);
      PlainRun(t, i + 1, j, vars);
      Join(Rest(t, i, vars), t[i..i + 1], Rest(t, i + 1, vars), t[i + 1..j], Rest(t, j, vars));
      Cut(t, i, i + 1, j);
    }
  }

  lemma NamesAt(t: string, i: nat, e: nat)
    requires i <= e <= |t| && IsName(t[i..e])
    ensures forall j :: i <= j < e ==> NameChar(t[j])
  {
    forall j | i <= j < e
      ensures NameChar(t[j])
    {
      assert t[j] == t[i..e][j - i];
    }
  }

  /** A hole starts at an opening brace exactly when what comes before the next closing brace is a name. */
  lemma HoleIsNamedPair(t: string, open: nat, close: nat)
    requires open < close < |t| && t[open] == '{' && t[close] == '}'
    requires forall j :: open < j < close ==> t[j] != '}'
    ensures HoleAt(t, open) <==> IsName(t[open + 1..close])
    ensures HoleAt(t, open) ==> NameEnd(t, open + 1) == close
  {
    var e := NameEnd(t, open + 1);
    NameEndNames(t, open + 1);
    assert !NameChar(t[close]);
    assert HoleAt(t, open) ==> e == close;
    if IsName(t[open + 1..close]) {
      NamesAt(t, open + 1, close);
      NameEndIs(t, open + 1, close);
    }
  }

  lemma NoBraceNoHole(t: string, i: nat, j: nat)
    requires i <= j <= |t|
    requires (forall n :: i <= n < j ==> t[n] != '{') || (forall n :: i <= n < |t| ==> t[n] != '}')
    ensures forall n :: i <= n < j ==> !HoleAt(t, n)
  {
  }

  // ----------------------------------------------------------------- the scan

  method IndexOf(s: string, c: char, from: nat) returns (i: int)
    requires from <= |s|
    ensures i < 0 ==> forall j :: from <= j < |s| ==> s[j] != c
    ensures i >= 0 ==> from <= i < |s| && s[i] == c && forall j :: from <= j < i ==> s[j] != c
  {
    i := from;
    while i < |s|
      invariant from <= i <= |s|
      invariant forall j :: from <= j < i ==> s[j] != c
    {
      if s[i] == c {
        return;
      }
      i := i + 1;
    }
    i := -1;
  }

  /** No opening brace left, or none that is ever closed: the rest stands for itself. */
  lemma RestStands(t: string, i: nat, open: nat, vars: map<string, string>,
                   whole: string, b: string)
    requires i <= open <= |t| && forall j :: i <= j < open ==> t[j] != '{'
    requires forall j :: open <= j < |t| ==> t[j] != '}'
    requires whole == b + Rest(t, i, vars)
    ensures whole == b + t[i..]
  {
    NoBraceNoHole(t, i, open);
    NoBraceNoHole(t, open, |t|);
    PlainRun(t, i, |t|, vars);
    assert t[i..|t|] == t[i..] && Rest(t, |t|, vars) == "";
  }

  /** A brace that opens no hole is copied, with what stood before it. */
  lemma RestAfterBrace(t: string, i: nat, open: nat, close: nat, vars: map<string, string>,
                   whole: string, b: string)
    requires i <= open < close < |t| && t[open] == '{' && t[close] == '}'
    requires forall j :: i <= j < open ==> t[j] != '{'
    requires forall j :: open < j < close ==> t[j] != '}'
    requires !IsName(t[open + 1..close])
    requires whole == b + Rest(t, i, vars)
    ensures whole == (b + t[i..open + 1]) + Rest(t, open + 1, vars)
  {
    NoBraceNoHole(t, i, open);
    HoleIsNamedPair(t, open, close);
    forall n | i <= n < open + 1
      ensures !HoleAt(t, n)
    {
      assert n < open || n == open;
    }
    PlainRun(t, i, open + 1, vars);
    Join(whole, b, Rest(t, i, vars), t[i..open + 1], Rest(t, open + 1, vars));
  }

  /** What the scan writes for a pair of braces around a name. */
  function Substitute(t: string, open: nat, close: nat, vars: map<string, string>): string
    requires open < close < |t|
  {
    if t[open + 1..close] in vars then vars[t[open + 1..close]] else t[open..close + 1]
  }

  lemma RestAtEnd(t: string, vars: map<string, string>)
    ensures Rest(t, |t|, vars) == ""
  {
  }

  /** A hole is substituted, or copied when its name is unknown. */
  lemma RestAfterHole(t: string, i: nat, open: nat, close: nat, vars: map<string, string>,
                   whole: string, b: string)
    requires i <= open < close < |t| && t[open] == '{' && t[close] == '}'
    requires forall j :: i <= j < open ==> t[j] != '{'
    requires forall j :: open < j < close ==> t[j] != '}'
    requires IsName(t[open + 1..close])
    requires whole == b + Rest(t, i, vars)
    ensures whole == (b + (t[i..open] + Substitute(t, open, close, vars))) + Rest(t, close + 1, vars)
  {
    NoBraceNoHole(t, i, open);
    PlainRun(t, i, open, vars);
    HoleIsNamedPair(t, open, close);
    StepHole(t, open, close, vars);
    CutHole(t, open, close);
    var value, last := Substitute(t, open, close, vars), Rest(t, close + 1, vars);
    Join(Rest(t, i, vars), t[i..open], Rest(t, open, vars), value, last);
    Join(whole, b, Rest(t, i, vars), t[i..open] + value, last);
  }

  method IsPlaceholderName(s: string) returns (ok: bool)
    ensures ok == IsName(s)
  {
    if s == "" {
      return false;
    }
    for i := 0 to |s|
      invariant forall j :: 0 <= j < i ==> NameChar(s[j])
    {
      if !NameChar(s[i]) {
        return false;
      }
    }
    return true;
  }

  /** Brace to brace: copy up to it, then either substitute a name or step over the brace alone. */
  method Render(tmpl: string, vars: map<string, string>) returns (b: string)
    ensures b == Rendered(tmpl, vars)
  {
    hide Rest, Tokens, Expand;
    b := "";
    ghost var whole := Rendered(tmpl, vars);
    var i := 0;
    while i < |tmpl|
      invariant 0 <= i <= |tmpl|
      invariant whole == b + Rest(tmpl, i, vars)
    {
      var open := IndexOf(tmpl, '{', i);
      if open < 0 {
        RestStands(tmpl, i, |tmpl|, vars, whole, b);
        b := b + tmpl[i..];
        return;
      }
      var closing := IndexOf(tmpl, '}', open);
      if closing < 0 {
        RestStands(tmpl, i, open, vars, whole, b);
        b := b + tmpl[i..];
        return;
      }
      var key := tmpl[open + 1..closing];
      var named := IsPlaceholderName(key);
      if !named {
        RestAfterBrace(tmpl, i, open, closing, vars, whole, b);
        b := b + tmpl[i..open + 1];
        i := open + 1;
        continue;
      }
      RestAfterHole(tmpl, i, open, closing, vars, whole, b);
      var value := if key in vars then vars[key] else tmpl[open..closing + 1];
      b := b + (tmpl[i..open] + value);
      i := closing + 1;
    }
    RestAtEnd(tmpl, vars);
  }

  // ------------------------------------------------------------- properties

  /** A token with nothing to substitute spells the stretch it was read from. */
  lemma TokenSpells(t: string, i: nat)
    requires i < |t|
    ensures Value(TokenAt(t, i), map[]) == t[i..TokenEnd(t, i)]
  {
    if HoleAt(t, i) {
      CutHole(t, i, NameEnd(t, i + 1));
    }
  }

  lemma {:induction false} NothingFrom(t: string, i: nat)
    requires i <= |t|
    ensures Rest(t, i, map[]) == t[i..|t|]
    decreases |t| - i
  {
    if i < |t| {
      var e := TokenEnd(t, i);
      Step(t, i, map[]);
      TokenSpells(t, i);
      NothingFrom(t, e);
      Cut(t, i, e, |t|);
    }
  }

  /** The tokens spell the template: with nothing to substitute, rendering is the identity. */
  lemma RenderNothing(t: string)
    ensures Rendered(t, map[]) == t
  {
    NothingFrom(t, 0);
  }

  /** Only the names a template has matter: two sets of values that agree on those render it alike. */
  lemma {:induction false} RenderByNames(ks: seq<Token>, v: map<string, string>, w: map<string, string>)
    requires forall i :: 0 <= i < |ks| && ks[i].Hole? ==>
               (ks[i].name in v <==> ks[i].name in w) && (ks[i].name in v ==> v[ks[i].name] == w[ks[i].name])
    ensures Expand(ks, v) == Expand(ks, w)
  {
    if ks != [] {
      RenderByNames(ks[1..], v, w);
    }
  }

  /** A template none of whose names is known comes out as it went in, stray braces and all. */
  lemma UnknownSurvives(t: string, vars: map<string, string>)
    requires forall k :: k in Tokens(t, 0) && k.Hole? ==> k.name !in vars
    ensures Rendered(t, vars) == t
  {
    RenderByNames(Tokens(t, 0), vars, map[]);
    RenderNothing(t);
  }

  /** A brace with no name character after it is literal, so a JSON object's own brace swallows nothing. */
  lemma EnclosingBraceIsLiteral(t: string, i: nat, vars: map<string, string>)
    requires i < |t| && t[i] == '{' && (i + 1 < |t| ==> !NameChar(t[i + 1]))
    ensures Rest(t, i, vars) == "{" + Rest(t, i + 1, vars)
  {
    assert NameEnd(t, i + 1) == i + 1;
    StepPlain(t, i, vars);
    assert t[i..i + 1] == "{";
  }

  // ------------------------------------------------------ rendering, piece by piece

  /** Names are made of ASCII letters, digits, the underscore and the dot. */
  lemma NameChars(c: char)
    ensures NameChar(c) <==> var v := c as int;
                             0x41 <= v <= 0x5A || 0x61 <= v <= 0x7A || 0x30 <= v <= 0x39 || v == 0x5F || v == 0x2E
  {
  }

  lemma {:induction false} NameEndFrom(t: string, i: nat, k: nat)
    requires i + k <= |t|
    ensures NameEnd(t, i + k) == i + NameEnd(t[i..], k)
    decreases |t| - k
  {
    if i + k < |t| && NameChar(t[i + k]) {
      NameEndFrom(t, i, k + 1);
    }
  }

  lemma TokenFrom(t: string, i: nat, k: nat)
    requires i + k < |t|
    ensures TokenAt(t, i + k) == TokenAt(t[i..], k) && TokenEnd(t, i + k) == i + TokenEnd(t[i..], k)
  {
    if t[i + k] == '{' {
      NameEndFrom(t, i, k + 1);
      var e := NameEnd(t, i + k + 1);
      assert t[i..][k + 1..e - i] == t[i + k + 1..e];
    }
  }

  lemma {:induction false} TokensFrom(t: string, i: nat, k: nat)
    requires i + k <= |t|
    ensures Tokens(t, i + k) == Tokens(t[i..], k)
    decreases |t| - k
  {
    if i + k < |t| {
      TokenFrom(t, i, k);
      TokensFrom(t, i, TokenEnd(t[i..], k));
    }
  }

  /** What follows a piece already rendered renders as if it stood alone. */
  lemma RestIsRendered(t: string, i: nat, vars: map<string, string>)
    requires i <= |t|
    ensures Rest(t, i, vars) == Rendered(t[i..], vars)
  {
    TokensFrom(t, i, 0);
  }

  predicate NoBrace(s: string) {
    forall i :: 0 <= i < |s| ==> s[i] != '{'
  }

  /** Text without an opening brace comes out as it is. */
  lemma RenderPlain(t: string, vars: map<string, string>)
    requires NoBrace(t)
    ensures Rendered(t, vars) == t
  {
    NoBraceNoHole(t, 0, |t|);
    PlainRun(t, 0, |t|, vars);
  }

  /** A name in braces gives its value, or stands as it is if it has none, and what comes after is rendered. */
  lemma RenderHole(before: string, name: string, after: string, vars: map<string, string>)
    requires NoBrace(before) && IsName(name)
    ensures Rendered(before + "{" + name + "}" + after, vars) ==
            before + (if name in vars then vars[name] else "{" + name + "}") + Rendered(after, vars)
  {
    hide Rendered, Rest, IsName;
    var t := before + "{" + name + "}" + after;
    var open, close := |before|, |before| + 1 + |name|;
    assert t[open + 1..close] == name && t[close + 1..] == after && t[..open] == before;
    NamesAt(t, open + 1, close);
    HoleIsNamedPair(t, open, close);
    NoBraceNoHole(t, 0, open);
    PlainRun(t, 0, open, vars);
    StepHole(t, open, close, vars);
    RestIsRendered(t, close + 1, vars);
    assert t[0..] == t;
    RestIsRendered(t, 0, vars);
    Join(Rest(t, 0, vars), before, Rest(t, open, vars), Value(Hole(name), vars), Rest(t, close + 1, vars));
  }

  /** Any other opening brace stands for itself, and what comes after it is rendered. */
  lemma RenderBrace(before: string, after: string, vars: map<string, string>)
    requires NoBrace(before)
    requires forall name, rest :: after == name + "}" + rest ==> !IsName(name)
    ensures Rendered(before + "{" + after, vars) == before + "{" + Rendered(after, vars)
  {
    hide Rendered, Rest;
    var t, open := before + "{" + after, |before|;
    if HoleAt(t, open) {
      var e := NameEnd(t, open + 1);
      NameEndNames(t, open + 1);
      var name, rest := t[open + 1..e], t[e + 1..];
      assert after == name + "}" + rest;
      assert forall j :: 0 <= j < |name| ==> name[j] == t[open + 1 + j];
    }
    NoBraceNoHole(t, 0, open);
    PlainRun(t, 0, open, vars);
    StepPlain(t, open, vars);
    RestIsRendered(t, open + 1, vars);
    assert t[0..] == t && t[open + 1..] == after && t[open..open + 1] == "{" && t[..open] == before;
    RestIsRendered(t, 0, vars);
    Join(Rest(t, 0, vars), before, Rest(t, open, vars), "{", Rest(t, open + 1, vars));
  }
}
