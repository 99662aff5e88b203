/**
 * The reference definition of the calculator's tokens: what `stringToInputs`
 * should produce for a string, stated over the whole string at once rather
 * than character by character.
 */
module Lexing {
  import opened CalculatorUtils

  /** `isdigit`. */
  predicate IsDigit(c: char)
  {
    '0' <= c <= '9'
  }

  /** The value of one digit, `c - '0'`. */
  function DigitValue(c: char): (d: nat)
    requires IsDigit(c)
    ensures d <= 9
  {
    c as int - '0' as int
  }

  predicate AllDigits(s: string)
  {
    forall k :: 0 <= k < |s| ==> IsDigit(s[k])
  }

  /** The decimal value of a run of digits, most significant digit first. */
  function DecimalValue(digits: string): nat
    requires AllDigits(digits)
  {
    if digits == [] then 0
    else DecimalValue(digits[..|digits| - 1]) * 10 + DigitValue(digits[|digits| - 1])
  }

  /** The length of the run of digits that starts `s`. */
  function RunLength(s: string): (n: nat)
    ensures n <= |s|
    ensures AllDigits(s[..n])
    ensures n < |s| ==> !IsDigit(s[n])
  {
    if s == [] || !IsDigit(s[0]) then 0 else 1 + RunLength(s[1..])
  }

  /** The length of the text of the first token of a non-empty string. */
  function FirstLength(s: string): (n: nat)
    requires s != []
    ensures 0 < n <= |s|
  {
    if IsDigit(s[0]) then RunLength(s) else 1
  }

  /** The first token of a non-empty string. */
  function FirstToken(s: string): Input
    requires s != []
  {
    if IsDigit(s[0]) then Input(NumberType, DecimalValue(s[..RunLength(s)])) else CharToken(s[0])
  }

  /**
   * The tokens of a string, in order: each maximal run of decimal digits is
   * one NUMBER token holding the run's value, and every other character,
   * a space included, is one CHAR token carrying that character.
   */
  function Tokens(s: string): (tokens: seq<Input>)
    ensures |tokens| <= |s|
    ensures tokens == [] <==> s == []
    decreases |s|
  {
    if s == [] then [] else [FirstToken(s)] + Tokens(s[FirstLength(s)..])
  }

  /** The tokens with every space token removed. */
  function DropSpaces(tokens: seq<Input>): (kept: seq<Input>)
    ensures |kept| <= |tokens|
  {
    if tokens == [] then []
    else (if tokens[0] == CharToken(' ') then [] else [tokens[0]]) + DropSpaces(tokens[1..])
  }

  // ---------------------------------------------------------------------
  // Growing the string one character at a time

  lemma {:induction false} RunLengthSnoc(p: string, c: char)
    ensures RunLength(p) < |p| ==> RunLength(p + [c]) == RunLength(p)
    ensures RunLength(p) == |p| ==> RunLength(p + [c]) == |p| + (if IsDigit(c) then 1 else 0)
    decreases |p|
  {
    if p != [] && IsDigit(p[0]) {
      assert (p + [c])[1..] == p[1..] + [c];
      RunLengthSnoc(p[1..], c);
    }
  }

  /** Appending to a string whose first token ends early leaves that token alone. */
  lemma {:induction false} FirstSnoc(p: string, c: char)
    requires p != [] && FirstLength(p) < |p|
    ensures FirstLength(p + [c]) == FirstLength(p)
    ensures FirstToken(p + [c]) == FirstToken(p)
    ensures (p + [c])[FirstLength(p)..] == p[FirstLength(p)..] + [c]
  {
    RunLengthSnoc(p, c);
    assert (p + [c])[0] == p[0];
    assert (p + [c])[..FirstLength(p)] == p[..FirstLength(p)];
  }

  lemma ConsSnoc(h: Input, t: seq<Input>, x: Input)
    ensures [h] + (t + [x]) == ([h] + t) + [x]
  {
  }

  /** A non-digit appended to a string adds one CHAR token. */
  lemma {:induction false} TokensSnocOther(p: string, c: char)
    requires !IsDigit(c)
    ensures Tokens(p + [c]) == Tokens(p) + [CharToken(c)]
    decreases |p|
  {
    var q := p + [c];
    if p == [] {
      assert q == [c] && q[1..] == [];
    } else if FirstLength(p) < |p| {
      var n := FirstLength(p);
      FirstSnoc(p, c);
      TokensSnocOther(p[n..], c);
      ConsSnoc(FirstToken(p), Tokens(p[n..]), CharToken(c));
    } else {
      RunLengthSnoc(p, c);
      assert q[0] == p[0];
      assert FirstLength(q) == |p|;
      assert q[..|p|] == p[..|p|];
      assert q[|p|..] == [c] && p[|p|..] == [];
      assert Tokens([c]) == [CharToken(c)] by { assert [c][1..] == []; }
    }
  }

  lemma SingleDigit(c: char)
    requires IsDigit(c)
    ensures Tokens([c]) == [Input(NumberType, DigitValue(c))]
  {
    assert RunLength([c]) == 1;
    assert [c][..1] == [c] && [c][1..] == [];
    assert [c][..0] == [];
    assert DecimalValue([c]) == DigitValue(c);
    assert FirstToken([c]) == Input(NumberType, DigitValue(c));
  }

  /** A digit appended after a non-digit, or to nothing, starts a new NUMBER token. */
  lemma {:induction false} TokensSnocStart(p: string, c: char)
    requires IsDigit(c)
    requires p == [] || !IsDigit(p[|p| - 1])
    ensures Tokens(p + [c]) == Tokens(p) + [Input(NumberType, DigitValue(c))]
    decreases |p|
  {
    var q := p + [c];
    if p == [] {
      assert q == [c];
      SingleDigit(c);
    } else {
      var n := FirstLength(p);
      assert n < |p| || |p| == 1;
      if n < |p| {
        FirstSnoc(p, c);
        assert p[n..][|p[n..]| - 1] == p[|p| - 1];
        TokensSnocStart(p[n..], c);
        ConsSnoc(FirstToken(p), Tokens(p[n..]), Input(NumberType, DigitValue(c)));
      } else {
        assert q[0] == p[0] && FirstLength(q) == 1;
        assert q[1..] == [c] && p[1..] == [];
        SingleDigit(c);
      }
    }
  }

  /** A digit appended after a digit extends the last NUMBER token by one decimal place. */
  lemma {:induction false} TokensSnocExtend(p: string, c: char)
    requires IsDigit(c)
    requires p != [] && IsDigit(p[|p| - 1])
    ensures Tokens(p) != [] && Tokens(p)[|Tokens(p)| - 1].kind == NumberType
    ensures Tokens(p + [c]) == Tokens(p)[..|Tokens(p)| - 1] +
      [Input(NumberType, Tokens(p)[|Tokens(p)| - 1].value * 10 + DigitValue(c))]
    decreases |p|
  {
    var q := p + [c];
    var n := FirstLength(p);
    if n < |p| {
      FirstSnoc(p, c);
      assert p[n..][|p[n..]| - 1] == p[|p| - 1];
      TokensSnocExtend(p[n..], c);
      var rest := Tokens(p[n..]);
      var last := rest[|rest| - 1];
      assert Tokens(p) == [FirstToken(p)] + rest;
      assert Tokens(q) == [FirstToken(p)] + Tokens(p[n..] + [c]);
      ExtendShift(FirstToken(p), rest, Input(NumberType, last.value * 10 + DigitValue(c)));
    } else {
      SingleRunExtend(p, c);
    }
  }

  /** The case of `TokensSnocExtend` where `p` is one run of digits. */
  lemma {:induction false} SingleRunExtend(p: string, c: char)
    requires IsDigit(c) && p != [] && IsDigit(p[|p| - 1]) && FirstLength(p) == |p|
    ensures AllDigits(p)
    ensures Tokens(p) == [Input(NumberType, DecimalValue(p))]
    ensures Tokens(p + [c]) == [Input(NumberType, DecimalValue(p) * 10 + DigitValue(c))]
  {
    var q := p + [c];
    assert IsDigit(p[0]);
    assert AllDigits(p);
    TokensOfRun(p);
    assert AllDigits(q);
    TokensOfRun(q);
    DecimalValueSnoc(p, c);
  }

  lemma {:induction false} DecimalValueSnoc(p: string, c: char)
    requires AllDigits(p) && IsDigit(c)
    ensures AllDigits(p + [c])
    ensures DecimalValue(p + [c]) == DecimalValue(p) * 10 + DigitValue(c)
  {
    assert (p + [c])[..|p|] == p;
  }

  /** A string that is all digits is one NUMBER token. */
  lemma {:induction false} TokensOfRun(s: string)
    requires s != [] && AllDigits(s)
    ensures Tokens(s) == [Input(NumberType, DecimalValue(s))]
  {
    RunOfDigits(s);
    assert s[..|s|] == s && s[|s|..] == [];
  }

  lemma {:induction false} RunOfDigits(s: string)
    requires AllDigits(s)
    ensures RunLength(s) == |s|
    decreases |s|
  {
    if s != [] {
      RunOfDigits(s[1..]);
    }
  }

  lemma ExtendShift(h: Input, t: seq<Input>, x: Input)
    requires t != []
    ensures [h] + (t[..|t| - 1] + [x]) == ([h] + t)[..|t|] + [x]
  {
    assert ([h] + t)[..|t|] == [h] + t[..|t| - 1];
  }

  /** A longer string never has fewer tokens. */
  lemma {:induction false} TokensGrow(p: string, q: string)
    ensures |Tokens(p)| <= |Tokens(p + q)|
    decreases |q|
  {
    if q != [] {
      var front := q[..|q| - 1];
      assert p + q == (p + front) + [q[|q| - 1]];
      TokensGrow(p, front);
      var c := q[|q| - 1];
      if !IsDigit(c) {
        TokensSnocOther(p + front, c);
      } else if p + front == [] || !IsDigit((p + front)[|p + front| - 1]) {
        TokensSnocStart(p + front, c);
      } else {
        TokensSnocExtend(p + front, c);
      }
    } else {
      assert p + q == p;
    }
  }

  /** A string that ends in a non-digit tokenizes apart from what follows it. */
  lemma {:induction false} TokensAppend(p: string, q: string)
    requires p == [] || !IsDigit(p[|p| - 1])
    ensures Tokens(p + q) == Tokens(p) + Tokens(q)
    decreases |p|
  {
    if p == [] {
      assert p + q == q;
    } else {
      var n := FirstLength(p);
      FirstAppend(p, q);
      assert p[n..] != [] ==> p[n..][|p[n..]| - 1] == p[|p| - 1];
      TokensAppend(p[n..], q);
    }
  }

  /** The first token of a string that ends in a non-digit does not reach past it. */
  lemma {:induction false} FirstAppend(p: string, q: string)
    requires p != [] && !IsDigit(p[|p| - 1])
    ensures FirstLength(p + q) == FirstLength(p)
    ensures FirstToken(p + q) == FirstToken(p)
    ensures (p + q)[FirstLength(p)..] == p[FirstLength(p)..] + q
  {
    assert (p + q)[0] == p[0];
    if IsDigit(p[0]) {
      FullRunEndsInDigit(p);
      RunLengthAppend(p, q);
      assert (p + q)[..RunLength(p)] == p[..RunLength(p)];
    }
  }

  /** A string that is one run of digits ends in a digit. */
  lemma FullRunEndsInDigit(p: string)
    requires p != []
    ensures RunLength(p) == |p| ==> IsDigit(p[|p| - 1])
  {
    if RunLength(p) == |p| {
      assert p[..|p|][|p| - 1] == p[|p| - 1];
    }
  }

  /** A run of digits that ends inside `p` ends there in `p + q` too. */
  lemma {:induction false} RunLengthAppend(p: string, q: string)
    requires RunLength(p) < |p|
    ensures RunLength(p + q) == RunLength(p)
    decreases |p|
  {
    assert (p + q)[0] == p[0];
    if IsDigit(p[0]) {
      assert (p + q)[1..] == p[1..] + q;
      RunLengthAppend(p[1..], q);
    }
  }

  /** A non-digit in front is a CHAR token of its own. */
  lemma {:induction false} TokensOfOther(c: char, q: string)
    requires !IsDigit(c)
    ensures Tokens([c] + q) == [CharToken(c)] + Tokens(q)
  {
    var s := [c] + q;
    assert s[0] == c && s[1..] == q;
  }

  /** A lone digit in front is a NUMBER token of its own. */
  lemma {:induction false} TokensOfDigit(c: char, q: string)
    requires IsDigit(c) && (q == [] || !IsDigit(q[0]))
    ensures Tokens([c] + q) == [Input(NumberType, DigitValue(c))] + Tokens(q)
  {
    var s := [c] + q;
    assert s[0] == c && s[1..] == q;
    assert RunLength(s) == 1;
    assert s[..1] == [c] && [c][..0] == [];
    assert DecimalValue([c]) == DigitValue(c);
    assert FirstToken(s) == Input(NumberType, DigitValue(c));
  }

  /** Two digits in front are one NUMBER token. */
  lemma {:induction false} TokensOfTwoDigits(c1: char, c2: char, q: string)
    requires IsDigit(c1) && IsDigit(c2) && (q == [] || !IsDigit(q[0]))
    ensures Tokens([c1, c2] + q) == [Input(NumberType, DigitValue(c1) * 10 + DigitValue(c2))] + Tokens(q)
  {
    var s := [c1, c2] + q;
    assert s[0] == c1 && s[1..] == [c2] + q && s[2..] == q;
    assert RunLength(s[1..]) == 1;
    assert RunLength(s) == 2;
    assert s[..2] == [c1, c2] && [c1, c2][..1] == [c1] && [c1][..0] == [];
    assert DecimalValue([c1]) == DigitValue(c1);
    assert DecimalValue([c1, c2]) == DigitValue(c1) * 10 + DigitValue(c2);
    assert FirstToken(s) == Input(NumberType, DigitValue(c1) * 10 + DigitValue(c2));
  }

  // Reading a string backwards, one token at a time: `Tokens(s[k..])` is
  // the suffix `t[j..]` of the expected tokens.

  lemma {:induction false} TokensStepOther(s: string, k: nat, t: seq<Input>, j: nat)
    requires k < |s| && !IsDigit(s[k])
    requires j < |t| && t[j] == CharToken(s[k])
    requires Tokens(s[k + 1..]) == t[j + 1..]
    ensures Tokens(s[k..]) == t[j..]
  {
    assert s[k..] == [s[k]] + s[k + 1..];
    assert t[j..] == [t[j]] + t[j + 1..];
    TokensOfOther(s[k], s[k + 1..]);
  }

  lemma {:induction false} TokensStepDigit(s: string, k: nat, t: seq<Input>, j: nat)
    requires k < |s| && IsDigit(s[k]) && (k + 1 == |s| || !IsDigit(s[k + 1]))
    requires j < |t| && t[j] == Input(NumberType, DigitValue(s[k]))
    requires Tokens(s[k + 1..]) == t[j + 1..]
    ensures Tokens(s[k..]) == t[j..]
  {
    assert s[k..] == [s[k]] + s[k + 1..];
    assert t[j..] == [t[j]] + t[j + 1..];
    TokensOfDigit(s[k], s[k + 1..]);
  }

  lemma {:induction false} TokensStepTwoDigits(s: string, k: nat, t: seq<Input>, j: nat)
    requires k + 1 < |s| && IsDigit(s[k]) && IsDigit(s[k + 1]) && (k + 2 == |s| || !IsDigit(s[k + 2]))
    requires j < |t| && t[j] == Input(NumberType, DigitValue(s[k]) * 10 + DigitValue(s[k + 1]))
    requires Tokens(s[k + 2..]) == t[j + 1..]
    ensures Tokens(s[k..]) == t[j..]
  {
    assert s[k..] == [s[k], s[k + 1]] + s[k + 2..];
    assert t[j..] == [t[j]] + t[j + 1..];
    TokensOfTwoDigits(s[k], s[k + 1], s[k + 2..]);
  }

  /** Removing the spaces keeps exactly the tokens that are not spaces. */
  lemma {:induction false} DropSpacesMembers(tokens: seq<Input>, t: Input)
    ensures t in DropSpaces(tokens) <==> t in tokens && t != CharToken(' ')
    decreases |tokens|
  {
    if tokens != [] {
      DropSpacesMembers(tokens[1..], t);
      assert tokens == [tokens[0]] + tokens[1..];
    }
  }

  lemma {:induction false} DropSpacesAppend(a: seq<Input>, b: seq<Input>)
    ensures DropSpaces(a + b) == DropSpaces(a) + DropSpaces(b)
    decreases |a|
  {
    if a != [] {
      assert (a + b)[0] == a[0];
      assert (a + b)[1..] == a[1..] + b;
      DropSpacesAppend(a[1..], b);
    } else {
      assert a + b == b;
    }
  }

  /** Removing the spaces keeps the other tokens in their order and leaves an empty input empty. */
  lemma DropSpacesSingle(t: Input)
    ensures DropSpaces([t]) == if t == CharToken(' ') then [] else [t]
  {
    assert [t][1..] == [];
  }
}
