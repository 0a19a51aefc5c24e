/**
 * The string operations the client uses: Python's str.startswith,
 * str.endswith and argument-less str.split, plus decimal rendering of
 * integers for f-strings.
 */
module Text {

  /** Python's str.isspace for one character: the separators str.split() splits on. */
  predicate IsSpace(c: char) {
    c == ' ' || c == '\t' || c == '\n' || c == '\r' || c == '\U{0B}' || c == '\U{0C}'
    || ('\U{1C}' <= c <= '\U{1F}') || c == '\U{85}' || c == '\U{A0}' || c == '\U{1680}'
    || ('\U{2000}' <= c <= '\U{200A}') || c == '\U{2028}' || c == '\U{2029}'
    || c == '\U{202F}' || c == '\U{205F}' || c == '\U{3000}'
  }

  predicate HasPrefix(s: string, p: string) {
    |p| <= |s| && s[..|p|] == p
  }

  predicate HasSuffix(s: string, p: string) {
    |p| <= |s| && s[|s| - |p|..] == p
  }

  predicate NoSpace(s: string) {
    forall i :: 0 <= i < |s| ==> !IsSpace(s[i])
  }

  /** A token that str.split() can produce: non-empty, without whitespace. */
  predicate IsWord(w: string) {
    w != [] && NoSpace(w)
  }

  function Concat(words: seq<string>): string {
    if words == [] then [] else words[0] + Concat(words[1..])
  }

  /** The characters of `s` that are not whitespace, in order. */
  function Squeeze(s: string): (r: string)
    ensures NoSpace(r)
  {
    if s == [] then []
    else if IsSpace(s[0]) then Squeeze(s[1..])
    else [s[0]] + Squeeze(s[1..])
  }

  /** Words joined by single spaces. */
  function JoinSpaced(words: seq<string>): string {
    if words == [] then []
    else if |words| == 1 then words[0]
    else words[0] + " " + JoinSpaced(words[1..])
  }

  /** Length of the whitespace run at the start of `s`. */
  function SpaceRun(s: string): (n: nat)
    ensures n <= |s|
    ensures forall i :: 0 <= i < n ==> IsSpace(s[i])
    ensures n < |s| ==> !IsSpace(s[n])
  {
    if s != [] && IsSpace(s[0]) then 1 + SpaceRun(s[1..]) else 0
  }

  /** Length of the non-whitespace run at the start of `s`. */
  function WordRun(s: string): (n: nat)
    ensures n <= |s|
    ensures NoSpace(s[..n])
    ensures n < |s| ==> IsSpace(s[n])
  {
    if s != [] && !IsSpace(s[0]) then
      var n := 1 + WordRun(s[1..]);
      assert s[..n] == [s[0]] + s[1..][..n - 1];
      n
    else 0
  }

  lemma {:induction false} SqueezeAppend(a: string, b: string)
    ensures Squeeze(a + b) == Squeeze(a) + Squeeze(b)
  {
    if a != [] {
      assert (a + b)[1..] == a[1..] + b;
      SqueezeAppend(a[1..], b);
    } else {
      assert a + b == b;
    }
  }

  lemma {:induction false} SqueezeNoSpace(s: string)
    requires NoSpace(s)
    ensures Squeeze(s) == s
  {
    if s != [] {
      SqueezeNoSpace(s[1..]);
    }
  }

  lemma {:induction false} SqueezeAllSpace(s: string)
    requires forall i :: 0 <= i < |s| ==> IsSpace(s[i])
    ensures Squeeze(s) == []
  {
    if s != [] {
      SqueezeAllSpace(s[1..]);
    }
  }

  /**
   * Python's `s.split()`: the maximal runs of non-whitespace characters of
   * `s`, in order. Every token is a word, and together they hold exactly the
   * non-whitespace characters of `s`.
   */
  function Split(s: string): (words: seq<string>)
    ensures forall i :: 0 <= i < |words| ==> IsWord(words[i])
    ensures Concat(words) == Squeeze(s)
    decreases |s|
  {
    var t := s[SpaceRun(s)..];
    if t == [] then
      SqueezeSkipsSpace(s);
      []
    else
      var n := WordRun(t);
      var rest := Split(t[n..]);
      SplitStep(s, n, rest);
      [t[..n]] + rest
  }

  /** One step of Split: a leading word in front of the words of the rest. */
  lemma SplitStep(s: string, n: nat, rest: seq<string>)
    requires s[SpaceRun(s)..] != [] && n == WordRun(s[SpaceRun(s)..])
    requires forall i :: 0 <= i < |rest| ==> IsWord(rest[i])
    requires Concat(rest) == Squeeze(s[SpaceRun(s)..][n..])
    ensures var words := [s[SpaceRun(s)..][..n]] + rest;
      && (forall i :: 0 <= i < |words| ==> IsWord(words[i]))
      && Concat(words) == Squeeze(s)
  {
    var t := s[SpaceRun(s)..];
    SqueezeSkipsSpace(s);
    SqueezeTakesWord(t);
    var words := [t[..n]] + rest;
    assert words[1..] == rest;
    assert !IsSpace(t[0]);
    assert n > 0;
  }

  lemma SqueezeSkipsSpace(s: string)
    ensures Squeeze(s) == Squeeze(s[SpaceRun(s)..])
  {
    var k := SpaceRun(s);
    assert s == s[..k] + s[k..];
    SqueezeAppend(s[..k], s[k..]);
    SqueezeAllSpace(s[..k]);
  }

  lemma SqueezeTakesWord(t: string)
    ensures Squeeze(t) == t[..WordRun(t)] + Squeeze(t[WordRun(t)..])
  {
    var n := WordRun(t);
    assert t == t[..n] + t[n..];
    SqueezeAppend(t[..n], t[n..]);
    SqueezeNoSpace(t[..n]);
  }

  /** A string that starts with a whitespace-free prefix `p` splits into a first token that starts with `p`. */
  lemma SplitFirstToken(s: string, p: string)
    requires p != [] && NoSpace(p) && HasPrefix(s, p)
    ensures Split(s) != [] && HasPrefix(Split(s)[0], p)
  {
    assert SpaceRun(s) == 0 by { assert !IsSpace(s[0]) by { assert s[0] == p[0]; } }
    var n := WordRun(s);
    assert n >= |p|;
    assert Split(s)[0] == s[..n];
    assert s[..n][..|p|] == s[..|p|];
  }

  lemma {:induction false} WordRunPastWord(w: string, rest: string)
    requires NoSpace(w)
    requires rest == [] || IsSpace(rest[0])
    ensures WordRun(w + rest) == |w|
  {
    if w != [] {
      assert (w + rest)[1..] == w[1..] + rest;
      WordRunPastWord(w[1..], rest);
    } else {
      assert w + rest == rest;
    }
  }

  /** Splitting words joined by single spaces gives the words back. */
  lemma {:induction false} SplitJoinSpaced(words: seq<string>)
    requires forall i :: 0 <= i < |words| ==> IsWord(words[i])
    ensures Split(JoinSpaced(words)) == words
  {
    if words == [] {
    } else if |words| == 1 {
      SplitAfterWord(words[0], []);
      assert words[0] + [] == words[0];
    } else {
      var tail := JoinSpaced(words[1..]);
      assert JoinSpaced(words) == words[0] + ([' '] + tail);
      SplitAfterWord(words[0], [' '] + tail);
      SplitSkipsSpace(' ', tail);
      SplitJoinSpaced(words[1..]);
    }
  }

  /** A word followed by whitespace or by nothing is the first token. */
  lemma SplitAfterWord(w: string, rest: string)
    requires IsWord(w) && (rest == [] || IsSpace(rest[0]))
    ensures Split(w + rest) == [w] + Split(rest)
  {
    var t := w + rest;
    assert SpaceRun(t) == 0 by { assert t[0] == w[0]; }
    assert t[SpaceRun(t)..] == t;
    WordRunPastWord(w, rest);
    assert t[..|w|] == w && t[|w|..] == rest;
  }

  /** A leading whitespace character does not change the tokens. */
  lemma SplitSkipsSpace(c: char, rest: string)
    requires IsSpace(c)
    ensures Split([c] + rest) == Split(rest)
  {
    var s := [c] + rest;
    assert s[1..] == rest;
    assert SpaceRun(s) == 1 + SpaceRun(rest);
    assert s[SpaceRun(s)..] == rest[SpaceRun(rest)..];
  }

  /** The value of a decimal digit character. */
  function DigitValue(c: char): int {
    (c as int) - ('0' as int)
  }

  /** The number a string of decimal digits spells, read most significant digit first. */
  function DigitsValue(s: string): int
    decreases |s|
  {
    if s == [] then 0 else 10 * DigitsValue(s[..|s| - 1]) + DigitValue(s[|s| - 1])
  }

  /** Decimal digits of a non-negative integer, most significant first. */
  function NatDigits(n: nat): (r: string)
    ensures |r| >= 1 && forall i :: 0 <= i < |r| ==> '0' <= r[i] <= '9'
    ensures n < 10 <==> |r| == 1
    decreases n
  {
    if n < 10 then [['0','1','2','3','4','5','6','7','8','9'][n]]
    else NatDigits(n / 10) + NatDigits(n % 10)
  }

  /** The digits of `n` spell `n`, and only 0 is written with a leading zero. */
  lemma {:induction false} NatDigitsValue(n: nat)
    ensures DigitsValue(NatDigits(n)) == n
    ensures NatDigits(n)[0] == '0' <==> n == 0
    decreases n
  {
    var r := NatDigits(n);
    if n < 10 {
      assert r[..0] == [];
    } else {
      var high := NatDigits(n / 10);
      var low := NatDigits(n % 10);
      NatDigitsValue(n / 10);
      NatDigitsValue(n % 10);
      assert r == high + low;
      assert r[..|r| - 1] == high && r[|r| - 1] == low[0];
      assert low[..0] == [];
    }
  }

  /** Python's str() of an int: an optional minus sign, then the digits of |n|. */
  function Decimal(n: int): (r: string)
    ensures r != [] && (r[0] == '-' <==> n < 0)
    ensures forall i :: 0 < i < |r| ==> '0' <= r[i] <= '9'
    ensures n >= 0 ==> '0' <= r[0] <= '9'
  {
    if n < 0 then "-" + NatDigits(-n) else NatDigits(n)
  }

  /** str() of an int spells its value after the sign, without leading zeros. */
  lemma DecimalValue(n: int)
    ensures var r := Decimal(n);
      && (n >= 0 ==> DigitsValue(r) == n && (r[0] == '0' <==> n == 0))
      && (n == 0 ==> r == "0")
      && (n < 0 ==> |r| >= 2 && DigitsValue(r[1..]) == -n && r[1] != '0')
  {
    var r := Decimal(n);
    if n < 0 {
      var d := NatDigits(-n);
      NatDigitsValue(-n);
      assert r == "-" + d;
      assert r[1..] == d && r[1] == d[0];
    } else {
      NatDigitsValue(n);
      assert r == NatDigits(n);
    }
  }

  lemma JoinSpacedPrefix(words: seq<string>)
    requires |words| >= 1
    ensures HasPrefix(JoinSpaced(words), words[0])
  {
    var s := JoinSpaced(words);
    if |words| > 1 {
      var rest := " " + JoinSpaced(words[1..]);
      assert s == words[0] + rest;
      assert s[..|words[0]|] == words[0];
    } else {
      assert s == words[0];
    }
  }
}
