/** The Python string operations the generators rely on, over ASCII:
    whitespace splitting, str.capitalize, int() on a string, and the
    code-point ordering of strings. */
module PyText {
  import opened Wrappers

  /** str.isspace on ASCII: tab through carriage return, the four
      separator controls 0x1C-0x1F, and space. */
  predicate IsSpace(c: char) {
    9 <= c as int <= 13 || 28 <= c as int <= 32
  }

  predicate NoSpace(s: string) {
    forall i :: 0 <= i < |s| ==> !IsSpace(s[i])
  }

  /** Length of the leading run of non-whitespace characters. */
  function WordLength(s: string): (n: nat)
    ensures n <= |s|
    ensures NoSpace(s[..n])
    ensures n < |s| ==> IsSpace(s[n])
  {
    if s == [] || IsSpace(s[0]) then 0
    else
      var n := 1 + WordLength(s[1..]);
      assert forall i :: 1 <= i < n ==> s[..n][i] == s[1..][..n - 1][i - 1];
      n
  }

  /** str.split() with no separator: the maximal runs of non-whitespace,
      with no empty words. */
  function Split(s: string): (words: seq<string>)
    ensures forall w :: w in words ==> w != [] && NoSpace(w)
    decreases |s|
  {
    if s == [] then []
    else if IsSpace(s[0]) then Split(s[1..])
    else
      var n := WordLength(s);
      [s[..n]] + Split(s[n..])
  }

  /** "".join(words). */
  function Concat(words: seq<string>): string {
    if words == [] then [] else words[0] + Concat(words[1..])
  }

  /** " ".join(words). */
  function JoinSpaces(words: seq<string>): string {
    if words == [] then []
    else if |words| == 1 then words[0]
    else words[0] + " " + JoinSpaces(words[1..])
  }

  /** The string with every whitespace character removed. */
  function Squeezed(s: string): (r: string)
    ensures NoSpace(r) && |r| <= |s|
  {
    if s == [] then []
    else (if IsSpace(s[0]) then [] else [s[0]]) + Squeezed(s[1..])
  }

  lemma {:induction false} SqueezedConcat(a: string, b: string)
    ensures Squeezed(a + b) == Squeezed(a) + Squeezed(b)
    decreases |a|
  {
    if a != [] {
      assert (a + b)[1..] == a[1..] + b;
      SqueezedConcat(a[1..], b);
    } else {
      assert a + b == b;
    }
  }

  lemma {:induction false} SqueezedNoSpace(s: string)
    requires NoSpace(s)
    ensures Squeezed(s) == s
    decreases |s|
  {
    if s != [] {
      SqueezedNoSpace(s[1..]);
    }
  }

  /** Splitting loses exactly the whitespace: the words, put back together,
      are the other characters in order. */
  lemma {:induction false} SplitKeepsLetters(s: string)
    ensures Concat(Split(s)) == Squeezed(s)
    decreases |s|
  {
    if s != [] {
      if IsSpace(s[0]) {
        SplitKeepsLetters(s[1..]);
      } else {
        var n := WordLength(s);
        assert s == s[..n] + s[n..];
        SqueezedConcat(s[..n], s[n..]);
        SqueezedNoSpace(s[..n]);
        SplitKeepsLetters(s[n..]);
        assert Split(s)[1..] == Split(s[n..]);
      }
    }
  }

  /** A word followed by whitespace or nothing is read as one run. */
  lemma {:induction false} WordLengthOfWord(w: string, t: string)
    requires NoSpace(w)
    requires t == [] || IsSpace(t[0])
    ensures WordLength(w + t) == |w|
    decreases |w|
  {
    if w == [] {
      assert w + t == t;
    } else {
      assert (w + t)[1..] == w[1..] + t;
      WordLengthOfWord(w[1..], t);
    }
  }

  /** Splitting a space-joined list of words gives the words back. */
  lemma {:induction false} SplitJoinSpaces(words: seq<string>)
    requires forall w :: w in words ==> w != [] && NoSpace(w)
    ensures Split(JoinSpaces(words)) == words
    decreases |words|
  {
    if words != [] {
      var w := words[0];
      if |words| == 1 {
        WordLengthOfWord(w, []);
        assert w + [] == w;
        assert w[|w|..] == [];
      } else {
        var rest := JoinSpaces(words[1..]);
        var s := w + " " + rest;
        assert s == w + (" " + rest);
        WordLengthOfWord(w, " " + rest);
        assert s[..|w|] == w;
        assert s[|w|..] == " " + rest;
        assert (" " + rest)[1..] == rest;
        assert forall x :: x in words[1..] ==> x in words;
        SplitJoinSpaces(words[1..]);
      }
    }
  }

  function Upper(c: char): (u: char)
    ensures IsSpace(u) <==> IsSpace(c)
    ensures !('a' <= u <= 'z')
  {
    if 'a' <= c <= 'z' then (c as int - 32) as char else c
  }

  function Lower(c: char): (l: char)
    ensures IsSpace(l) <==> IsSpace(c)
    ensures !('A' <= l <= 'Z')
  {
    if 'A' <= c <= 'Z' then (c as int + 32) as char else c
  }

  function LowerAll(s: string): (r: string)
    ensures |r| == |s|
    ensures forall i :: 0 <= i < |s| ==> r[i] == Lower(s[i])
  {
    if s == [] then [] else [Lower(s[0])] + LowerAll(s[1..])
  }

  /** str.capitalize: the first character upper-cased and the rest
      lower-cased. */
  function Capitalize(w: string): (r: string)
    ensures |r| == |w|
    ensures w != [] ==> !('a' <= r[0] <= 'z')
    ensures forall i :: 1 <= i < |r| ==> !('A' <= r[i] <= 'Z')
  {
    if w == [] then [] else [Upper(w[0])] + LowerAll(w[1..])
  }

  /** Case mapping of one character: lower-casing forgets a prior
      upper-casing, and each mapping is idempotent. */
  lemma CharCase(c: char)
    ensures Lower(Upper(c)) == Lower(c)
    ensures Lower(Lower(c)) == Lower(c)
    ensures Upper(Upper(c)) == Upper(c)
  {
  }

  /** Capitalizing changes only letter case: it keeps whitespace where it
      was, agrees with the word up to case, and a second pass changes
      nothing. */
  lemma CapitalizeCase(w: string)
    ensures NoSpace(w) ==> NoSpace(Capitalize(w))
    ensures LowerAll(Capitalize(w)) == LowerAll(w)
    ensures Capitalize(Capitalize(w)) == Capitalize(w)
  {
    var r := Capitalize(w);
    if w != [] {
      CharCase(w[0]);
      forall i | 1 <= i < |w|
        ensures r[i] == Lower(w[i]) && Lower(r[i]) == Lower(w[i])
      {
        assert r[i] == LowerAll(w[1..])[i - 1];
        CharCase(w[i]);
      }
      var lr, lw := LowerAll(r), LowerAll(w);
      assert forall i :: 0 <= i < |w| ==> lr[i] == lw[i];
      var cr := Capitalize(r);
      forall i | 1 <= i < |w| ensures cr[i] == r[i] {
        assert cr[i] == LowerAll(r[1..])[i - 1];
      }
      assert cr[0] == r[0];
    }
  }

  function CapitalizeAll(words: seq<string>): (r: seq<string>)
    ensures |r| == |words|
    ensures forall i :: 0 <= i < |words| ==> r[i] == Capitalize(words[i])
  {
    if words == [] then [] else [Capitalize(words[0])] + CapitalizeAll(words[1..])
  }

  /** to_camelcase in codegenerators/parameters.py: each whitespace-separated
      word capitalized, concatenated without separators. */
  function ToCamelCase(s: string): string {
    Concat(CapitalizeAll(Split(s)))
  }

  lemma {:induction false} ConcatNoSpace(words: seq<string>)
    requires forall w :: w in words ==> NoSpace(w)
    ensures NoSpace(Concat(words))
    decreases |words|
  {
    if words != [] {
      assert forall x :: x in words[1..] ==> x in words;
      ConcatNoSpace(words[1..]);
      var a, b := words[0], Concat(words[1..]);
      assert a in words;
      assert Concat(words) == a + b;
      assert forall i :: 0 <= i < |a + b| ==> (a + b)[i] == (if i < |a| then a[i] else b[i - |a|]);
    }
  }

  lemma {:induction false} LowerAllConcat(a: string, b: string)
    ensures LowerAll(a + b) == LowerAll(a) + LowerAll(b)
  {
    assert forall i :: 0 <= i < |a + b| ==> (a + b)[i] == (if i < |a| then a[i] else b[i - |a|]);
  }

  /** Camel-casing drops exactly the whitespace and changes letter case
      only: the result has no whitespace and agrees, up to case, with the
      input's other characters in order. */
  lemma {:induction false} CamelCaseLetters(s: string)
    ensures NoSpace(ToCamelCase(s))
    ensures LowerAll(ToCamelCase(s)) == LowerAll(Squeezed(s))
  {
    var words := Split(s);
    forall w | w in CapitalizeAll(words)
      ensures NoSpace(w)
    {
      var i :| 0 <= i < |words| && w == CapitalizeAll(words)[i];
      assert words[i] in words;
      CapitalizeCase(words[i]);
    }
    ConcatNoSpace(CapitalizeAll(words));
    LowerConcatCapitalized(words);
    SplitKeepsLetters(s);
  }

  lemma {:induction false} LowerConcatCapitalized(words: seq<string>)
    ensures LowerAll(Concat(CapitalizeAll(words))) == LowerAll(Concat(words))
    decreases |words|
  {
    if words != [] {
      LowerConcatCapitalized(words[1..]);
      assert CapitalizeAll(words)[1..] == CapitalizeAll(words[1..]);
      LowerAllConcat(Capitalize(words[0]), Concat(CapitalizeAll(words[1..])));
      LowerAllConcat(words[0], Concat(words[1..]));
      CapitalizeCase(words[0]);
    }
  }

  /** A parameter name written as space-separated words becomes those words
      capitalized and run together. */
  lemma CamelCaseOfWords(words: seq<string>)
    requires forall w :: w in words ==> w != [] && NoSpace(w)
    ensures ToCamelCase(JoinSpaces(words)) == Concat(CapitalizeAll(words))
  {
    SplitJoinSpaces(words);
  }

  // int() on a string

  predicate IsDigit(c: char) {
    '0' <= c <= '9'
  }

  /** Decimal digits with single underscores between them, as int()
      accepts after the sign. */
  predicate ValidDigits(b: string) {
    && b != []
    && IsDigit(b[0]) && IsDigit(b[|b| - 1])
    && (forall i :: 0 <= i < |b| ==> IsDigit(b[i]) || b[i] == '_')
    && (forall i :: 0 <= i < |b| - 1 ==> b[i] == '_' ==> b[i + 1] != '_')
  }

  /** The value of the digits, underscores ignored. */
  function DigitsValue(b: string): (v: nat) {
    if b == [] then 0
    else if b[|b| - 1] == '_' then DigitsValue(b[..|b| - 1])
    else 10 * DigitsValue(b[..|b| - 1]) + (if IsDigit(b[|b| - 1]) then b[|b| - 1] as int - '0' as int else 0)
  }

  function StripLeft(s: string): (r: string)
    ensures |r| <= |s|
  {
    if s != [] && IsSpace(s[0]) then StripLeft(s[1..]) else s
  }

  function StripRight(s: string): (r: string)
    ensures |r| <= |s|
  {
    if s != [] && IsSpace(s[|s| - 1]) then StripRight(s[..|s| - 1]) else s
  }

  /** int(s) for a str: surrounding whitespace, an optional sign, then the
      digits; None where Python raises ValueError. */
  function ParseInt(s: string): (r: Option<int>) {
    var t := StripLeft(StripRight(s));
    if t == [] then None
    else
      var body := if t[0] == '-' || t[0] == '+' then t[1..] else t;
      if !ValidDigits(body) then None
      else
        var v: int := DigitsValue(body);
        Some(if t[0] == '-' then -v else v)
  }

  function DigitChar(d: nat): char
    requires d < 10
  {
    ('0' as int + d) as char
  }

  /** The decimal digits of a natural number, without leading zeros. */
  function Digits(n: nat): (b: string)
    ensures b != [] && forall i :: 0 <= i < |b| ==> IsDigit(b[i])
  {
    if n < 10 then [DigitChar(n)] else Digits(n / 10) + [DigitChar(n % 10)]
  }

  /** str(n): the decimal text of an integer. */
  function Decimal(n: int): string {
    if n < 0 then "-" + Digits(-n) else Digits(n)
  }

  lemma {:induction false} DigitsValueOfDigits(n: nat)
    ensures DigitsValue(Digits(n)) == n
  {
    if n >= 10 {
      var b := Digits(n);
      assert b[..|b| - 1] == Digits(n / 10);
      DigitsValueOfDigits(n / 10);
    }
  }

  /** The digits of a number carry no underscore, so int() accepts them. */
  lemma DigitsValid(n: nat)
    ensures ValidDigits(Digits(n))
  {
    var b := Digits(n);
    assert forall i :: 0 <= i < |b| - 1 ==> b[i] != '_';
  }

  /** Decimal text neither starts nor ends with whitespace. */
  lemma DecimalUnpadded(n: int)
    ensures StripLeft(StripRight(Decimal(n))) == Decimal(n)
  {
    var t := Decimal(n);
    assert !IsSpace(t[|t| - 1]) && !IsSpace(t[0]);
  }

  /** int() reads back what str() writes: the decimal text of every integer
      parses to that integer. */
  lemma DecimalRoundTrip(n: int)
    ensures ParseInt(Decimal(n)) == Some(n)
  {
    var m: nat := if n < 0 then -n else n;
    DigitsValueOfDigits(m);
    DigitsValid(m);
    DecimalUnpadded(n);
    if n < 0 {
      assert Decimal(n)[1..] == Digits(m);
    } else {
      assert Decimal(n)[0] != '-' && Decimal(n)[0] != '+';
    }
  }

  /** Surrounding whitespace does not change what int() reads. */
  lemma ParseIntIgnoresPadding(s: string)
    ensures ParseInt(" " + s) == ParseInt(s)
    ensures ParseInt(s + " ") == ParseInt(s)
  {
    assert (" " + s)[1..] == s;
    assert (s + " ")[..|s|] == s;
    StripRightPadded(s);
    StripLeftPadded(StripRight(s));
  }

  lemma StripRightPadded(s: string)
    ensures StripRight(" " + s) == (if StripRight(s) == [] then [] else " " + StripRight(s))
    decreases |s|
  {
    if s != [] && IsSpace(s[|s| - 1]) {
      assert (" " + s)[..|" " + s| - 1] == " " + s[..|s| - 1];
      StripRightPadded(s[..|s| - 1]);
    } else if s == [] {
      assert StripRight(" ") == StripRight([]);
    }
  }

  lemma StripLeftPadded(s: string)
    ensures StripLeft(" " + s) == StripLeft(s)
  {
    assert (" " + s)[1..] == s;
  }

  /** Python's < on str: code-point lexicographic order, a proper prefix
      first. */
  predicate LexLess(a: string, b: string) {
    if a == [] then b != []
    else if b == [] then false
    else a[0] < b[0] || (a[0] == b[0] && LexLess(a[1..], b[1..]))
  }

  /** The string order is a strict total order. */
  lemma {:induction false} LexLessIrreflexive(a: string)
    ensures !LexLess(a, a)
    decreases |a|
  {
    if a != [] {
      LexLessIrreflexive(a[1..]);
    }
  }

  lemma {:induction false} LexLessTransitive(a: string, b: string, c: string)
    requires LexLess(a, b) && LexLess(b, c)
    ensures LexLess(a, c)
    decreases |a|
  {
    if a != [] && a[0] == b[0] && b[0] == c[0] {
      LexLessTransitive(a[1..], b[1..], c[1..]);
    }
  }

  lemma {:induction false} LexLessTotal(a: string, b: string)
    ensures a == b || LexLess(a, b) || LexLess(b, a)
    decreases |a|
  {
    if a != [] && b != [] && a[0] == b[0] {
      LexLessTotal(a[1..], b[1..]);
      if a[1..] == b[1..] {
        assert a == [a[0]] + a[1..] && b == [b[0]] + b[1..];
      }
    }
  }

  lemma {:induction false} LexLessAsymmetric(a: string, b: string)
    requires LexLess(a, b)
    ensures !LexLess(b, a)
    decreases |a|
  {
    if a != [] && b != [] && a[0] == b[0] {
      LexLessAsymmetric(a[1..], b[1..]);
    }
  }
}
