/** The natural order of worker names: "s21-2" before "s21-10".  A character stands for a byte. */
module NameOrder {

  /** A run of digits by its value, or any other byte. */
  datatype Token = Num(value: int) | Ch(c: char)

  predicate IsDigit(c: char) {
    '0' <= c <= '9'
  }

  /** How many digits s begins with. */
  function Digits(s: string): (n: int)
    ensures 0 <= n <= |s| && (forall i :: 0 <= i < n ==> IsDigit(s[i])) && (n < |s| ==> !IsDigit(s[n]))
  {
    if s == "" || !IsDigit(s[0]) then 0 else 1 + Digits(s[1..])
  }

  function Pow10(n: int): int {
    if n <= 0 then 1 else 10 * Pow10(n - 1)
  }

  function Value(s: string): int {
    if s == "" then 0 else (s[0] as int - '0' as int) * Pow10(|s| - 1) + Value(s[1..])
  }

  function Tokens(s: string): seq<Token> {
    if s == "" then []
    else if IsDigit(s[0]) then
      var n := Digits(s);
      [Num(Value(s[..n]))] + Tokens(s[n..])
    else [Ch(s[0])] + Tokens(s[1..])
  }

  // ---- the order of token lists ----

  predicate TokenLess(x: Token, y: Token) {
    match (x, y)
    case (Num(v), Num(w)) => v < w
    case (Num(_), Ch(c)) => c > '9'
    case (Ch(c), Num(_)) => c < '0'
    case (Ch(c), Ch(d)) => c < d
  }

  predicate ListLess(x: seq<Token>, y: seq<Token>) {
    if x == [] || y == [] then |x| < |y|
    else if x[0] != y[0] then TokenLess(x[0], y[0])
    else ListLess(x[1..], y[1..])
  }

  /** No other byte of a token list is a digit. */
  predicate Proper(x: seq<Token>) {
    forall i :: 0 <= i < |x| && x[i].Ch? ==> !IsDigit(x[i].c)
  }

  // ---- the comparison ----

  function TrimZeros(s: string): string {
    if s != "" && s[0] == '0' then TrimZeros(s[1..]) else s
  }

  /** The byte order of strings. */
  predicate StringLess(s: string, t: string) {
    if s == "" || t == "" then |s| < |t|
    else if s[0] != t[0] then s[0] < t[0]
    else StringLess(s[1..], t[1..])
  }

  predicate AllDigits(s: string) {
    forall i :: 0 <= i < |s| ==> IsDigit(s[i])
  }

  method CountDigits(s: string) returns (n: int)
    ensures n == Digits(s)
  {
    n := 0;
    while n < |s| && IsDigit(s[n])
      invariant 0 <= n <= |s| && n + Digits(s[n..]) == Digits(s)
    {
      assert s[n..][1..] == s[n + 1..];
      n := n + 1;
    }
  }

  /** Whether the name a comes before b. */
  method NameLess(a0: string, b0: string) returns (less: bool)
    ensures less == ListLess(Tokens(a0), Tokens(b0))
  {
    var a, b := a0, b0;
    while a != "" && b != ""
      invariant ListLess(Tokens(a), Tokens(b)) == ListLess(Tokens(a0), Tokens(b0))
      decreases |a|
    {
      var da := CountDigits(a);
      var db := CountDigits(b);
      FirstToken(a);
      FirstToken(b);
      if da > 0 && db > 0 {
        var na, nb := TrimZeros(a[..da]), TrimZeros(b[..db]);
        CompareRuns(a[..da], b[..db]);
        if |na| != |nb| {
          return |na| < |nb|;
        }
        if na != nb {
          return StringLess(na, nb);
        }
        a, b := a[da..], b[db..];
        continue;
      }
      if a[0] != b[0] {
        return a[0] < b[0];
      }
      a, b := a[1..], b[1..];
    }
    TokensEmpty(a);
    TokensEmpty(b);
    less := |a| < |b|;
  }

  lemma FirstToken(s: string)
    requires s != ""
    ensures Digits(s) > 0 <==> IsDigit(s[0])
    ensures Tokens(s) != [] &&
            if Digits(s) > 0 then Tokens(s)[0] == Num(Value(s[..Digits(s)])) && Tokens(s)[1..] == Tokens(s[Digits(s)..])
            else Tokens(s)[0] == Ch(s[0]) && Tokens(s)[1..] == Tokens(s[1..])
  {
  }

  lemma TokensEmpty(s: string)
    ensures Tokens(s) == [] <==> s == ""
  {
  }

  lemma {:induction false} Pow10Positive(n: int)
    ensures Pow10(n) >= 1
    decreases if n <= 0 then 0 else n
  {
    if n > 0 {
      Pow10Positive(n - 1);
    }
  }

  lemma DigitTimes(d: int, e: int, p: int)
    requires p >= 1 && d < e
    ensures d * p + p <= e * p
  {
    assert (e - d - 1) * p >= 0;
  }

  lemma {:induction false} ValueBelow(s: string)
    requires AllDigits(s)
    ensures 0 <= Value(s) < Pow10(|s|)
  {
    if s != "" {
      ValueBelow(s[1..]);
      Pow10Positive(|s| - 1);
      var d := s[0] as int - '0' as int;
      DigitTimes(d, 10, Pow10(|s| - 1));
      DigitTimes(-1, d, Pow10(|s| - 1));
    }
  }

  lemma {:induction false} TrimKeepsValue(s: string)
    requires AllDigits(s)
    ensures Value(TrimZeros(s)) == Value(s) && AllDigits(TrimZeros(s))
    ensures TrimZeros(s) != "" ==> TrimZeros(s)[0] != '0'
  {
    if s != "" && s[0] == '0' {
      TrimKeepsValue(s[1..]);
    }
  }

  /** Of two numbers of the same length the byte order is the order of the values. */
  lemma {:induction false} SameLength(s: string, t: string)
    requires AllDigits(s) && AllDigits(t) && |s| == |t|
    ensures StringLess(s, t) <==> Value(s) < Value(t)
    ensures s == t <==> Value(s) == Value(t)
  {
    if s != "" {
      SameLength(s[1..], t[1..]);
      ValueBelow(s[1..]);
      ValueBelow(t[1..]);
      Pow10Positive(|s| - 1);
      var d, e := s[0] as int - '0' as int, t[0] as int - '0' as int;
      if d < e {
        DigitTimes(d, e, Pow10(|s| - 1));
      } else if e < d {
        DigitTimes(e, d, Pow10(|s| - 1));
      } else {
        assert s == [s[0]] + s[1..] && t == [t[0]] + t[1..];
      }
    }
  }

  lemma {:induction false} Pow10Grows(m: int, n: int)
    requires 0 <= m <= n
    ensures Pow10(m) <= Pow10(n)
    decreases n - m
  {
    if m < n {
      Pow10Grows(m, n - 1);
      Pow10Positive(n - 1);
    }
  }

  /** A longer number without leading zeros is larger. */
  lemma Longer(s: string, t: string)
    requires AllDigits(s) && AllDigits(t) && |s| < |t| && t[0] != '0'
    ensures Value(s) < Value(t)
  {
    ValueBelow(s);
    ValueBelow(t[1..]);
    Pow10Grows(|s|, |t| - 1);
    Pow10Positive(|t| - 1);
    var d := t[0] as int - '0' as int;
    DigitTimes(0, d, Pow10(|t| - 1));
  }

  /** Without leading zeros, length and then byte order give the order of the values. */
  lemma CompareRuns(s: string, t: string)
    requires AllDigits(s) && AllDigits(t)
    ensures var x, y := TrimZeros(s), TrimZeros(t);
            && (|x| != |y| ==> (|x| < |y| <==> Value(s) < Value(t)) && Value(s) != Value(t))
            && (|x| == |y| ==> (StringLess(x, y) <==> Value(s) < Value(t)) && (x == y <==> Value(s) == Value(t)))
  {
    var x, y := TrimZeros(s), TrimZeros(t);
    TrimKeepsValue(s);
    TrimKeepsValue(t);
    if |x| < |y| {
      Longer(x, y);
    } else if |y| < |x| {
      Longer(y, x);
    } else {
      SameLength(x, y);
    }
  }

  // ---- the order is a strict weak order ----

  lemma {:induction false} TokensProper(s: string)
    ensures Proper(Tokens(s))
    decreases |s|
  {
    if s != "" {
      if IsDigit(s[0]) {
        TokensProper(s[Digits(s)..]);
      } else {
        TokensProper(s[1..]);
      }
    }
  }

  lemma {:induction false} ListIrreflexive(x: seq<Token>)
    ensures !ListLess(x, x)
  {
    if x != [] {
      ListIrreflexive(x[1..]);
    }
  }

  lemma {:induction false} ListTransitive(x: seq<Token>, y: seq<Token>, z: seq<Token>)
    requires Proper(x) && Proper(y) && Proper(z) && ListLess(x, y) && ListLess(y, z)
    ensures ListLess(x, z)
  {
    if x != [] && y != [] && z != [] {
      if x[0] == y[0] && y[0] == z[0] {
        ListTransitive(x[1..], y[1..], z[1..]);
      }
    }
  }

  lemma {:induction false} ListTotal(x: seq<Token>, y: seq<Token>)
    requires Proper(x) && Proper(y) && !ListLess(x, y) && !ListLess(y, x)
    ensures x == y
  {
    if x != [] && y != [] {
      ListTotal(x[1..], y[1..]);
      assert x == [x[0]] + x[1..] && y == [y[0]] + y[1..];
    }
  }

  ghost predicate Less(a: string, b: string) {
    ListLess(Tokens(a), Tokens(b))
  }

  /** No name comes before itself, the order is transitive, and names that neither comes before the other are those
      with the same tokens, so that this is transitive, too. */
  lemma StrictWeakOrder(a: string, b: string, c: string)
    ensures !Less(a, a)
    ensures Less(a, b) && Less(b, c) ==> Less(a, c)
    ensures !Less(a, b) && !Less(b, a) <==> Tokens(a) == Tokens(b)
    ensures !Less(a, b) && !Less(b, a) && !Less(b, c) && !Less(c, b) ==> !Less(a, c) && !Less(c, a)
  {
    hide Tokens, ListLess, Proper;
    TokensProper(a);
    TokensProper(b);
    TokensProper(c);
    ListIrreflexive(Tokens(a));
    if Less(a, b) && Less(b, c) {
      ListTransitive(Tokens(a), Tokens(b), Tokens(c));
    }
    if !Less(a, b) && !Less(b, a) {
      ListTotal(Tokens(a), Tokens(b));
    }
    if !Less(b, c) && !Less(c, b) {
      ListTotal(Tokens(b), Tokens(c));
    }
  }

  // ---- what a reader sees ----

  /** A name that ends without a digit, followed by what begins the next part. */
  predicate Ends(s: string) {
    s == "" || !IsDigit(s[|s| - 1])
  }

  predicate Number(s: string) {
    s != "" && AllDigits(s)
  }

  predicate NoDigitFirst(s: string) {
    s == "" || !IsDigit(s[0])
  }

  lemma {:induction false} TokensJoin(s: string, t: string)
    requires Ends(s) || NoDigitFirst(t)
    ensures Tokens(s + t) == Tokens(s) + Tokens(t)
    decreases |s|
  {
    hide Value, AllDigits, Tokens, Digits;
    TokensEmpty(s);
    if s == "" {
      assert s + t == t;
    } else {
      var n := if IsDigit(s[0]) then Digits(s) else 1;
      DigitsJoin(s, t);
      assert (s + t)[..n] == s[..n] && (s + t)[n..] == s[n..] + t;
      TokensJoin(s[n..], t);
      HeadToken(s, n);
      HeadToken(s + t, n);
      var head := [if IsDigit(s[0]) then Num(Value(s[..n])) else Ch(s[0])];
      assert Tokens(s + t) == head + (Tokens(s[n..]) + Tokens(t));
      assert Tokens(s) == head + Tokens(s[n..]);
    }
  }

  /** The first token is made from the digits or the byte that a name begins with. */
  lemma HeadToken(s: string, n: int)
    requires s != "" && n == if IsDigit(s[0]) then Digits(s) else 1
    ensures 1 <= n <= |s| && |Tokens(s)| >= 1
    ensures Tokens(s) == [if IsDigit(s[0]) then Num(Value(s[..n])) else Ch(s[0])] + Tokens(s[n..])
  {
  }

  lemma {:induction false} DigitsJoin(s: string, t: string)
    requires s != "" && (Ends(s) || NoDigitFirst(t))
    ensures Digits(s + t) == Digits(s)
  {
    if IsDigit(s[0]) {
      assert (s + t)[1..] == s[1..] + t;
      if |s| > 1 {
        DigitsJoin(s[1..], t);
      } else {
        assert s[1..] + t == t;
      }
    }
  }

  lemma {:induction false} NumberIsOneToken(s: string)
    requires Number(s)
    ensures Tokens(s) == [Num(Value(s))]
  {
    AllAreDigits(s);
    assert s[..|s|] == s && s[|s|..] == "";
  }

  lemma {:induction false} AllAreDigits(s: string)
    requires AllDigits(s)
    ensures Digits(s) == |s|
  {
    if s != "" {
      AllAreDigits(s[1..]);
    }
  }

  lemma {:induction false} SamePrefix(x: seq<Token>, y: seq<Token>, z: seq<Token>)
    ensures ListLess(x + y, x + z) == ListLess(y, z)
  {
    if x == [] {
      assert x + y == y && x + z == z;
    } else {
      assert (x + y)[1..] == x[1..] + y && (x + z)[1..] == x[1..] + z;
      SamePrefix(x[1..], y, z);
    }
  }

  /** Names that differ first in a number come in the order of its value, however many digits it has. */
  lemma NumbersDecide(s: string, m: string, n: string, t: string, u: string)
    requires Ends(s) && Number(m) && Number(n) && NoDigitFirst(t) && NoDigitFirst(u) && Value(m) < Value(n)
    ensures Less(s + m + t, s + n + u) && !Less(s + n + u, s + m + t)
  {
    hide Value, Digits, AllDigits, IsDigit;
    NumberIsOneToken(m);
    NumberIsOneToken(n);
    NumberFirst(Tokens(t), Tokens(u), Value(m), Value(n));
    hide Tokens, ListLess, TokenLess;
    TokensJoin(m, t);
    TokensJoin(n, u);
    assert s + m + t == s + (m + t) && s + n + u == s + (n + u);
    TokensJoin(s, m + t);
    TokensJoin(s, n + u);
    SamePrefix(Tokens(s), Tokens(m + t), Tokens(n + u));
    SamePrefix(Tokens(s), Tokens(n + u), Tokens(m + t));
  }

  lemma NumberFirst(x: seq<Token>, y: seq<Token>, v: int, w: int)
    requires v < w
    ensures ListLess([Num(v)] + x, [Num(w)] + y) && !ListLess([Num(w)] + y, [Num(v)] + x)
  {
  }

  /** Names that differ first in a byte, not both a digit, come in the order of the bytes. */
  lemma BytesDecide(s: string, c: char, d: char, t: string, u: string)
    requires Ends(s) && c < d && !(IsDigit(c) && IsDigit(d))
    ensures Less(s + [c] + t, s + [d] + u) && !Less(s + [d] + u, s + [c] + t)
  {
    assert s + [c] + t == s + ([c] + t) && s + [d] + u == s + ([d] + u);
    TokensJoin(s, [c] + t);
    TokensJoin(s, [d] + u);
    SamePrefix(Tokens(s), Tokens([c] + t), Tokens([d] + u));
    SamePrefix(Tokens(s), Tokens([d] + u), Tokens([c] + t));
    FirstToken([c] + t);
    FirstToken([d] + u);
  }

  /** A name comes before the longer ones that begin with it. */
  lemma PrefixFirst(s: string, t: string)
    requires t != "" && (Ends(s) || NoDigitFirst(t))
    ensures Less(s, s + t) && !Less(s + t, s)
  {
    TokensJoin(s, t);
    TokensEmpty(t);
    SamePrefix(Tokens(s), [], Tokens(t));
    SamePrefix(Tokens(s), Tokens(t), []);
    assert Tokens(s) + [] == Tokens(s);
  }

  /** The decimal value. */
  lemma {:induction false} ValueIsDecimal(s: string, c: char)
    ensures Value("") == 0 && Value(s + [c]) == 10 * Value(s) + (c as int - '0' as int)
  {
    if s == "" {
      assert s + [c] == [c] && [c][1..] == "";
    } else {
      assert (s + [c])[1..] == s[1..] + [c];
      ValueIsDecimal(s[1..], c);
      var p := Pow10(|s| - 1);
      assert Pow10(|s|) == 10 * p;
      Tenfold(s[0] as int - '0' as int, p);
    }
  }

  lemma Tenfold(d: int, p: int)
    ensures d * (10 * p) == 10 * (d * p)
  {
  }
}
