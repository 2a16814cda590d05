/** The string functions of the Go standard library that the connection settings rely on. */
module Strings {
  import opened Types

  /** White space in the sense of unicode.IsSpace. */
  predicate IsSpace(c: char) {
    || c in {'\t', '\n', '\U{0B}', '\U{0C}', '\r', ' ', '\U{85}', '\U{A0}', '\U{1680}'}
    || '\U{2000}' <= c <= '\U{200A}'
    || c in {'\U{2028}', '\U{2029}', '\U{202F}', '\U{205F}', '\U{3000}'}
  }

  function WordLength(s: string): (n: nat)
    ensures n <= |s| && (forall i :: 0 <= i < n ==> !IsSpace(s[i])) && (n < |s| ==> IsSpace(s[n]))
  {
    if s == [] || IsSpace(s[0]) then 0 else 1 + WordLength(s[1..])
  }

  /** strings.Fields */
  function Fields(s: string): seq<string>
    decreases |s|
  {
    if s == [] then []
    else if IsSpace(s[0]) then Fields(s[1..])
    else [s[..WordLength(s)]] + Fields(s[WordLength(s)..])
  }

  /** strings.Join with a single space */
  function Join(tokens: seq<string>): string {
    if tokens == [] then ""
    else if |tokens| == 1 then tokens[0]
    else tokens[0] + " " + Join(tokens[1..])
  }

  /** A token more is a space more and the token, except that the first comes without. */
  lemma {:induction false} JoinSnoc(tokens: seq<string>, t: string)
    ensures Join(tokens + [t]) == if tokens == [] then t else Join(tokens) + " " + t
  {
    if |tokens| == 1 {
      assert (tokens + [t])[1..] == [t];
    } else if |tokens| > 1 {
      JoinSnoc(tokens[1..], t);
      assert (tokens + [t])[1..] == tokens[1..] + [t];
      assert (tokens + [t])[0] == tokens[0];
    }
  }

  /** Non-empty and free of white space. */
  predicate IsToken(t: string) {
    t != [] && forall i :: 0 <= i < |t| ==> !IsSpace(t[i])
  }

  lemma {:induction false} FieldsAreTokens(s: string)
    ensures forall i :: 0 <= i < |Fields(s)| ==> IsToken(Fields(s)[i])
    decreases |s|
  {
    if s != [] {
      FieldsAreTokens(if IsSpace(s[0]) then s[1..] else s[WordLength(s)..]);
    }
  }

  predicate EndsWord(rest: string) {
    rest == [] || IsSpace(rest[0])
  }

  lemma {:induction false} WordLengthOf(t: string, rest: string)
    requires (forall i :: 0 <= i < |t| ==> !IsSpace(t[i])) && EndsWord(rest)
    ensures WordLength(t + rest) == |t|
  {
    if t == [] {
      assert t + rest == rest;
    } else {
      assert (t + rest)[1..] == t[1..] + rest;
      WordLengthOf(t[1..], rest);
    }
  }

  lemma FirstField(t: string, rest: string)
    requires IsToken(t) && EndsWord(rest)
    ensures Fields(t + rest) == [t] + Fields(rest)
  {
    var s := t + rest;
    WordLengthOf(t, rest);
    assert s[0] == t[0];
    assert s[..|t|] == t && s[|t|..] == rest;
  }

  lemma SkipSpace(c: char, s: string)
    requires IsSpace(c)
    ensures Fields([c] + s) == Fields(s)
  {
    assert ([c] + s)[0] == c && ([c] + s)[1..] == s;
  }

  lemma FirstWord(s: string) returns (t: string, more: string)
    requires s != [] && !IsSpace(s[0])
    ensures IsToken(t) && s == t + more && EndsWord(more)
    ensures Fields(s) == [t] + Fields(more)
  {
    t, more := s[..WordLength(s)], s[WordLength(s)..];
  }

  lemma SpaceFirst(c: char, more: string, rest: string)
    requires IsSpace(c) && Fields(more + rest) == Fields(more) + Fields(rest)
    ensures Fields([c] + more + rest) == Fields([c] + more) + Fields(rest)
  {
    assert [c] + more + rest == [c] + (more + rest);
    SkipSpace(c, more);
    SkipSpace(c, more + rest);
  }

  lemma EndsWordConcat(more: string, rest: string)
    requires EndsWord(more) && EndsWord(rest)
    ensures EndsWord(more + rest)
  {
    if more == [] {
      assert more + rest == rest;
    }
  }

  lemma TwoFirstFields(t: string, more: string, rest: string)
    requires IsToken(t) && EndsWord(more) && EndsWord(rest)
    ensures Fields(t + more) == [t] + Fields(more)
    ensures Fields(t + (more + rest)) == [t] + Fields(more + rest)
  {
    EndsWordConcat(more, rest);
    FirstField(t, more);
    FirstField(t, more + rest);
  }

  lemma Assoc<T>(a: seq<T>, b: seq<T>, c: seq<T>)
    ensures a + b + c == a + (b + c)
  {
  }

  lemma {:induction false} FieldsBeforeSpace(a: string, rest: string)
    requires rest != [] && IsSpace(rest[0])
    ensures Fields(a + rest) == Fields(a) + Fields(rest)
    decreases |a|
  {
    if a == [] {
      assert a + rest == rest;
    } else if IsSpace(a[0]) {
      FieldsBeforeSpace(a[1..], rest);
      SpaceFirst(a[0], a[1..], rest);
      assert a == [a[0]] + a[1..];
    } else {
      var t, more := FirstWord(a);
      FieldsBeforeSpace(more, rest);
      TwoFirstFields(t, more, rest);
      Assoc(t, more, rest);
      Assoc([t], Fields(more), Fields(rest));
    }
  }

  /** A string is split at each of its white-space characters. */
  lemma FieldsAtSpace(a: string, c: char, b: string)
    requires IsSpace(c)
    ensures Fields(a + [c] + b) == Fields(a) + Fields(b)
  {
    assert a + [c] + b == a + ([c] + b);
    FieldsBeforeSpace(a, [c] + b);
    SkipSpace(c, b);
  }

  /** A token is its own only field; with FieldsAtSpace this says what Fields is for every string. */
  lemma FieldsOfToken(t: string)
    requires t != [] && forall i :: 0 <= i < |t| ==> !IsSpace(t[i])
    ensures Fields(t) == [t] && Fields([]) == []
  {
    FirstField(t, []);
    assert t + [] == t;
  }

  /** The white space of connection strings, and what is not. */
  lemma SpacesAre(c: char)
    ensures c in {' ', '\t', '\n', '\r'} ==> IsSpace(c)
    ensures '!' <= c <= '~' ==> !IsSpace(c)
  {
  }

  /** Splitting on white space undoes joining tokens with spaces. */
  lemma {:induction false} FieldsOfJoin(tokens: seq<string>)
    requires forall i :: 0 <= i < |tokens| ==> IsToken(tokens[i])
    ensures Fields(Join(tokens)) == tokens
  {
    if |tokens| == 1 {
      FirstField(tokens[0], "");
      assert tokens[0] + "" == tokens[0];
    } else if |tokens| > 1 {
      var rest := Join(tokens[1..]);
      FieldsOfJoin(tokens[1..]);
      assert Join(tokens) == tokens[0] + (" " + rest);
      FirstField(tokens[0], " " + rest);
      SkipSpace(' ', rest);
    }
  }

  /** The position of the first `c`, or the length. */
  function IndexOf(s: string, c: char): (n: nat)
    ensures n <= |s| && c !in s[..n] && (n < |s| ==> s[n] == c)
  {
    if s == [] || s[0] == c then 0 else 1 + IndexOf(s[1..], c)
  }

  /** strings.Split on one character */
  function Split(s: string, c: char): (parts: seq<string>)
    ensures parts != []
    decreases |s|
  {
    var n := IndexOf(s, c);
    if n == |s| then [s] else [s[..n]] + Split(s[n + 1..], c)
  }

  /** strings.Trim of one character */
  function Trim(s: string, c: char): string
    decreases |s|
  {
    if s == [] then s
    else if s[0] == c then Trim(s[1..], c)
    else if s[|s| - 1] == c then Trim(s[..|s| - 1], c)
    else s
  }

  /** strings.HasPrefix */
  predicate HasPrefix(s: string, prefix: string) {
    prefix <= s
  }

  predicate AllDigits(s: string) {
    s != [] && forall i :: 0 <= i < |s| ==> '0' <= s[i] <= '9'
  }

  function DecimalValue(s: string): int
    requires forall i :: 0 <= i < |s| ==> '0' <= s[i] <= '9'
  {
    if s == [] then 0 else 10 * DecimalValue(s[..|s| - 1]) + (s[|s| - 1] as int - '0' as int)
  }

  /** strconv.Atoi with a 64-bit int: an optional sign, digits, and a value in range. */
  function Atoi(s: string): Option<int> {
    var signed := s != [] && s[0] in {'+', '-'};
    var digits := if signed then s[1..] else s;
    if !AllDigits(digits) then None else
    var v: int := if signed && s[0] == '-' then -DecimalValue(digits) else DecimalValue(digits);
    if -INT64_LIMIT <= v < INT64_LIMIT then Some(v) else None
  }

  /** Two's complement wrap-around of 64-bit arithmetic. */
  function Wrap64(x: int): (r: int)
    ensures -INT64_LIMIT <= r < INT64_LIMIT
    ensures -INT64_LIMIT <= x < INT64_LIMIT ==> r == x
  {
    (x + INT64_LIMIT) % (2 * INT64_LIMIT) - INT64_LIMIT
  }

  // ---- numbers and settings as they are written ----

  function Digits(n: nat): (s: string)
    ensures AllDigits(s)
  {
    var d := [('0' as int + n % 10) as char];
    if n < 10 then d else Digits(n / 10) + d
  }

  lemma {:induction false} DecimalValueOfDigits(n: nat)
    ensures DecimalValue(Digits(n)) == n
  {
    var s := Digits(n);
    if n < 10 {
      assert s[..0] == [];
    } else {
      DecimalValueOfDigits(n / 10);
      assert s[..|s| - 1] == Digits(n / 10);
    }
  }

  /** A number is read back as written exactly if it fits 64 bits, and is an error otherwise. */
  lemma AtoiOfDigits(n: nat)
    ensures Atoi(Digits(n)) == if n < INT64_LIMIT then Some(n) else None
  {
    DecimalValueOfDigits(n);
    assert '0' <= Digits(n)[0] <= '9';
  }

  /** A value that fits 64 bits, or the error. */
  function Fitting(v: int): Option<int> {
    if -INT64_LIMIT <= v < INT64_LIMIT then Some(v) else None
  }

  lemma AtoiSigned(sign: char, d: string)
    requires (sign == '+' || sign == '-') && AllDigits(d)
    ensures Atoi([sign] + d) == Fitting(if sign == '-' then -DecimalValue(d) else DecimalValue(d))
  {
    assert ([sign] + d)[0] == sign && ([sign] + d)[1..] == d;
  }

  /** A number may have a sign; anything else in front of its digits, among them or after them is an error. */
  lemma AtoiOfSigned(n: nat)
    ensures var v: int := n;
            Atoi(['-'] + Digits(n)) == Fitting(-v) && Atoi(['+'] + Digits(n)) == Fitting(v)
  {
    DecimalValueOfDigits(n);
    AtoiSigned('-', Digits(n));
    AtoiSigned('+', Digits(n));
  }

  lemma AtoiRejects(s: string, i: nat)
    requires i < |s| && !('0' <= s[i] <= '9') && (i > 0 || (s[i] != '+' && s[i] != '-'))
    ensures Atoi(s) == None && Atoi("") == None
  {
    if s[0] in {'+', '-'} {
      assert s[1..][i - 1] == s[i];
    }
  }

  lemma {:induction false} IndexOfFirst(a: string, c: char, b: string)
    requires c !in a && (b == [] || b[0] == c)
    ensures IndexOf(a + b, c) == |a|
  {
    if a == [] {
      assert a + b == b;
    } else {
      assert (a + b)[1..] == a[1..] + b;
      IndexOfFirst(a[1..], c, b);
    }
  }

  lemma SplitFirst(a: string, c: char, rest: string)
    requires c !in a && (rest == [] || rest[0] == c)
    ensures Split(a + rest, c)[0] == a && (|Split(a + rest, c)| == 1 <==> rest == [])
  {
    IndexOfFirst(a, c, rest);
    assert (a + rest)[..|a|] == a;
    if rest == [] {
      assert a + rest == a;
    }
  }

  /** Splitting goes on after the first `c`; with SplitFirst this says what Split is for every string. */
  lemma SplitRest(a: string, c: char, b: string)
    requires c !in a
    ensures Split(a + [c] + b, c) == [a] + Split(b, c)
  {
    var s := a + [c] + b;
    assert s == a + ([c] + b);
    IndexOfFirst(a, c, [c] + b);
    assert s[..|a|] == a && s[|a| + 1..] == b;
  }

  lemma SplitTwo(a: string, c: char, b: string)
    requires c !in a && c !in b
    ensures Split(a + [c] + b, c) == [a, b]
  {
    SplitRest(a, c, b);
    IndexOfFirst(b, c, []);
    assert b + [] == b;
  }

  /** Trimming takes `c` away at either end, as often as it is there, and nothing else. */
  lemma {:induction false} TrimMeaning(s: string, c: char)
    ensures Trim([c] + s, c) == Trim(s, c) && Trim(s + [c], c) == Trim(s, c)
    ensures s == [] || (s[0] != c && s[|s| - 1] != c) ==> Trim(s, c) == s
    decreases |s|
  {
    assert ([c] + s)[0] == c && ([c] + s)[1..] == s;
    if s == [] {
      assert s + [c] == [c] + s;
    } else if s[0] == c {
      TrimMeaning(s[1..], c);
      assert (s + [c])[1..] == s[1..] + [c];
    } else {
      assert (s + [c])[..|s|] == s;
    }
  }

  lemma TrimDigits(d: string, c: char)
    requires AllDigits(d) && !('0' <= c <= '9')
    ensures Trim(d, c) == d && Trim([c] + d + [c], c) == d
  {
    var s := [c] + d + [c];
    assert s[1..] == d + [c] && (d + [c])[..|d|] == d && (d + [c])[|d|] == c;
    assert Trim(s, c) == Trim(d + [c], c) == Trim(d, c);
  }
}
