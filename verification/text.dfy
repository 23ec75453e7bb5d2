/** The text functions of the C library that configuration strings are printed and parsed with. */
module Text {
  datatype Option<T> = None | Some(value: T)

  // ----- Decimal numbers -----

  const INT_MAX := 0x7fff_ffff

  predicate IsDigit(c: char) {
    '0' <= c <= '9'
  }

  function DigitValue(c: char): (d: nat)
    requires IsDigit(c)
    ensures d < 10
  {
    c as int - '0' as int
  }

  function DigitChar(d: nat): (c: char)
    requires d < 10
    ensures IsDigit(c) && DigitValue(c) == d
  {
    "0123456789"[d]
  }

  predicate AllDigits(s: string) {
    forall i :: 0 <= i < |s| ==> IsDigit(s[i])
  }

  /** What %u prints. */
  function Decimal(n: nat): (s: string)
    ensures |s| >= 1 && AllDigits(s)
  {
    if n < 10 then [DigitChar(n)] else Decimal(n / 10) + [DigitChar(n % 10)]
  }

  /** The value of the digits at the start of the string, continuing a number. */
  function DigitsValue(s: string, acc: nat): nat {
    if s == [] || !IsDigit(s[0]) then acc else DigitsValue(s[1..], 10 * acc + DigitValue(s[0]))
  }

  predicate IsSpace(c: char) {
    c == ' ' || ('\t' <= c <= '\r')
  }

  function SkipSpaces(s: string): string {
    if s != [] && IsSpace(s[0]) then SkipSpaces(s[1..]) else s
  }

  /** What atoi returns, when the number fits in an int; otherwise its result is not specified. */
  function Atoi(s: string): Option<int> {
    var t := SkipSpaces(s);
    var negative := t != [] && t[0] == '-';
    var digits := if t != [] && (t[0] == '-' || t[0] == '+') then t[1..] else t;
    var v: int := DigitsValue(digits, 0);
    if negative then if v > INT_MAX + 1 then None else Some(-v)
    else if v > INT_MAX then None else Some(v)
  }

  lemma {:induction false} DigitsValueSnoc(s: string, c: char, acc: nat)
    requires AllDigits(s) && IsDigit(c)
    ensures DigitsValue(s + [c], acc) == 10 * DigitsValue(s, acc) + DigitValue(c)
  {
    if s == [] {
      assert [c][1..] == [];
    } else {
      assert (s + [c])[1..] == s[1..] + [c];
      DigitsValueSnoc(s[1..], c, 10 * acc + DigitValue(s[0]));
    }
  }

  lemma {:induction false} DecimalValue(n: nat)
    ensures DigitsValue(Decimal(n), 0) == n
  {
    if n < 10 {
      assert Decimal(n)[1..] == [];
    } else {
      DecimalValue(n / 10);
      DigitsValueSnoc(Decimal(n / 10), DigitChar(n % 10), 0);
    }
  }

  lemma {:induction false} AtoiOfDigits(s: string)
    requires s != [] && AllDigits(s)
    ensures Atoi(s) == if DigitsValue(s, 0) > INT_MAX then None else Some(DigitsValue(s, 0))
  {
    assert IsDigit(s[0]);
  }

  /** Printing a number and converting it back gives the number, as long as it fits in an int. */
  lemma {:induction false} AtoiOfDecimal(n: nat)
    ensures Atoi(Decimal(n)) == if n > INT_MAX then None else Some(n)
  {
    AtoiOfDigits(Decimal(n));
    DecimalValue(n);
  }

  /** A number that lost its last digits is smaller. */
  lemma {:induction false} TruncatedDecimal(n: nat, k: nat)
    requires 0 < k < |Decimal(n)|
    ensures n >= 10 && DigitsValue(Decimal(n)[..k], 0) <= n / 10
  {
    var m := |Decimal(n / 10)|;
    if k == m {
      assert Decimal(n)[..k] == Decimal(n / 10);
      DecimalValue(n / 10);
    } else {
      assert Decimal(n)[..k] == Decimal(n / 10)[..k];
      TruncatedDecimal(n / 10, k);
    }
  }

  lemma {:induction false} DecimalLength(n: nat, k: nat, bound: nat)
    requires k >= 1 && n < bound && bound <= Pow10(k)
    ensures |Decimal(n)| <= k
  {
    assert Pow10(1) == 10;
    if n >= 10 && k >= 2 {
      DecimalLength(n / 10, k - 1, Pow10(k - 1));
    }
  }

  function Pow10(k: nat): (p: nat)
    ensures p >= 1
  {
    if k == 0 then 1 else 10 * Pow10(k - 1)
  }

  /** What snprintf leaves in a buffer of this size. */
  function Truncate(s: string, size: nat): string
    requires size > 0
  {
    if |s| < size then s else s[..size - 1]
  }

  // ----- Searching and comparing -----

  /** Position of the first such character, or the length when there is none. */
  function Find(s: string, c: char): (i: nat)
    ensures i <= |s| && (forall j :: 0 <= j < i ==> s[j] != c) && (i < |s| ==> s[i] == c)
  {
    if s == [] || s[0] == c then 0
    else
      assert forall j :: 0 < j < |s| ==> s[j] == s[1..][j - 1];
      1 + Find(s[1..], c)
  }

  lemma {:induction false} FindIs(a: string, c: char, b: string)
    requires c !in a
    ensures Find(a + [c] + b, c) == |a|
  {
    var s := a + [c] + b;
    assert s[|a|] == c;
    assert forall j :: 0 <= j < |a| ==> s[j] == a[j];
  }

  lemma {:induction false} FindNone(s: string, c: char)
    requires c !in s
    ensures Find(s, c) == |s|
  {
  }

  function Lower(c: char): char {
    if 'A' <= c <= 'Z' then (c as int + 32) as char else c
  }

  /** Comparison that ignores case. */
  predicate CaseEqual(a: string, b: string) {
    |a| == |b| && forall i :: 0 <= i < |a| ==> Lower(a[i]) == Lower(b[i])
  }

  /** An entry of a table of names. */
  datatype Key<T> = Key(value: T, name: string)

  /** The first name listed for a value. */
  function NameOf<T(==)>(table: seq<Key<T>>, value: T): Option<string> {
    if table == [] then None
    else if table[0].value == value then Some(table[0].name)
    else NameOf(table[1..], value)
  }

  /** The value of the first name that equals this one, ignoring case. */
  function ValueOf<T>(table: seq<Key<T>>, name: string): Option<T> {
    if table == [] then None
    else if CaseEqual(name, table[0].name) then Some(table[0].value)
    else ValueOf(table[1..], name)
  }

  predicate DistinctNames<T>(table: seq<Key<T>>) {
    forall i, j :: 0 <= i < j < |table| ==> !CaseEqual(table[j].name, table[i].name)
  }

  lemma {:induction false} ValueOfListed<T>(table: seq<Key<T>>, k: nat)
    requires DistinctNames(table) && k < |table|
    ensures ValueOf(table, table[k].name) == Some(table[k].value)
  {
    if k > 0 {
      assert !CaseEqual(table[k].name, table[0].name);
      assert forall i :: 0 <= i < |table| - 1 ==> table[1..][i] == table[i + 1];
      ValueOfListed(table[1..], k - 1);
    }
  }

  /** In a table of distinct names, looking up the name of a value gives the value. */
  lemma {:induction false} LookupRoundTrip<T>(table: seq<Key<T>>, value: T)
    requires DistinctNames(table) && NameOf(table, value).Some?
    ensures ValueOf(table, NameOf(table, value).value) == Some(value)
  {
    var k := IndexOfValue(table, value);
    ValueOfListed(table, k);
  }

  lemma {:induction false} IndexOfValue<T>(table: seq<Key<T>>, value: T) returns (k: nat)
    requires NameOf(table, value).Some?
    ensures k < |table| && table[k].value == value && table[k].name == NameOf(table, value).value
  {
    if table[0].value == value {
      k := 0;
    } else {
      var i := IndexOfValue(table[1..], value);
      k := i + 1;
    }
  }

  lemma {:induction false} NameOfIsListed<T>(table: seq<Key<T>>, value: T)
    ensures NameOf(table, value).Some? <==> exists k :: 0 <= k < |table| && table[k].value == value
  {
    if table != [] {
      NameOfIsListed(table[1..], value);
      if k :| 0 <= k < |table| && table[k].value == value {
        if k > 0 {
          assert table[1..][k - 1].value == value;
        }
      }
      if k :| 0 <= k < |table| - 1 && table[1..][k].value == value {
        assert table[k + 1].value == value;
      }
    }
  }

  /** Names that survive the tokenizer and are not longer than this. */
  predicate TidyNames<T>(table: seq<Key<T>>, bound: nat) {
    forall i :: 0 <= i < |table| ==> Clean(table[i].name) && |table[i].name| <= bound
  }

  /** A listed value is printed as a short clean name, and the name leads back to it. */
  predicate Named<T(==)>(table: seq<Key<T>>, value: T, bound: nat) {
    && NameOf(table, value).Some? && Clean(NameOf(table, value).value) && |NameOf(table, value).value| <= bound
    && ValueOf(table, NameOf(table, value).value) == Some(value)
  }

  lemma {:induction false} ListedIsNamed<T>(table: seq<Key<T>>, k: nat, bound: nat)
    requires DistinctNames(table) && TidyNames(table, bound) && k < |table|
    ensures Named(table, table[k].value, bound)
  {
    hide Clean;
    NameOfIsListed(table, table[k].value);
    LookupRoundTrip(table, table[k].value);
    var i := IndexOfValue(table, table[k].value);
  }

  // ----- Tokens -----

  predicate IsDelimiter(c: char) {
    c == ';' || c == ' '
  }

  predicate NoDelimiter(s: string) {
    forall i :: 0 <= i < |s| ==> !IsDelimiter(s[i])
  }

  /** A token as the tokenizer yields it. */
  predicate Clean(s: string) {
    s != [] && NoDelimiter(s)
  }

  function TokenLength(s: string): (n: nat)
    ensures n <= |s| && (forall j :: 0 <= j < n ==> !IsDelimiter(s[j])) && (n < |s| ==> IsDelimiter(s[n]))
  {
    if s == [] || IsDelimiter(s[0]) then 0
    else
      assert forall j :: 0 < j < |s| ==> s[j] == s[1..][j - 1];
      1 + TokenLength(s[1..])
  }

  /** The tokens that strtok_r yields with the delimiters semicolon and space. */
  function Tokens(s: string): seq<string> {
    if s == [] then []
    else if IsDelimiter(s[0]) then Tokens(s[1..])
    else [s[..TokenLength(s)]] + Tokens(s[TokenLength(s)..])
  }

  /** The tokens, each between a space and a semicolon. */
  function Spaced(ts: seq<string>): string {
    if ts == [] then "" else " " + ts[0] + ";" + Spaced(ts[1..])
  }

  /** The tokens, each followed by a semicolon, with a space between them. */
  function Join(ts: seq<string>): string
    requires ts != []
  {
    ts[0] + ";" + Spaced(ts[1..])
  }

  lemma {:induction false} TokenFirst(t: string, rest: string)
    requires Clean(t)
    ensures Tokens(t + ";" + rest) == [t] + Tokens(rest)
  {
    var s := t + ";" + rest;
    var n := TokenLength(s);
    assert s[|t|] == ';' && IsDelimiter(s[|t|]);
    assert forall j :: 0 <= j < |t| ==> s[j] == t[j];
    assert s[..n] == t && s[n..] == ";" + rest;
    assert (";" + rest)[1..] == rest;
  }

  lemma {:induction false} TokensOfSpaced(ts: seq<string>)
    requires forall i :: 0 <= i < |ts| ==> Clean(ts[i])
    ensures Tokens(Spaced(ts)) == ts
  {
    if ts != [] {
      var rest := Spaced(ts[1..]);
      assert Spaced(ts) == " " + (ts[0] + ";" + rest);
      assert (" " + (ts[0] + ";" + rest))[1..] == ts[0] + ";" + rest;
      TokenFirst(ts[0], rest);
      TokensOfSpaced(ts[1..]);
    }
  }

  /** Taking the printed text apart gives the printed tokens. */
  lemma {:induction false} TokensOfJoin(ts: seq<string>)
    requires ts != [] && forall i :: 0 <= i < |ts| ==> Clean(ts[i])
    ensures Tokens(Join(ts)) == ts
  {
    TokenFirst(ts[0], Spaced(ts[1..]));
    TokensOfSpaced(ts[1..]);
  }

  lemma {:induction false} SpacedConcat(a: seq<string>, b: seq<string>)
    ensures Spaced(a + b) == Spaced(a) + Spaced(b)
  {
    if a == [] {
      assert a + b == b;
    } else {
      assert (a + b)[1..] == a[1..] + b;
      SpacedConcat(a[1..], b);
    }
  }

  lemma {:induction false} DigitsAreClean(n: nat)
    ensures NoDelimiter(Decimal(n))
  {
  }

  lemma {:induction false} NoDelimiterConcat(a: string, b: string)
    requires NoDelimiter(a) && NoDelimiter(b)
    ensures NoDelimiter(a + b)
  {
  }

  /** The next token from a position, as strtok_r returns it, and where to go on. */
  method StrTokR(s: string, start: nat) returns (token: Option<string>, next: nat)
    requires start <= |s|
    ensures start <= next <= |s| && (token.Some? ==> start < next)
    ensures Tokens(s[start..]) == if token.Some? then [token.value] + Tokens(s[next..]) else []
  {
    hide Tokens, IsDelimiter;
    var first := start;
    while first < |s| && IsDelimiter(s[first])
      invariant start <= first <= |s| && Tokens(s[start..]) == Tokens(s[first..])
    {
      SkipOne(s, first);
      first := first + 1;
    }
    if first == |s| {
      NoTokens(s);
      return None, first;
    }
    var end := first;
    while end < |s| && !IsDelimiter(s[end])
      invariant first <= end <= |s| && forall j :: first <= j < end ==> !IsDelimiter(s[j])
    {
      end := end + 1;
    }
    TokenEnds(s, first, end);
    token := Some(s[first..end]);
    next := end;
    if end < |s| {
      SkipOne(s, end);
      next := end + 1;
    }
  }

  lemma {:induction false} SkipOne(s: string, i: nat)
    requires i < |s| && IsDelimiter(s[i])
    ensures Tokens(s[i..]) == Tokens(s[i + 1..])
  {
    assert s[i..][1..] == s[i + 1..];
  }

  lemma {:induction false} NoTokens(s: string)
    ensures Tokens(s[|s|..]) == []
  {
  }

  lemma {:induction false} TokenEnds(s: string, first: nat, end: nat)
    requires first < end <= |s| && (forall j :: first <= j < end ==> !IsDelimiter(s[j])) && (end < |s| ==> IsDelimiter(s[end]))
    ensures Tokens(s[first..]) == [s[first..end]] + Tokens(s[end..])
  {
    var t := s[first..];
    assert forall j :: 0 <= j < end - first ==> !IsDelimiter(t[j]);
    assert end < |s| ==> IsDelimiter(t[end - first]);
    assert TokenLength(t) == end - first;
    assert t[..end - first] == s[first..end] && t[end - first..] == s[end..];
  }

  /** Appends to a buffer of this size, as snprintf does at the end of what is there; `pos` counts all characters,
      also those that do not fit. */
  method Append(buffer: string, pos: nat, size: nat, text: string) returns (buffer': string, pos': nat)
    requires pos < size
    ensures buffer' == buffer + Truncate(text, size - pos) && pos' == pos + |text|
  {
    buffer' := buffer + Truncate(text, size - pos);
    pos' := pos + |text|;
  }

  lemma {:induction false} JoinConcat(a: seq<string>, b: seq<string>)
    requires a != []
    ensures Join(a + b) == Join(a) + Spaced(b)
  {
    assert (a + b)[1..] == a[1..] + b;
    SpacedConcat(a[1..], b);
  }

  lemma {:induction false} JoinCons(t: string, rest: seq<string>)
    requires rest != []
    ensures Join([t] + rest) == t + "; " + Join(rest)
  {
    assert ([t] + rest)[1..] == rest;
    assert Spaced(rest) == " " + Join(rest) by {
      assert Spaced(rest) == " " + rest[0] + ";" + Spaced(rest[1..]);
    }
    assert t + ";" + (" " + Join(rest)) == t + "; " + Join(rest);
  }

  lemma {:induction false} JoinOne(t: string)
    ensures Join([t]) == t + ";"
  {
    assert [t][1..] == [];
    assert t + ";" + "" == t + ";";
  }
}
