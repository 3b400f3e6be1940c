/** Strings as the program uses them: trimming, case folding, decimal numbers, ordering and sorting. */
module Text {
  import opened Basics

  predicate IsSpace(c: char) {
    c == ' ' || c == '\t' || c == '\n' || c == '\r' || c == '\U{000B}' || c == '\U{000C}'
  }

  function TrimLeft(s: string): (r: string)
    ensures r != [] ==> !IsSpace(r[0])
    ensures s == [] || !IsSpace(s[0]) ==> r == s
  {
    if s != [] && IsSpace(s[0]) then TrimLeft(s[1..]) else s
  }

  function TrimRight(s: string): (r: string)
    ensures r <= s
    ensures r != [] ==> !IsSpace(r[|r| - 1])
    ensures s == [] || !IsSpace(s[|s| - 1]) ==> r == s
  {
    if s != [] && IsSpace(s[|s| - 1]) then TrimRight(s[..|s| - 1]) else s
  }

  /** Both ends of the result are solid, and a string with solid ends is its own result. */
  function TrimSpace(s: string): (r: string)
    ensures r != [] ==> !IsSpace(r[0]) && !IsSpace(r[|r| - 1])
    ensures s == [] || (!IsSpace(s[0]) && !IsSpace(s[|s| - 1])) ==> r == s
  {
    TrimRight(TrimLeft(s))
  }

  predicate Blank(s: string) {
    forall i :: 0 <= i < |s| ==> IsSpace(s[i])
  }

  lemma {:induction false} TrimLeftBlank(a: string, m: string)
    requires Blank(a) && (m == "" || !IsSpace(m[0]))
    ensures TrimLeft(a + m) == m
  {
    if a == "" {
      assert a + m == m;
    } else {
      TrimLeftBlank(a[1..], m);
      assert (a + m)[1..] == a[1..] + m;
    }
  }

  lemma {:induction false} TrimRightBlank(m: string, b: string)
    requires Blank(b) && (m == "" || !IsSpace(m[|m| - 1]))
    ensures TrimRight(m + b) == m
  {
    if b == "" {
      assert m + b == m;
    } else {
      TrimRightBlank(m, b[..|b| - 1]);
      assert (m + b)[..|m + b| - 1] == m + b[..|b| - 1];
    }
  }

  /** Exactly the white space at both ends is taken off. */
  lemma TrimSpaceExact(a: string, m: string, b: string)
    requires Blank(a) && Blank(b) && (m == "" || (!IsSpace(m[0]) && !IsSpace(m[|m| - 1])))
    ensures TrimSpace(a + m + b) == m
  {
    if m == "" {
      TrimLeftBlank(a + b, "");
      assert a + b + "" == a + m + b;
    } else {
      TrimLeftBlank(a, m + b);
      assert a + (m + b) == a + m + b;
      TrimRightBlank(m, b);
    }
  }

  function TrimPrefix(s: string, p: string): string {
    if p <= s then s[|p|..] else s
  }

  function TrimSuffix(s: string, p: string): string {
    if |p| <= |s| && s[|s| - |p|..] == p then s[..|s| - |p|] else s
  }

  function LowerChar(c: char): char {
    if 'A' <= c <= 'Z' then c - 'A' + 'a' else c
  }

  function ToLower(s: string): string {
    seq(|s|, i requires 0 <= i < |s| => LowerChar(s[i]))
  }

  function UpperChar(c: char): char {
    if 'a' <= c <= 'z' then c - 'a' + 'A' else c
  }

  function ToUpper(s: string): string {
    seq(|s|, i requires 0 <= i < |s| => UpperChar(s[i]))
  }

  predicate EqualFold(a: string, b: string) {
    ToLower(a) == ToLower(b)
  }

  /** The position of the first c, or the length of s. */
  function IndexOf(s: string, c: char): (i: nat)
    ensures i <= |s| && (forall j :: 0 <= j < i ==> s[j] != c) && (i < |s| ==> s[i] == c)
  {
    if s == "" || s[0] == c then 0 else 1 + IndexOf(s[1..], c)
  }

  /** The pieces of s between occurrences of c. */
  function Pieces(s: string, c: char): (r: seq<string>)
    ensures r != []
  {
    var i := IndexOf(s, c);
    if i == |s| then [s] else [s[..i]] + Pieces(s[i + 1..], c)
  }

  /** The text after the last slash. */
  function LastPart(s: string): (r: string)
    ensures '/' !in r
    ensures '/' !in s ==> r == s
  {
    if '/' !in s then s else LastPart(s[1..])
  }

  lemma {:induction false} LastPartOfJoin(a: string, b: string)
    ensures LastPart(a + "/" + b) == LastPart(b)
  {
    var s := a + "/" + b;
    assert s[|a|] == '/';
    if a == "" {
      assert s[1..] == b;
    } else {
      LastPartOfJoin(a[1..], b);
      assert s[1..] == a[1..] + "/" + b;
    }
  }

  // ---------- decimal numbers ----------

  predicate IsDigit(c: char) {
    '0' <= c <= '9'
  }

  predicate AllDigits(s: string) {
    forall i :: 0 <= i < |s| ==> IsDigit(s[i])
  }

  function Digit(n: nat): (c: char)
    requires n < 10
    ensures IsDigit(c) && DigitValue(c) == n
  {
    '0' + n as char
  }

  function DigitValue(c: char): nat
    requires IsDigit(c)
  {
    (c - '0') as nat
  }

  function Itoa(n: nat): (s: string)
    ensures |s| > 0 && AllDigits(s)
  {
    if n < 10 then [Digit(n)] else Itoa(n / 10) + [Digit(n % 10)]
  }

  function Value(s: string): nat
    requires AllDigits(s)
  {
    if s == [] then 0 else 10 * Value(s[..|s| - 1]) + DigitValue(s[|s| - 1])
  }

  lemma {:induction false} ValueOfItoa(n: nat)
    ensures Value(Itoa(n)) == n
  {
    if n >= 10 {
      ValueOfItoa(n / 10);
      assert Itoa(n)[..|Itoa(n)| - 1] == Itoa(n / 10);
    }
  }

  const INT64_MAX := 0x7FFF_FFFF_FFFF_FFFF
  const INT64_MIN := -0x8000_0000_0000_0000

  function IntText(n: int): string {
    if n < 0 then "-" + Itoa(-n) else Itoa(n)
  }

  /** An optional sign and at least one digit, and nothing else. */
  predicate IsNumeral(s: string) {
    var d := if s != [] && (s[0] == '-' || s[0] == '+') then s[1..] else s;
    d != [] && AllDigits(d)
  }

  function NumeralValue(s: string): int
    requires IsNumeral(s)
  {
    if s[0] == '-' then -(Value(s[1..]) as int) else if s[0] == '+' then Value(s[1..]) else Value(s)
  }

  /** The strict 64-bit decimal parser: an error unless the numeral is in range. */
  function ParseInt(s: string): Option<int> {
    if IsNumeral(s) && INT64_MIN <= NumeralValue(s) <= INT64_MAX then Some(NumeralValue(s)) else None
  }

  /** What the parser returns beside an error: zero for no numeral, the nearest bound for one out of range. */
  function AtoiLoose(s: string): int {
    if !IsNumeral(s) then 0
    else if NumeralValue(s) > INT64_MAX then INT64_MAX
    else if NumeralValue(s) < INT64_MIN then INT64_MIN
    else NumeralValue(s)
  }

  function WrapInt64(n: int): int {
    if n > INT64_MAX then n - 0x1_0000_0000_0000_0000
    else if n < INT64_MIN then n + 0x1_0000_0000_0000_0000
    else n
  }

  lemma IntTextParses(n: int)
    requires INT64_MIN <= n <= INT64_MAX
    ensures ParseInt(IntText(n)) == Some(n)
  {
    if n < 0 {
      MinusParses(-n);
    } else {
      DigitsParse(n);
    }
  }

  lemma DigitsParse(n: nat)
    ensures IsNumeral(Itoa(n)) && NumeralValue(Itoa(n)) == n
  {
    ValueOfItoa(n);
    assert IsDigit(Itoa(n)[0]);
  }

  lemma MinusParses(n: nat)
    ensures IsNumeral("-" + Itoa(n)) && NumeralValue("-" + Itoa(n)) == -(n as int)
  {
    ValueOfItoa(n);
    assert ("-" + Itoa(n))[1..] == Itoa(n);
  }

  /** A separator that does not occur in the first parts fixes where they end. */
  lemma SplitUnique(a: string, b: string, c: string, d: string, sep: char)
    requires sep !in a && sep !in c && a + [sep] + b == c + [sep] + d
    ensures a == c && b == d
  {
    var s := a + [sep] + b;
    assert s[|a|] == sep && s[|c|] == sep;
    assert forall i :: 0 <= i < |a| ==> s[i] == a[i];
    assert forall i :: 0 <= i < |c| ==> s[i] == c[i];
    assert |a| == |c|;
    assert a == s[..|a|] && c == s[..|c|] && b == s[|a| + 1..] && d == s[|c| + 1..];
  }

  // ---------- orders and sorting ----------

  ghost predicate TotalOrder<T(!new)>(le: (T, T) -> bool) {
    && (forall a, b :: le(a, b) || le(b, a))
    && (forall a, b :: le(a, b) && le(b, a) ==> a == b)
    && (forall a, b, c :: le(a, b) && le(b, c) ==> le(a, c))
  }

  predicate Sorted<T>(le: (T, T) -> bool, s: seq<T>) {
    |s| > 1 ==> le(s[0], s[1]) && Sorted(le, s[1..])
  }

  function Insert<T>(le: (T, T) -> bool, x: T, s: seq<T>): seq<T> {
    if s == [] || le(x, s[0]) then [x] + s else [s[0]] + Insert(le, x, s[1..])
  }

  /** The library sorts; any correct sort gives this sequence. */
  function Sort<T>(le: (T, T) -> bool, s: seq<T>): seq<T> {
    if s == [] then [] else Insert(le, s[0], Sort(le, s[1..]))
  }

  lemma {:induction false} InsertSorts<T(!new)>(le: (T, T) -> bool, x: T, s: seq<T>)
    requires TotalOrder(le) && Sorted(le, s)
    ensures var r := Insert(le, x, s); Sorted(le, r) && r[0] == (if s == [] || le(x, s[0]) then x else s[0])
    ensures multiset(Insert(le, x, s)) == multiset([x]) + multiset(s)
  {
    if s == [] || le(x, s[0]) {
    } else {
      InsertSorts(le, x, s[1..]);
      assert Insert(le, x, s)[1..] == Insert(le, x, s[1..]);
      assert s == [s[0]] + s[1..];
    }
  }

  lemma {:induction false} HeadLeast<T(!new)>(le: (T, T) -> bool, s: seq<T>, x: T)
    requires TotalOrder(le) && Sorted(le, s) && x in s
    ensures le(s[0], x)
  {
    if x != s[0] {
      assert s == [s[0]] + s[1..];
      HeadLeast(le, s[1..], x);
    }
  }

  lemma {:induction false} SortSorts<T(!new)>(le: (T, T) -> bool, s: seq<T>)
    requires TotalOrder(le)
    ensures Sorted(le, Sort(le, s)) && multiset(Sort(le, s)) == multiset(s)
  {
    if s != [] {
      SortSorts(le, s[1..]);
      InsertSorts(le, s[0], Sort(le, s[1..]));
      MultisetFirst(s);
    }
  }

  lemma SameHead<T(!new)>(le: (T, T) -> bool, a: seq<T>, b: seq<T>)
    requires TotalOrder(le) && Sorted(le, a) && Sorted(le, b) && multiset(a) == multiset(b) && a != [] && b != []
    ensures a[0] == b[0]
  {
    assert a[0] in multiset(b) && b[0] in multiset(a);
    HeadLeast(le, a, b[0]);
    HeadLeast(le, b, a[0]);
  }

  lemma MultisetFirst<T>(s: seq<T>)
    requires s != []
    ensures multiset(s) == multiset([s[0]]) + multiset(s[1..])
    ensures multiset(s[1..]) == multiset(s) - multiset([s[0]])
  {
    assert s == [s[0]] + s[1..];
  }

  /** A sorted arrangement is unique, so the order in which items were collected cannot show. */
  lemma {:induction false} SortedUnique<T(!new)>(le: (T, T) -> bool, a: seq<T>, b: seq<T>)
    requires TotalOrder(le) && Sorted(le, a) && Sorted(le, b) && multiset(a) == multiset(b)
    ensures a == b
  {
    assert |a| == |multiset(a)| == |multiset(b)| == |b|;
    if a != [] {
      SameHead(le, a, b);
      MultisetFirst(a);
      MultisetFirst(b);
      SortedUnique(le, a[1..], b[1..]);
    }
  }

  predicate NoDuplicates<T(==)>(s: seq<T>) {
    forall i, j :: 0 <= i < j < |s| ==> s[i] != s[j]
  }

  function Elements<T>(s: seq<T>): set<T> {
    set x | x in s
  }

  lemma {:induction false} NoDuplicatesMultiset<T>(s: seq<T>)
    ensures NoDuplicates(s) <==> multiset(s) == multiset(Elements(s))
  {
    if s != [] {
      var rest := s[1..];
      NoDuplicatesMultiset(rest);
      assert s == [s[0]] + rest;
      assert Elements(s) == {s[0]} + Elements(rest);
      if s[0] in rest {
        var j :| 0 <= j < |rest| && rest[j] == s[0];
        assert s[j + 1] == s[0];
        assert multiset(s)[s[0]] >= 2 && multiset(Elements(s))[s[0]] == 1;
      } else {
        assert NoDuplicates(s) <==> NoDuplicates(rest) by {
          assert forall i :: 0 <= i < |rest| ==> rest[i] == s[i + 1];
          assert forall i, j :: 0 <= i < j < |rest| && rest[i] == rest[j] ==> s[i + 1] == s[j + 1];
        }
        assert multiset(s) == multiset{s[0]} + multiset(rest);
        assert multiset(Elements(s)) == multiset{s[0]} + multiset(Elements(rest));
        assert multiset(s) - multiset{s[0]} == multiset(rest);
        assert multiset(Elements(s)) - multiset{s[0]} == multiset(Elements(rest));
      }
    }
  }

  lemma SameElements<T>(a: seq<T>, b: seq<T>)
    requires multiset(a) == multiset(b)
    ensures Elements(a) == Elements(b)
  {
    forall x ensures x in a <==> x in b {
      assert x in a <==> x in multiset(a);
      assert x in b <==> x in multiset(b);
    }
  }

  lemma {:induction false} SortedPairs<T(!new)>(le: (T, T) -> bool, s: seq<T>, i: nat, j: nat)
    requires TotalOrder(le) && Sorted(le, s) && i < j < |s|
    ensures le(s[i], s[j])
  {
    if i == 0 {
      HeadLeast(le, s, s[j]);
    } else {
      SortedPairs(le, s[1..], i - 1, j - 1);
    }
  }

  /** Byte-wise string order. */
  predicate StrLe(a: string, b: string) {
    a == [] || (b != [] && (a[0] < b[0] || (a[0] == b[0] && StrLe(a[1..], b[1..]))))
  }

  lemma {:induction false} StrLeTotal(a: string, b: string)
    ensures StrLe(a, b) || StrLe(b, a)
    ensures StrLe(a, b) && StrLe(b, a) ==> a == b
  {
    if a != [] && b != [] && a[0] == b[0] {
      StrLeTotal(a[1..], b[1..]);
      assert a == [a[0]] + a[1..] && b == [b[0]] + b[1..];
    }
  }

  lemma {:induction false} StrLeTransitive(a: string, b: string, c: string)
    requires StrLe(a, b) && StrLe(b, c)
    ensures StrLe(a, c)
  {
    if a != [] && a[0] == b[0] == c[0] {
      StrLeTransitive(a[1..], b[1..], c[1..]);
    }
  }

  lemma StrLeOrder()
    ensures TotalOrder(StrLe)
  {
    forall a, b ensures (StrLe(a, b) || StrLe(b, a)) && (StrLe(a, b) && StrLe(b, a) ==> a == b) {
      StrLeTotal(a, b);
    }
    forall a, b, c | StrLe(a, b) && StrLe(b, c) ensures StrLe(a, c) {
      StrLeTransitive(a, b, c);
    }
  }
}
