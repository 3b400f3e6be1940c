/** Finding where a JSON string token starts, scanning backwards from its end. */
module JsonTokens {
  import opened Basics

  predicate IsJsonSpace(c: char) {
    c == ' ' || c == '\t' || c == '\r' || c == '\n'
  }

  /** How many backslashes stand immediately before position k. */
  function Run(s: string, k: nat): nat
    requires k <= |s|
  {
    if k > 0 && s[k - 1] == '\\' then 1 + Run(s, k - 1) else 0
  }

  function LastSolid(s: string, i: int): (r: int)
    requires i < |s|
    ensures r <= i && (r >= 0 ==> !IsJsonSpace(s[r]))
    ensures forall j :: r < j <= i && 0 <= j ==> IsJsonSpace(s[j])
    decreases i + 1
  {
    if i >= 0 && IsJsonSpace(s[i]) then LastSolid(s, i - 1) else i
  }

  /** The last quote at or before i with an even run of backslashes, or zero. */
  function OpeningQuote(s: string, i: int): (r: int)
    requires i < |s|
    ensures 0 <= r && (i >= 0 ==> r <= i)
    decreases i + 1
  {
    if i < 0 then 0
    else if s[i] == '"' && Run(s, i) % 2 == 0 then i
    else OpeningQuote(s, i - 1)
  }

  function TokenStart(s: string, end: int): (r: int)
    ensures r >= 0
  {
    var i := LastSolid(s, if |s| - 1 < end - 1 then |s| - 1 else end - 1);
    if i < 0 then 0
    else if s[i] != '"' then i
    else OpeningQuote(s, i - 1)
  }

  method JsonStringTokenStart(data: string, endOffset: int) returns (r: int)
    ensures r == TokenStart(data, endOffset)
  {
    var i := if |data| - 1 < endOffset - 1 then |data| - 1 else endOffset - 1;
    ghost var first := i;
    while i >= 0 && IsJsonSpace(data[i])
      invariant i <= first && LastSolid(data, i) == LastSolid(data, first)
    {
      i := i - 1;
    }
    if i < 0 || data[i] != '"' {
      return if i < 0 then 0 else i;
    }
    ghost var closing := i;
    i := i - 1;
    while i >= 0
      invariant -1 <= i < closing && OpeningQuote(data, i) == OpeningQuote(data, closing - 1)
    {
      if data[i] == '"' {
        var backslashes := CountBackslashes(data, i);
        if backslashes % 2 == 0 {
          return i;
        }
      }
      i := i - 1;
    }
    r := 0;
  }

  method CountBackslashes(data: string, i: nat) returns (n: nat)
    requires i < |data|
    ensures n == Run(data, i)
  {
    n := 0;
    var j := i - 1;
    while j >= 0 && data[j] == '\\'
      invariant -1 <= j < i && n + Run(data, j + 1) == Run(data, i)
    {
      n := n + 1;
      j := j - 1;
    }
  }

  // ---------- forward lexing, section 7 of RFC 8259 ----------

  predicate IsHex(c: char) {
    '0' <= c <= '9' || 'a' <= c <= 'f' || 'A' <= c <= 'F'
  }

  predicate IsSimpleEscape(c: char) {
    c in {'"', '\\', '/', 'b', 'f', 'n', 'r', 't'}
  }

  predicate IsPlain(c: char) {
    c != '"' && c != '\\' && c >= ' '
  }

  /** Reads a string from just after its opening quote; the result is the index of the closing quote. */
  function LexString(s: string, i: nat): (r: Option<nat>)
    ensures r.Some? ==> i <= r.value < |s| && s[r.value] == '"'
    decreases |s| - i
  {
    if i >= |s| then None
    else if s[i] == '"' then Some(i)
    else if IsPlain(s[i]) then LexString(s, i + 1)
    else if s[i] != '\\' || i + 1 >= |s| then None
    else if IsSimpleEscape(s[i + 1]) then LexString(s, i + 2)
    else if s[i + 1] == 'u' && i + 6 <= |s| && forall k :: i + 2 <= k < i + 6 ==> IsHex(s[k]) then LexString(s, i + 6)
    else None
  }

  /** Between the position and the closing quote, every quote is escaped: its run of backslashes is odd. */
  lemma {:induction false} QuotesInsideAreEscaped(s: string, i: nat, k: nat)
    requires i <= |s| && LexString(s, i).Some? && Run(s, i) % 2 == 0
    requires i <= k < LexString(s, i).value && s[k] == '"'
    ensures Run(s, k) % 2 == 1
    decreases |s| - i
  {
    if IsPlain(s[i]) {
      QuotesInsideAreEscaped(s, i + 1, k);
    } else if IsSimpleEscape(s[i + 1]) {
      if k >= i + 2 {
        QuotesInsideAreEscaped(s, i + 2, k);
      }
    } else {
      PlainRuns(s, i);
      QuotesInsideAreEscaped(s, i + 6, k);
    }
  }

  /** After a unicode escape no backslash is pending, and none of its six characters is a quote. */
  lemma PlainRuns(s: string, i: nat)
    requires i + 6 <= |s| && s[i] == '\\' && s[i + 1] == 'u' && forall k :: i + 2 <= k < i + 6 ==> IsHex(s[k])
    ensures Run(s, i + 6) == 0
    ensures forall k :: i <= k < i + 6 ==> s[k] != '"'
  {
    assert IsHex(s[i + 2]) && IsHex(s[i + 3]) && IsHex(s[i + 4]) && IsHex(s[i + 5]);
  }

  lemma {:induction false} SkipEscaped(s: string, open: nat, i: nat)
    requires open <= i < |s| && s[open] == '"'
    requires forall k :: open < k <= i && s[k] == '"' ==> Run(s, k) % 2 == 1
    ensures OpeningQuote(s, i) == OpeningQuote(s, open)
    decreases i
  {
    if i > open {
      SkipEscaped(s, open, i - 1);
    }
  }

  /**
   The backward scan agrees with forward lexing: for a string token opened at `open`, closed at `close` and followed
   by white space up to `end`, it returns `open` if and only if an even number of backslashes stands before it.
   */
  lemma BackwardScanExact(s: string, open: nat, close: nat, end: nat)
    requires open < |s| && s[open] == '"' && LexString(s, open + 1) == Some(close)
    requires close < end <= |s| && forall k :: close < k < end ==> IsJsonSpace(s[k])
    ensures TokenStart(s, end) == open <==> Run(s, open) % 2 == 0
  {
    InnerQuotes(s, open, close);
    ScanFromClose(s, open, close, end);
  }

  lemma InnerQuotes(s: string, open: nat, close: nat)
    requires open < |s| && s[open] == '"' && LexString(s, open + 1) == Some(close)
    ensures forall k :: open < k < close && s[k] == '"' ==> Run(s, k) % 2 == 1
  {
    forall k | open < k < close && s[k] == '"' ensures Run(s, k) % 2 == 1 {
      InnerQuote(s, open, close, k);
    }
  }

  lemma InnerQuote(s: string, open: nat, close: nat, k: nat)
    requires open < k < close < |s| && s[open] == '"' && LexString(s, open + 1) == Some(close) && s[k] == '"'
    ensures Run(s, k) % 2 == 1
  {
    QuotesInsideAreEscaped(s, open + 1, k);
  }

  lemma ScanFromClose(s: string, open: nat, close: nat, end: nat)
    requires open < close < end <= |s| && s[open] == '"' && s[close] == '"'
    requires forall k :: close < k < end ==> IsJsonSpace(s[k])
    requires forall k :: open < k < close && s[k] == '"' ==> Run(s, k) % 2 == 1
    ensures TokenStart(s, end) == open <==> Run(s, open) % 2 == 0
  {
    assert LastSolid(s, end - 1) == close;
    SkipEscaped(s, open, close - 1);
    assert Run(s, open) % 2 == 1 ==> open > 0;
  }
}
