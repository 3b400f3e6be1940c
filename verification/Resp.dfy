/** RESP2 frames: the reply validator accepts exactly the texts that are printed frames.  One char is one byte. */
module Resp {
  import opened Basics
  import opened Text

  const MAX_BULK := 0x100_0000
  const MAX_ITEMS := 1024
  const MAX_DEPTH := 64

  datatype Line = NoLine | Line(text: string, rest: string)

  /** Up to the first newline, which a carriage return must precede; both are dropped. */
  function ReadLine(s: string): (r: Line)
    ensures r.Line? ==> s == r.text + "\r\n" + r.rest && '\n' !in r.text && |r.rest| < |s|
  {
    var i := IndexOf(s, '\n');
    if i == |s| || i == 0 || s[i - 1] != '\r' then NoLine
    else
      assert s == s[..i - 1] + "\r\n" + s[i + 1..];
      Line(s[..i - 1], s[i + 1..])
  }

  datatype Parsed = Rejected | Accepted(rest: string)

  function ParseBulk(n: int, s: string): (r: Parsed)
    ensures r.Accepted? ==> |r.rest| <= |s|
  {
    if n < -1 || n > MAX_BULK then Rejected
    else if n == -1 then Accepted(s)
    else if |s| < n + 2 || s[n] != '\r' || s[n + 1] != '\n' then Rejected
    else Accepted(s[n + 2..])
  }

  /** One frame; what it accepts it consumes, so the remaining input always shrinks. */
  function ParseFrame(s: string, depth: nat): (r: Parsed)
    ensures r.Accepted? ==> |r.rest| < |s|
    decreases |s|, 0
  {
    if depth > MAX_DEPTH || s == "" then Rejected
    else
      var l := ReadLine(s[1..]);
      if l.NoLine? then Rejected else ParseAfterLine(s[0], l.text, l.rest, depth)
  }

  /** The rest of a frame, once its mark and first line are read. */
  function ParseAfterLine(mark: char, text: string, s: string, depth: nat): (r: Parsed)
    ensures r.Accepted? ==> |r.rest| <= |s|
    decreases |s|, 2000
  {
    if mark == '+' || mark == '-' then (if '\0' in text then Rejected else Accepted(s))
    else
      var n := ParseInt(text);
      if n.None? then Rejected
      else if mark == ':' then Accepted(s)
      else if mark == '$' then ParseBulk(n.value, s)
      else if mark != '*' || n.value < -1 || n.value > MAX_ITEMS then Rejected
      else if n.value == -1 then Accepted(s)
      else ParseItems(s, n.value, depth + 1)
  }

  function ParseItems(s: string, n: nat, depth: nat): (r: Parsed)
    ensures r.Accepted? ==> |r.rest| <= |s|
    decreases |s|, 1 + n
  {
    if n == 0 then Accepted(s)
    else
      var first := ParseFrame(s, depth);
      if first.Rejected? then Rejected else ParseItems(first.rest, n - 1, depth)
  }

  // ---------- frames ----------

  /** A frame with its numerals as written, so that printing loses nothing. */
  datatype Frame =
    | Simple(mark: char, line: string)
    | Number(text: string)
    | NullBulk(text: string)
    | Bulk(text: string, payload: string)
    | NullArray(text: string)
    | Array(text: string, items: seq<Frame>)

  function Mark(f: Frame): char {
    match f
    case Simple(mark, _) => mark
    case Number(_) => ':'
    case NullBulk(_) => '$'
    case Bulk(_, _) => '$'
    case NullArray(_) => '*'
    case Array(_, _) => '*'
  }

  function FirstLine(f: Frame): string {
    if f.Simple? then f.line else f.text
  }

  function Print(f: Frame): string
    decreases f, 2
  {
    Header(Mark(f), FirstLine(f)) + Body(f)
  }

  function Header(mark: char, text: string): string {
    [mark] + text + "\r\n"
  }

  function Body(f: Frame): string
    decreases f, 1
  {
    if f.Bulk? then f.payload + "\r\n" else if f.Array? then PrintAll(f.items) else ""
  }

  function PrintAll(fs: seq<Frame>): string
    decreases fs, 0
  {
    if fs == [] then "" else Print(fs[0]) + PrintAll(fs[1..])
  }

  /** Within the validator's bounds, at this nesting depth. */
  predicate WellFormed(f: Frame, depth: nat)
    decreases f, 1
  {
    && depth <= MAX_DEPTH
    && match f
       case Simple(mark, line) => (mark == '+' || mark == '-') && '\n' !in line && '\0' !in line
       case Number(text) => ParseInt(text).Some?
       case NullBulk(text) => ParseInt(text) == Some(-1)
       case Bulk(text, payload) => ParseInt(text) == Some(|payload|) && |payload| <= MAX_BULK
       case NullArray(text) => ParseInt(text) == Some(-1)
       case Array(text, items) => ParseInt(text) == Some(|items|) && |items| <= MAX_ITEMS && AllWellFormed(items, depth + 1)
  }

  predicate AllWellFormed(fs: seq<Frame>, depth: nat)
    decreases fs, 0
  {
    fs == [] || (WellFormed(fs[0], depth) && AllWellFormed(fs[1..], depth))
  }

  // ---------- what is printed is accepted ----------

  lemma NumeralHasNoNewline(text: string)
    requires ParseInt(text).Some?
    ensures '\n' !in text
  {
    var d := if text[0] == '-' || text[0] == '+' then text[1..] else text;
    forall i | 0 <= i < |text| ensures text[i] != '\n' {
      assert i > 0 ==> IsDigit(d[if d == text then i else i - 1]);
    }
  }

  lemma FirstLineHasNoNewline(f: Frame, depth: nat)
    requires WellFormed(f, depth)
    ensures '\n' !in FirstLine(f)
  {
    if !f.Simple? {
      NumeralHasNoNewline(f.text);
    }
  }

  lemma ReadPrintedLine(text: string, rest: string)
    requires '\n' !in text
    ensures ReadLine(text + "\r\n" + rest) == Line(text, rest)
  {
    var s := text + "\r\n" + rest;
    var i := IndexOf(s, '\n');
    assert s[|text|] == '\r' && s[|text| + 1] == '\n';
    assert forall j :: 0 <= j < |text| ==> s[j] == text[j];
    assert i == |text| + 1;
    assert s[..i - 1] == text && s[i + 1..] == rest;
  }

  /** A printed header is read back whole, whatever follows it. */
  lemma ParseHeader(mark: char, text: string, rest: string, depth: nat)
    requires depth <= MAX_DEPTH && '\n' !in text
    ensures ParseFrame(Header(mark, text) + rest, depth) == ParseAfterLine(mark, text, rest, depth)
  {
    var s := Header(mark, text) + rest;
    assert s[0] == mark && s[1..] == text + "\r\n" + rest;
    ReadPrintedLine(text, rest);
  }

  lemma ParsePayload(payload: string, rest: string)
    requires |payload| <= MAX_BULK
    ensures ParseBulk(|payload|, payload + "\r\n" + rest) == Accepted(rest)
  {
    var s := payload + "\r\n" + rest;
    assert s[|payload|] == '\r' && s[|payload| + 1] == '\n' && s[|payload| + 2..] == rest;
  }

  /** Acceptance, and exact consumption, for every well-formed frame in front of any input. */
  lemma {:induction false} PrintedIsAccepted(f: Frame, rest: string, depth: nat)
    requires WellFormed(f, depth)
    ensures ParseFrame(Print(f) + rest, depth) == Accepted(rest)
    decreases f, 1
  {
    assert Print(f) + rest == Header(Mark(f), FirstLine(f)) + (Body(f) + rest);
    FirstLineHasNoNewline(f, depth);
    ParseHeader(Mark(f), FirstLine(f), Body(f) + rest, depth);
    if f.Bulk? {
      assert Body(f) + rest == f.payload + "\r\n" + rest;
      ParsePayload(f.payload, rest);
    } else if f.Array? {
      ItemsAreAccepted(f.items, rest, depth + 1);
    } else {
      assert Body(f) + rest == rest;
    }
  }

  lemma {:induction false} ItemsAreAccepted(fs: seq<Frame>, rest: string, depth: nat)
    requires AllWellFormed(fs, depth)
    ensures ParseItems(PrintAll(fs) + rest, |fs|, depth) == Accepted(rest)
    decreases fs, 0
  {
    if fs == [] {
      assert PrintAll(fs) + rest == rest;
    } else {
      var tail := PrintAll(fs[1..]) + rest;
      assert PrintAll(fs) + rest == Print(fs[0]) + tail;
      PrintedIsAccepted(fs[0], tail, depth);
      ItemsAreAccepted(fs[1..], rest, depth);
    }
  }

  // ---------- what is accepted was printed ----------

  lemma {:induction false} AcceptedIsPrinted(s: string, depth: nat) returns (f: Frame)
    requires ParseFrame(s, depth).Accepted?
    ensures WellFormed(f, depth) && s == Print(f) + ParseFrame(s, depth).rest
    decreases |s|, 0
  {
    var l := ReadLine(s[1..]);
    f := AcceptedBody(s[0], l.text, l.rest, depth);
    PrintBody(f, s, l.text, l.rest, ParseFrame(s, depth).rest);
  }

  /** A first line and a body read from a text are the printed frame in front of what is left. */
  lemma PrintBody(f: Frame, s: string, text: string, after: string, rest: string)
    requires s != "" && Mark(f) == s[0] && FirstLine(f) == text && s[1..] == text + "\r\n" + after && after == Body(f) + rest
    ensures s == Print(f) + rest
  {
    assert s == [s[0]] + s[1..];
    assert s == Header(s[0], text) + after;
  }

  lemma {:induction false} AcceptedBody(mark: char, text: string, s: string, depth: nat) returns (f: Frame)
    requires depth <= MAX_DEPTH && '\n' !in text && ParseAfterLine(mark, text, s, depth).Accepted?
    ensures WellFormed(f, depth) && Mark(f) == mark && FirstLine(f) == text
    ensures s == Body(f) + ParseAfterLine(mark, text, s, depth).rest
    decreases |s|, 2000
  {
    if mark == '+' || mark == '-' {
      f := Simple(mark, text);
    } else if mark == ':' {
      f := Number(text);
    } else {
      var n := ParseInt(text).value;
      if n == -1 {
        f := if mark == '$' then NullBulk(text) else NullArray(text);
      } else if mark == '$' {
        f := Bulk(text, s[..n]);
        assert s == s[..n] + "\r\n" + s[n + 2..];
      } else {
        var items := AcceptedItemsPrinted(s, n, depth + 1, ParseItems(s, n, depth + 1).rest);
        f := Array(text, items);
      }
    }
  }

  lemma PrintFirst(first: Frame, more: seq<Frame>, rest: string, depth: nat)
    requires WellFormed(first, depth) && AllWellFormed(more, depth)
    ensures Print(first) + (PrintAll(more) + rest) == PrintAll([first] + more) + rest
    ensures AllWellFormed([first] + more, depth)
  {
    assert ([first] + more)[1..] == more;
  }

  lemma ItemsAppend(first: Frame, more: seq<Frame>, s: string, mid: string, rest: string, depth: nat)
    requires WellFormed(first, depth) && AllWellFormed(more, depth) && s == Print(first) + mid && mid == PrintAll(more) + rest
    ensures AllWellFormed([first] + more, depth) && s == PrintAll([first] + more) + rest
  {
    PrintFirst(first, more, rest, depth);
  }

  lemma NoItems(s: string, depth: nat)
    ensures ParseItems(s, 0, depth) == Accepted(s) && AllWellFormed([], depth) && s == PrintAll([]) + s
  {
  }

  lemma ItemsSplit(s: string, n: nat, depth: nat, rest: string)
    requires n > 0 && ParseItems(s, n, depth) == Accepted(rest)
    ensures ParseFrame(s, depth).Accepted? && |ParseFrame(s, depth).rest| < |s|
    ensures ParseItems(ParseFrame(s, depth).rest, n - 1, depth) == Accepted(rest)
  {
  }

  lemma {:induction false} AcceptedItemsPrinted(s: string, n: nat, depth: nat, rest: string) returns (fs: seq<Frame>)
    requires ParseItems(s, n, depth) == Accepted(rest)
    ensures |fs| == n && AllWellFormed(fs, depth) && s == PrintAll(fs) + rest
    decreases |s|, 1 + n
  {
    if n == 0 {
      fs := [];
      NoItems(s, depth);
    } else {
      ItemsSplit(s, n, depth, rest);
      var mid := ParseFrame(s, depth).rest;
      var first := AcceptedIsPrinted(s, depth);
      var more := AcceptedItemsPrinted(mid, n - 1, depth, rest);
      fs := [first] + more;
      ItemsAppend(first, more, s, mid, rest, depth);
    }
  }

  /** The parser accepts a text, leaving `rest`, exactly when it is a well-formed frame followed by `rest`. */
  lemma ParserExact(s: string, depth: nat, rest: string)
    ensures ParseFrame(s, depth) == Accepted(rest) <==> exists f :: WellFormed(f, depth) && s == Print(f) + rest
  {
    if ParseFrame(s, depth) == Accepted(rest) {
      var f := AcceptedIsPrinted(s, depth);
    }
    if f :| WellFormed(f, depth) && s == Print(f) + rest {
      PrintedIsAccepted(f, rest, depth);
    }
  }

  // ---------- whole replies ----------

  /** A reply is accepted when it splits into frames up to its end. */
  function Frames(s: string): Option<nat>
    decreases |s|
  {
    if s == "" then Some(0)
    else
      var first := ParseFrame(s, 0);
      if first.Rejected? then None
      else
        var more := Frames(first.rest);
        if more.None? then None else Some(more.value + 1)
  }

  predicate ValidReply(s: string) {
    Frames(s).Some? && Frames(s).value > 0
  }

  lemma {:induction false} PrintedFrames(fs: seq<Frame>)
    requires AllWellFormed(fs, 0)
    ensures Frames(PrintAll(fs)) == Some(|fs|)
  {
    if fs != [] {
      PrintedIsAccepted(fs[0], PrintAll(fs[1..]), 0);
      PrintedFrames(fs[1..]);
    }
  }

  lemma {:induction false} FramesPrinted(s: string) returns (fs: seq<Frame>)
    requires Frames(s).Some?
    ensures |fs| == Frames(s).value && AllWellFormed(fs, 0) && s == PrintAll(fs)
    decreases |s|
  {
    if s == "" {
      fs := [];
    } else {
      var first := AcceptedIsPrinted(s, 0);
      var more := FramesPrinted(ParseFrame(s, 0).rest);
      fs := [first] + more;
      assert fs[1..] == more;
    }
  }

  /** The cookbook check of a reply: one or more well-formed frames and nothing else. */
  lemma ReplyExact(s: string)
    ensures ValidReply(s) <==> exists fs :: fs != [] && AllWellFormed(fs, 0) && s == PrintAll(fs)
  {
    if ValidReply(s) {
      var fs := FramesPrinted(s);
      assert fs != [];
    }
    if fs :| fs != [] && AllWellFormed(fs, 0) && s == PrintAll(fs) {
      PrintedFrames(fs);
    }
  }
}
