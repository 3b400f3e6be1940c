/** Client commands on the wire. */
module RespCommands {
  import opened Basics
  import opened Text
  import opened Resp
  import Replication

  // ---------- reading commands ----------

  datatype Request = NoRequest | Request(args: seq<string>, rest: string)

  /** Text up to and with the first newline. */
  function CutLine(s: string): (r: Line)
    ensures r.Line? ==> s == r.text + r.rest && r.text != ""
  {
    var i := IndexOf(s, '\n');
    if i == |s| then NoLine else
      assert s == s[..i + 1] + s[i + 1..];
      Line(s[..i + 1], s[i + 1..])
  }

  /** Whitespace-separated words of an inline command. */
  function Fields(s: string): seq<string>
    decreases |s|
  {
    var t := TrimLeft(s);
    if t == "" then []
    else
      var n := WordLength(t);
      TrimLeftShorter(s);
      [t[..n]] + Fields(t[n..])
  }

  function WordLength(s: string): (n: nat)
    ensures n <= |s| && (s != "" && !IsSpace(s[0]) ==> n > 0)
  {
    if s == "" || IsSpace(s[0]) then 0 else 1 + WordLength(s[1..])
  }

  lemma {:induction false} TrimLeftShorter(s: string)
    ensures |TrimLeft(s)| <= |s|
  {
    if s != "" && IsSpace(s[0]) {
      TrimLeftShorter(s[1..]);
    }
  }

  /** One bulk string; its length line ends in a newline and is trimmed, so the carriage return is not demanded. */
  function ReadBulk(s: string): Line {
    if s == "" || s[0] != '$' then NoLine
    else
      var l := CutLine(s[1..]);
      if l.NoLine? then NoLine
      else
        var length := ParseInt(TrimSpace(l.text));
        if length.None? || length.value < 0 || length.value > MAX_BULK then NoLine
        else TakePayload(l.rest, length.value)
  }

  /** n items, one after the other, each read by `one`. */
  function ReadSeveral(one: string -> Line, s: string, n: nat): Request
    decreases n
  {
    if n == 0 then Request([], s)
    else
      var p := one(s);
      if p.NoLine? then NoRequest
      else
        var more := ReadSeveral(one, p.rest, n - 1);
        if more.NoRequest? then NoRequest else Request([p.text] + more.args, more.rest)
  }

  function ReadArgs(s: string, n: nat): Request {
    ReadSeveral(ReadBulk, s, n)
  }

  /** k bytes and the line end after them. */
  function TakePayload(s: string, k: nat): Line {
    if |s| < k + 2 || s[k] != '\r' || s[k + 1] != '\n' then NoLine else Line(s[..k], s[k + 2..])
  }

  /** A byte put back as the text of that code point: from 128 on its two-byte encoding, white space for 0x85 and 0xA0. */
  function ByteText(c: char): string {
    if c < '\U{0080}' then [c]
    else if c == '\U{0085}' || c == '\U{00A0}' then " "
    else [(0xC0 + c as int / 64 % 4) as char, (0x80 + c as int % 64) as char]
  }

  /** An inline line of words, or an array of bulk strings. */
  function ReadCommand(s: string): Request {
    if s == "" then NoRequest
    else
      var l := CutLine(s[1..]);
      if l.NoLine? then NoRequest
      else if s[0] != '*' then Request(Fields(TrimSpace(ByteText(s[0]) + l.text)), l.rest)
      else
        var count := ParseInt(TrimSpace(l.text));
        if count.None? || count.value < 0 || count.value > MAX_ITEMS then NoRequest
        else ReadArgs(l.rest, count.value)
  }

  // ---------- writing commands ----------

  function BulkText(v: string): string {
    Header('$', Itoa(|v|)) + (v + "\r\n")
  }

  function ArgsText(args: seq<string>): string {
    if args == [] then "" else BulkText(args[0]) + ArgsText(args[1..])
  }

  function CommandText(args: seq<string>): string {
    Header('*', Itoa(|args|)) + ArgsText(args)
  }

  predicate Bounded(args: seq<string>) {
    |args| <= MAX_ITEMS && forall i :: 0 <= i < |args| ==> |args[i]| <= MAX_BULK
  }

  lemma TrimmedNumber(n: nat)
    ensures TrimSpace(Itoa(n) + "\r\n") == Itoa(n)
  {
    var d := Itoa(n);
    var s := d + "\r\n";
    assert IsDigit(d[0]) && IsDigit(d[|d| - 1]);
    assert TrimLeft(s) == s by { assert s[0] == d[0]; }
    assert s[..|s| - 1] == d + "\r" && (d + "\r")[..|d|] == d;
    assert TrimRight(s) == TrimRight(d + "\r") == TrimRight(d);
  }

  /** A printed number line is cut off whole and reads back as the number. */
  lemma NumberLine(n: nat, rest: string)
    requires n <= MAX_BULK
    ensures var l := CutLine(Itoa(n) + "\r\n" + rest);
            l == Line(Itoa(n) + "\r\n", rest) && ParseInt(TrimSpace(l.text)) == Some(n)
  {
    var s := Itoa(n) + "\r\n" + rest;
    var i := IndexOf(s, '\n');
    assert s[|Itoa(n)| + 1] == '\n';
    assert forall j :: 0 <= j < |Itoa(n)| ==> IsDigit(s[j]);
    assert i == |Itoa(n)| + 1;
    assert s[..i + 1] == Itoa(n) + "\r\n" && s[i + 1..] == rest;
    TrimmedNumber(n);
    IntTextParses(n);
  }

  /** A header in front of anything: the mark, then a number line. */
  lemma HeaderLine(mark: char, n: nat, rest: string)
    requires n <= MAX_BULK
    ensures var s := Header(mark, Itoa(n)) + rest;
            && s != "" && s[0] == mark
            && CutLine(s[1..]) == Line(Itoa(n) + "\r\n", rest)
            && ParseInt(TrimSpace(Itoa(n) + "\r\n")) == Some(n)
  {
    var s := Header(mark, Itoa(n)) + rest;
    assert s[1..] == Itoa(n) + "\r\n" + rest;
    NumberLine(n, rest);
  }

  lemma ReadPrintedBulk(v: string, tail: string)
    requires |v| <= MAX_BULK
    ensures ReadBulk(BulkText(v) + tail) == Line(v, tail)
  {
    var after := v + "\r\n" + tail;
    assert BulkText(v) + tail == Header('$', Itoa(|v|)) + after;
    HeaderLine('$', |v|, after);
    TakePrinted(v, tail);
  }

  lemma TakePrinted(v: string, tail: string)
    ensures TakePayload(v + "\r\n" + tail, |v|) == Line(v, tail)
  {
    var s := v + "\r\n" + tail;
    assert s[|v|] == '\r' && s[|v| + 1] == '\n' && s[..|v|] == v && s[|v| + 2..] == tail;
  }

  lemma {:induction false} ArgsRoundTrip(args: seq<string>, rest: string)
    requires forall i :: 0 <= i < |args| ==> |args[i]| <= MAX_BULK
    ensures ReadArgs(ArgsText(args) + rest, |args|) == Request(args, rest)
  {
    if args == [] {
      assert ArgsText(args) + rest == rest;
    } else {
      var tail := ArgsText(args[1..]) + rest;
      assert ArgsText(args) + rest == BulkText(args[0]) + tail;
      ArgsRoundTrip(args[1..], rest);
      ReadFirstArg(args[0], tail, |args| - 1);
      assert args == [args[0]] + args[1..];
    }
  }

  lemma ReadFirstArg(arg: string, tail: string, n: nat)
    requires |arg| <= MAX_BULK
    ensures var more := ReadArgs(tail, n);
            more.Request? ==> ReadArgs(BulkText(arg) + tail, n + 1) == Request([arg] + more.args, more.rest)
  {
    ReadPrintedBulk(arg, tail);
  }

  /** Any command of up to 1024 binary-safe arguments is read back, and nothing after it is touched. */
  lemma CommandRoundTrip(args: seq<string>, rest: string)
    requires Bounded(args)
    ensures ReadCommand(CommandText(args) + rest) == Request(args, rest)
  {
    var tail := ArgsText(args) + rest;
    assert CommandText(args) + rest == Header('*', Itoa(|args|)) + tail;
    HeaderLine('*', |args|, tail);
    ArgsRoundTrip(args, rest);
  }

  function CommandsText(cs: seq<seq<string>>): string {
    if cs == [] then "" else CommandText(cs[0]) + CommandsText(cs[1..])
  }

  datatype Session = Broken | Session(commands: seq<seq<string>>, rest: string)

  /** n commands, one after the other. */
  function ReadCommands(s: string, n: nat): Session
    decreases n
  {
    if n == 0 then Session([], s)
    else
      var c := ReadCommand(s);
      if c.NoRequest? then Broken
      else
        var more := ReadCommands(c.rest, n - 1);
        if more.Broken? then Broken else Session([c.args] + more.commands, more.rest)
  }

  /** A pipelined session comes back command by command, in order. */
  lemma {:induction false} SessionRoundTrip(cs: seq<seq<string>>, rest: string)
    requires forall i :: 0 <= i < |cs| ==> Bounded(cs[i])
    ensures ReadCommands(CommandsText(cs) + rest, |cs|) == Session(cs, rest)
  {
    if cs == [] {
      assert CommandsText(cs) + rest == rest;
    } else {
      var tail := CommandsText(cs[1..]) + rest;
      assert CommandsText(cs) + rest == CommandText(cs[0]) + tail;
      SessionRoundTrip(cs[1..], rest);
      ReadFirstCommand(cs[0], tail, |cs| - 1);
      assert cs == [cs[0]] + cs[1..];
    }
  }

  lemma ReadFirstCommand(args: seq<string>, tail: string, n: nat)
    requires Bounded(args)
    ensures var more := ReadCommands(tail, n);
            ReadCommands(CommandText(args) + tail, n + 1) ==
              if more.Broken? then Broken else Session([args] + more.commands, more.rest)
  {
    CommandRoundTrip(args, tail);
  }
}
