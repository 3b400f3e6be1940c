/** What clients write and the command reader reads: inline lines and, exactly, arrays. */
module InlineCommands {
  import opened Basics
  import opened Text
  import opened Resp
  import opened RespCommands

  // ---------- inline lines ----------

  predicate Word(w: string) {
    w != "" && forall i :: 0 <= i < |w| ==> !IsSpace(w[i])
  }

  predicate Gap(g: string) {
    Blank(g) && '\n' !in g
  }

  /** Words and what stands before each: anything blank before the first, something blank before the others. */
  predicate Writable(words: seq<string>, gaps: seq<string>) {
    && |words| == |gaps|
    && (forall i :: 0 <= i < |words| ==> Word(words[i]) && Gap(gaps[i]))
    && forall i :: 0 < i < |gaps| ==> gaps[i] != ""
  }

  function Spaced(words: seq<string>, gaps: seq<string>): string
    requires |words| == |gaps|
  {
    if words == [] then "" else gaps[0] + words[0] + Spaced(words[1..], gaps[1..])
  }

  lemma {:induction false} WordEnds(w: string, more: string)
    requires (forall i :: 0 <= i < |w| ==> !IsSpace(w[i])) && (more == "" || IsSpace(more[0]))
    ensures WordLength(w + more) == |w|
  {
    if w == "" {
      assert w + more == more;
    } else {
      WordEnds(w[1..], more);
      assert (w + more)[1..] == w[1..] + more;
    }
  }

  lemma {:induction false} FieldsOfSpaced(words: seq<string>, gaps: seq<string>)
    requires Writable(words, gaps)
    ensures Fields(Spaced(words, gaps)) == words
  {
    if words != [] {
      var more := Spaced(words[1..], gaps[1..]);
      var s := words[0] + more;
      assert gaps[0] + words[0] + more == gaps[0] + s;
      TrimLeftBlank(gaps[0], s);
      SpacedStartsBlank(words, gaps);
      WordEnds(words[0], more);
      assert s[..|words[0]|] == words[0] && s[|words[0]|..] == more;
      FieldsOfSpaced(words[1..], gaps[1..]);
      assert words == [words[0]] + words[1..];
    }
  }

  lemma SpacedStartsBlank(words: seq<string>, gaps: seq<string>)
    requires Writable(words, gaps) && words != []
    ensures Writable(words[1..], gaps[1..])
    ensures var more := Spaced(words[1..], gaps[1..]); more == "" || IsSpace(more[0])
  {
    if |words| > 1 {
      assert gaps[1] != "" && IsSpace(gaps[1][0]);
      assert Spaced(words[1..], gaps[1..])[0] == gaps[1][0];
    }
  }

  lemma {:induction false} SpacedShape(words: seq<string>, gaps: seq<string>)
    requires Writable(words, gaps) && words != []
    ensures var s := Spaced(words, gaps);
            s != "" && !IsSpace(s[|s| - 1]) && '\n' !in s && (gaps[0] == "" ==> s[0] == words[0][0])
  {
    if |words| > 1 {
      SpacedStartsBlank(words, gaps);
      SpacedShape(words[1..], gaps[1..]);
    }
  }

  /** A line's words are read whatever blanks stand before, between and after them. */
  lemma LineWords(words: seq<string>, gaps: seq<string>, trail: string)
    requires Writable(words, gaps) && Blank(trail)
    ensures Fields(TrimSpace(Spaced(words, gaps) + trail)) == words
  {
    if words == [] {
      TrimSpaceExact("", "", trail);
      assert "" + "" + trail == Spaced(words, gaps) + trail;
    } else {
      var bare := gaps[0 := ""];
      assert Spaced(words, gaps) == gaps[0] + Spaced(words, bare) by {
        assert gaps[1..] == bare[1..];
      }
      SpacedShape(words, bare);
      TrimSpaceExact(gaps[0], Spaced(words, bare), trail);
      assert Spaced(words, gaps) + trail == gaps[0] + Spaced(words, bare) + trail;
      FieldsOfSpaced(words, bare);
    }
  }

  function LineText(words: seq<string>, gaps: seq<string>, trail: string): string
    requires |words| == |gaps|
  {
    Spaced(words, gaps) + trail + "\n"
  }

  lemma CutsAt(line: string, rest: string)
    requires '\n' !in line
    ensures CutLine(line + "\n" + rest) == Line(line + "\n", rest)
  {
    var s := line + "\n" + rest;
    var i := IndexOf(s, '\n');
    assert s[|line|] == '\n';
    assert forall j :: 0 <= j < |line| ==> s[j] == line[j] && line[j] in line;
    assert i == |line|;
    assert s[..i + 1] == line + "\n" && s[i + 1..] == rest;
  }

  lemma LineCut(text: string, rest: string)
    requires text != "" && '\n' !in text
    ensures CutLine((text + "\n" + rest)[1..]) == Line(text[1..] + "\n", rest)
  {
    assert (text + "\n" + rest)[1..] == text[1..] + "\n" + rest;
    CutsAt(text[1..], rest);
  }

  /** What the reader makes of a line that does not open an array. */
  lemma InlineRead(text: string, rest: string)
    requires text != "" && '\n' !in text && text[0] != '*'
    ensures ReadCommand(text + "\n" + rest) == Request(Fields(TrimSpace(ByteText(text[0]) + (text[1..] + "\n"))), rest)
  {
    LineCut(text, rest);
    assert (text + "\n" + rest)[0] == text[0];
  }

  /**
   A line comes back as exactly its words, leaving what follows, whatever the blanks before, between and after them,
   if and only if it does not begin with a star or with a byte outside ASCII.
   */
  lemma InlineExact(words: seq<string>, gaps: seq<string>, trail: string, rest: string)
    requires words != [] && Writable(words, gaps) && Gap(trail)
    ensures ReadCommand(LineText(words, gaps, trail) + rest) == Request(words, rest) <==>
            gaps[0] != "" || (words[0][0] != '*' && words[0][0] < '\U{0080}')
  {
    var text := Spaced(words, gaps) + trail;
    SpacedShape(words, gaps);
    assert LineText(words, gaps, trail) + rest == text + "\n" + rest;
    if gaps[0] != "" {
      assert text[0] == gaps[0][0];
    }
    if text[0] == '*' {
      StarIsNoLine(words, text, rest);
    } else {
      InlineRead(text, rest);
      if text[0] < '\U{0080}' {
        LineWords(words, gaps, trail + "\n");
        assert ByteText(text[0]) + (text[1..] + "\n") == Spaced(words, gaps) + (trail + "\n");
      } else {
        HighByteSpoils(words, gaps, trail);
      }
    }
  }

  lemma SpacedHead(words: seq<string>, gaps: seq<string>, g: string, w: string)
    requires |words| == |gaps| > 0
    ensures Spaced(words[0 := w], gaps[0 := g]) == g + w + Spaced(words[1..], gaps[1..])
  {
    assert words[0 := w][1..] == words[1..] && gaps[0 := g][1..] == gaps[1..];
  }

  /** The words read when the first byte becomes b: never the ones written. */
  lemma HeadSpoils(words: seq<string>, gaps: seq<string>, b: string, trail: string)
    requires words != [] && Writable(words, gaps) && Blank(trail) && (b == " " || (Word(b) && |b| == 2))
    ensures Fields(TrimSpace(b + words[0][1..] + Spaced(words[1..], gaps[1..]) + trail)) != words
  {
    var w := words[0][1..];
    if b != " " {
      SpacedHead(words, gaps, "", b + w);
      assert "" + (b + w) == b + w;
      LineWords(words[0 := b + w], gaps[0 := ""], trail);
    } else if w != "" {
      SpacedHead(words, gaps, b, w);
      LineWords(words[0 := w], gaps[0 := b], trail);
    } else {
      LostWord(words, gaps, trail);
    }
  }

  lemma LostWord(words: seq<string>, gaps: seq<string>, trail: string)
    requires words != [] && Writable(words, gaps) && Blank(trail)
    ensures Fields(TrimSpace(" " + "" + Spaced(words[1..], gaps[1..]) + trail)) == words[1..]
  {
    if |words| == 1 {
      LineWords([], [], " " + trail);
      assert " " + "" + Spaced([], []) + trail == Spaced([], []) + (" " + trail);
    } else {
      SpacedStartsBlank(words, gaps);
      WiderGap(words[1..], gaps[1..]);
      LineWords(words[1..], gaps[1..][0 := " " + gaps[1]], trail);
    }
  }

  lemma WiderGap(words: seq<string>, gaps: seq<string>)
    requires |words| == |gaps| > 0
    ensures Spaced(words, gaps[0 := " " + gaps[0]]) == " " + "" + Spaced(words, gaps)
  {
    SpacedHead(words, gaps, " " + gaps[0], words[0]);
    assert words[0 := words[0]] == words;
  }

  lemma Regrouped(b: string, w: string, more: string, trail: string)
    ensures b + (w + more + trail + "\n") == b + w + more + (trail + "\n")
  {
  }

  lemma HighText(c: char)
    requires c >= '\U{0080}'
    ensures ByteText(c) == " " || (Word(ByteText(c)) && |ByteText(c)| == 2)
  {
  }

  lemma TextTail(words: seq<string>, gaps: seq<string>, trail: string)
    requires words != [] && Writable(words, gaps) && gaps[0] == ""
    ensures var text := Spaced(words, gaps) + trail;
            text != "" && text[0] == words[0][0] && text[1..] == words[0][1..] + Spaced(words[1..], gaps[1..]) + trail
  {
    var w, more := words[0], Spaced(words[1..], gaps[1..]);
    assert gaps[0] + w + more == w + more;
    assert (w + more + trail)[1..] == w[1..] + more + trail;
  }

  lemma HighByteSpoils(words: seq<string>, gaps: seq<string>, trail: string)
    requires words != [] && Writable(words, gaps) && Gap(trail) && gaps[0] == "" && words[0][0] >= '\U{0080}'
    ensures var text := Spaced(words, gaps) + trail;
            text != "" && Fields(TrimSpace(ByteText(text[0]) + (text[1..] + "\n"))) != words
  {
    var b := ByteText(words[0][0]);
    HighText(words[0][0]);
    TextTail(words, gaps, trail);
    Regrouped(b, words[0][1..], Spaced(words[1..], gaps[1..]), trail);
    HeadSpoils(words, gaps, b, trail + "\n");
  }

  /** A line that opens an array is never read as its words with the same rest. */
  lemma StarIsNoLine(words: seq<string>, text: string, rest: string)
    requires words != [] && text != "" && '\n' !in text && text[0] == '*'
    ensures ReadCommand(text + "\n" + rest) != Request(words, rest)
  {
    LineCut(text, rest);
    var r := ReadCommand(text + "\n" + rest);
    if r.Request? {
      var count := ParseInt(TrimSpace(text[1..] + "\n"));
      ReadConsumes(rest, count.value);
    }
  }

  lemma BulkConsumes(s: string)
    requires ReadBulk(s).Line?
    ensures |ReadBulk(s).rest| < |s|
  {
  }

  lemma {:induction false} ReadConsumes(s: string, n: nat)
    ensures var r := ReadArgs(s, n); r.Request? ==> |r.args| == n && |r.rest| <= |s| - n
    decreases n
  {
    if n > 0 && ReadBulk(s).Line? {
      BulkConsumes(s);
      ReadConsumes(ReadBulk(s).rest, n - 1);
    }
  }

  /** A line without words is an empty command. */
  lemma BlankLine(trail: string, rest: string)
    requires Gap(trail) && trail != ""
    ensures ReadCommand(trail + "\n" + rest) == Request([], rest)
  {
    InlineRead(trail, rest);
    LineWords([], [], trail + "\n");
    assert ByteText(trail[0]) + (trail[1..] + "\n") == Spaced([], []) + (trail + "\n");
  }

  /** A lone newline is no line: it counts as blank space before the next one. */
  lemma LoneNewline(rest: string)
    ensures ReadCommand("\n" + rest) == ReadCommand(" " + rest)
  {
    assert ("\n" + rest)[1..] == rest && (" " + rest)[1..] == rest;
    var l := CutLine(rest);
    if l.Line? {
      BlankHead('\n', l.text);
      BlankHead(' ', l.text);
    }
  }

  lemma BlankHead(c: char, s: string)
    requires IsSpace(c)
    ensures TrimSpace([c] + s) == TrimSpace(s)
  {
    assert ([c] + s)[1..] == s;
  }

  // ---------- arrays ----------

  /** A line whose text, blanks aside, is the decimal number n. */
  predicate CountLine(line: string, n: nat) {
    '\n' !in line && ParseInt(TrimSpace(line + "\n")) == Some(n)
  }

  /** The bulk strings written one after the other, in front of rest; a length may have signs, zeros and blanks. */
  ghost predicate Bulks(s: string, args: seq<string>, rest: string)
    decreases |args|
  {
    if args == [] then s == rest
    else
      |args[0]| <= MAX_BULK &&
      exists line, more :: IsBulk(s, line, args[0], more) && Bulks(more, args[1..], rest)
  }

  predicate IsBulk(s: string, line: string, arg: string, more: string) {
    CountLine(line, |arg|) && s == "$" + (line + "\n" + (arg + "\r\n" + more))
  }

  ghost predicate ArrayForm(s: string, args: seq<string>, rest: string) {
    |args| <= MAX_ITEMS && exists line, more :: IsArray(s, line, |args|, more) && Bulks(more, args, rest)
  }

  predicate IsArray(s: string, line: string, n: nat, more: string) {
    CountLine(line, n) && s == "*" + (line + "\n" + more)
  }

  lemma Headed(s: string, mark: char, tail: string)
    requires s != "" && s[0] == mark && s[1..] == tail
    ensures s == [mark] + tail
  {
  }

  lemma LineBack(s: string)
    requires CutLine(s).Line?
    ensures var l := CutLine(s); var line := l.text[..|l.text| - 1]; '\n' !in line && l.text == line + "\n" && s == line + "\n" + l.rest
  {
  }

  lemma BulkIsRead(s: string, line: string, arg: string, more: string)
    requires IsBulk(s, line, arg, more) && |arg| <= MAX_BULK
    ensures ReadBulk(s) == Line(arg, more)
  {
    CutsAt(line, arg + "\r\n" + more);
    assert s[0] == '$' && s[1..] == line + "\n" + (arg + "\r\n" + more);
    TakePrinted(arg, more);
  }

  lemma TakenBack(s: string, k: nat)
    ensures var p := TakePayload(s, k); p.Line? ==> |p.text| == k && s == p.text + "\r\n" + p.rest
  {
    if TakePayload(s, k).Line? {
      assert s == s[..k] + s[k..k + 2] + s[k + 2..];
    }
  }

  lemma DollarReads(s: string)
    requires ReadBulk(s).Line?
    ensures s != "" && s[0] == '$'
    ensures var l := CutLine(s[1..]);
            && l.Line?
            && var length := ParseInt(TrimSpace(l.text));
               length.Some? && 0 <= length.value <= MAX_BULK && ReadBulk(s) == TakePayload(l.rest, length.value)
  {
  }

  lemma ReadIsBulk(s: string)
    ensures var p := ReadBulk(s); p.Line? ==> |p.text| <= MAX_BULK && exists line :: IsBulk(s, line, p.text, p.rest)
  {
    var p := ReadBulk(s);
    if p.Line? {
      DollarReads(s);
      var l := CutLine(s[1..]);
      LineBack(s[1..]);
      TakenBack(l.rest, ParseInt(TrimSpace(l.text)).value);
      var line := l.text[..|l.text| - 1];
      Headed(s, '$', line + "\n" + (p.text + "\r\n" + p.rest));
      assert IsBulk(s, line, p.text, p.rest);
    }
  }

  lemma {:induction false} BulksExact(s: string, args: seq<string>, rest: string)
    ensures ReadArgs(s, |args|) == Request(args, rest) <==> Bulks(s, args, rest)
    decreases |args|
  {
    if args != [] {
      var p := ReadBulk(s);
      assert args == [args[0]] + args[1..];
      if p.Line? {
        ReadIsBulk(s);
        BulksExact(p.rest, args[1..], rest);
      }
      forall line, more | |args[0]| <= MAX_BULK && IsBulk(s, line, args[0], more) ensures p == Line(args[0], more) {
        BulkIsRead(s, line, args[0], more);
      }
    }
  }

  lemma ArrayIsRead(s: string, line: string, args: seq<string>, more: string)
    requires IsArray(s, line, |args|, more) && |args| <= MAX_ITEMS
    ensures ReadCommand(s) == ReadArgs(more, |args|)
  {
    CutsAt(line, more);
    assert s[0] == '*' && s[1..] == line + "\n" + more;
  }

  lemma StarReads(s: string)
    requires s != "" && s[0] == '*' && ReadCommand(s).Request?
    ensures var l := CutLine(s[1..]);
            && l.Line?
            && var count := ParseInt(TrimSpace(l.text));
               count.Some? && 0 <= count.value <= MAX_ITEMS && ReadCommand(s) == ReadArgs(l.rest, count.value)
  {
  }

  lemma ReadIsArray(s: string)
    requires s != "" && s[0] == '*' && ReadCommand(s).Request?
    ensures |ReadCommand(s).args| <= MAX_ITEMS
    ensures exists line, more :: IsArray(s, line, |ReadCommand(s).args|, more)
  {
    StarReads(s);
    var l := CutLine(s[1..]);
    LineBack(s[1..]);
    var n := ParseInt(TrimSpace(l.text)).value;
    ReadConsumes(l.rest, n);
    var line := l.text[..|l.text| - 1];
    Headed(s, '*', line + "\n" + l.rest);
    assert IsArray(s, line, n, l.rest);
  }

  /** An array command is read as these arguments, leaving this rest, if and only if it is written as them within the bounds. */
  lemma ArrayExact(s: string, args: seq<string>, rest: string)
    requires s != "" && s[0] == '*'
    ensures ReadCommand(s) == Request(args, rest) <==> ArrayForm(s, args, rest)
  {
    if ReadCommand(s) == Request(args, rest) {
      ReadIsArray(s);
    }
    forall line, more | IsArray(s, line, |args|, more) && |args| <= MAX_ITEMS
      ensures ReadCommand(s) == Request(args, rest) <==> Bulks(more, args, rest)
    {
      ArrayIsRead(s, line, args, more);
      BulksExact(more, args, rest);
    }
  }
}
