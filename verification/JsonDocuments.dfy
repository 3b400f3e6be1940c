/**
 The scanner over document text.  The decoder reports where each key token ends; the scanner looks backwards for
 where it starts, and records that.
 */
module JsonDocuments {
  import opened Basics
  import opened Text
  import opened JsonTokens
  import opened JsonPointers

  // ---------- what the decoder hands over ----------

  /** `at` is the decoder's offset just after a key, or before an array item. */
  datatype Tokens = LeafToken | Composite(isObject: bool, parts: seq<Part>)
  datatype Part = Part(key: string, at: int, value: Tokens)

  /** A key is recorded where the backward scan finds its start, an array item where the decoder stands. */
  function Place(data: string, isObject: bool, at: int): int {
    if isObject then TokenStart(data, at) else at
  }

  function Placed(data: string, k: Tokens): (j: Json)
    ensures j.Leaf? <==> k.LeafToken?
    decreases k, 0
  {
    if k.LeafToken? then Leaf else Node(k.isObject, PlacedParts(data, k.isObject, k.parts))
  }

  function PlacedParts(data: string, isObject: bool, parts: seq<Part>): (r: seq<Member>)
    ensures |r| == |parts|
    decreases parts, 1
  {
    if parts == [] then []
    else
      [Member(parts[0].key, Place(data, isObject, parts[0].at), Placed(data, parts[0].value))]
      + PlacedParts(data, isObject, parts[1..])
  }

  lemma {:induction false} PlacedPart(data: string, isObject: bool, parts: seq<Part>, i: nat)
    requires i < |parts|
    ensures PlacedParts(data, isObject, parts)[i] ==
            Member(parts[i].key, Place(data, isObject, parts[i].at), Placed(data, parts[i].value))
  {
    if i > 0 {
      PlacedPart(data, isObject, parts[1..], i - 1);
    }
  }

  /** The scanner itself: one pass that fills the table as it goes and refuses a repeated key. */
  method ScanValue(data: string, k: Tokens, path: string, locations: map<string, int>) returns (r: Option<map<string, int>>)
    ensures r == Scan(Placed(data, k), path, locations)
    decreases k
  {
    if k.LeafToken? {
      return Some(locations);
    }
    ghost var j := Placed(data, k);
    var table, seen := locations, {};
    for i := 0 to |k.parts|
      invariant ScanFrom(j, i, path, seen, table) == Scan(j, path, locations)
    {
      PlacedPart(data, k.isObject, k.parts, i);
      var part := k.parts[i];
      if k.isObject && part.key in seen {
        return None;
      }
      seen := seen + {part.key};
      var offset := part.at;
      if k.isObject {
        offset := JsonStringTokenStart(data, part.at);
      }
      var child := path + "/" + if k.isObject then EscapePointer(part.key) else Itoa(i);
      var inner := ScanValue(data, part.value, child, table[child := offset]);
      if inner.None? {
        return None;
      }
      table := inner.value;
    }
    r := Some(table);
  }

  // ---------- documents as text ----------

  /**
   A document as it is written.  A key is `raw` between quotes, which the decoder reads as `key`; `lead`, `mid`,
   `trail` and `tail` are what stands around the tokens.
   */
  datatype Doc = Scalar(text: string) | Group(isObject: bool, entries: seq<Entry>, tail: string)
  datatype Entry = Entry(lead: string, raw: string, key: string, mid: string, value: Doc, trail: string, offset: int)

  function Quoted(raw: string): string {
    "\"" + (raw + "\"")
  }

  /** What stands before an entry's value. */
  function Head(isObject: bool, e: Entry): string {
    if isObject then e.lead + (Quoted(e.raw) + e.mid) else e.lead
  }

  function TextOf(d: Doc): string
    decreases d, 0
  {
    if d.Scalar? then d.text
    else (if d.isObject then "{" else "[") + (EntriesText(d.isObject, d.entries) + (d.tail + if d.isObject then "}" else "]"))
  }

  function EntriesText(isObject: bool, es: seq<Entry>): string
    decreases es, 1
  {
    if es == [] then ""
    else Head(isObject, es[0]) + (TextOf(es[0].value) + (Ending(es) + EntriesText(isObject, es[1..])))
  }

  /** What follows the first entry's value: a comma too, unless it is the last. */
  function Ending(es: seq<Entry>): string
    requires es != []
  {
    es[0].trail + if |es| > 1 then "," else ""
  }

  predicate IsBlank(s: string) {
    forall c :: c in s ==> IsJsonSpace(c)
  }

  /** White space is JSON's, and each key is a string literal by section 7 of RFC 8259. */
  ghost predicate WellWritten(d: Doc) {
    d.Group? ==> IsBlank(d.tail) && forall e :: e in d.entries ==> EntryWritten(d.isObject, e) && WellWritten(e.value)
  }

  ghost predicate EntryWritten(isObject: bool, e: Entry) {
    && IsBlank(e.lead) && IsBlank(e.trail)
    && (isObject ==>
          && LexString(e.raw + "\"", 0) == Some(|e.raw|)
          && exists before, after :: IsBlank(before) && IsBlank(after) && e.mid == before + ":" + after)
  }

  function ValueStart(isObject: bool, es: seq<Entry>, pos: nat): nat
    requires es != []
  {
    pos + |Head(isObject, es[0])|
  }

  /** Where the next entry begins. */
  function Next(isObject: bool, es: seq<Entry>, pos: nat): nat
    requires es != []
  {
    ValueStart(isObject, es, pos) + |TextOf(es[0].value)| + |Ending(es)|
  }

  /** The index of a key's opening quote, or what the decoder said of an array item. */
  function Where(isObject: bool, e: Entry, pos: nat): int {
    if isObject then pos + |e.lead| else e.offset
  }

  /** The decoder's offset just after a key, or before an array item. */
  function Reported(isObject: bool, e: Entry, pos: nat): int {
    if isObject then pos + |e.lead| + |Quoted(e.raw)| else e.offset
  }

  /** What the decoder reports of a document that starts at `base`. */
  function TokensOf(d: Doc, base: nat): Tokens
    decreases d, 0
  {
    if d.Scalar? then LeafToken else Composite(d.isObject, PartsOf(d.isObject, d.entries, base + 1))
  }

  function PartsOf(isObject: bool, es: seq<Entry>, pos: nat): seq<Part>
    decreases es, 1
  {
    if es == [] then []
    else
      [Part(es[0].key, Reported(isObject, es[0], pos), TokensOf(es[0].value, ValueStart(isObject, es, pos)))]
      + PartsOf(isObject, es[1..], Next(isObject, es, pos))
  }

  /** The same tree with the index of each key's opening quote. */
  function Located(d: Doc, base: nat): Json
    decreases d, 0
  {
    if d.Scalar? then Leaf else Node(d.isObject, LocatedEntries(d.isObject, d.entries, base + 1))
  }

  function LocatedEntries(isObject: bool, es: seq<Entry>, pos: nat): seq<Member>
    decreases es, 1
  {
    if es == [] then []
    else
      [Member(es[0].key, Where(isObject, es[0], pos), Located(es[0].value, ValueStart(isObject, es, pos)))]
      + LocatedEntries(isObject, es[1..], Next(isObject, es, pos))
  }

  // ---------- the scan finds every opening quote ----------

  /** `s` stands in `data` at index `pos`. */
  predicate Stands(data: string, pos: nat, s: string) {
    pos + |s| <= |data| && forall i :: 0 <= i < |s| ==> data[pos + i] == s[i]
  }

  lemma StandsJoin(data: string, pos: nat, a: string, b: string)
    ensures Stands(data, pos, a + b) <==> Stands(data, pos, a) && Stands(data, pos + |a|, b)
  {
    var s := a + b;
    if Stands(data, pos, s) {
      forall i | 0 <= i < |a| ensures data[pos + i] == a[i] {
        assert s[i] == a[i];
      }
      forall i | 0 <= i < |b| ensures data[pos + |a| + i] == b[i] {
        assert data[pos + (|a| + i)] == s[|a| + i];
      }
    }
    if Stands(data, pos, a) && Stands(data, pos + |a|, b) {
      forall i | 0 <= i < |s| ensures data[pos + i] == s[i] {
        if i >= |a| {
          assert data[(pos + |a|) + (i - |a|)] == b[i - |a|];
        }
      }
    }
  }

  /** Lexing a literal does not depend on what stands around it. */
  lemma {:induction false} LexAnywhere(s: string, i: nat, data: string, pos: nat, at: nat)
    requires i <= |s| && Stands(data, pos, s) && LexString(s, i).Some? && at == pos + i
    ensures LexString(data, at) == Some(pos + LexString(s, i).value)
    decreases |s| - i
  {
    assert data[pos + i] == s[i];
    if s[i] != '"' {
      if IsPlain(s[i]) {
        LexAnywhere(s, i + 1, data, pos, at + 1);
      } else {
        assert data[pos + (i + 1)] == s[i + 1];
        if IsSimpleEscape(s[i + 1]) {
          LexAnywhere(s, i + 2, data, pos, at + 2);
        } else {
          HexAnywhere(s, i, data, pos);
          LexAnywhere(s, i + 6, data, pos, at + 6);
        }
      }
    }
  }

  lemma HexAnywhere(s: string, i: nat, data: string, pos: nat)
    requires i + 6 <= |s| && Stands(data, pos, s) && forall k :: i + 2 <= k < i + 6 ==> IsHex(s[k])
    ensures forall k :: pos + i + 2 <= k < pos + i + 6 ==> IsHex(data[k])
  {
    forall k | pos + i + 2 <= k < pos + i + 6 ensures IsHex(data[k]) {
      var n := k - pos;
      assert data[pos + n] == s[n];
    }
  }

  /** From the end of a key the scan finds its opening quote, since no backslash can stand before the key. */
  lemma KeyIsFound(data: string, pos: nat, lead: string, raw: string, end: nat)
    requires end == pos + |lead| + |raw| + 2
    requires pos > 0 && pos <= |data| && data[pos - 1] != '\\' && IsBlank(lead)
    requires Stands(data, pos, lead) && Stands(data, pos + |lead|, Quoted(raw))
    requires LexString(raw + "\"", 0) == Some(|raw|)
    ensures TokenStart(data, end) == pos + |lead|
  {
    var open := pos + |lead|;
    KeyLexes(data, open, raw + "\"", |raw|);
    NoBackslashBefore(data, pos, lead);
    FoundFrom(data, open, open + 1 + |raw|);
  }

  lemma QuotedLength(raw: string)
    ensures |Quoted(raw)| == |raw| + 2
  {
  }

  lemma FoundFrom(data: string, open: nat, close: nat)
    requires open < |data| && data[open] == '"' && LexString(data, open + 1) == Some(close) && Run(data, open) == 0
    ensures TokenStart(data, close + 1) == open
  {
    BackwardScanExact(data, open, close, close + 1);
  }

  lemma KeyLexes(data: string, open: nat, literal: string, n: nat)
    requires Stands(data, open, "\"" + literal) && LexString(literal, 0) == Some(n)
    ensures open < |data| && data[open] == '"' && LexString(data, open + 1) == Some(open + 1 + n)
  {
    LiteralStands(data, open, literal);
    LexAnywhere(literal, 0, data, open + 1, open + 1);
  }

  lemma LiteralStands(data: string, open: nat, literal: string)
    requires Stands(data, open, "\"" + literal)
    ensures open < |data| && data[open] == '"' && Stands(data, open + 1, literal)
  {
    StandsJoin(data, open, "\"", literal);
    StandsFirst(data, open, '"', literal);
  }

  lemma StandsFirst(data: string, pos: nat, c: char, s: string)
    requires Stands(data, pos, [c] + s)
    ensures pos < |data| && data[pos] == c
  {
    assert data[pos + 0] == ([c] + s)[0];
  }

  lemma NoBackslashBefore(data: string, pos: nat, lead: string)
    requires pos > 0 && pos <= |data| && data[pos - 1] != '\\' && IsBlank(lead) && Stands(data, pos, lead)
    ensures Run(data, pos + |lead|) == 0
  {
    if lead != "" {
      assert data[pos + (|lead| - 1)] == lead[|lead| - 1] && lead[|lead| - 1] in lead;
    }
  }

  /** Wherever a well-written document stands, the offsets the scanner computes are the indexes of the opening quotes. */
  lemma {:induction false} ScanFindsQuotes(data: string, d: Doc, base: nat)
    requires WellWritten(d) && Stands(data, base, TextOf(d))
    ensures Placed(data, TokensOf(d, base)) == Located(d, base)
    decreases d, 0
  {
    if d.Group? {
      var open := if d.isObject then "{" else "[";
      var inner := EntriesText(d.isObject, d.entries);
      var close := d.tail + if d.isObject then "}" else "]";
      StandsJoin(data, base, open, inner + close);
      StandsJoin(data, base + 1, inner, close);
      assert data[base + 0] == open[0];
      EntriesFindQuotes(data, d.isObject, d.entries, base + 1);
    }
  }

  lemma {:induction false} EntriesFindQuotes(data: string, isObject: bool, es: seq<Entry>, pos: nat)
    requires forall e :: e in es ==> EntryWritten(isObject, e) && WellWritten(e.value)
    requires Stands(data, pos, EntriesText(isObject, es)) && pos > 0 && pos <= |data| && data[pos - 1] != '\\'
    ensures PlacedParts(data, isObject, PartsOf(isObject, es, pos)) == LocatedEntries(isObject, es, pos)
    decreases es, 1
  {
    if es != [] {
      EntryStands(data, isObject, es, pos);
      FirstIsPlaced(data, isObject, es[0], pos);
      ScanFindsQuotes(data, es[0].value, ValueStart(isObject, es, pos));
      if es[1..] != [] {
        CommaStands(data, isObject, es, pos);
        EntriesFindQuotes(data, isObject, es[1..], Next(isObject, es, pos));
      }
      PlacedFirst(data, isObject, es, pos);
    }
  }

  lemma FirstIsPlaced(data: string, isObject: bool, e: Entry, pos: nat)
    requires EntryWritten(isObject, e) && pos > 0 && pos <= |data| && data[pos - 1] != '\\'
    requires Stands(data, pos, e.lead) && (isObject ==> Stands(data, pos + |e.lead|, Quoted(e.raw)))
    ensures Place(data, isObject, Reported(isObject, e, pos)) == Where(isObject, e, pos)
  {
    if isObject {
      QuotedLength(e.raw);
      KeyIsFound(data, pos, e.lead, e.raw, pos + |e.lead| + |e.raw| + 2);
    }
  }

  lemma PlacedFirst(data: string, isObject: bool, es: seq<Entry>, pos: nat)
    requires es != []
    ensures PlacedParts(data, isObject, PartsOf(isObject, es, pos)) ==
            [Member(es[0].key, Place(data, isObject, Reported(isObject, es[0], pos)),
                    Placed(data, TokensOf(es[0].value, ValueStart(isObject, es, pos))))]
            + PlacedParts(data, isObject, PartsOf(isObject, es[1..], Next(isObject, es, pos)))
  {
    var parts := PartsOf(isObject, es, pos);
    assert parts[1..] == PartsOf(isObject, es[1..], Next(isObject, es, pos));
  }

  /** The pieces of the first entry stand where the positions say. */
  lemma EntryStands(data: string, isObject: bool, es: seq<Entry>, pos: nat)
    requires es != [] && Stands(data, pos, EntriesText(isObject, es))
    ensures Stands(data, pos, es[0].lead) && (isObject ==> Stands(data, pos + |es[0].lead|, Quoted(es[0].raw)))
    ensures Stands(data, ValueStart(isObject, es, pos), TextOf(es[0].value))
    ensures Stands(data, ValueStart(isObject, es, pos) + |TextOf(es[0].value)|, Ending(es))
    ensures Stands(data, Next(isObject, es, pos), EntriesText(isObject, es[1..]))
  {
    var value, rest := TextOf(es[0].value), EntriesText(isObject, es[1..]);
    StandsJoin(data, pos, Head(isObject, es[0]), value + (Ending(es) + rest));
    FollowsHead(data, ValueStart(isObject, es, pos), value, Ending(es), rest);
    HeadStands(data, isObject, es[0], pos);
  }

  lemma FollowsHead(data: string, pos: nat, a: string, b: string, c: string)
    requires Stands(data, pos, a + (b + c))
    ensures Stands(data, pos, a) && Stands(data, pos + |a|, b) && Stands(data, pos + |a| + |b|, c)
  {
    StandsJoin(data, pos, a, b + c);
    StandsJoin(data, pos + |a|, b, c);
  }

  lemma HeadStands(data: string, isObject: bool, e: Entry, pos: nat)
    requires Stands(data, pos, Head(isObject, e))
    ensures Stands(data, pos, e.lead) && (isObject ==> Stands(data, pos + |e.lead|, Quoted(e.raw)))
  {
    if isObject {
      FollowsHead(data, pos, e.lead, Quoted(e.raw), e.mid);
    }
  }

  /** A comma stands just before every entry but the first. */
  lemma CommaStands(data: string, isObject: bool, es: seq<Entry>, pos: nat)
    requires |es| > 1 && Stands(data, ValueStart(isObject, es, pos) + |TextOf(es[0].value)|, Ending(es))
    ensures 0 < Next(isObject, es, pos) <= |data| && data[Next(isObject, es, pos) - 1] == ','
  {
    var start := ValueStart(isObject, es, pos) + |TextOf(es[0].value)|;
    assert data[start + |es[0].trail|] == Ending(es)[|es[0].trail|];
  }

  // ---------- the table of a document ----------

  /** The path p leads to a key written `raw` whose opening quote has index o. */
  ghost predicate KeyOpens(d: Doc, base: nat, p: seq<string>, raw: string, o: int)
    decreases d, 0
  {
    d.Group? && EntryOpens(d.isObject, d.entries, 0, base + 1, p, raw, o)
  }

  ghost predicate EntryOpens(isObject: bool, es: seq<Entry>, i: nat, pos: nat, p: seq<string>, raw: string, o: int)
    decreases es, 1
  {
    es != [] && p != [] &&
    (FirstOpens(isObject, es, i, pos, p, raw, o) || EntryOpens(isObject, es[1..], i + 1, Next(isObject, es, pos), p, raw, o))
  }

  ghost predicate FirstOpens(isObject: bool, es: seq<Entry>, i: nat, pos: nat, p: seq<string>, raw: string, o: int)
    requires es != [] && p != []
    decreases es, 0
  {
    && p[0] == (if isObject then es[0].key else Itoa(i))
    && if |p| == 1 then isObject && raw == es[0].raw && o == pos + |es[0].lead|
       else KeyOpens(es[0].value, ValueStart(isObject, es, pos), p[1..], raw, o)
  }

  lemma {:induction false} OpensIsReached(d: Doc, base: nat, p: seq<string>, raw: string, o: int)
    requires KeyOpens(d, base, p, raw, o)
    ensures Reached(Located(d, base), 0, p, o)
    decreases d, 0
  {
    EntryReached(Located(d, base), d.isObject, d.entries, 0, base + 1, p, raw, o);
  }

  lemma {:induction false} EntryReached(j: Json, isObject: bool, es: seq<Entry>, i: nat, pos: nat, p: seq<string>, raw: string, o: int)
    requires j.Node? && j.isObject == isObject && i <= |j.members| && j.members[i..] == LocatedEntries(isObject, es, pos)
    requires EntryOpens(isObject, es, i, pos, p, raw, o)
    ensures Reached(j, i, p, o)
    decreases es, 1
  {
    var m := LocatedEntries(isObject, es, pos)[0];
    assert j.members[i] == j.members[i..][0] == m;
    if FirstOpens(isObject, es, i, pos, p, raw, o) {
      if |p| > 1 {
        OpensIsReached(es[0].value, ValueStart(isObject, es, pos), p[1..], raw, o);
      }
      assert NodeAt(j, i, p, o);
    } else {
      assert j.members[i + 1..] == j.members[i..][1..];
      EntryReached(j, isObject, es[1..], i + 1, Next(isObject, es, pos), p, raw, o);
    }
  }

  lemma {:induction false} OpensIsQuote(data: string, d: Doc, base: nat, p: seq<string>, raw: string, o: int)
    requires Stands(data, base, TextOf(d)) && KeyOpens(d, base, p, raw, o)
    ensures 0 <= o && Stands(data, o, Quoted(raw))
    decreases d, 0
  {
    var inner := EntriesText(d.isObject, d.entries);
    StandsJoin(data, base, if d.isObject then "{" else "[", inner + (d.tail + if d.isObject then "}" else "]"));
    StandsJoin(data, base + 1, inner, d.tail + if d.isObject then "}" else "]");
    EntryIsQuote(data, d.isObject, d.entries, 0, base + 1, p, raw, o);
  }

  lemma {:induction false} FirstIsQuote(data: string, isObject: bool, es: seq<Entry>, i: nat, pos: nat, p: seq<string>, raw: string, o: int)
    requires es != [] && p != [] && FirstOpens(isObject, es, i, pos, p, raw, o)
    requires isObject ==> Stands(data, pos + |es[0].lead|, Quoted(es[0].raw))
    requires Stands(data, ValueStart(isObject, es, pos), TextOf(es[0].value))
    ensures 0 <= o && Stands(data, o, Quoted(raw))
    decreases es, 0
  {
    if |p| > 1 {
      OpensIsQuote(data, es[0].value, ValueStart(isObject, es, pos), p[1..], raw, o);
    }
  }

  lemma {:induction false} EntryIsQuote(data: string, isObject: bool, es: seq<Entry>, i: nat, pos: nat, p: seq<string>, raw: string, o: int)
    requires Stands(data, pos, EntriesText(isObject, es)) && EntryOpens(isObject, es, i, pos, p, raw, o)
    ensures 0 <= o && Stands(data, o, Quoted(raw))
    decreases es, 1
  {
    EntryStands(data, isObject, es, pos);
    if FirstOpens(isObject, es, i, pos, p, raw, o) {
      FirstIsQuote(data, isObject, es, i, pos, p, raw, o);
    } else {
      EntryIsQuote(data, isObject, es[1..], i + 1, Next(isObject, es, pos), p, raw, o);
    }
  }

  /**
   Over the text of any well-written document without repeated keys: under the pointer of every key, the table holds
   the index at which that key's own literal opens.
   */
  lemma KeysAreLocated(d: Doc, p: seq<string>, raw: string, o: int)
    requires WellWritten(d) && KeyOpens(d, 0, p, raw, o)
    requires Scan(Placed(TextOf(d), TokensOf(d, 0)), "", map[]).Some?
    ensures var table := Scan(Placed(TextOf(d), TokensOf(d, 0)), "", map[]).value;
            && Pointer(p) in table && table[Pointer(p)] == o
            && 0 <= o && Stands(TextOf(d), o, Quoted(raw))
  {
    ScanFindsQuotes(TextOf(d), d, 0);
    LocationsExact(Located(d, 0));
    OpensIsReached(d, 0, p, raw, o);
    OpensIsQuote(TextOf(d), d, 0, p, raw, o);
  }
}
