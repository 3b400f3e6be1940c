/** The buffered reader both RESP parsers advance. */
module RespReaders {
  import opened Basics
  import opened Text
  import opened Resp
  import opened RespCommands

  class Reader {
    const data: string
    var pos: nat

    ghost predicate Valid()
      reads this
    {
      pos <= |data|
    }

    /** What has not been read yet. */
    function Rest(): string
      requires Valid()
      reads this
    {
      data[pos..]
    }

    constructor (data: string)
      ensures Valid() && this.data == data && pos == 0
    {
      this.data, pos := data, 0;
    }

    method ReadByte() returns (c: Option<char>)
      requires Valid()
      modifies this`pos
      ensures Valid()
      ensures old(Rest()) == "" ==> c.None? && pos == old(pos)
      ensures old(Rest()) != "" ==> c == Some(old(Rest())[0]) && Rest() == old(Rest())[1..] && pos == old(pos) + 1
    {
      if pos == |data| {
        return None;
      }
      c := Some(data[pos]);
      pos := pos + 1;
    }

    /** Text up to and with the next newline, or nothing when there is none. */
    method ReadString() returns (line: Option<string>)
      requires Valid()
      modifies this`pos
      ensures Valid() && pos >= old(pos)
      ensures var l := CutLine(old(Rest()));
              if l.NoLine? then line.None? else line == Some(l.text) && Rest() == l.rest
    {
      var rest := Rest();
      var i := 0;
      while i < |rest| && rest[i] != '\n'
        invariant i <= |rest| && forall j :: 0 <= j < i ==> rest[j] != '\n'
      {
        i := i + 1;
      }
      assert i == IndexOf(rest, '\n');
      if i == |rest| {
        return None;
      }
      line := Some(rest[..i + 1]);
      pos := pos + i + 1;
      assert Rest() == rest[i + 1..];
    }

    /** A line whose newline follows a carriage return, without either. */
    method ReadRespLine() returns (line: Option<string>)
      requires Valid()
      modifies this`pos
      ensures Valid() && pos >= old(pos)
      ensures var l := ReadLine(old(Rest()));
              if l.NoLine? then line.None? else line == Some(l.text) && Rest() == l.rest
    {
      var rest := Rest();
      var text := ReadString();
      if text.None? || |text.value| < 2 || text.value[|text.value| - 2] != '\r' {
        return None;
      }
      line := Some(text.value[..|text.value| - 2]);
    }

    method ReadFull(n: nat) returns (bytes: Option<string>)
      requires Valid()
      modifies this`pos
      ensures Valid() && pos >= old(pos)
      ensures |old(Rest())| < n ==> bytes.None?
      ensures |old(Rest())| >= n ==> bytes == Some(old(Rest())[..n]) && Rest() == old(Rest())[n..]
    {
      if |data| - pos < n {
        return None;
      }
      bytes := Some(data[pos..pos + n]);
      assert data[pos..pos + n] == Rest()[..n] && data[pos + n..] == Rest()[n..];
      pos := pos + n;
    }

    /** n bytes followed by a line end. */
    method ReadPayload(n: nat) returns (payload: Option<string>)
      requires Valid()
      modifies this`pos
      ensures Valid() && pos >= old(pos)
      ensures var p := TakePayload(old(Rest()), n);
              if p.NoLine? then payload.None? else payload == Some(p.text) && Rest() == p.rest
    {
      ghost var rest := Rest();
      var bytes := ReadFull(n + 2);
      if bytes.None? || bytes.value[n] != '\r' || bytes.value[n + 1] != '\n' {
        return None;
      }
      assert bytes.value[..n] == rest[..n];
      payload := Some(bytes.value[..n]);
    }

    /** Accepts one frame and stops right after it, or rejects. */
    method ParseFrame(depth: nat) returns (ok: bool)
      requires Valid()
      modifies this`pos
      ensures Valid() && pos >= old(pos)
      ensures var r := Resp.ParseFrame(old(Rest()), depth);
              if r.Rejected? then !ok else ok && Rest() == r.rest && pos > old(pos)
      decreases |data| - pos, 0
    {
      if depth > MAX_DEPTH {
        return false;
      }
      var prefix := ReadByte();
      if prefix.None? {
        return false;
      }
      var line := ReadRespLine();
      if line.None? {
        return false;
      }
      ok := ParseRest(prefix.value, line.value, depth);
    }

    method ParseRest(mark: char, text: string, depth: nat) returns (ok: bool)
      requires Valid()
      modifies this`pos
      ensures Valid() && pos >= old(pos)
      ensures var r := ParseAfterLine(mark, text, old(Rest()), depth);
              if r.Rejected? then !ok else ok && Rest() == r.rest
      decreases |data| - pos, 2
    {
      if mark == '+' || mark == '-' {
        return '\0' !in text;
      }
      var n := ParseInt(text);
      if n.None? {
        return false;
      }
      match mark
      case ':' => return true;
      case '$' =>
        if n.value < -1 || n.value > MAX_BULK {
          return false;
        }
        if n.value == -1 {
          return true;
        }
        var payload := ReadPayload(n.value);
        return payload.Some?;
      case '*' =>
        if n.value < -1 || n.value > MAX_ITEMS {
          return false;
        }
        if n.value == -1 {
          return true;
        }
        ok := ParseList(n.value, depth + 1);
      case _ => return false;
    }

    method ParseList(count: nat, depth: nat) returns (ok: bool)
      requires Valid()
      modifies this`pos
      ensures Valid() && pos >= old(pos)
      ensures var r := ParseItems(old(Rest()), count, depth);
              if r.Rejected? then !ok else ok && Rest() == r.rest
      decreases |data| - pos, 1
    {
      ghost var start := Rest();
      for i := 0 to count
        invariant Valid() && pos >= old(pos)
        invariant ParseItems(start, count, depth) == ParseItems(Rest(), count - i, depth)
      {
        ok := ParseFrame(depth);
        if !ok {
          return;
        }
      }
      ok := true;
    }

    /** One client command: an inline line of words, or an array of bulk strings. */
    method ReadRequest() returns (args: Option<seq<string>>)
      requires Valid()
      modifies this`pos
      ensures Valid()
      ensures var r := ReadCommand(old(Rest()));
              if r.NoRequest? then args.None? else args == Some(r.args) && Rest() == r.rest
    {
      var first := ReadByte();
      if first.None? {
        return None;
      }
      var line := ReadString();
      if line.None? {
        return None;
      }
      if first.value != '*' {
        return Some(Fields(TrimSpace(ByteText(first.value) + line.value)));
      }
      var count := ParseInt(TrimSpace(line.value));
      if count.None? || count.value < 0 || count.value > MAX_ITEMS {
        return None;
      }
      args := ReadArguments(count.value);
    }

    method ReadArgument() returns (arg: Option<string>)
      requires Valid()
      modifies this`pos
      ensures Valid()
      ensures var p := ReadBulk(old(Rest()));
              if p.NoLine? then arg.None? else arg == Some(p.text) && Rest() == p.rest
    {
      var prefix := ReadByte();
      if prefix != Some('$') {
        return None;
      }
      var line := ReadString();
      if line.None? {
        return None;
      }
      var length := ParseInt(TrimSpace(line.value));
      if length.None? || length.value < 0 || length.value > MAX_BULK {
        return None;
      }
      arg := ReadPayload(length.value);
    }

    method ReadArguments(count: nat) returns (args: Option<seq<string>>)
      requires Valid()
      modifies this`pos
      ensures Valid()
      ensures var r := ReadArgs(old(Rest()), count);
              if r.NoRequest? then args.None? else args == Some(r.args) && Rest() == r.rest
    {
      var result := [];
      ghost var start := Rest();
      for i := 0 to count
        invariant Valid()
        invariant Collect(ReadBulk, [], start, count) == Collect(ReadBulk, result, Rest(), count - i)
      {
        var arg := ReadArgument();
        if arg.None? {
          CollectAll(ReadBulk, start, count);
          return None;
        }
        result := result + [arg.value];
      }
      CollectAll(ReadBulk, start, count);
      args := Some(result);
    }
  }

  /** Reading with the items found so far in hand. */
  ghost function Collect(one: string -> Line, found: seq<string>, s: string, n: nat): Request
    decreases n
  {
    if n == 0 then Request(found, s)
    else
      var p := one(s);
      if p.NoLine? then NoRequest else Collect(one, found + [p.text], p.rest, n - 1)
  }

  lemma {:induction false} CollectIsPrepended(one: string -> Line, found: seq<string>, s: string, n: nat)
    ensures Collect(one, found, s, n) == Prepended(found, ReadSeveral(one, s, n))
    decreases n
  {
    if n == 0 {
      assert found + [] == found;
    } else {
      var p := one(s);
      if p.Line? {
        CollectIsPrepended(one, found + [p.text], p.rest, n - 1);
        PrependMore(found, p.text, ReadSeveral(one, p.rest, n - 1));
      }
    }
  }

  lemma CollectAll(one: string -> Line, s: string, n: nat)
    ensures Collect(one, [], s, n) == ReadSeveral(one, s, n)
  {
    CollectIsPrepended(one, [], s, n);
    var r := ReadSeveral(one, s, n);
    if r.Request? {
      assert [] + r.args == r.args;
    }
  }

  function Prepended(args: seq<string>, r: Request): Request {
    if r.NoRequest? then r else Request(args + r.args, r.rest)
  }

  lemma PrependMore(args: seq<string>, x: string, r: Request)
    ensures Prepended(args, if r.NoRequest? then NoRequest else Request([x] + r.args, r.rest)) == Prepended(args + [x], r)
  {
    if r.Request? {
      assert args + ([x] + r.args) == (args + [x]) + r.args;
    }
  }

  /** Frames up to the end of the text, and at least one. */
  method ValidateReply(value: string) returns (ok: bool)
    ensures ok == ValidReply(value)
  {
    var reader := new Reader(value);
    assert reader.Rest() == value;
    var frames := 0;
    while reader.pos < |value|
      invariant reader.Valid() && reader.data == value && fresh(reader)
      invariant Frames(value).Some? <==> Frames(reader.Rest()).Some?
      invariant Frames(value).Some? ==> Frames(value).value == frames + Frames(reader.Rest()).value
      decreases |value| - reader.pos
    {
      var one := reader.ParseFrame(0);
      if !one {
        return false;
      }
      frames := frames + 1;
    }
    ok := frames > 0;
  }
}
