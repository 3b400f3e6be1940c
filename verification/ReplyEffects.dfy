/** What the replies tell a client: bytes, counts, numbers, roles and the fields of INFO. */
module ReplyEffects {
  import opened Basics
  import opened Text
  import opened StatePatches
  import opened Resp
  import opened RespCommands
  import opened RespReplies
  import opened Replication
  import ReplyRuns

  // ---------- bytes ----------

  /** The bytes of every reply but ROLE's. */
  lemma BytesWritten(line: string, n: int, v: string)
    ensures Bytes(Status(line)) == "+" + line + "\r\n" && Bytes(Fault(line)) == "-" + line + "\r\n"
    ensures Bytes(Integer(n)) == ":" + IntText(n) + "\r\n" && Bytes(Nil) == "$-1\r\n" && Bytes(EmptyList) == "*0\r\n"
    ensures Bytes(Text(v)) == "$" + Itoa(|v|) + "\r\n" + (v + "\r\n")
  {
  }

  /** The bytes of ROLE's replies. */
  lemma RoleBytes(host: string, port: nat, state: string)
    ensures Bytes(MasterRole) == "*3\r\n" + ("$6\r\nmaster\r\n" + (":0\r\n" + "*0\r\n"))
    ensures Bytes(SlaveRole(host, port, state)) ==
            "*5\r\n" + ("$5\r\nslave\r\n" + (Bytes(Text(host)) + (Bytes(Integer(port)) + (Bytes(Text(state)) + ":0\r\n"))))
  {
    FixedBytes();
    JoinThree(BulkText("master"), NumberText(0), Header('*', "0"));
    JoinFive(BulkText("slave"), BulkText(host), NumberText(port), BulkText(state), NumberText(0));
    JoinThree(NumberText(port), BulkText(state), NumberText(0));
  }

  lemma FixedBytes()
    ensures BulkText("master") == "$6\r\nmaster\r\n" && BulkText("slave") == "$5\r\nslave\r\n" && NumberText(0) == ":0\r\n"
    ensures Header('*', "3") == "*3\r\n" && Header('*', "5") == "*5\r\n" && Header('*', "0") == "*0\r\n"
  {
    assert Itoa(6) == "6" && Itoa(5) == "5" && Itoa(0) == "0";
  }

  lemma JoinThree(a: string, b: string, c: string)
    ensures Joined([a, b, c]) == a + (b + c)
  {
    assert [a, b, c][1..] == [b, c] && [b, c][1..] == [c] && [c][1..] == [];
    assert Joined([c]) == c + Joined([]) == c;
  }

  /** A value answered is read back by a client, whatever bytes it holds. */
  lemma ValueIsReadBack(v: string, rest: string)
    requires |v| <= MAX_BULK
    ensures ReadBulk(Bytes(Text(v)) + rest) == Line(v, rest)
  {
    ReadPrintedBulk(v, rest);
  }

  // ---------- fixed answers ----------

  /** PING and ECHO answer what they are given, in any spelling of their names. */
  lemma EchoAnswers(s: Server, args: seq<string>)
    requires args != []
    ensures ToUpper(args[0]) == "PING" ==> BuiltIn(s, args) == Some(if |args| == 1 then Status("PONG") else Text(args[1]))
    ensures ToUpper(args[0]) == "ECHO" && |args| == 2 ==> BuiltIn(s, args) == Some(Text(args[1]))
  {
    ReplyNamed(s, args, NameOf(args[0]));
  }

  /** The commands accepted without effect. */
  lemma FixedAnswers(s: Server, args: seq<string>)
    requires args != []
    ensures ToUpper(args[0]) in {"AUTH", "SELECT", "READONLY", "READWRITE", "QUIT"} ==> BuiltIn(s, args) == Some(Status("OK"))
    ensures ToUpper(args[0]) in {"CONFIG", "COMMAND"} ==> BuiltIn(s, args) == Some(EmptyList)
  {
    ReplyNamed(s, args, NameOf(args[0]));
  }

  /** What CLIENT answers: nil for the name nobody gave, else accepted without effect. */
  lemma ClientAnswers(s: Server, args: seq<string>)
    requires args != [] && ToUpper(args[0]) == "CLIENT"
    ensures BuiltIn(s, args) == Some(if |args| > 1 && ToLower(args[1]) == "getname" then Nil else Status("OK"))
  {
    ReplyNamed(s, args, Client);
    assert ToLower("GETNAME") == "getname";
  }

  /** The number of arguments the command must have, its name included; SET also takes more. */
  predicate WrongCount(args: seq<string>)
    requires args != []
  {
    var name := ToUpper(args[0]);
    || (name in {"ECHO", "GET", "INCR"} && |args| != 2)
    || (name == "SET" && |args| < 3)
    || (name in {"REPLICAOF", "SLAVEOF"} && |args| != 3)
  }

  predicate BadPort(args: seq<string>)
    requires args != []
  {
    && ToUpper(args[0]) in {"REPLICAOF", "SLAVEOF"} && |args| == 3
    && !(ToLower(args[1]) == "no" && ToLower(args[2]) == "one")
    && (ParseInt(args[2]).None? || !(1 <= ParseInt(args[2]).value <= 65535))
  }

  /** A recognised command is answered a fault exactly for a write to a replica, a wrong number of arguments, or a bad port. */
  lemma FaultsExactly(s: Server, args: seq<string>)
    requires args != [] && BuiltIn(s, args).Some?
    ensures BuiltIn(s, args).value.Fault? <==>
            (s.slave && ToUpper(args[0]) in {"SET", "DEL", "INCR"}) || WrongCount(args) || BadPort(args)
  {
    var name := NameOf(args[0]);
    ReplyNamed(s, args, name);
    FaultsOfName(name, s, args);
    WriteNames(args);
    OtherNames(args[0]);
  }

  lemma OtherNames(text: string)
    ensures NameOf(text) == Echo <==> ToUpper(text) == "ECHO"
    ensures NameOf(text) == Get <==> ToUpper(text) == "GET"
    ensures NameOf(text) == Name.ReplicaOf <==> ToUpper(text) in {"REPLICAOF", "SLAVEOF"}
  {
  }

  lemma FaultsOfName(name: Name, s: Server, args: seq<string>)
    requires args != [] && BuiltInNamed(name, s, args).Some?
    ensures BuiltInNamed(name, s, args).value.Fault? <==>
              || (s.slave && (name.Set? || name.Del? || name.Incr?))
              || ((name.Echo? || name.Get? || name.Incr?) && |args| != 2) || (name.Set? && |args| < 3)
              || (name.ReplicaOf? && |args| != 3)
              || (name.ReplicaOf? && |args| == 3 && !(ToLower(args[1]) == "no" && ToLower(args[2]) == "one")
                  && (ParseInt(args[2]).None? || !(1 <= ParseInt(args[2]).value <= 65535)))
  {
    assert ToLower("NO") == "no" && ToLower("ONE") == "one";
  }

  // ---------- EXISTS ----------

  /** The positions of the keys a GET finds. */
  function Found(s: Server, keys: seq<string>): set<nat> {
    set i: nat | i < |keys| && BuiltIn(s, ["GET", keys[i]]) != Some(Nil)
  }

  /** EXISTS answers how many of its keys, repeats counted each time, a GET answers with a value. */
  lemma ExistsIsRead(s: Server, args: seq<string>)
    requires args != [] && ToUpper(args[0]) == "EXISTS"
    ensures BuiltIn(s, args) == Some(Integer(|Found(s, args[1..])|))
  {
    ReplyNamed(s, args, Exists);
    PresentIsFound(s, args[1..]);
  }

  lemma {:induction false} PresentIsFound(s: Server, keys: seq<string>)
    ensures Present(s.kv, keys) == |Found(s, keys)|
  {
    if keys != [] {
      var k, last := |keys| - 1, keys[|keys| - 1];
      PresentIsFound(s, keys[..k]);
      PresentLast(s.kv, keys);
      GetIsRead(s, last);
      FoundLast(s, keys);
    }
  }

  lemma FoundLast(s: Server, keys: seq<string>)
    requires keys != []
    ensures var k := |keys| - 1;
            && k !in Found(s, keys[..k])
            && Found(s, keys) == Found(s, keys[..k]) + if BuiltIn(s, ["GET", keys[k]]) != Some(Nil) then {k} else {}
  {
  }

  lemma {:induction false} PresentLast(kv: Store, keys: seq<string>)
    requires keys != []
    ensures Present(kv, keys) == Present(kv, keys[..|keys| - 1]) + if keys[|keys| - 1] in kv then 1 else 0
  {
    if |keys| > 1 {
      PresentLast(kv, keys[1..]);
      assert keys[1..][..|keys| - 2] == keys[..|keys| - 1][1..];
    }
  }

  // ---------- INCR ----------

  function Increment(n: int): int {
    if n >= INT64_MAX then INT64_MIN else if n <= INT64_MIN then INT64_MIN + 1 else n + 1
  }

  /** INCR counts up from any number written in decimal, wrapping round at 64 bits; out of range is the nearest bound first. */
  lemma IncrCounts(s: Server, k: string, n: int)
    requires !s.slave && k in s.kv && s.kv[k] == IntText(n)
    ensures BuiltIn(s, ["INCR", k]) == Some(Integer(Increment(n)))
  {
    IncrNamed(s, k);
    LooseOfText(n);
  }

  lemma LooseOfText(n: int)
    ensures AtoiLoose(IntText(n)) == if n > INT64_MAX then INT64_MAX else if n < INT64_MIN then INT64_MIN else n
  {
    if n < 0 {
      MinusParses(-n);
    } else {
      DigitsParse(n);
    }
  }

  /** From no key, and from a text that is no number, it starts at one. */
  lemma IncrStarts(s: Server, k: string)
    requires !s.slave
    requires k in s.kv ==> s.kv[k] in {"", "-", "+"} || exists i :: 0 <= i < |s.kv[k]| && !IsDigit(s.kv[k][i]) && (i == 0 ==> s.kv[k][0] !in "+-")
    ensures BuiltIn(s, ["INCR", k]) == Some(Integer(1))
  {
    IncrNamed(s, k);
    if k in s.kv {
      NoNumeral(s.kv[k]);
    }
  }

  lemma NoNumeral(v: string)
    requires v in {"", "-", "+"} || exists i :: 0 <= i < |v| && !IsDigit(v[i]) && (i == 0 ==> v[0] !in "+-")
    ensures AtoiLoose(v) == 0
  {
    if v !in {"", "-", "+"} {
      var i :| 0 <= i < |v| && !IsDigit(v[i]) && (i == 0 ==> v[0] !in "+-");
      if i > 0 {
        assert v[1..][i - 1] == v[i];
      }
    }
  }

  lemma IncrNamed(s: Server, k: string)
    requires !s.slave
    ensures BuiltIn(s, ["INCR", k]) == Some(Integer(WrapInt64(AtoiLoose(if k in s.kv then s.kv[k] else "") + 1)))
  {
    assert ToUpper("INCR") == "INCR";
    ReplyNamed(s, ["INCR", k], Incr);
  }

  // ---------- REPLICAOF and ROLE ----------

  /** What a client's command does to the cluster. */
  function ClientOp(id: string, args: seq<string>, view: View): Op
    requires args != []
  {
    if ToUpper(args[0]) !in {"REPLICAOF", "SLAVEOF"} || |args| != 3 then Command(id, args)
    else if EqualFold(args[1], "NO") && EqualFold(args[2], "ONE") then ReplicaOfNoOne(id)
    else
      var port := ParseInt(args[2]);
      if port.None? || port.value < 1 || port.value > 65535 then Command(id, args) else Op.ReplicaOf(id, args[1], port.value, view)
  }

  /** REPLICAOF is answered OK exactly when it redirects or promotes; otherwise it is refused and nothing changes. */
  lemma ReplicaOfAnswered(c: Cluster, id: string, args: seq<string>, view: View, seed: int, health: Health)
    requires StoresExist(c) && id in c.nodes && args != [] && ToUpper(args[0]) in {"REPLICAOF", "SLAVEOF"}
    ensures var r := BuiltIn(ReplyRuns.ServerOf(c, id, seed, health), args);
            if ClientOp(id, args, view).Command? then r.Some? && r.value.Fault? && Step(c, ClientOp(id, args, view)) == c
            else r == Some(Status("OK"))
  {
    ReplyNamed(ReplyRuns.ServerOf(c, id, seed, health), args, Name.ReplicaOf);
    assert WriteOf(c.stores[c.nodes[id].store], args).None?;
  }

  /** ROLE tells the container's role; of a replica also its host, its port, and whether its link is up. */
  lemma RoleTells(c: Cluster, id: string, seed: int, health: Health)
    requires StoresExist(c) && id in c.nodes
    ensures var n, r := c.nodes[id], BuiltIn(ReplyRuns.ServerOf(c, id, seed, health), ["ROLE"]);
            r == Some(if n.role == Master then MasterRole
                      else SlaveRole(n.host, n.port, if n.link == Up then "connected" else "connect"))
  {
    assert ToUpper("ROLE") == "ROLE";
    ReplyNamed(ReplyRuns.ServerOf(c, id, seed, health), ["ROLE"], Name.Role);
  }

  // ---------- INFO ----------

  /** What a client finds under a name: the text behind the name and a colon, on the first line that begins so. */
  function FieldIn(lines: seq<string>, name: string): Option<string> {
    if lines == [] then None
    else
      var i := IndexOf(lines[0], ':');
      if i < |lines[0]| && lines[0][..i] == name then Some(TrimSuffix(lines[0][i + 1..], "\r")) else FieldIn(lines[1..], name)
  }

  function EntryIn(es: seq<Entry>, name: string): Option<string> {
    if es == [] then None
    else if es[0].Field? && es[0].key == name then Some(es[0].value)
    else EntryIn(es[1..], name)
  }

  predicate Readable(e: Entry) {
    match e
    case Heading(text) => ':' !in text && '\n' !in text
    case Field(key, value) => ':' !in key && '\n' !in key && '\n' !in value
  }

  lemma FirstPiece(line: string, rest: string)
    requires '\n' !in line
    ensures Pieces(line + "\n" + rest, '\n') == [line] + Pieces(rest, '\n')
  {
    var s := line + "\n" + rest;
    assert s[|line|] == '\n';
    assert forall j :: 0 <= j < |line| ==> s[j] == line[j] && line[j] in line;
    assert IndexOf(s, '\n') == |line| && s[..|line|] == line && s[|line| + 1..] == rest;
  }

  lemma EntryFound(e: Entry, name: string, more: seq<string>)
    requires Readable(e)
    ensures FieldIn([EntryText(e) + "\r"] + more, name) == if e.Field? && e.key == name then Some(e.value) else FieldIn(more, name)
  {
    var line, lines := EntryText(e) + "\r", [EntryText(e) + "\r"] + more;
    assert lines[1..] == more;
    match e
    case Heading(text) =>
      assert ':' !in line;
    case Field(key, value) =>
      assert line == key + ":" + (value + "\r");
      ColonAt(key, value + "\r");
      assert (value + "\r")[|value|..] == "\r" && (value + "\r")[..|value|] == value;
  }

  lemma ColonAt(key: string, value: string)
    requires ':' !in key
    ensures var line := key + ":" + value; IndexOf(line, ':') == |key| && line[..|key|] == key && line[|key| + 1..] == value
  {
    var line := key + ":" + value;
    assert line[|key|] == ':';
    assert forall j :: 0 <= j < |key| ==> line[j] == key[j] && key[j] in key;
  }

  lemma {:induction false} LinesRead(es: seq<Entry>, name: string)
    requires AllReadable(es)
    ensures FieldIn(Pieces(Lines(es), '\n'), name) == EntryIn(es, name)
  {
    if es == [] {
      assert FieldIn([""], name) == FieldIn([""][1..], name) == None;
    } else {
      var line, rest := EntryText(es[0]) + "\r", Lines(es[1..]);
      assert Lines(es) == line + "\n" + rest;
      FirstPiece(line, rest);
      EntryFound(es[0], name, Pieces(rest, '\n'));
      LinesRead(es[1..], name);
    }
  }

  /** No entry of that name before i. */
  predicate Misses(es: seq<Entry>, i: nat, name: string)
    requires i <= |es|
  {
    forall j :: 0 <= j < i ==> es[j].Heading? || es[j].key != name
  }

  lemma {:induction false} EntryAt(es: seq<Entry>, i: nat, name: string)
    requires i <= |es| && Misses(es, i, name)
    ensures i < |es| && es[i].Field? && es[i].key == name ==> EntryIn(es, name) == Some(es[i].value)
    ensures i == |es| ==> EntryIn(es, name) == None
  {
    if i > 0 {
      EntryAt(es[1..], i - 1, name);
    }
  }

  /** No line feed in the two texts that come from outside. */
  predicate PlainInfo(s: Server) {
    (s.slave ==> '\n' !in s.masterHost) && '\n' !in HealthText(s.health)
  }

  function Entries(s: Server): seq<Entry> {
    Opening() + (Middle(s) + Closing(s))
  }

  predicate AllReadable(es: seq<Entry>) {
    forall i :: 0 <= i < |es| ==> Readable(es[i])
  }

  predicate Plain(text: string) {
    ':' !in text && '\n' !in text
  }

  lemma HeadingsPlain()
    ensures Plain("# Server") && Plain("# Replication") && Plain("# DockerZero")
  {
  }

  lemma OpeningReadable()
    ensures AllReadable(Opening())
  {
    HeadingsPlain();
    OpeningWordsPlain();
  }

  lemma OpeningWordsPlain()
    ensures Plain("redis_version") && Plain("process_id") && Plain("7.4.0-docker-zero") && Plain("1")
  {
  }

  lemma ClosingReadable(s: Server)
    requires PlainInfo(s)
    ensures AllReadable(Closing(s))
  {
    HeadingsPlain();
    assert Plain("seed") && Plain("health");
    NumeralLine(if s.seed < 0 then -s.seed else s.seed);
  }

  lemma RoleKeysPlain()
    ensures Plain("role") && Plain("master_host") && Plain("master_port") && Plain("master_link_status")
    ensures Plain("slave") && Plain("up") && Plain("down")
  {
  }

  lemma MiddleReadable(s: Server)
    requires PlainInfo(s)
    ensures AllReadable(Middle(s))
  {
    RoleKeysPlain();
    assert Plain("connected_slaves") && Plain("master");
    NumeralLine(s.masterPort);
    NumeralLine(s.connected);
  }

  lemma ReadableJoin(a: seq<Entry>, b: seq<Entry>)
    requires AllReadable(a) && AllReadable(b)
    ensures AllReadable(a + b)
  {
  }

  function InfoField(s: Server, name: string): Option<string> {
    FieldIn(Pieces(InfoText(s), '\n'), name)
  }

  lemma InfoRead(s: Server, name: string)
    requires PlainInfo(s)
    ensures InfoField(s, name) == EntryIn(Entries(s), name)
  {
    OpeningReadable();
    MiddleReadable(s);
    ClosingReadable(s);
    ReadableJoin(Middle(s), Closing(s));
    ReadableJoin(Opening(), Middle(s) + Closing(s));
    LinesRead(Entries(s), name);
  }

  lemma InfoAt(s: Server, i: nat, name: string)
    requires PlainInfo(s) && i <= |Entries(s)| && Misses(Entries(s), i, name)
    ensures i < |Entries(s)| && Entries(s)[i].Field? && Entries(s)[i].key == name ==> InfoField(s, name) == Some(Entries(s)[i].value)
    ensures i == |Entries(s)| ==> InfoField(s, name) == None
  {
    InfoRead(s, name);
    EntryAt(Entries(s), i, name);
  }

  lemma ReplicaEntries(s: Server)
    requires s.slave
    ensures var es := Entries(s);
            && |es| == 11 && es[0].Heading? && es[1].key == "redis_version" && es[2].key == "process_id" && es[3].Heading?
            && es[4] == Field("role", "slave") && es[5] == Field("master_host", s.masterHost)
            && es[6] == Field("master_port", Itoa(s.masterPort))
            && es[7] == Field("master_link_status", if s.linkUp then "up" else "down")
            && es[8].Heading? && es[9] == Field("seed", IntText(s.seed)) && es[10] == Field("health", HealthText(s.health))
  {
  }

  lemma MasterEntries(s: Server)
    requires !s.slave
    ensures var es := Entries(s);
            && |es| == 9 && es[0].Heading? && es[1].key == "redis_version" && es[2].key == "process_id" && es[3].Heading?
            && es[4] == Field("role", "master") && es[5] == Field("connected_slaves", Itoa(s.connected))
            && es[6].Heading? && es[7] == Field("seed", IntText(s.seed)) && es[8] == Field("health", HealthText(s.health))
  {
  }

  /** INFO tells that a replica is one, its host, its port, and whether its link is up. */
  lemma ReplicaInfoTells(s: Server)
    requires PlainInfo(s) && s.slave
    ensures InfoField(s, "role") == Some("slave") && InfoField(s, "master_host") == Some(s.masterHost)
    ensures InfoField(s, "master_port") == Some(Itoa(s.masterPort))
    ensures InfoField(s, "master_link_status") == Some(if s.linkUp then "up" else "down")
  {
    ReplicaEntries(s);
    InfoAt(s, 4, "role");
    InfoAt(s, 5, "master_host");
    ReplicaLinkTells(s);
  }

  lemma KeysDiffer()
    ensures "master_port" != "master_host" && "master_port" != "role" && "master_port" != "process_id" && "master_port" != "redis_version"
    ensures "master_link_status" != "master_port" && "master_link_status" != "master_host" && "master_link_status" != "role"
    ensures "master_link_status" != "process_id" && "master_link_status" != "redis_version"
  {
    assert "master_host"[7] != "master_port"[7];
    assert |"master_port"| == 11 && |"master_link_status"| == 18;
  }

  lemma ReplicaMisses(s: Server)
    requires s.slave
    ensures |Entries(s)| == 11 && Misses(Entries(s), 6, "master_port") && Misses(Entries(s), 7, "master_link_status")
  {
    ReplicaEntries(s);
    KeysDiffer();
  }

  lemma ReplicaLinkTells(s: Server)
    requires PlainInfo(s) && s.slave
    ensures InfoField(s, "master_port") == Some(Itoa(s.masterPort))
    ensures InfoField(s, "master_link_status") == Some(if s.linkUp then "up" else "down")
  {
    ReplicaEntries(s);
    ReplicaMisses(s);
    InfoAt(s, 6, "master_port");
    InfoAt(s, 7, "master_link_status");
  }

  /** INFO tells that a master is one, how many replicas follow it, and of no master. */
  lemma MasterInfoTells(s: Server)
    requires PlainInfo(s) && !s.slave
    ensures InfoField(s, "role") == Some("master") && InfoField(s, "connected_slaves") == Some(Itoa(s.connected))
    ensures InfoField(s, "master_host") == None
  {
    MasterEntries(s);
    InfoAt(s, 4, "role");
    InfoAt(s, 5, "connected_slaves");
    InfoAt(s, 9, "master_host");
  }

  lemma ReplicaRest(s: Server)
    requires PlainInfo(s) && s.slave
    ensures InfoField(s, "seed") == Some(IntText(s.seed)) && InfoField(s, "health") == Some(HealthText(s.health))
  {
    ReplicaEntries(s);
    assert "seed"[0] != "role"[0];
    InfoAt(s, 9, "seed");
    InfoAt(s, 10, "health");
  }

  lemma MasterRest(s: Server)
    requires PlainInfo(s) && !s.slave
    ensures InfoField(s, "seed") == Some(IntText(s.seed)) && InfoField(s, "health") == Some(HealthText(s.health))
  {
    MasterEntries(s);
    assert "seed"[0] != "role"[0];
    InfoAt(s, 7, "seed");
    InfoAt(s, 8, "health");
  }

  /** INFO tells the seed and the health. */
  lemma InfoTells(s: Server)
    requires PlainInfo(s)
    ensures InfoField(s, "seed") == Some(IntText(s.seed)) && InfoField(s, "health") == Some(HealthText(s.health))
  {
    if s.slave {
      ReplicaRest(s);
    } else {
      MasterRest(s);
    }
  }

  /** What a client reads under a name in the INFO of a container. */
  function Told(c: Cluster, id: string, seed: int, health: Health, name: string): Option<string>
    requires StoresExist(c) && id in c.nodes
  {
    match BuiltIn(ReplyRuns.ServerOf(c, id, seed, health), ["INFO"])
    case Some(Text(text)) => FieldIn(Pieces(text, '\n'), name)
    case _ => None
  }

  lemma ToldIsField(c: Cluster, id: string, seed: int, health: Health, name: string)
    requires StoresExist(c) && id in c.nodes
    ensures Told(c, id, seed, health, name) == InfoField(ReplyRuns.ServerOf(c, id, seed, health), name)
  {
    ReplyRuns.InfoIsAName();
    ReplyNamed(ReplyRuns.ServerOf(c, id, seed, health), ["INFO"], Info);
  }

  /** The INFO of a container tells its role; of a replica its host and port and that the link is up exactly when it is. */
  lemma InfoOfReplica(c: Cluster, id: string, seed: int, health: Health)
    requires StoresExist(c) && id in c.nodes && '\n' !in c.nodes[id].host && '\n' !in HealthText(health)
    requires c.nodes[id].role == Slave
    ensures Told(c, id, seed, health, "role") == Some("slave") && Told(c, id, seed, health, "master_host") == Some(c.nodes[id].host)
    ensures Told(c, id, seed, health, "master_port") == Some(Itoa(c.nodes[id].port))
    ensures Told(c, id, seed, health, "master_link_status") == Some(if c.nodes[id].link == Up then "up" else "down")
  {
    ReplicaInfoTells(ReplyRuns.ServerOf(c, id, seed, health));
    ToldIsField(c, id, seed, health, "role");
    ToldIsField(c, id, seed, health, "master_host");
    ToldIsField(c, id, seed, health, "master_port");
    ToldIsField(c, id, seed, health, "master_link_status");
  }

  /** The INFO of a master counts the Redis containers that replicate it with their link up. */
  lemma InfoOfMaster(c: Cluster, id: string, seed: int, health: Health)
    requires StoresExist(c) && id in c.nodes && c.nodes[id].role == Master && '\n' !in HealthText(health)
    ensures Told(c, id, seed, health, "role") == Some("master")
    ensures var linked := set r | r in c.nodes && r != id && c.nodes[r].redis && c.nodes[r].role == Slave
                                  && c.nodes[r].master == Some(id) && c.nodes[r].link == Up;
            Told(c, id, seed, health, "connected_slaves") == Some(Itoa(|linked|))
  {
    MasterInfoTells(ReplyRuns.ServerOf(c, id, seed, health));
    ToldIsField(c, id, seed, health, "role");
    ToldIsField(c, id, seed, health, "connected_slaves");
    assert ReplyRuns.Followers(c, id) == set r | r in c.nodes && r != id && c.nodes[r].redis && c.nodes[r].role == Slave
                                                 && c.nodes[r].master == Some(id) && c.nodes[r].link == Up;
  }
}
