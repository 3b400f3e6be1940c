/** The replies of the built-in Redis: what they say about the store, and when they are RESP frames. */
module RespReplies {
  import opened Basics
  import opened Text
  import opened StatePatches
  import opened Resp
  import opened RespCommands
  import Replication

  // ---------- replies ----------

  /** What a reply may depend on; `connected` counts the replicas linked to this server. */
  datatype Server = Server(
    slave: bool, kv: Replication.Store, masterHost: string, masterPort: nat, linkUp: bool,
    seed: int, health: Health, connected: nat)

  /** What a handler writes. */
  datatype Reply =
    | Status(line: string)
    | Fault(line: string)
    | Integer(n: int)
    | Text(value: string)
    | Nil
    | EmptyList
    | MasterRole
    | SlaveRole(host: string, port: nat, state: string)

  function NumberText(n: int): string {
    Header(':', IntText(n))
  }

  /** The bytes of a reply. */
  function Bytes(r: Reply): string {
    match r
    case Status(line) => Header('+', line)
    case Fault(line) => Header('-', line)
    case Integer(n) => NumberText(n)
    case Text(v) => BulkText(v)
    case Nil => Header('$', "-1")
    case EmptyList => Header('*', "0")
    case MasterRole => Header('*', "3") + Joined([BulkText("master"), NumberText(0), Header('*', "0")])
    case SlaveRole(host, port, state) =>
      Header('*', "5") + Joined([BulkText("slave"), BulkText(host), NumberText(port), BulkText(state), NumberText(0)])
  }

  function Joined(parts: seq<string>): string {
    if parts == [] then "" else parts[0] + Joined(parts[1..])
  }

  const OK := "OK"
  const PONG := "PONG"
  const READ_ONLY := "READONLY You can't write " + "against a read only replica."
  const BAD_PORT := "ERR Invalid master port"
  const UNKNOWN := "ERR unknown command '"
  const CONNECTED := "connected"
  const CONNECTING := "connect"

  function Arity(name: string): string {
    "ERR wrong number of arguments for '" + name + "' command"
  }

  function Present(kv: Replication.Store, keys: seq<string>): nat {
    if keys == [] then 0 else (if keys[0] in kv then 1 else 0) + Present(kv, keys[1..])
  }

  /** Deleting in order: a repeated key counts once. */
  function Deleted(kv: Replication.Store, keys: seq<string>): nat {
    if keys == [] then 0
    else if keys[0] in kv then 1 + Deleted(kv - {keys[0]}, keys[1..])
    else Deleted(kv, keys[1..])
  }

  function ReplicaOfReply(args: seq<string>): Reply {
    if |args| != 3 then Fault(Arity("replicaof"))
    else if EqualFold(args[1], "NO") && EqualFold(args[2], "ONE") then Status(OK)
    else
      var port := ParseInt(args[2]);
      if port.None? || port.value < 1 || port.value > 65535 then Fault(BAD_PORT) else Status(OK)
  }

  function RoleReply(s: Server): Reply {
    if s.slave then SlaveRole(s.masterHost, s.masterPort, if s.linkUp then CONNECTED else CONNECTING) else MasterRole
  }

  // ---------- the INFO text ----------

  /** A line of INFO: a heading, or a field with its value. */
  datatype Entry = Heading(text: string) | Field(key: string, value: string)

  function HealthText(h: Health): string {
    match h
    case NoHealth => ""
    case Starting => "starting"
    case Healthy => "healthy"
    case Unhealthy => "unhealthy"
    case OtherHealth(text) => text
  }

  function Opening(): seq<Entry> {
    [Heading("# Server"), Field("redis_version", "7.4.0-docker-zero"), Field("process_id", "1"), Heading("# Replication")]
  }

  function Middle(s: Server): seq<Entry> {
    if s.slave
    then [Field("role", "slave"), Field("master_host", s.masterHost), Field("master_port", Itoa(s.masterPort)),
          Field("master_link_status", if s.linkUp then "up" else "down")]
    else [Field("role", "master"), Field("connected_slaves", Itoa(s.connected))]
  }

  function Closing(s: Server): seq<Entry> {
    [Heading("# DockerZero"), Field("seed", IntText(s.seed)), Field("health", HealthText(s.health))]
  }

  function EntryText(e: Entry): string {
    match e
    case Heading(text) => text
    case Field(key, value) => key + ":" + value
  }

  function Lines(es: seq<Entry>): string {
    if es == [] then "" else EntryText(es[0]) + "\r\n" + Lines(es[1..])
  }

  function InfoText(s: Server): string {
    Lines(Opening() + (Middle(s) + Closing(s)))
  }

  /** What a replica's INFO text holds besides the host. */
  function InfoFrame(s: Server): nat {
    |InfoText(s.(masterHost := ""))|
  }

  datatype Name =
    | Ping | Echo | Set | Get | Del | Exists | Incr | Info | Role | ReplicaOf | Accepting | Client | Listing
    | OtherName

  /** AUTH, SELECT, READONLY, READWRITE and QUIT are accepted as they are; CONFIG and COMMAND list nothing. */
  function NameOf(text: string): Name {
    var name := ToUpper(text);
    if name == "PING" then Ping
    else if name == "ECHO" then Echo
    else if name == "SET" then Set
    else if name == "GET" then Get
    else if name == "DEL" then Del
    else if name == "EXISTS" then Exists
    else if name == "INCR" then Incr
    else if name == "INFO" then Info
    else if name == "ROLE" then Role
    else if name == "REPLICAOF" || name == "SLAVEOF" then ReplicaOf
    else if name == "AUTH" || name == "SELECT" || name == "READONLY" || name == "READWRITE" || name == "QUIT" then Accepting
    else if name == "CLIENT" then Client
    else if name == "CONFIG" || name == "COMMAND" then Listing
    else OtherName
  }

  predicate IsWriteName(n: Name) {
    n.Set? || n.Del? || n.Incr?
  }

  /** The reply to a command whose name is recognised; None for any other name. */
  function BuiltIn(s: Server, args: seq<string>): Option<Reply>
    requires args != []
  {
    BuiltInNamed(NameOf(args[0]), s, args)
  }

  function BuiltInNamed(name: Name, s: Server, args: seq<string>): Option<Reply>
    requires args != []
  {
    if s.slave && IsWriteName(name) then Some(Fault(READ_ONLY))
    else
      match name
      case Ping => Some(if |args| > 1 then Text(args[1]) else Status(PONG))
      case Echo => Some(if |args| != 2 then Fault(Arity("echo")) else Text(args[1]))
      case Set => Some(if |args| < 3 then Fault(Arity("set")) else Status(OK))
      case Get =>
        Some(if |args| != 2 then Fault(Arity("get")) else if args[1] !in s.kv then Nil else Text(s.kv[args[1]]))
      case Del => Some(Integer(Deleted(s.kv, args[1..])))
      case Exists => Some(Integer(Present(s.kv, args[1..])))
      case Incr =>
        Some(if |args| != 2 then Fault(Arity("incr"))
             else Integer(WrapInt64(AtoiLoose(Replication.Lookup(s.kv, args[1])) + 1)))
      case Info => Some(Text(InfoText(s)))
      case Role => Some(RoleReply(s))
      case ReplicaOf => Some(ReplicaOfReply(args))
      case Accepting => Some(Status(OK))
      case Client => Some(if |args| > 1 && EqualFold(args[1], "GETNAME") then Nil else Status(OK))
      case Listing => Some(EmptyList)
      case OtherName => None
  }

  function Unknown(name: string): Reply {
    Fault(UNKNOWN + ToLower(ToUpper(name)) + "'")
  }

  /** The text is one well-formed frame and nothing else. */
  ghost predicate OneFrame(s: string) {
    ParseFrame(s, 0) == Accepted("")
  }

  lemma FrameText(f: Frame, s: string)
    requires WellFormed(f, 0) && s == Print(f)
    ensures OneFrame(s)
  {
    PrintedIsAccepted(f, "", 0);
    assert Print(f) + "" == Print(f);
  }

  predicate Clean(line: string) {
    '\n' !in line && '\0' !in line
  }

  lemma LineFrame(mark: char, line: string)
    requires mark == '+' || mark == '-'
    ensures OneFrame(Header(mark, line)) <==> Clean(line)
  {
    var s := Header(mark, line);
    if '\n' !in line {
      ParseHeader(mark, line, "", 0);
      assert s + "" == s;
    } else {
      var t := line + "\r\n";
      assert s[0] == mark && s[1..] == t;
      EarlyNewline(line);
      assert ParseFrame(s, 0).Accepted? ==> ParseFrame(s, 0).rest == ReadLine(t).rest;
    }
  }

  /** A newline inside the line ends it early, with something left over. */
  lemma EarlyNewline(line: string)
    requires '\n' in line
    ensures ReadLine(line + "\r\n").Line? ==> ReadLine(line + "\r\n").rest != ""
  {
    var t, i := line + "\r\n", IndexOf(line, '\n');
    assert i < |line| && t[i] == '\n' && forall j :: 0 <= j < i ==> t[j] == line[j];
    assert IndexOf(t, '\n') == i;
    assert |t[i + 1..]| >= 2;
  }

  lemma BulkFrame(v: string)
    requires |v| <= MAX_BULK
    ensures ItemPrints(Bulk(Itoa(|v|), v), BulkText(v)) && OneFrame(BulkText(v))
  {
    IntTextParses(|v|);
    var f := Bulk(Itoa(|v|), v);
    assert Print(f) == BulkText(v);
    FrameText(f, BulkText(v));
  }

  /** A value prints as one frame exactly when it is within the bound. */
  lemma BulkExact(v: string)
    ensures OneFrame(BulkText(v)) <==> |v| <= MAX_BULK
  {
    if |v| <= MAX_BULK {
      BulkFrame(v);
    } else {
      LongBulk(v, "", 0);
      assert BulkText(v) + "" == BulkText(v);
    }
  }

  lemma LongBulk(v: string, rest: string, depth: nat)
    requires |v| > MAX_BULK && depth <= MAX_DEPTH
    ensures ParseFrame(BulkText(v) + rest, depth).Rejected?
  {
    DigitsParse(|v|);
    NumeralLine(|v|);
    assert BulkText(v) + rest == Header('$', Itoa(|v|)) + (v + "\r\n" + rest);
    ParseHeader('$', Itoa(|v|), v + "\r\n" + rest, depth);
  }

  lemma NumeralLine(n: nat)
    ensures '\n' !in Itoa(n)
  {
    var s := Itoa(n);
    assert forall c :: c in s ==> IsDigit(c);
  }

  lemma NumberFrame(n: int)
    requires INT64_MIN <= n <= INT64_MAX
    ensures ItemPrints(Number(IntText(n)), NumberText(n)) && OneFrame(NumberText(n))
  {
    IntTextParses(n);
    var f := Number(IntText(n));
    assert Print(f) == NumberText(n);
    FrameText(f, NumberText(n));
  }

  lemma {:induction false} DeletedBound(kv: Replication.Store, keys: seq<string>)
    ensures Deleted(kv, keys) <= |keys| && Present(kv, keys) <= |keys|
  {
    if keys != [] {
      DeletedBound(kv - {keys[0]}, keys[1..]);
      DeletedBound(kv, keys[1..]);
    }
  }

  /** A frame that may stand inside an array and prints as the text. */
  predicate ItemPrints(f: Frame, text: string) {
    WellFormed(f, 1) && Print(f) == text
  }

  /** An array whose items print as the given parts. */
  lemma ArrayFrame(items: seq<Frame>, parts: seq<string>)
    requires |items| == |parts| <= MAX_ITEMS
    requires forall i :: 0 <= i < |items| ==> ItemPrints(items[i], parts[i])
    ensures OneFrame(Header('*', Itoa(|items|)) + Joined(parts))
  {
    IntTextParses(|items|);
    ItemsJoin(items, parts);
    var f := Array(Itoa(|items|), items);
    FrameText(f, Header('*', Itoa(|items|)) + Joined(parts));
  }

  lemma {:induction false} ItemsJoin(items: seq<Frame>, parts: seq<string>)
    requires |items| == |parts|
    requires forall i :: 0 <= i < |items| ==> ItemPrints(items[i], parts[i])
    ensures AllWellFormed(items, 1) && PrintAll(items) == Joined(parts)
  {
    if items != [] {
      ItemsJoin(items[1..], parts[1..]);
    }
  }

  /** The reply fits the frame bounds. */
  predicate BoundedReply(r: Reply) {
    match r
    case Status(line) => Clean(line)
    case Fault(line) => Clean(line)
    case Text(v) => |v| <= MAX_BULK
    case SlaveRole(host, _, _) => |host| <= MAX_BULK
    case _ => true
  }

  /** Numbers of 64 bits, ports, and one of the two link states. */
  predicate InRange(r: Reply) {
    && (r.Integer? ==> INT64_MIN <= r.n <= INT64_MAX)
    && (r.SlaveRole? ==> r.port <= 65535 && (r.state == CONNECTED || r.state == CONNECTING))
  }

  lemma SmallNumerals()
    ensures Itoa(0) == "0" && Itoa(3) == "3" && Itoa(5) == "5" && IntText(-1) == "-1"
  {
  }

  /** A reply prints as exactly one frame if and only if it is bounded. */
  lemma BytesExact(r: Reply)
    requires InRange(r)
    ensures OneFrame(Bytes(r)) <==> BoundedReply(r)
  {
    match r
    case Status(line) => LineFrame('+', line);
    case Fault(line) => LineFrame('-', line);
    case Integer(n) => NumberFrame(n);
    case Text(v) => BulkExact(v);
    case Nil => NullFrame();
    case EmptyList => EmptyArray();
    case MasterRole => ThreeFrame("master", 0);
    case SlaveRole(host, port, state) => SlaveRoleExact(host, port, state);
  }

  lemma SlaveRoleExact(host: string, port: nat, state: string)
    requires port <= 65535 && (state == CONNECTED || state == CONNECTING)
    ensures OneFrame(Bytes(SlaveRole(host, port, state))) <==> |host| <= MAX_BULK
  {
    FixedLinesClean();
    if |host| <= MAX_BULK {
      FiveFrame("slave", host, port, state, 0);
    } else {
      LongSecondItem("slave", host, Joined([NumberText(port), BulkText(state), NumberText(0)]));
      JoinFive(BulkText("slave"), BulkText(host), NumberText(port), BulkText(state), NumberText(0));
    }
  }

  lemma JoinFive(a: string, b: string, c: string, d: string, e: string)
    ensures Joined([a, b, c, d, e]) == a + (b + Joined([c, d, e]))
  {
    assert [a, b, c, d, e][1..] == [b, c, d, e] && [b, c, d, e][1..] == [c, d, e];
  }

  lemma BulkAccepted(v: string, tail: string)
    requires |v| <= MAX_BULK
    ensures ParseFrame(BulkText(v) + tail, 1) == Accepted(tail)
  {
    BulkFrame(v);
    PrintedIsAccepted(Bulk(Itoa(|v|), v), tail, 1);
  }

  lemma FiveRejected(items: string)
    requires ParseItems(items, 5, 1).Rejected?
    ensures !OneFrame(Header('*', "5") + items)
  {
    SmallNumerals();
    DigitsParse(5);
    ParseHeader('*', "5", items, 0);
  }

  /** An array is not accepted once its second item is too long. */
  lemma LongSecondItem(first: string, second: string, rest: string)
    requires |first| <= MAX_BULK < |second|
    ensures !OneFrame(Header('*', "5") + (BulkText(first) + (BulkText(second) + rest)))
  {
    var tail := BulkText(second) + rest;
    BulkAccepted(first, tail);
    LongBulk(second, rest, 1);
    SecondRejected(BulkText(first) + tail, tail, 5);
    FiveRejected(BulkText(first) + tail);
  }

  lemma SecondRejected(items: string, tail: string, n: nat)
    requires n >= 2 && ParseFrame(items, 1) == Accepted(tail) && ParseFrame(tail, 1).Rejected?
    ensures ParseItems(items, n, 1).Rejected?
  {
    assert ParseItems(tail, n - 1, 1).Rejected?;
  }

  lemma NullFrame()
    ensures OneFrame(Header('$', "-1"))
  {
    SmallNumerals();
    IntTextParses(-1);
    var f := NullBulk(IntText(-1));
    assert Print(f) == Header('$', IntText(-1));
    FrameText(f, Header('$', IntText(-1)));
  }

  lemma ThreeFrame(role: string, n: nat)
    requires |role| <= MAX_BULK && n <= 65535
    ensures OneFrame(Header('*', "3") + Joined([BulkText(role), NumberText(n), Header('*', "0")]))
  {
    SmallNumerals();
    BulkFrame(role);
    NumberFrame(n);
    EmptyArray();
    ThreeItems(Bulk(Itoa(|role|), role), BulkText(role), Number(IntText(n)), NumberText(n), Array(Itoa(0), []), Header('*', "0"));
  }

  lemma ThreeItems(f0: Frame, t0: string, f1: Frame, t1: string, f2: Frame, t2: string)
    requires ItemPrints(f0, t0) && ItemPrints(f1, t1) && ItemPrints(f2, t2)
    ensures OneFrame(Header('*', Itoa(3)) + Joined([t0, t1, t2]))
  {
    ArrayFrame([f0, f1, f2], [t0, t1, t2]);
  }

  lemma FiveItems(f0: Frame, t0: string, f1: Frame, t1: string, f2: Frame, t2: string, f3: Frame, t3: string, f4: Frame, t4: string)
    requires ItemPrints(f0, t0) && ItemPrints(f1, t1) && ItemPrints(f2, t2) && ItemPrints(f3, t3) && ItemPrints(f4, t4)
    ensures OneFrame(Header('*', Itoa(5)) + Joined([t0, t1, t2, t3, t4]))
  {
    ArrayFrame([f0, f1, f2, f3, f4], [t0, t1, t2, t3, t4]);
  }

  lemma FiveFrame(role: string, host: string, port: nat, state: string, n: nat)
    requires |role| <= MAX_BULK && |host| <= MAX_BULK && port <= 65535 && |state| <= MAX_BULK && n <= 65535
    ensures OneFrame(Header('*', "5") + Joined([BulkText(role), BulkText(host), NumberText(port), BulkText(state), NumberText(n)]))
  {
    SmallNumerals();
    BulkFrame(role);
    BulkFrame(host);
    NumberFrame(port);
    BulkFrame(state);
    NumberFrame(n);
    FiveItems(Bulk(Itoa(|role|), role), BulkText(role), Bulk(Itoa(|host|), host), BulkText(host),
              Number(IntText(port)), NumberText(port), Bulk(Itoa(|state|), state), BulkText(state),
              Number(IntText(n)), NumberText(n));
  }

  lemma EmptyArray()
    ensures ItemPrints(Array(Itoa(0), []), Header('*', "0")) && OneFrame(Header('*', "0"))
  {
    SmallNumerals();
    IntTextParses(0);
    var f := Array(Itoa(0), []);
    assert Print(f) == Header('*', "0");
    FrameText(f, Header('*', "0"));
  }

  /** Stored values within the bound, and machine integers; nothing is asked of the master's host. */
  predicate BoundedServer(s: Server) {
    && s.masterPort <= 65535 && INT64_MIN <= s.seed <= INT64_MAX && KnownHealth(s.health) && s.connected <= INT64_MAX
    && forall k :: k in s.kv ==> |s.kv[k]| <= MAX_BULK
  }

  /** Two replies of a replica carry its master's host, and must have room for it. */
  predicate HostFits(name: Name, s: Server) {
    && (name.Info? && s.slave ==> |s.masterHost| + InfoFrame(s) <= MAX_BULK)
    && (name.Role? && s.slave ==> |s.masterHost| <= MAX_BULK)
  }

  // ---------- the length of numbers and of the INFO text ----------

  /** The greatest number of k digits. */
  function Nines(k: nat): nat {
    if k == 0 then 0 else 10 * Nines(k - 1) + 9
  }

  lemma {:induction false} ItoaShort(n: nat, k: nat)
    requires k > 0 && n <= Nines(k)
    ensures |Itoa(n)| <= k
  {
    if n >= 10 {
      assert k > 1 by { assert Nines(1) == 9 by { assert Nines(0) == 0; } }
      ItoaShort(n / 10, k - 1);
    }
  }

  lemma NineteenDigits()
    ensures Nines(19) > INT64_MAX
  {
    assert Nines(5) == 99999;
    assert Nines(10) == 9999999999;
    assert Nines(15) == 999999999999999;
    assert Nines(19) == 9999999999999999999;
  }

  lemma IntTextShort(n: int)
    requires INT64_MIN <= n <= INT64_MAX
    ensures |IntText(n)| <= 20
  {
    NineteenDigits();
    ItoaShort(if n < 0 then -n else n, 19);
  }

  function Length(es: seq<Entry>): nat {
    if es == [] then 0 else |EntryText(es[0])| + 2 + Length(es[1..])
  }

  lemma {:induction false} LinesLength(es: seq<Entry>)
    ensures |Lines(es)| == Length(es)
  {
    if es != [] {
      LinesLength(es[1..]);
    }
  }

  lemma LengthFirst(es: seq<Entry>)
    requires es != []
    ensures Length(es) == |EntryText(es[0])| + 2 + Length(es[1..])
  {
  }

  lemma {:induction false} LengthAdd(a: seq<Entry>, b: seq<Entry>)
    ensures Length(a + b) == Length(a) + Length(b)
  {
    if a == [] {
      assert a + b == b;
    } else {
      LengthAdd(a[1..], b);
      assert (a + b)[1..] == a[1..] + b && (a + b)[0] == a[0];
      LengthFirst(a);
      LengthFirst(a + b);
    }
  }

  lemma LinesAdd(a: seq<Entry>, b: seq<Entry>)
    ensures |Lines(a + b)| == |Lines(a)| + |Lines(b)|
  {
    LinesLength(a);
    LinesLength(b);
    LinesLength(a + b);
    LengthAdd(a, b);
  }

  lemma LinesOne(e: Entry)
    ensures |Lines([e])| == |EntryText(e)| + 2
  {
    assert [e][1..] == [];
  }

  lemma LinesTwo(a: Entry, b: Entry)
    ensures |Lines([a, b])| == |EntryText(a)| + |EntryText(b)| + 4
  {
    LinesOne(a);
    LinesOne(b);
    LinesAdd([a], [b]);
    assert [a, b] == [a] + [b];
  }

  lemma LinesFour(a: Entry, b: Entry, c: Entry, d: Entry)
    ensures |Lines([a, b, c, d])| == |EntryText(a)| + |EntryText(b)| + |EntryText(c)| + |EntryText(d)| + 8
  {
    LinesTwo(a, b);
    LinesTwo(c, d);
    LinesAdd([a, b], [c, d]);
    assert [a, b, c, d] == [a, b] + [c, d];
  }

  lemma InfoParts(s: Server)
    ensures |InfoText(s)| == |Lines(Opening())| + |Lines(Middle(s))| + |Lines(Closing(s))|
    ensures 50 < |Lines(Opening())| <= 100
  {
    LinesAdd(Opening(), Middle(s) + Closing(s));
    LinesAdd(Middle(s), Closing(s));
    var o := Opening();
    LinesFour(o[0], o[1], o[2], o[3]);
    assert o == [o[0], o[1], o[2], o[3]];
  }

  lemma ClosingShort(s: Server)
    requires BoundedServer(s)
    ensures |Lines(Closing(s))| <= 120
  {
    var c := Closing(s);
    LinesOne(c[0]);
    LinesTwo(c[1], c[2]);
    LinesAdd([c[0]], [c[1], c[2]]);
    assert c == [c[0]] + [c[1], c[2]];
    IntTextShort(s.seed);
    assert |HealthText(s.health)| <= 9;
  }

  /** A replica's INFO text is as long as the host and the frame around it. */
  lemma InfoLength(s: Server)
    requires s.slave
    ensures |InfoText(s)| == |s.masterHost| + InfoFrame(s) && InfoFrame(s) > 50
  {
    var t := s.(masterHost := "");
    InfoParts(s);
    InfoParts(t);
    var m, n := Middle(s), Middle(t);
    LinesFour(m[0], m[1], m[2], m[3]);
    LinesFour(n[0], n[1], n[2], n[3]);
  }

  lemma MasterInfoFits(s: Server)
    requires BoundedServer(s) && !s.slave
    ensures |InfoText(s)| <= MAX_BULK
  {
    InfoParts(s);
    ClosingShort(s);
    var m := Middle(s);
    LinesTwo(m[0], m[1]);
    IntTextShort(s.connected);
  }

  lemma InfoExact(s: Server)
    requires BoundedServer(s)
    ensures |InfoText(s)| <= MAX_BULK <==> HostFits(Info, s)
  {
    if s.slave {
      InfoLength(s);
    } else {
      MasterInfoFits(s);
    }
  }

  lemma FixedLinesClean()
    ensures Clean(OK) && Clean(PONG) && Clean(BAD_PORT)
    ensures |CONNECTED| <= MAX_BULK && |CONNECTING| <= MAX_BULK
  {
  }

  lemma ReadOnlyClean()
    ensures Clean(READ_ONLY)
  {
    CleanJoin("READONLY You can't write ", "against a read only replica.");
  }

  lemma ArityClean(name: string)
    requires Clean(name)
    ensures Clean(Arity(name))
  {
    var a, b := "ERR wrong number of arguments for '", "' command";
    assert Clean(a) && Clean(b);
    CleanJoin(a, name);
    CleanJoin(a + name, b);
  }

  lemma CleanJoin(a: string, b: string)
    ensures Clean(a + b) <==> Clean(a) && Clean(b)
  {
    assert forall c :: c in a + b <==> c in a || c in b;
  }

  lemma BuiltInRange(name: Name, s: Server, args: seq<string>)
    requires args != [] && Bounded(args) && BoundedServer(s) && BuiltInNamed(name, s, args).Some?
    ensures InRange(BuiltInNamed(name, s, args).value)
  {
    DeletedBound(s.kv, args[1..]);
  }

  lemma FaultsClean()
    ensures Clean(READ_ONLY) && Clean(Arity("echo")) && Clean(Arity("set")) && Clean(Arity("get")) && Clean(Arity("incr"))
    ensures Clean(Arity("replicaof"))
  {
    ReadOnlyClean();
    ArityClean("echo");
    ArityClean("set");
    ArityClean("get");
    ArityClean("incr");
    ArityClean("replicaof");
  }

  /** A fault or a status is always a clean line. */
  lemma LinesClean(name: Name, s: Server, args: seq<string>)
    requires args != [] && BuiltInNamed(name, s, args).Some?
    ensures var r := BuiltInNamed(name, s, args).value;
            (r.Status? ==> Clean(r.line)) && (r.Fault? ==> Clean(r.line))
  {
    FaultsClean();
    FixedLinesClean();
  }

  lemma BuiltInBounded(name: Name, s: Server, args: seq<string>)
    requires args != [] && Bounded(args) && BoundedServer(s) && BuiltInNamed(name, s, args).Some?
    ensures BoundedReply(BuiltInNamed(name, s, args).value) <==> HostFits(name, s)
  {
    LinesClean(name, s, args);
    if name.Info? {
      InfoExact(s);
    }
  }

  // ---------- replies and the store ----------

  lemma WithoutFirst(kv: Replication.Store, keys: seq<string>)
    requires keys != []
    ensures Replication.WithoutKeys(kv, keys) == Replication.WithoutKeys(kv - {keys[0]}, keys[1..])
  {
    assert forall k :: k in keys <==> k == keys[0] || k in keys[1..];
  }

  lemma WithoutNothing(kv: Replication.Store)
    ensures Replication.WithoutKeys(kv, []) == kv
  {
    var none: seq<string> := [];
    assert (set k | k in none) == {};
  }

  lemma OneFewer(kv: Replication.Store, k: string)
    ensures |kv - {k}| + (if k in kv then 1 else 0) == |kv|
    ensures k !in kv ==> kv - {k} == kv
  {
    var rest := kv - {k};
    assert rest.Keys == kv.Keys - {k};
    assert |rest| == |rest.Keys| && |kv| == |kv.Keys|;
  }

  /** The number DEL answers is the number of keys the store has lost. */
  lemma {:induction false} DeletedIsLoss(kv: Replication.Store, keys: seq<string>)
    ensures Deleted(kv, keys) + |Replication.WithoutKeys(kv, keys)| == |kv|
  {
    if keys == [] {
      WithoutNothing(kv);
    } else {
      DeletedIsLoss(kv - {keys[0]}, keys[1..]);
      WithoutFirst(kv, keys);
      OneFewer(kv, keys[0]);
    }
  }

  function GetReply(kv: Replication.Store, k: string): Reply {
    if k in kv then Text(kv[k]) else Nil
  }

  /** GET answers what the store holds. */
  lemma GetIsRead(s: Server, k: string)
    ensures BuiltIn(s, ["GET", k]) == Some(GetReply(s.kv, k))
  {
    assert ToUpper("GET") == "GET";
    assert NameOf("GET") == Get;
  }

  lemma WriteNames(args: seq<string>)
    requires args != []
    ensures var name := NameOf(args[0]);
            && (name.Set? <==> ToUpper(args[0]) == "SET")
            && (name.Del? <==> ToUpper(args[0]) == "DEL")
            && (name.Incr? <==> ToUpper(args[0]) == "INCR")
  {
  }

  /** A master changes its store exactly for the three write commands, and exactly when it does not answer a fault. */
  lemma WritesAreAcknowledged(s: Server, args: seq<string>)
    requires args != [] && !s.slave
    ensures Replication.WriteOf(s.kv, args).Some? <==>
            IsWriteName(NameOf(args[0])) && BuiltIn(s, args).Some? && !BuiltIn(s, args).value.Fault?
  {
    WriteNames(args);
    ReplyNamed(s, args, NameOf(args[0]));
    if IsWriteName(NameOf(args[0])) {
      WriteFaults(s, args, NameOf(args[0]));
    }
  }

  lemma ReplyNamed(s: Server, args: seq<string>, name: Name)
    requires args != [] && NameOf(args[0]) == name
    ensures BuiltIn(s, args) == BuiltInNamed(name, s, args)
  {
  }

  lemma WriteFaults(s: Server, args: seq<string>, name: Name)
    requires args != [] && !s.slave && IsWriteName(name)
    ensures BuiltInNamed(name, s, args).Some?
    ensures BuiltInNamed(name, s, args).value.Fault? <==> (name.Set? && |args| < 3) || (name.Incr? && |args| != 2)
  {
  }

  /** The server after its store has changed. */
  function WithStore(s: Server, kv: Replication.Store): Server {
    s.(kv := kv)
  }

  /** SET answers OK; a later GET of the key answers the value set, and GET of any other key answers as before. */
  lemma SetIsRead(s: Server, args: seq<string>, k: string)
    requires |args| >= 3 && ToUpper(args[0]) == "SET" && !s.slave
    ensures BuiltIn(s, args) == Some(Status(OK))
    ensures var w := Replication.WriteOf(s.kv, args);
            && w.Some?
            && BuiltIn(WithStore(s, w.value.kv), ["GET", k]) == if k == args[1] then Some(Text(args[2])) else BuiltIn(s, ["GET", k])
  {
    WriteNames(args);
    ReplyNamed(s, args, Set);
    SetHolds(s.kv, args, k);
    GetIsRead(s, k);
    GetIsRead(WithStore(s, Replication.WriteOf(s.kv, args).value.kv), k);
  }

  lemma SetHolds(kv: Replication.Store, args: seq<string>, k: string)
    requires |args| >= 3 && ToUpper(args[0]) == "SET"
    ensures var w := Replication.WriteOf(kv, args);
            w.Some? && GetReply(w.value.kv, k) == if k == args[1] then Text(args[2]) else GetReply(kv, k)
  {
  }

  /** DEL's reply is the number of keys lost; GET then answers nil for exactly the named keys, and as before otherwise. */
  lemma DelIsRead(s: Server, args: seq<string>, k: string)
    requires args != [] && ToUpper(args[0]) == "DEL" && !s.slave
    ensures var w := Replication.WriteOf(s.kv, args);
            && w.Some? && BuiltIn(s, args) == Some(Integer(|s.kv| - |w.value.kv|))
            && BuiltIn(WithStore(s, w.value.kv), ["GET", k]) == if k in args[1..] then Some(Nil) else BuiltIn(s, ["GET", k])
  {
    DelWrites(s.kv, args);
    DelReply(s, args);
    DeletedIsLoss(s.kv, args[1..]);
    DeletedIsNil(s, args[1..], k);
  }

  lemma DeletedIsNil(s: Server, keys: seq<string>, k: string)
    ensures BuiltIn(WithStore(s, Replication.WithoutKeys(s.kv, keys)), ["GET", k]) ==
            if k in keys then Some(Nil) else BuiltIn(s, ["GET", k])
  {
    WithoutKeysHolds(s.kv, keys, k);
    GetIsRead(s, k);
    GetIsRead(WithStore(s, Replication.WithoutKeys(s.kv, keys)), k);
  }

  lemma DelWrites(kv: Replication.Store, args: seq<string>)
    requires args != [] && ToUpper(args[0]) == "DEL"
    ensures Replication.WriteOf(kv, args) == Some(Replication.Write(Replication.WithoutKeys(kv, args[1..]), args))
  {
  }

  lemma DelReply(s: Server, args: seq<string>)
    requires args != [] && ToUpper(args[0]) == "DEL" && !s.slave
    ensures BuiltIn(s, args) == Some(Integer(Deleted(s.kv, args[1..])))
  {
    WriteNames(args);
    ReplyNamed(s, args, Del);
  }

  lemma WithoutKeysHolds(kv: Replication.Store, keys: seq<string>, k: string)
    ensures GetReply(Replication.WithoutKeys(kv, keys), k) == if k in keys then Nil else GetReply(kv, k)
  {
  }

  /** INCR's reply is the number a later GET answers, one more than the key held, within 64 bits. */
  lemma IncrIsRead(s: Server, args: seq<string>, k: string)
    requires |args| == 2 && ToUpper(args[0]) == "INCR" && !s.slave
    ensures var w, n := Replication.WriteOf(s.kv, args), WrapInt64(AtoiLoose(Replication.Lookup(s.kv, args[1])) + 1);
            && BuiltIn(s, args) == Some(Integer(n)) && ParseInt(IntText(n)) == Some(n)
            && w.Some?
            && BuiltIn(WithStore(s, w.value.kv), ["GET", k]) == if k == args[1] then Some(Text(IntText(n))) else BuiltIn(s, ["GET", k])
  {
    WriteNames(args);
    ReplyNamed(s, args, Incr);
    IntTextParses(WrapInt64(AtoiLoose(Replication.Lookup(s.kv, args[1])) + 1));
    GetIsRead(s, k);
    GetIsRead(WithStore(s, Replication.WriteOf(s.kv, args).value.kv), k);
  }

  /**
   A reply to a recognised bounded command is exactly one frame the validator itself would accept, if and only if it is
   not a replica's INFO or ROLE with a host too long for it.
   */
  lemma ReplyIsOneFrame(s: Server, args: seq<string>)
    requires args != [] && Bounded(args) && BoundedServer(s) && BuiltIn(s, args).Some?
    ensures OneFrame(Bytes(BuiltIn(s, args).value)) <==> HostFits(NameOf(args[0]), s)
  {
    BuiltInRange(NameOf(args[0]), s, args);
    BuiltInBounded(NameOf(args[0]), s, args);
    BytesExact(BuiltIn(s, args).value);
  }

  /** The reply to an unknown command echoes the name: it is one frame exactly when the name has no newline and no NUL. */
  lemma UnknownReplyExact(name: string)
    ensures OneFrame(Bytes(Unknown(name))) <==> Clean(name)
  {
    var lower := ToLower(ToUpper(name));
    LineFrame('-', UNKNOWN + lower + "'");
    FoldKeepsClean(name);
    CleanJoin(UNKNOWN, lower);
    CleanJoin(UNKNOWN + lower, "'");
    assert Clean(UNKNOWN) && Clean("'");
  }

  lemma FoldKeepsClean(name: string)
    ensures Clean(ToLower(ToUpper(name))) <==> Clean(name)
  {
    var lower := ToLower(ToUpper(name));
    assert |lower| == |name|;
    forall i | 0 <= i < |name| ensures (lower[i] == '\n' <==> name[i] == '\n') && (lower[i] == '\0' <==> name[i] == '\0') {
    }
    forall c | c == '\n' || c == '\0' ensures c in lower <==> c in name {
      if c in name {
        var i :| 0 <= i < |name| && name[i] == c;
        assert lower[i] == c;
      }
      if c in lower {
        var i :| 0 <= i < |lower| && lower[i] == c;
        assert name[i] == c;
      }
    }
  }
}
