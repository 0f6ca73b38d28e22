/** Booting an image streamed from the host: tools/punchboot/api_boot.c on one side, src/cm/cm_main.c,
    src/boot/boot.c and src/boot/image_helpers.c on the other, as two programs joined by two bounded channels. */
module RamBoot {
  import opened Basics

  /** What a session depends on: the bytes to send, how a header lists the sizes of its parts, each side's transfer
      size, the capacities of the channels, and what the device will find: results of authentication, part check and
      payload check, 0 for success. */
  datatype Session = Session(command: seq<Byte>, header: seq<Byte>, parts: seq<seq<Byte>>,
                             sizes: seq<Byte> -> seq<nat>, hostChunk: nat, deviceChunk: nat,
                             upRoom: nat, downRoom: nat, auth: int, check: int, payload: int)
  {
    /** The host cuts its parts by its own header. */
    ghost predicate Valid() {
      && command != [] && header != [] && hostChunk > 0 && deviceChunk > 0 && upRoom > 0 && downRoom > 0
      && |parts| == |sizes(header)| && forall i | 0 <= i < |parts| :: |parts[i]| == sizes(header)[i]
    }
  }

  /** Where the host is: rest is what the current step still has to send, chunk what the current write call has. */
  datatype Host = SendCommand(rest: seq<Byte>) | AwaitCommand | SendHeader(rest: seq<Byte>) | AwaitHeader
                | SendPart(i: nat, chunk: seq<Byte>, rest: seq<Byte>) | AwaitPart(i: nat) | AwaitVerdict
                | HostDone(code: int)

  /** Where the device is: need is what the current read call still lacks, left what follows it in the part. */
  datatype Device = ReadCommand(need: nat) | Accept | ReadHeader(need: nat) | Judge
                  | ReadPart(i: nat, need: nat, left: nat) | Confirm(i: nat) | Conclude | DeviceDone(code: int)

  /** The two programs and the channels between them, with what went through each end: bytes sent and got, results
      told and heard. */
  datatype State = State(host: Host, dev: Device, up: seq<Byte>, down: seq<int>,
                         sent: seq<Byte>, got: seq<Byte>, told: seq<int>, heard: seq<int>)

  // ---- the host program ----

  function HostChunk(p: Session, i: nat, rest: seq<Byte>): Host {
    if rest == [] then AwaitPart(i)
    else SendPart(i, rest[..Min(|rest|, p.hostChunk)], rest[Min(|rest|, p.hostChunk)..])
  }

  function HostPart(p: Session, i: nat): Host {
    if i < |p.parts| then HostChunk(p, i, p.parts[i]) else AwaitVerdict
  }

  /** The bytes the current write call has left. */
  function Outgoing(h: Host): seq<Byte> {
    match h
    case SendCommand(rest) => rest
    case SendHeader(rest) => rest
    case SendPart(i, chunk, rest) => chunk
    case _ => []
  }

  function AfterSend(p: Session, h: Host, k: nat): Host
    requires k <= |Outgoing(h)|
  {
    match h
    case SendCommand(rest) => if k == |rest| then AwaitCommand else SendCommand(rest[k..])
    case SendHeader(rest) => if k == |rest| then AwaitHeader else SendHeader(rest[k..])
    case SendPart(i, chunk, rest) => if k == |chunk| then HostChunk(p, i, rest) else SendPart(i, chunk[k..], rest)
    case _ => h
  }

  predicate Awaits(h: Host) { h.AwaitCommand? || h.AwaitHeader? || h.AwaitPart? || h.AwaitVerdict? }

  /** The results after each part are read but not looked at. */
  function AfterResult(p: Session, h: Host, code: int): Host {
    match h
    case AwaitCommand => if code != 0 then HostDone(code) else SendHeader(p.header)
    case AwaitHeader => if code != 0 then HostDone(code) else HostPart(p, 0)
    case AwaitPart(i) => HostPart(p, i + 1)
    case AwaitVerdict => HostDone(code)
    case _ => h
  }

  // ---- the device program ----

  function DeviceChunk(p: Session, i: nat, left: nat): Device {
    if left == 0 then Confirm(i) else ReadPart(i, Min(left, p.deviceChunk), left - Min(left, p.deviceChunk))
  }

  /** The device goes by the header it has received. */
  function Listed(p: Session, got: seq<Byte>): seq<nat> {
    var from, n := |p.command|, |p.header|;
    if from + n <= |got| then p.sizes(got[from..from + n]) else []
  }

  function DevicePart(p: Session, sizes: seq<nat>, i: nat): Device {
    if i < |sizes| then DeviceChunk(p, i, sizes[i]) else Conclude
  }

  function Lacks(d: Device): nat {
    match d
    case ReadCommand(need) => need
    case ReadHeader(need) => need
    case ReadPart(i, need, left) => need
    case _ => 0
  }

  function AfterRead(p: Session, d: Device, k: nat): Device
    requires k <= Lacks(d)
  {
    match d
    case ReadCommand(need) => if k == need then Accept else ReadCommand(need - k)
    case ReadHeader(need) => if k == need then Judge else ReadHeader(need - k)
    case ReadPart(i, need, left) => if k == need then DeviceChunk(p, i, left) else ReadPart(i, need - k, left)
    case _ => d
  }

  predicate Answers(d: Device) { d.Accept? || d.Judge? || d.Confirm? || d.Conclude? }

  function Answer(p: Session, d: Device): int {
    match d
    case Judge => if p.auth != 0 then p.auth else p.check
    case Conclude => p.payload
    case _ => 0
  }

  function AfterAnswer(p: Session, d: Device, sizes: seq<nat>): Device {
    match d
    case Accept => ReadHeader(|p.header|)
    case Judge => if Answer(p, d) != 0 then DeviceDone(Answer(p, d)) else DevicePart(p, sizes, 0)
    case Confirm(i) => DevicePart(p, sizes, i + 1)
    case Conclude => DeviceDone(p.payload)
    case _ => d
  }

  // ---- runs ----

  /** One side moves; a transfer may take any number of the bytes it could. */
  datatype Move = Send(k: nat) | Receive | Read(k: nat) | Reply

  predicate Enabled(p: Session, s: State, m: Move) {
    match m
    case Send(k) => 1 <= k <= |Outgoing(s.host)| && |s.up| + k <= p.upRoom
    case Receive => Awaits(s.host) && s.down != []
    case Read(k) => 1 <= k <= Lacks(s.dev) && k <= |s.up|
    case Reply => Answers(s.dev) && |s.down| < p.downRoom
  }

  function Do(p: Session, s: State, m: Move): State
    requires Enabled(p, s, m)
  {
    match m
    case Send(k) =>
      var b := Outgoing(s.host)[..k];
      s.(host := AfterSend(p, s.host, k), up := s.up + b, sent := s.sent + b)
    case Receive =>
      s.(host := AfterResult(p, s.host, s.down[0]), down := s.down[1..], heard := s.heard + [s.down[0]])
    case Read(k) =>
      s.(dev := AfterRead(p, s.dev, k), up := s.up[k..], got := s.got + s.up[..k])
    case Reply =>
      var a := [Answer(p, s.dev)];
      s.(dev := AfterAnswer(p, s.dev, Listed(p, s.got)), down := s.down + a, told := s.told + a)
  }

  function Init(p: Session): State { State(SendCommand(p.command), ReadCommand(|p.command|), [], [], [], [], [], []) }

  /** A schedule is legal when every move is possible when its turn comes. */
  ghost predicate Legal(p: Session, s: State, run: seq<Move>)
    decreases |run|
  {
    run == [] || (Enabled(p, s, run[0]) && Legal(p, Do(p, s, run[0]), run[1..]))
  }

  function End(p: Session, s: State, run: seq<Move>): State
    requires Legal(p, s, run)
    decreases |run|
  {
    if run == [] then s else End(p, Do(p, s, run[0]), run[1..])
  }

  ghost predicate Stuck(p: Session, s: State) { forall m :: !Enabled(p, s, m) }

  // ---- what the session is about ----

  /** The bytes that go before result j. */
  function Piece(p: Session, j: nat): seq<Byte> {
    if j == 0 then p.command else if j == 1 then p.header else if j - 2 < |p.parts| then p.parts[j - 2] else []
  }

  function Upto(p: Session, j: nat): seq<Byte> {
    if j == 0 then Piece(p, 0) else Upto(p, j - 1) + Piece(p, j)
  }

  function Judgement(p: Session): int { if p.auth != 0 then p.auth else p.check }

  /** The results the device is going to send, and how many. */
  function Result(p: Session, j: nat): int {
    if j == 1 then Judgement(p) else if j == 2 + |p.parts| then p.payload else 0
  }

  function Results(p: Session): nat { if Judgement(p) != 0 then 2 else |p.parts| + 3 }

  function Verdict(p: Session): int { Result(p, Results(p) - 1) }

  lemma {:induction false} UptoRises(p: Session, i: nat, j: nat)
    requires i <= j
    ensures |Upto(p, i)| <= |Upto(p, j)|
    decreases j
  {
    if i < j {
      UptoRises(p, i, j - 1);
    }
  }

  /** How the host's place fits with what it has sent and heard. */
  ghost predicate HostIs(p: Session, h: Host, sent: seq<Byte>, heard: nat) {
    match h
    case SendCommand(rest) => rest != [] && heard == 0 && sent + rest == Upto(p, 0)
    case AwaitCommand => heard == 0 && sent == Upto(p, 0)
    case SendHeader(rest) => rest != [] && heard == 1 && sent + rest == Upto(p, 1)
    case AwaitHeader => heard == 1 && sent == Upto(p, 1)
    case SendPart(i, chunk, rest) =>
      i < |p.parts| && chunk != [] && heard == 2 + i && sent + (chunk + rest) == Upto(p, 2 + i) && Judgement(p) == 0
    case AwaitPart(i) => i < |p.parts| && heard == 2 + i && sent == Upto(p, 2 + i) && Judgement(p) == 0
    case AwaitVerdict => heard == 2 + |p.parts| && sent == Upto(p, 2 + |p.parts|) && Judgement(p) == 0
    case HostDone(code) => heard == Results(p) && sent == Upto(p, Results(p) - 1) && code == Verdict(p)
  }

  ghost predicate DeviceIs(p: Session, d: Device, got: nat, told: nat) {
    match d
    case ReadCommand(need) => need > 0 && told == 0 && got + need == |Upto(p, 0)|
    case Accept => told == 0 && got == |Upto(p, 0)|
    case ReadHeader(need) => need > 0 && told == 1 && got + need == |Upto(p, 1)|
    case Judge => told == 1 && got == |Upto(p, 1)|
    case ReadPart(i, need, left) =>
      i < |p.parts| && need > 0 && told == 2 + i && got + need + left == |Upto(p, 2 + i)| && Judgement(p) == 0
    case Confirm(i) => i < |p.parts| && told == 2 + i && got == |Upto(p, 2 + i)| && Judgement(p) == 0
    case Conclude => told == 2 + |p.parts| && got == |Upto(p, 2 + |p.parts|)| && Judgement(p) == 0
    case DeviceDone(code) => told == Results(p) && got == |Upto(p, Results(p) - 1)| && code == Verdict(p)
  }

  ghost predicate Inv(p: Session, s: State) {
    && s.sent == s.got + s.up && s.told == s.heard + s.down
    && (forall j | 0 <= j < |s.told| :: s.told[j] == Result(p, j))
    && HostIs(p, s.host, s.sent, |s.heard|) && DeviceIs(p, s.dev, |s.got|, |s.told|)
  }

  lemma ChunkJoins(p: Session, i: nat, rest: seq<Byte>)
    requires p.hostChunk > 0
    ensures match HostChunk(p, i, rest)
            case AwaitPart(j) => j == i && rest == []
            case SendPart(j, chunk, more) => j == i && chunk != [] && chunk + more == rest
            case _ => false
  {
  }

  lemma HostSends(p: Session, h: Host, sent: seq<Byte>, heard: nat, k: nat)
    requires p.Valid() && HostIs(p, h, sent, heard) && 1 <= k <= |Outgoing(h)|
    ensures HostIs(p, AfterSend(p, h, k), sent + Outgoing(h)[..k], heard)
  {
    hide Upto, HostChunk;
    match h {
      case SendCommand(rest) => assert sent + rest[..k] + rest[k..] == sent + rest;
      case SendHeader(rest) => assert sent + rest[..k] + rest[k..] == sent + rest;
      case SendPart(i, chunk, rest) =>
        if k == |chunk| {
          ChunkJoins(p, i, rest);
          assert chunk[..k] == chunk;
          assert sent + chunk + rest == sent + (chunk + rest);
          assert rest == [] ==> sent + chunk + rest == sent + chunk;
        } else {
          assert sent + chunk[..k] + (chunk[k..] + rest) == sent + (chunk + rest);
        }
      case _ =>
    }
  }

  lemma HostEnters(p: Session, i: nat)
    requires p.Valid() && i <= |p.parts| && Judgement(p) == 0
    ensures HostIs(p, HostPart(p, i), Upto(p, 1 + i), 2 + i)
  {
    hide HostChunk;
    assert Upto(p, 2 + i) == Upto(p, 1 + i) + Piece(p, 2 + i);
    if i < |p.parts| {
      ChunkJoins(p, i, p.parts[i]);
    }
  }

  lemma HostHears(p: Session, h: Host, sent: seq<Byte>, heard: nat, code: int)
    requires p.Valid() && HostIs(p, h, sent, heard) && Awaits(h) && code == Result(p, heard)
    ensures HostIs(p, AfterResult(p, h, code), sent, heard + 1)
  {
    hide HostPart;
    match h {
      case AwaitCommand => assert Upto(p, 1) == Upto(p, 0) + Piece(p, 1);
      case AwaitHeader => if code == 0 { HostEnters(p, 0); }
      case AwaitPart(i) => HostEnters(p, i + 1);
      case AwaitVerdict =>
    }
  }

  lemma DeviceEnters(p: Session, i: nat)
    requires p.Valid() && i <= |p.parts| && Judgement(p) == 0
    ensures DeviceIs(p, DevicePart(p, p.sizes(p.header), i), |Upto(p, 1 + i)|, 2 + i)
  {
    assert Upto(p, 2 + i) == Upto(p, 1 + i) + Piece(p, 2 + i);
  }

  lemma DeviceReads(p: Session, d: Device, got: nat, told: nat, k: nat)
    requires p.Valid() && DeviceIs(p, d, got, told) && 1 <= k <= Lacks(d)
    ensures DeviceIs(p, AfterRead(p, d, k), got + k, told)
  {
    hide Upto;
  }

  lemma DeviceAnswers(p: Session, d: Device, got: nat, told: nat, sizes: seq<nat>)
    requires p.Valid() && DeviceIs(p, d, got, told) && Answers(d)
    requires got >= |Upto(p, 1)| ==> sizes == p.sizes(p.header)
    ensures Answer(p, d) == Result(p, told) && DeviceIs(p, AfterAnswer(p, d, sizes), got, told + 1)
  {
    hide DevicePart;
    match d {
      case Accept => assert Upto(p, 1) == Upto(p, 0) + Piece(p, 1);
      case Judge => if Judgement(p) == 0 { DeviceEnters(p, 0); }
      case Confirm(i) =>
        UptoRises(p, 1, 2 + i);
        DeviceEnters(p, i + 1);
      case Conclude =>
    }
  }

  lemma {:induction false} UptoPrefix(p: Session, i: nat, j: nat)
    requires i <= j
    ensures Upto(p, i) <= Upto(p, j)
    decreases j
  {
    if i < j {
      UptoPrefix(p, i, j - 1);
    }
  }

  /** What the host has sent is the beginning of what the session is about. */
  lemma SentPrefix(p: Session, h: Host, sent: seq<Byte>, heard: nat)
    requires HostIs(p, h, sent, heard)
    ensures sent <= Upto(p, heard)
  {
    hide Upto;
    if h.HostDone? {
      UptoPrefix(p, Results(p) - 1, Results(p));
    }
  }

  /** Once the device has the header, the sizes it goes by are those the host went by. */
  lemma HeaderArrives(p: Session, s: State)
    requires Inv(p, s) && |s.got| >= |Upto(p, 1)|
    ensures Listed(p, s.got) == p.sizes(p.header)
  {
    hide HostIs, DeviceIs, Result, Upto;
    SentPrefix(p, s.host, s.sent, |s.heard|);
    HeaderEnds(p);
    var n := |Upto(p, 1)|;
    if |s.heard| == 0 {
      UptoPrefix(p, 0, 1);
    } else {
      UptoPrefix(p, 1, |s.heard|);
    }
    assert s.got[..n] == s.sent[..n] == Upto(p, 1);
    assert s.got[|p.command|..n] == s.got[..n][|p.command|..];
  }

  lemma HeaderEnds(p: Session)
    ensures Upto(p, 1) == p.command + p.header
  {
    assert Upto(p, 1) == Upto(p, 0) + Piece(p, 1);
  }

  lemma MoveKeeps(p: Session, s: State, m: Move)
    requires p.Valid() && Inv(p, s) && Enabled(p, s, m)
    ensures Inv(p, Do(p, s, m))
  {
    hide HostIs, DeviceIs, AfterSend, AfterRead, AfterResult, AfterAnswer, Outgoing, Lacks, Answer, Awaits, Answers,
      Result;
    match m {
      case Send(k) =>
        HostSends(p, s.host, s.sent, |s.heard|, k);
      case Receive =>
        assert s.told[|s.heard|] == s.down[0];
        HostHears(p, s.host, s.sent, |s.heard|, s.down[0]);
        assert s.heard + s.down == s.heard + [s.down[0]] + s.down[1..];
      case Read(k) =>
        DeviceReads(p, s.dev, |s.got|, |s.told|, k);
        assert s.got + s.up == s.got + s.up[..k] + s.up[k..];
      case Reply =>
        if |s.got| >= |Upto(p, 1)| {
          HeaderArrives(p, s);
        }
        DeviceAnswers(p, s.dev, |s.got|, |s.told|, Listed(p, s.got));
    }
  }

  lemma InitHolds(p: Session)
    requires p.Valid()
    ensures Inv(p, Init(p))
  {
  }

  // ---- no deadlock ----

  predicate Over(s: State) { s.host.HostDone? && s.dev.DeviceDone? }

  /** Where the device stands, in bytes and results. */
  lemma DevicePlace(p: Session, d: Device, got: nat, told: nat)
    requires DeviceIs(p, d, got, told)
    ensures d.DeviceDone? <==> told == Results(p)
    ensures told <= Results(p)
    ensures Lacks(d) > 0 ==> told < Results(p) && got < |Upto(p, told)|
    ensures Lacks(d) == 0 && !d.DeviceDone? ==> Answers(d)
    ensures Lacks(d) == 0 && 0 < told ==> got >= |Upto(p, told - 1)|
    ensures Lacks(d) == 0 && told < Results(p) ==> got == |Upto(p, told)|
  {
    hide Upto;
    if Lacks(d) == 0 && 0 < told {
      UptoRises(p, told - 1, told);
    }
  }

  lemma HostPlace(p: Session, h: Host, sent: seq<Byte>, heard: nat)
    requires HostIs(p, h, sent, heard)
    ensures h.HostDone? <==> heard == Results(p)
    ensures heard <= Results(p)
    ensures Outgoing(h) != [] ==> heard < Results(p) && |sent| < |Upto(p, heard)|
    ensures Outgoing(h) == [] && !h.HostDone? ==> Awaits(h) && |sent| == |Upto(p, heard)|
    ensures h.HostDone? ==> |sent| == |Upto(p, heard - 1)|
  {
    hide Upto;
  }

  /** Some side can always move until both have stopped. */
  lemma Progress(p: Session, s: State) returns (m: Move)
    requires p.Valid() && Inv(p, s) && !Over(s)
    ensures Enabled(p, s, m)
  {
    hide HostIs, DeviceIs, Outgoing, Lacks, Awaits, Answers, Upto, Result;
    HostPlace(p, s.host, s.sent, |s.heard|);
    DevicePlace(p, s.dev, |s.got|, |s.told|);
    if Outgoing(s.host) != [] {
      if |s.up| < p.upRoom {
        m := Send(1);
      } else {
        DeviceReadsOn(p, s);
        m := Read(1);
      }
    } else if s.down != [] {
      m := Receive;
    } else if Lacks(s.dev) > 0 {
      m := Read(1);
    } else {
      m := Reply;
    }
  }

  /** While the host has bytes to send that are not taken, the device wants bytes. */
  lemma DeviceReadsOn(p: Session, s: State)
    requires Inv(p, s) && Outgoing(s.host) != [] && s.up != []
    ensures Lacks(s.dev) > 0
  {
    hide HostIs, DeviceIs, Outgoing, Lacks, Upto, Result;
    HostPlace(p, s.host, s.sent, |s.heard|);
    DevicePlace(p, s.dev, |s.got|, |s.told|);
    UptoRises(p, |s.heard|, |s.told|);
    if |s.told| > |s.heard| {
      UptoRises(p, |s.heard|, |s.told| - 1);
    }
  }

  // ---- whole sessions ----

  function Bound(p: Session): nat { 2 * (|Upto(p, Results(p) - 1)| + Results(p)) }

  /** What the two sides still have to do. */
  function Work(p: Session, s: State): int {
    Bound(p) - |s.sent| - |s.heard| - |s.got| - |s.told|
  }

  lemma WorkLeft(p: Session, s: State)
    requires Inv(p, s)
    ensures Work(p, s) >= 0
  {
    hide HostIs, DeviceIs, Upto, Result, Outgoing, Lacks;
    HostPlace(p, s.host, s.sent, |s.heard|);
    DevicePlace(p, s.dev, |s.got|, |s.told|);
    UptoRises(p, if |s.heard| < Results(p) then |s.heard| else |s.heard| - 1, Results(p) - 1);
  }

  lemma {:induction false} RunKeeps(p: Session, s: State, run: seq<Move>)
    requires p.Valid() && Inv(p, s) && Legal(p, s, run)
    ensures Inv(p, End(p, s, run)) && |run| <= Work(p, s) - Work(p, End(p, s, run))
    decreases |run|
  {
    hide Inv, Enabled, Bound;
    if run != [] {
      MoveKeeps(p, s, run[0]);
      MoveWorks(p, s, run[0]);
      RunKeeps(p, Do(p, s, run[0]), run[1..]);
    }
  }

  lemma MoveWorks(p: Session, s: State, m: Move)
    requires Enabled(p, s, m)
    ensures Work(p, Do(p, s, m)) < Work(p, s)
  {
    hide Bound, AfterSend, AfterRead, AfterResult, AfterAnswer, Outgoing, Lacks, Answer, Awaits, Answers;
  }

  /** Session agreement. Every schedule of every session is finite, and the only place where neither side can move
      is the end: both have stopped with the device's verdict, the channels are empty, and the device has got
      exactly the bytes of the pieces it asked for, in order. */
  lemma Agreement(p: Session, run: seq<Move>)
    requires p.Valid() && Legal(p, Init(p), run)
    ensures |run| <= Bound(p)
    ensures var s := End(p, Init(p), run);
            && (Stuck(p, s) <==> Over(s))
            && (Over(s) ==> s.host.code == s.dev.code == Verdict(p) && s.up == [] && s.down == []
                            && s.got == Upto(p, Results(p) - 1))
  {
    hide Bound, Upto, Result, Inv, Enabled, Work, Legal, End;
    InitHolds(p);
    RunKeeps(p, Init(p), run);
    var s := End(p, Init(p), run);
    WorkLeft(p, s);
    WorkStart(p);
    if Over(s) {
      OverAgrees(p, s);
      forall m
        ensures !Enabled(p, s, m)
      {
        NothingLeft(p, s, m);
      }
    } else {
      var m := Progress(p, s);
    }
  }

  lemma WorkStart(p: Session)
    ensures Work(p, Init(p)) == Bound(p)
  {
  }

  lemma NothingLeft(p: Session, s: State, m: Move)
    requires Over(s)
    ensures !Enabled(p, s, m)
  {
  }

  lemma OverAgrees(p: Session, s: State)
    requires Inv(p, s) && Over(s)
    ensures s.host.code == s.dev.code == Verdict(p) && s.up == [] && s.down == []
    ensures s.got == Upto(p, Results(p) - 1)
  {
    hide Upto, Result;
    assert |s.up| == 0 && |s.down| == 0;
  }

  // ---- what the device's findings lead to ----

  function Concat(ps: seq<seq<Byte>>): seq<Byte> { if ps == [] then [] else ps[0] + Concat(ps[1..]) }

  lemma {:induction false} ConcatLast(ps: seq<seq<Byte>>, n: nat)
    requires n < |ps|
    ensures Concat(ps[..n + 1]) == Concat(ps[..n]) + ps[n]
    decreases n
  {
    if n == 0 {
      assert ps[..1] == [ps[0]] && [ps[0]][1..] == [] && ps[..0] == [];
    } else {
      ConcatLast(ps[1..], n - 1);
      assert ps[..n + 1][1..] == ps[1..][..n] && ps[..n][1..] == ps[1..][..n - 1];
      assert ps[0] + (Concat(ps[1..][..n - 1]) + ps[n]) == ps[0] + Concat(ps[1..][..n - 1]) + ps[n];
    }
  }

  lemma {:induction false} UptoIs(p: Session, n: nat)
    requires n <= |p.parts|
    ensures Upto(p, 1) == p.command + p.header && Upto(p, 1 + n) == p.command + p.header + Concat(p.parts[..n])
  {
    if n == 0 {
      assert p.parts[..0] == [];
    } else {
      UptoIs(p, n - 1);
      ConcatLast(p.parts, n - 1);
      assert Upto(p, 1 + n) == Upto(p, n) + p.parts[n - 1];
    }
  }

  /** A session that is over has ended with the first thing the device found wrong, if anything, and with the verdict on
      the payload otherwise; the device has taken all parts exactly when it found nothing wrong with the header. */
  lemma FindingsDecide(p: Session, run: seq<Move>)
    requires p.Valid() && Legal(p, Init(p), run) && Over(End(p, Init(p), run))
    ensures var s := End(p, Init(p), run);
            && (p.auth != 0 ==> s.host.code == p.auth && s.got == p.command + p.header)
            && (p.auth == 0 && p.check != 0 ==> s.host.code == p.check && s.got == p.command + p.header)
            && (p.auth == 0 && p.check == 0 ==> s.host.code == p.payload
                                                && s.got == p.command + p.header + Concat(p.parts))
  {
    hide Legal, End, Stuck;
    Agreement(p, run);
    UptoIs(p, |p.parts|);
    assert p.parts[..|p.parts|] == p.parts;
    assert Upto(p, 2 + |p.parts|) == Upto(p, 1 + |p.parts|) + Piece(p, 2 + |p.parts|);
  }

  /** At no time, in no schedule, does a device that found something wrong with the header take a byte of a part. */
  lemma NoPartAfterRefusal(p: Session, run: seq<Move>)
    requires p.Valid() && Legal(p, Init(p), run) && (p.auth != 0 || p.check != 0)
    ensures var s := End(p, Init(p), run); |s.got| <= |p.command| + |p.header| && !s.dev.ReadPart?
  {
    hide Legal, End;
    InitHolds(p);
    RunKeeps(p, Init(p), run);
    UptoIs(p, 0);
    UptoRises(p, 0, 1);
  }
}
