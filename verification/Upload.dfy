/**
 * Restoring a backup one chunk per request (server/src/api.rs). The length of the
 * file on disk is the whole state of an upload.
 */
module Upload {
  import opened Options

  type Byte = b: int | 0 <= b < 256

  datatype Chunk = Chunk(offset: nat, total: nat)

  /** One item of a request body: bytes, of which the disk takes `lands`, or the
    * end of a connection that broke. */
  datatype Piece = Data(bytes: seq<Byte>, lands: nat) | Broken

  /** What the file system does with one request. `undoes` is false when the
    * truncation after a failed piece fails, or never runs. */
  datatype Disk = Disk(opens: bool, measures: bool, undoes: bool, renames: bool, removes: bool)

  datatype Request = Request(chunk: Chunk, body: seq<Piece>, disk: Disk)

  datatype Error =
    | OutOfRange | PastEnd | Gone | DiskFailed | Misaligned(already: nat) | ConnectionBroke | TooMuch

  datatype Reply = More(received: nat) | Complete(content: seq<Byte>) | Refused(error: Error)

  function Flat(body: seq<Piece>): seq<Byte> {
    if body == [] then [] else (if body[0].Data? then body[0].bytes else []) + Flat(body[1..])
  }

  predicate Whole(body: seq<Piece>) {
    forall p <- body :: p.Data? && p.lands >= |p.bytes|
  }

  // What stops a body that may still add `room` bytes, if anything.
  function Fault(body: seq<Piece>, room: int): Option<Error> {
    if body == [] then None
    else match body[0]
      case Broken => Some(ConnectionBroke)
      case Data(bytes, lands) =>
        if |bytes| > room then Some(TooMuch)
        else if lands < |bytes| then Some(DiskFailed)
        else Fault(body[1..], room - |bytes|)
  }

  // How much of it is on disk by then.
  function Landed(body: seq<Piece>, room: int): (n: nat)
    ensures n <= |Flat(body)|
  {
    if body == [] || body[0].Broken? || |body[0].bytes| > room then 0
    else if body[0].lands < |body[0].bytes| then body[0].lands
    else |body[0].bytes| + Landed(body[1..], room - |body[0].bytes|)
  }

  /** A body is taken whole exactly when it ends properly, the disk takes all of it
    * and it stays within the declared size. */
  lemma {:induction false} TakenWhole(body: seq<Piece>, room: nat)
    ensures Fault(body, room).None? <==> Whole(body) && |Flat(body)| <= room
    ensures Fault(body, room).None? ==> Landed(body, room) == |Flat(body)|
  {
    if body != [] && body[0].Data? && |body[0].bytes| <= room {
      TakenWhole(body[1..], room - |body[0].bytes|);
      assert body == [body[0]] + body[1..];
    } else if body != [] {
      assert body[0] in body;
    }
  }

  // Item `i` is where a body stops: everything before it is taken.
  predicate StopsAt(body: seq<Piece>, room: int, i: nat) {
    && i < |body| && Whole(body[..i]) && |Flat(body[..i])| <= room
    && (body[i].Broken? || |Flat(body[..i])| + |body[i].bytes| > room || body[i].lands < |body[i].bytes|)
  }

  /** A body stops at its first item that breaks, goes past the declared size or does not all
    * land; the fault is that item's, and what landed is everything before it and of it. */
  lemma {:induction false} FaultIsOfTheFirst(body: seq<Piece>, room: int, i: nat)
    requires StopsAt(body, room, i)
    ensures var before := |Flat(body[..i])|;
            if body[i].Broken? then Fault(body, room) == Some(ConnectionBroke) && Landed(body, room) == before
            else if before + |body[i].bytes| > room then
              Fault(body, room) == Some(TooMuch) && Landed(body, room) == before
            else Fault(body, room) == Some(DiskFailed) && Landed(body, room) == before + body[i].lands
  {
    if i > 0 {
      var rest := body[1..];
      assert body[..i][0] == body[0] && body[0] in body[..i] && body[..i][1..] == rest[..i - 1];
      assert forall p <- rest[..i - 1] :: p in body[..i];
      FaultIsOfTheFirst(rest, room - |body[0].bytes|, i - 1);
    } else {
      assert body[..0] == [];
    }
  }

  // ------------------------------------------------------------- one request

  function Received(file: Option<seq<Byte>>, q: Request, max: nat): (Option<seq<Byte>>, Reply) {
    var (chunk, body, disk) := (q.chunk, q.body, q.disk);
    if chunk.total == 0 || chunk.total > max then (file, Refused(OutOfRange))
    else if chunk.offset > chunk.total then (file, Refused(PastEnd))
    else if chunk.offset > 0 && file.None? then (file, Refused(Gone))
    else if !disk.opens then (file, Refused(DiskFailed))
    else
      var start := if chunk.offset == 0 then [] else file.value;
      if !disk.measures then (Some(start), Refused(DiskFailed))
      else if |start| != chunk.offset then (Some(start), Refused(Misaligned(|start|)))
      else
        var room := chunk.total - chunk.offset;
        var grown := start + Flat(body)[..Landed(body, room)];
        match Fault(body, room)
        case None => (Some(grown), More(|grown|))
        case Some(e) => (Some(if disk.undoes then start else grown), Refused(e))
  }

  // The handler: a file that has reached its total is moved away and restored, or removed
  // when it cannot be moved.
  function Served(file: Option<seq<Byte>>, q: Request, max: nat): (Option<seq<Byte>>, Reply) {
    var (after, reply) := Received(file, q, max);
    if reply.More? && reply.received >= q.chunk.total then
      if q.disk.renames then (None, Complete(after.value))
      else (if q.disk.removes then None else after, Refused(DiskFailed))
    else (after, reply)
  }

  /** The request is for a place within a file of a size the hub takes. */
  predicate InRange(q: Request, max: nat) {
    0 < q.chunk.total <= max && q.chunk.offset <= q.chunk.total
  }

  /** What the file holds once it is open for this request. */
  function Base(file: Option<seq<Byte>>, q: Request): seq<Byte> {
    if q.chunk.offset == 0 || file.None? then [] else file.value
  }

  /** The file is there, or is to be created, and the disk opens and measures it. */
  predicate Opened(file: Option<seq<Byte>>, q: Request, max: nat) {
    InRange(q, max) && (q.chunk.offset == 0 || file.Some?) && q.disk.opens && q.disk.measures
  }

  lemma {:induction false} FaultsOfABody(body: seq<Piece>, room: int)
    ensures Fault(body, room) in {None, Some(ConnectionBroke), Some(TooMuch), Some(DiskFailed)}
  {
    if body != [] && body[0].Data? {
      FaultsOfABody(body[1..], room - |body[0].bytes|);
    }
  }

  /** What each answer says of the request, the file and the disk. */
  lemma AnswersExactly(file: Option<seq<Byte>>, q: Request, max: nat)
    ensures var reply, room := Served(file, q, max).1, q.chunk.total - q.chunk.offset;
            var aligned := Opened(file, q, max) && |Base(file, q)| == q.chunk.offset;
            var whole := aligned && Whole(q.body) && |Flat(q.body)| <= room;
            && (reply == Refused(OutOfRange) <==> q.chunk.total == 0 || q.chunk.total > max)
            && (reply == Refused(PastEnd) <==> 0 < q.chunk.total <= max && q.chunk.offset > q.chunk.total)
            && (reply == Refused(Gone) <==> InRange(q, max) && q.chunk.offset > 0 && file.None?)
            && (reply.Refused? && reply.error.Misaligned? <==> Opened(file, q, max) && !aligned)
            && (reply.Refused? && reply.error.Misaligned? ==> reply.error.already == |Base(file, q)|)
            && (aligned && !whole ==> reply.Refused? && Fault(q.body, room) == Some(reply.error))
            && (reply.More? <==> whole && |Flat(q.body)| < room)
            && (reply.Complete? <==> whole && |Flat(q.body)| == room && q.disk.renames)
            && (reply.Complete? ==> reply.content == Base(file, q) + Flat(q.body))
  {
    if InRange(q, max) {
      FaultsOfABody(q.body, q.chunk.total - q.chunk.offset);
      TakenWhole(q.body, q.chunk.total - q.chunk.offset);
      assert Flat(q.body)[..|Flat(q.body)|] == Flat(q.body);
    }
  }

  class Store {
    var file: Option<seq<Byte>>

    constructor (file: Option<seq<Byte>>)
      ensures this.file == file
    {
      this.file := file;
    }

    method Append(chunk: Chunk, body: seq<Piece>) returns (received: nat, error: Option<Error>)
      requires file.Some? && chunk.offset <= chunk.total
      modifies this
      ensures var room := chunk.total - chunk.offset;
              && error == Fault(body, room)
              && file == Some(old(file.value) + Flat(body)[..Landed(body, room)])
              && (error.None? ==> received == |Flat(body)|)
    {
      received := 0;
      error := None;
      ghost var before, room := file.value, chunk.total - chunk.offset;
      assert before + Flat(body)[..0] == before;
      var i := 0;
      while i < |body|
        invariant 0 <= i <= |body| && error.None? && received <= room
        invariant Progress(body, room, i, received)
        invariant file == Some(before + Flat(body)[..received])
      {
        var piece := body[i];
        ProgressStep(before, body, room, i, received);
        if piece.Broken? {
          error := Some(ConnectionBroke);
          return;
        }
        if chunk.offset + received + |piece.bytes| > chunk.total {
          error := Some(TooMuch);
          return;
        }
        if piece.lands < |piece.bytes| {
          file := Some(file.value + piece.bytes[..piece.lands]);
          error := Some(DiskFailed);
          return;
        }
        file := Some(file.value + piece.bytes);
        received := received + |piece.bytes|;
        i := i + 1;
      }
      assert Flat(body[i..]) == [];
    }

    method Receive(q: Request, max: nat) returns (reply: Reply)
      modifies this
      ensures (file, reply) == Received(old(file), q, max)
    {
      var chunk := q.chunk;
      if chunk.total == 0 || chunk.total > max {
        return Refused(OutOfRange);
      }
      if chunk.offset > chunk.total {
        return Refused(PastEnd);
      }
      if chunk.offset > 0 && file.None? {
        return Refused(Gone);
      }
      if !q.disk.opens {
        return Refused(DiskFailed);
      }
      if chunk.offset == 0 {
        file := Some([]);
      }
      if !q.disk.measures {
        return Refused(DiskFailed);
      }
      var already := |file.value|;
      if already != chunk.offset {
        return Refused(Misaligned(already));
      }
      TakenWhole(q.body, chunk.total - chunk.offset);
      ghost var start := file.value;
      var received, error := Append(chunk, q.body);
      if error.Some? {
        if q.disk.undoes {
          assert file.value[..chunk.offset] == start;
          file := Some(file.value[..chunk.offset]);
        }
        return Refused(error.value);
      }
      reply := More(chunk.offset + received);
    }

    method Serve(q: Request, max: nat) returns (reply: Reply)
      modifies this
      ensures (file, reply) == Served(old(file), q, max)
    {
      reply := Receive(q, max);
      if reply.More? && reply.received >= q.chunk.total {
        if q.disk.renames {
          reply := Complete(file.value);
          file := None;
        } else {
          reply := Refused(DiskFailed);
          if q.disk.removes {
            file := None;
          }
        }
      }
    }
  }

  // The loop of `Append` after `i` items.
  ghost predicate Progress(body: seq<Piece>, room: nat, i: nat, received: nat) {
    && i <= |body| && received <= |Flat(body)|
    && Fault(body, room) == Fault(body[i..], room - received)
    && Landed(body, room) == received + Landed(body[i..], room - received)
    && Flat(body)[received..] == Flat(body[i..])
  }

  lemma ProgressStep(before: seq<Byte>, body: seq<Piece>, room: nat, i: nat, received: nat)
    requires i < |body| && Progress(body, room, i, received)
    ensures body[i].Broken? ==> Fault(body, room) == Some(ConnectionBroke) && Landed(body, room) == received
    ensures body[i].Data? ==>
      var bytes, lands := body[i].bytes, body[i].lands;
      && received + |bytes| <= |Flat(body)|
      && (forall k :: 0 <= k <= |bytes| ==>
            before + Flat(body)[..received] + bytes[..k] == before + Flat(body)[..received + k])
      && before + Flat(body)[..received] + bytes == before + Flat(body)[..received + |bytes|]
      && (if received + |bytes| > room then Fault(body, room) == Some(TooMuch) && Landed(body, room) == received
          else if lands < |bytes| then
            Fault(body, room) == Some(DiskFailed) && Landed(body, room) == received + lands
          else Progress(body, room, i + 1, received + |bytes|))
  {
    assert body[i..][1..] == body[i + 1..];
    if body[i].Data? {
      Joined(before, Flat(body), received, body[i].bytes, Flat(body[i + 1..]));
    }
  }

  lemma Joined(before: seq<Byte>, all: seq<Byte>, at: nat, head: seq<Byte>, tail: seq<Byte>)
    requires at <= |all| && all[at..] == head + tail
    ensures all[at + |head|..] == tail
    ensures forall k :: 0 <= k <= |head| ==> before + all[..at] + head[..k] == before + all[..at + k]
    ensures before + all[..at] + head == before + all[..at + |head|]
  {
    assert all == all[..at] + (head + tail);
    assert head[..|head|] == head;
  }

  // ---------------------------------------------------------------- a run

  function FileAfter(init: Option<seq<Byte>>, qs: seq<Request>, max: nat): Option<seq<Byte>> {
    if qs == [] then init else Served(FileAfter(init, qs[..|qs| - 1], max), qs[|qs| - 1], max).0
  }

  function LastReply(init: Option<seq<Byte>>, qs: seq<Request>, max: nat): Reply
    requires qs != []
  {
    Served(FileAfter(init, qs[..|qs| - 1], max), qs[|qs| - 1], max).1
  }

  // An offset-zero request the handler gets as far as opening the file for.
  predicate Restarts(q: Request, max: nat) {
    q.chunk.offset == 0 && 0 < q.chunk.total <= max && q.disk.opens
  }

  /** The pieces accepted from request `from` on, in order. */
  function Accepted(init: Option<seq<Byte>>, qs: seq<Request>, max: nat, from: nat): seq<Byte> {
    if |qs| <= from then []
    else Accepted(init, qs[..|qs| - 1], max, from)
         + if LastReply(init, qs, max).More? then Flat(qs[|qs| - 1].body) else []
  }

  // Nothing from request `from` on was complete, or restarted after it.
  predicate Underway(init: Option<seq<Byte>>, qs: seq<Request>, max: nat, from: nat) {
    |qs| <= from || (
      && Underway(init, qs[..|qs| - 1], max, from)
      && (|qs| - 1 > from ==> !Restarts(qs[|qs| - 1], max))
      && FileAfter(init, qs, max).Some?)
  }

  // A request that reaches the body.
  predicate Reaches(file: Option<seq<Byte>>, q: Request, max: nat) {
    && 0 < q.chunk.total <= max && q.chunk.offset <= q.chunk.total && q.disk.opens && q.disk.measures
    && (q.chunk.offset > 0 ==> file.Some? && |file.value| == q.chunk.offset)
  }

  /** What a refused piece leaves on disk. */
  function Leftover(file: Option<seq<Byte>>, q: Request, max: nat): seq<Byte> {
    if !Reaches(file, q, max) then []
    else
      var room := q.chunk.total - q.chunk.offset;
      if Fault(q.body, room).Some? then (if q.disk.undoes then [] else Flat(q.body)[..Landed(q.body, room)])
      else if Stuck(q) then Flat(q.body)
      else []
  }

  /** The last piece of a file that can be neither moved away nor removed. */
  predicate Stuck(q: Request) {
    q.chunk.offset + |Flat(q.body)| >= q.chunk.total && !q.disk.renames && !q.disk.removes
  }

  /** A refused piece leaves a trace exactly when it reached the file and, cut short, some of
    * it landed and its truncation failed, or, taken whole, it completed a file that can be
    * neither moved away nor removed. */
  lemma NoTraceExactly(file: Option<seq<Byte>>, q: Request, max: nat)
    ensures Leftover(file, q, max) != [] <==>
      && Reaches(file, q, max)
      && if Whole(q.body) && |Flat(q.body)| <= q.chunk.total - q.chunk.offset then Stuck(q) && Flat(q.body) != []
         else !q.disk.undoes && Landed(q.body, q.chunk.total - q.chunk.offset) > 0
  {
    if Reaches(file, q, max) {
      TakenWhole(q.body, q.chunk.total - q.chunk.offset);
    }
  }

  /** What one request does to the file, failed truncations included. */
  lemma Effect(file: Option<seq<Byte>>, q: Request, max: nat)
    ensures var (after, reply) := Served(file, q, max);
            var base := if Restarts(q, max) then Some([]) else file;
            if reply.More? then
              && Reaches(file, q, max) && base.Some? && after == Some(base.value + Flat(q.body))
            else
              || after.None?
              || (base.Some? && after == Some(base.value + Leftover(file, q, max)))
  {
    var base := if Restarts(q, max) then Some([]) else file;
    assert base.Some? ==> base.value + [] == base.value;
    if q.chunk.offset <= q.chunk.total {
      TakenWhole(q.body, q.chunk.total - q.chunk.offset);
      assert Flat(q.body)[..|Flat(q.body)|] == Flat(q.body);
    }
  }

  /** The bytes that stayed from request `from` on: accepted pieces and leftovers, in order. */
  function Stayed(init: Option<seq<Byte>>, qs: seq<Request>, max: nat, from: nat): seq<Byte> {
    if |qs| <= from then []
    else
      var front, q := qs[..|qs| - 1], qs[|qs| - 1];
      Stayed(init, front, max, from)
      + if LastReply(init, qs, max).More? then Flat(q.body) else Leftover(FileAfter(init, front, max), q, max)
  }

  predicate NoLeftovers(init: Option<seq<Byte>>, qs: seq<Request>, max: nat, from: nat) {
    |qs| <= from || (
      var front, q := qs[..|qs| - 1], qs[|qs| - 1];
      NoLeftovers(init, front, max, from)
      && (LastReply(init, qs, max).More? || Leftover(FileAfter(init, front, max), q, max) == []))
  }

  lemma {:induction false} FileIsWhatStayed(init: Option<seq<Byte>>, qs: seq<Request>, max: nat, from: nat)
    requires from < |qs| && Restarts(qs[from], max) && Underway(init, qs, max, from)
    ensures FileAfter(init, qs, max) == Some(Stayed(init, qs, max, from))
  {
    var front, q := qs[..|qs| - 1], qs[|qs| - 1];
    if from < |front| {
      FileIsWhatStayed(init, front, max, from);
    }
    Effect(FileAfter(init, front, max), q, max);
  }

  lemma {:induction false} LeftoversLengthen(init: Option<seq<Byte>>, qs: seq<Request>, max: nat, from: nat)
    ensures if NoLeftovers(init, qs, max, from) then Stayed(init, qs, max, from) == Accepted(init, qs, max, from)
            else |Stayed(init, qs, max, from)| > |Accepted(init, qs, max, from)|
    ensures |Stayed(init, qs, max, from)| >= |Accepted(init, qs, max, from)|
  {
    if |qs| > from {
      LeftoversLengthen(init, qs[..|qs| - 1], max, from);
    }
  }

  // Truncating works, and a file that cannot be moved away can be removed.
  predicate Cleans(disk: Disk) {
    disk.undoes && (disk.renames || disk.removes)
  }

  lemma {:induction false} UndoneLeavesNothing(init: Option<seq<Byte>>, qs: seq<Request>, max: nat, from: nat)
    requires forall q <- qs :: Cleans(q.disk)
    ensures NoLeftovers(init, qs, max, from)
  {
    if |qs| > from {
      assert qs[|qs| - 1] in qs;
      UndoneLeavesNothing(init, qs[..|qs| - 1], max, from);
    }
  }

  /** Over any requests and failures, the file is the pieces accepted since the last in-range
    * request for offset zero, in order, exactly when no refused piece left a trace; and none
    * does while truncating and removing work. */
  lemma FileIsTheAcceptedPieces(init: Option<seq<Byte>>, qs: seq<Request>, max: nat, from: nat)
    requires from < |qs| && Restarts(qs[from], max) && Underway(init, qs, max, from)
    ensures FileAfter(init, qs, max) == Some(Accepted(init, qs, max, from)) <==> NoLeftovers(init, qs, max, from)
    ensures (forall q <- qs :: Cleans(q.disk)) ==> NoLeftovers(init, qs, max, from)
  {
    FileIsWhatStayed(init, qs, max, from);
    LeftoversLengthen(init, qs, max, from);
    if forall q <- qs :: Cleans(q.disk) {
      UndoneLeavesNothing(init, qs, max, from);
    }
  }

  /** A reply that asks for more states the length of the file. */
  lemma ReplyIsTheLength(init: Option<seq<Byte>>, qs: seq<Request>, max: nat)
    requires qs != [] && LastReply(init, qs, max).More?
    ensures FileAfter(init, qs, max).Some? && LastReply(init, qs, max).received == |FileAfter(init, qs, max).value|
    ensures var q := qs[|qs| - 1];
            |FileAfter(init, qs, max).value| == q.chunk.offset + |Flat(q.body)| < q.chunk.total
  {
    var q := qs[|qs| - 1];
    TakenWhole(q.body, q.chunk.total - q.chunk.offset);
  }

  // -------------------------------------------------------- a client alone

  /** Where a client that follows the replies goes on. */
  function NextOffset(init: Option<seq<Byte>>, qs: seq<Request>, max: nat): nat {
    if qs == [] then 0
    else match LastReply(init, qs, max)
      case More(n) => n
      case Complete(_) => 0
      case Refused(_) => NextOffset(init, qs[..|qs| - 1], max)
  }

  predicate PrefixOf(a: seq<Byte>, b: seq<Byte>) {
    |a| <= |b| && a == b[..|a|]
  }

  // A request sends some of the content from its offset on.
  predicate Sends(q: Request, content: seq<Byte>) {
    && q.chunk.total == |content|
    && (q.chunk.offset <= |content| ==> PrefixOf(Flat(q.body), content[q.chunk.offset..]))
  }

  /** Every request sends the content from the offset last replied, or from zero. */
  predicate Client(init: Option<seq<Byte>>, qs: seq<Request>, max: nat, content: seq<Byte>) {
    qs == [] || (
      var front, q := qs[..|qs| - 1], qs[|qs| - 1];
      && Client(init, front, max, content)
      && Sends(q, content)
      && (q.chunk.offset == 0 || q.chunk.offset == NextOffset(init, front, max)))
  }

  lemma ReceivedKeepsPrefix(file: Option<seq<Byte>>, q: Request, max: nat, content: seq<Byte>)
    requires Sends(q, content)
    requires q.chunk.offset > 0 && file.Some? ==> PrefixOf(file.value, content)
    ensures var (after, reply) := Received(file, q, max);
            && (after == file || (after.Some? && PrefixOf(after.value, content)))
            && !reply.Complete?
            && (reply.More? ==> after.Some? && PrefixOf(after.value, content) && reply.received == |after.value|)
  {
    var start := if q.chunk.offset == 0 then [] else if file.Some? then file.value else [];
    if q.chunk.offset <= |content| && |start| == q.chunk.offset {
      var room := |content| - q.chunk.offset;
      var n := Landed(q.body, room);
      TakenWhole(q.body, room);
      GrownPrefix(content, q.chunk.offset, Flat(q.body), n);
      assert start == content[..q.chunk.offset];
      assert PrefixOf(start + Flat(q.body)[..n], content);
    }
  }

  lemma ServedKeepsPrefix(file: Option<seq<Byte>>, q: Request, max: nat, content: seq<Byte>)
    requires Sends(q, content)
    requires q.chunk.offset > 0 && file.Some? ==> PrefixOf(file.value, content)
    ensures var (after, reply) := Served(file, q, max);
            && (after == file || after.None? || PrefixOf(after.value, content))
            && (reply.More? ==> after.Some? && PrefixOf(after.value, content))
            && (reply.Complete? ==> reply.content == content)
  {
    ReceivedKeepsPrefix(file, q, max, content);
    assert content[..|content|] == content;
  }

  lemma GrownPrefix(content: seq<Byte>, at: nat, sent: seq<Byte>, n: nat)
    requires at <= |content| && PrefixOf(sent, content[at..]) && n <= |sent|
    ensures content[..at] + sent[..n] == content[..at + n]
    ensures at == 0 ==> content[..at] == []
    ensures content[..|content|] == content
  {
  }

  lemma {:induction false} ClientFileIsAPrefix(init: Option<seq<Byte>>, qs: seq<Request>, max: nat, content: seq<Byte>)
    requires Client(init, qs, max, content)
    ensures var file := FileAfter(init, qs, max);
            && (file == init || file.None? || PrefixOf(file.value, content))
            && (NextOffset(init, qs, max) > 0 && file.Some? ==> PrefixOf(file.value, content))
  {
    if qs != [] {
      var front := qs[..|qs| - 1];
      ClientFileIsAPrefix(init, front, max, content);
      ServedKeepsPrefix(FileAfter(init, front, max), qs[|qs| - 1], max, content);
    }
  }

  /** Whatever the file held before, and whatever fails on the way, undoing
    * included: what a lone client completes is its own content. */
  lemma LoneClientCompletesItsOwnBytes(init: Option<seq<Byte>>, qs: seq<Request>, max: nat, content: seq<Byte>)
    requires qs != [] && Client(init, qs, max, content)
    ensures LastReply(init, qs, max).Complete? ==> LastReply(init, qs, max).content == content
  {
    var front := qs[..|qs| - 1];
    ClientFileIsAPrefix(init, front, max, content);
    ServedKeepsPrefix(FileAfter(init, front, max), qs[|qs| - 1], max, content);
  }

  // --------------------------------------------------------- a clean upload

  function Concat(pieces: seq<seq<Byte>>): seq<Byte> {
    if pieces == [] then [] else Concat(pieces[..|pieces| - 1]) + pieces[|pieces| - 1]
  }

  function Requests(pieces: seq<seq<Byte>>, total: nat): seq<Request> {
    if pieces == [] then []
    else
      var front, piece := pieces[..|pieces| - 1], pieces[|pieces| - 1];
      Requests(front, total) + [PieceRequest(|Concat(front)|, total, piece)]
  }

  function PieceRequest(offset: nat, total: nat, piece: seq<Byte>): Request {
    Request(Chunk(offset, total), [Data(piece, |piece|)], Disk(true, true, true, true, true))
  }

  lemma CleanPiece(file: Option<seq<Byte>>, q: Request, piece: seq<Byte>, max: nat)
    requires q.body == [Data(piece, |piece|)] && q.disk == Disk(true, true, true, true, true)
    requires 0 < q.chunk.total <= max && q.chunk.offset + |piece| <= q.chunk.total
    requires q.chunk.offset > 0 ==> file.Some? && |file.value| == q.chunk.offset
    ensures var grown := (if q.chunk.offset == 0 then [] else file.value) + piece;
            Served(file, q, max)
            == if |grown| < q.chunk.total then (Some(grown), More(|grown|)) else (None, Complete(grown))
  {
    assert q.body[1..] == [];
    assert Flat(q.body) == piece;
    TakenWhole(q.body, q.chunk.total - q.chunk.offset);
  }

  lemma {:induction false} CleanPrefix(init: Option<seq<Byte>>, pieces: seq<seq<Byte>>, total: nat, max: nat)
    requires pieces != [] && (forall p <- pieces :: p != [])
    requires |Concat(pieces)| <= total <= max
    ensures var qs := Requests(pieces, total);
            && qs != []
            && (|Concat(pieces)| < total ==> FileAfter(init, qs, max) == Some(Concat(pieces)))
            && (|Concat(pieces)| == total ==> LastReply(init, qs, max) == Complete(Concat(pieces)))
  {
    var front, piece := pieces[..|pieces| - 1], pieces[|pieces| - 1];
    assert piece in pieces;
    assert forall p <- front :: p in pieces;
    if front != [] {
      CleanPrefix(init, front, total, max);
    }
    var before := FileAfter(init, Requests(front, total), max);
    var q := PieceRequest(|Concat(front)|, total, piece);
    ServeNext(init, Requests(front, total), q, max);
    CleanPiece(before, q, piece, max);
    if front == [] {
      assert Concat(front) + piece == [] + piece;
    }
  }

  lemma ServeNext(init: Option<seq<Byte>>, qs: seq<Request>, q: Request, max: nat)
    ensures FileAfter(init, qs + [q], max) == Served(FileAfter(init, qs, max), q, max).0
    ensures LastReply(init, qs + [q], max) == Served(FileAfter(init, qs, max), q, max).1
  {
    assert (qs + [q])[..|qs + [q]| - 1] == qs;
  }

  /** However a content within the limit is cut into non-empty pieces, sending them
    * in order completes exactly it, on top of any leftover. */
  lemma UploadRoundTrip(init: Option<seq<Byte>>, pieces: seq<seq<Byte>>, max: nat)
    requires pieces != [] && (forall p <- pieces :: p != []) && |Concat(pieces)| <= max
    ensures var qs := Requests(pieces, |Concat(pieces)|);
            qs != [] && LastReply(init, qs, max) == Complete(Concat(pieces))
  {
    CleanPrefix(init, pieces, |Concat(pieces)|, max);
  }
}
