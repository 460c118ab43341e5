/** Reading a Redis stream in chunks from a remembered position, and keeping only each stock's latest message. */
module RedisStreamManager {
  import opened Wrappers

  /** A message's stock code, and the quote it converts to, if it does. */
  datatype Data = Data(stockCode: string, quote: Option<real>)

  datatype Message = Message(id: int, data: Data)

  /** Where reading goes on: after an id, or, for "$", at whatever comes later than the call. */
  datatype Cursor = At(id: int) | Latest

  ghost predicate Ordered(messages: seq<Message>) {
    forall i, j :: 0 <= i < j < |messages| ==> messages[i].id < messages[j].id
  }

  function After(messages: seq<Message>, id: int): seq<Message> {
    if messages == [] then []
    else if messages[0].id > id then [messages[0]] + After(messages[1..], id)
    else After(messages[1..], id)
  }

  /** The id "$" stands for when a call is made: the stream's last one. */
  function LastId(messages: seq<Message>): int {
    if messages == [] then 0 else messages[|messages| - 1].id
  }

  /** Redis XREAD without blocking: the first entries past the position, "$" being resolved at the call. */
  function XRead(messages: seq<Message>, cursor: Cursor, count: nat): seq<Message> {
    var rest := After(messages, if cursor.At? then cursor.id else LastId(messages));
    if count < |rest| then rest[..count] else rest
  }

  function Moved(cursor: Cursor, batch: seq<Message>): Cursor {
    if batch == [] then cursor else At(batch[|batch| - 1].id)
  }

  lemma {:induction false} AfterMembers(messages: seq<Message>, id: int)
    ensures forall m :: m in After(messages, id) <==> m in messages && m.id > id
  {
    if messages != [] {
      AfterMembers(messages[1..], id);
    }
  }

  lemma {:induction false} AfterOrdered(messages: seq<Message>, id: int)
    requires Ordered(messages)
    ensures Ordered(After(messages, id))
  {
    if messages != [] {
      AfterOrdered(messages[1..], id);
      AfterMembers(messages[1..], id);
    }
  }

  lemma {:induction false} AfterConcat(a: seq<Message>, b: seq<Message>, id: int)
    ensures After(a + b, id) == After(a, id) + After(b, id)
  {
    if a == [] {
      assert a + b == b;
    } else {
      assert (a + b)[1..] == a[1..] + b;
      AfterConcat(a[1..], b, id);
    }
  }

  lemma {:induction false} AfterAll(messages: seq<Message>, id: int)
    requires forall m :: m in messages ==> m.id > id
    ensures After(messages, id) == messages
  {
    if messages != [] {
      AfterAll(messages[1..], id);
    }
  }

  lemma {:induction false} AfterNone(messages: seq<Message>, id: int)
    requires forall m :: m in messages ==> m.id <= id
    ensures After(messages, id) == []
  {
    if messages != [] {
      AfterNone(messages[1..], id);
    }
  }

  lemma {:induction false} AfterTwice(messages: seq<Message>, id: int, later: int)
    requires id <= later
    ensures After(After(messages, id), later) == After(messages, later)
  {
    if messages != [] {
      AfterTwice(messages[1..], id, later);
    }
  }

  lemma SplitAfter(messages: seq<Message>, id: int, k: nat)
    requires Ordered(messages) && 0 < k <= |After(messages, id)|
    ensures var rest := After(messages, id);
      && After(messages, rest[k - 1].id) == rest[k..]
      && rest[k - 1] in messages && rest[k - 1].id > id
      && forall i :: 0 <= i < k ==> rest[i].id <= rest[k - 1].id
  {
    var rest := After(messages, id);
    AfterMembers(messages, id);
    AfterOrdered(messages, id);
    hide After;
    assert rest[k - 1] in rest;
    var last := rest[k - 1].id;
    AfterTwice(messages, id, last);
    var front, back := rest[..k], rest[k..];
    assert rest == front + back;
    AfterConcat(front, back, last);
    forall m | m in front
      ensures m.id <= last
    {
    }
    forall m | m in back
      ensures m.id > last
    {
    }
    AfterNone(front, last);
    AfterAll(back, last);
  }

  /** Reading a chunk and moving on leaves exactly the rest. */
  lemma ChunkAndRest(messages: seq<Message>, id: int, count: nat)
    requires Ordered(messages)
    ensures var batch := XRead(messages, At(id), count);
      && (batch != [] ==> batch[|batch| - 1] in messages && batch[|batch| - 1].id > id)
      && (forall m :: m in batch ==> m.id <= Moved(At(id), batch).id)
      && After(messages, id) == batch + After(messages, Moved(At(id), batch).id)
  {
    var rest := After(messages, id);
    var batch := XRead(messages, At(id), count);
    if batch == [] {
      assert rest == batch + rest;
    } else {
      SplitAfter(messages, id, |batch|);
      hide After;
      assert rest == rest[..|batch|] + rest[|batch|..];
    }
  }

  // ---- Runs ----

  /** Between two reads the stream may grow at the end and be trimmed at the front, by length or by age. */
  datatype Op = Add(m: Message) | Trim(dropped: nat) | Read(count: nat)

  datatype System = System(
    log: seq<Message>, stream: seq<Message>, cursor: Cursor, chunks: seq<seq<Message>>, missed: set<Message>)

  predicate Enabled(s: System, op: Op) {
    match op
    case Add(m) => forall n :: n in s.log ==> n.id < m.id
    case Trim(dropped) => dropped <= |s.stream|
    case Read(_) => true
  }

  function PastCursor(messages: seq<Message>, cursor: Cursor): set<Message> {
    set m | m in messages && cursor.At? && m.id > cursor.id
  }

  function Next(s: System, op: Op): System
    requires Enabled(s, op)
  {
    match op
    case Add(m) => s.(log := s.log + [m], stream := s.stream + [m])
    case Trim(dropped) =>
      s.(stream := s.stream[dropped..], missed := s.missed + PastCursor(s.stream[..dropped], s.cursor))
    case Read(count) =>
      var batch := XRead(s.stream, s.cursor, count);
      s.(cursor := Moved(s.cursor, batch), chunks := s.chunks + [batch])
  }

  predicate Legal(s: System, ops: seq<Op>)
    decreases |ops|
  {
    ops == [] || (Enabled(s, ops[0]) && Legal(Next(s, ops[0]), ops[1..]))
  }

  function Run(s: System, ops: seq<Op>): System
    requires Legal(s, ops)
    decreases |ops|
  {
    if ops == [] then s else Run(Next(s, ops[0]), ops[1..])
  }

  function Flatten(chunks: seq<seq<Message>>): seq<Message> {
    if chunks == [] then [] else Flatten(chunks[..|chunks| - 1]) + chunks[|chunks| - 1]
  }

  function Except(messages: seq<Message>, missed: set<Message>): seq<Message> {
    if messages == [] then []
    else if messages[0] in missed then Except(messages[1..], missed)
    else [messages[0]] + Except(messages[1..], missed)
  }

  /** What was read, followed by what waits past the cursor, is the log past the starting position without the messages
      trimmed before the cursor reached them. */
  ghost predicate Balanced(delivered: seq<Message>, stream: seq<Message>, position: int,
                           log: seq<Message>, start: int, missed: set<Message>) {
    delivered + After(stream, position) == Except(After(log, start), missed)
  }

  ghost predicate Structure(s: System, start: int) {
    && Ordered(s.log) && Ordered(s.stream)
    && (forall m :: m in s.stream ==> m in s.log)
    && (forall m :: m in s.missed ==> m in s.log)
    && s.cursor.At? && s.cursor.id >= start
    && (s.cursor.id == start || exists m :: m in s.log && m.id == s.cursor.id)
    && (forall m :: m in Flatten(s.chunks) ==> m.id <= s.cursor.id)
  }

  ghost predicate Inv(s: System, start: int) {
    Structure(s, start) && Balanced(Flatten(s.chunks), s.stream, s.cursor.id, s.log, start, s.missed)
  }

  lemma FlattenPush(chunks: seq<seq<Message>>, batch: seq<Message>)
    ensures Flatten(chunks + [batch]) == Flatten(chunks) + batch
  {
    assert (chunks + [batch])[..|chunks|] == chunks;
  }

  lemma {:induction false} ExceptConcat(a: seq<Message>, b: seq<Message>, missed: set<Message>)
    ensures Except(a + b, missed) == Except(a, missed) + Except(b, missed)
  {
    if a == [] {
      assert a + b == b;
    } else {
      assert (a + b)[1..] == a[1..] + b;
      ExceptConcat(a[1..], b, missed);
    }
  }

  lemma {:induction false} ExceptNone(a: seq<Message>, missed: set<Message>)
    requires forall m :: m in a ==> m !in missed
    ensures Except(a, missed) == a
  {
    if a != [] {
      ExceptNone(a[1..], missed);
    }
  }

  lemma {:induction false} ExceptAll(a: seq<Message>, missed: set<Message>)
    requires forall m :: m in a ==> m in missed
    ensures Except(a, missed) == []
  {
    if a != [] {
      ExceptAll(a[1..], missed);
    }
  }

  lemma {:induction false} ExceptTwice(a: seq<Message>, missed: set<Message>, more: set<Message>)
    ensures Except(Except(a, missed), more) == Except(a, missed + more)
  {
    if a != [] {
      ExceptTwice(a[1..], missed, more);
    }
  }

  lemma AddBalanced(delivered: seq<Message>, stream: seq<Message>, position: int, log: seq<Message>, start: int,
                    missed: set<Message>, m: Message)
    requires Balanced(delivered, stream, position, log, start, missed)
    requires m !in missed && (m.id > position <==> m.id > start)
    ensures Balanced(delivered, stream + [m], position, log + [m], start, missed)
  {
    AfterConcat(stream, [m], position);
    AfterConcat(log, [m], start);
    ExceptConcat(After(log, start), After([m], start), missed);
    assert After([m], position) == After([m], start);
    ExceptNone(After([m], start), missed);
    hide After, Except;
    assert delivered + (After(stream, position) + After([m], start)) == (delivered + After(stream, position)) + After([m], start);
  }

  lemma AddKeeps(s: System, start: int, m: Message)
    requires Inv(s, start) && Enabled(s, Add(m))
    ensures Inv(Next(s, Add(m)), start)
  {
    AddBalanced(Flatten(s.chunks), s.stream, s.cursor.id, s.log, start, s.missed, m);
    hide Balanced, Flatten;
    assert forall n :: n in s.log + [m] <==> n in s.log || n == m;
  }

  lemma ReadKeeps(s: System, start: int, count: nat)
    requires Inv(s, start)
    ensures Inv(Next(s, Read(count)), start)
  {
    var batch := XRead(s.stream, s.cursor, count);
    ChunkAndRest(s.stream, s.cursor.id, count);
    FlattenPush(s.chunks, batch);
    hide After, Except, XRead, Flatten;
    ReadBalanced(Flatten(s.chunks), s.stream, s.cursor.id, batch, Moved(s.cursor, batch).id, s.log, start, s.missed);
    hide Balanced;
    StructureRead(s, start, batch);
  }

  lemma ReadBalanced(delivered: seq<Message>, stream: seq<Message>, position: int, batch: seq<Message>, later: int,
                     log: seq<Message>, start: int, missed: set<Message>)
    requires Balanced(delivered, stream, position, log, start, missed)
    requires After(stream, position) == batch + After(stream, later)
    ensures Balanced(delivered + batch, stream, later, log, start, missed)
  {
    hide After, Except;
    assert delivered + (batch + After(stream, later)) == (delivered + batch) + After(stream, later);
  }

  lemma StructureRead(s: System, start: int, batch: seq<Message>)
    requires Structure(s, start)
    requires batch != [] ==> batch[|batch| - 1] in s.stream && batch[|batch| - 1].id > s.cursor.id
    requires forall m :: m in batch ==> m.id <= Moved(s.cursor, batch).id
    ensures Structure(s.(cursor := Moved(s.cursor, batch), chunks := s.chunks + [batch]), start)
  {
    FlattenPush(s.chunks, batch);
    hide Flatten, Ordered;
    assert Moved(s.cursor, batch).id >= s.cursor.id;
    assert forall m :: m in Flatten(s.chunks) + batch ==> m in Flatten(s.chunks) || m in batch;
  }

  lemma TrimBalanced(delivered: seq<Message>, front: seq<Message>, back: seq<Message>, position: int,
                     log: seq<Message>, start: int, missed: set<Message>, more: set<Message>)
    requires Balanced(delivered, front + back, position, log, start, missed)
    requires forall m :: m in delivered ==> m !in more
    requires forall m :: m in After(front, position) ==> m in more
    requires forall m :: m in After(back, position) ==> m !in more
    ensures Balanced(delivered, back, position, log, start, missed + more)
  {
    AfterConcat(front, back, position);
    ExceptTwice(After(log, start), missed, more);
    ExceptConcat(delivered, After(front, position) + After(back, position), more);
    ExceptConcat(After(front, position), After(back, position), more);
    ExceptNone(delivered, more);
    ExceptAll(After(front, position), more);
    ExceptNone(After(back, position), more);
    hide After, Except;
    assert [] + After(back, position) == After(back, position);
  }

  lemma TrimKeeps(s: System, start: int, dropped: nat)
    requires Inv(s, start) && Enabled(s, Trim(dropped))
    ensures Inv(Next(s, Trim(dropped)), start)
  {
    var c := s.cursor.id;
    var front, back := s.stream[..dropped], s.stream[dropped..];
    var more := PastCursor(front, s.cursor);
    assert s.stream == front + back;
    AfterMembers(front, c);
    AfterMembers(back, c);
    hide After;
    forall m | m in After(back, c)
      ensures m !in more
    {
      var j :| 0 <= j < |back| && back[j] == m;
      assert m == s.stream[dropped + j];
    }
    TrimBalanced(Flatten(s.chunks), front, back, c, s.log, start, s.missed, more);
    hide Balanced, Flatten;
  }

  lemma {:induction false} InvRun(s: System, start: int, ops: seq<Op>)
    requires Inv(s, start) && Legal(s, ops)
    ensures Inv(Run(s, ops), start)
    decreases |ops|
  {
    hide Inv, Next;
    if ops != [] {
      match ops[0] {
        case Add(m) => AddKeeps(s, start, m);
        case Trim(dropped) => TrimKeeps(s, start, dropped);
        case Read(count) => ReadKeeps(s, start, count);
      }
      InvRun(Next(s, ops[0]), start, ops[1..]);
    }
  }

  function Fresh(stream: seq<Message>, cursor: Cursor): System {
    System(stream, stream, cursor, [], {})
  }

  /** Main result: reading in chunks of any sizes, while messages are added and old ones trimmed, delivers in order and
      once each exactly the messages past the starting position, but for those trimmed before they were reached and
      those still waiting. */
  lemma ChunksLoseNothing(stream: seq<Message>, start: int, ops: seq<Op>)
    requires Ordered(stream) && Legal(Fresh(stream, At(start)), ops)
    ensures var s := Run(Fresh(stream, At(start)), ops);
      && s.cursor.At?
      && Flatten(s.chunks) + After(s.stream, s.cursor.id) == Except(After(s.log, start), s.missed)
      && Ordered(s.log)
  {
    ExceptNone(After(stream, start), {});
    assert [] + After(stream, start) == After(stream, start);
    InvRun(Fresh(stream, At(start)), start, ops);
  }

  /** A read takes the first messages that wait, as many as asked for or all there are. */
  lemma ReadTakesFirst(messages: seq<Message>, id: int, count: nat)
    ensures var batch, waiting := XRead(messages, At(id), count), After(messages, id);
      batch <= waiting && |batch| == if count <= |waiting| then count else |waiting|
  {
  }

  /** Reading again and again. */
  function Reads(count: nat, times: nat): seq<Op> {
    if times == 0 then [] else [Read(count)] + Reads(count, times - 1)
  }

  /** How many messages wait past the position. */
  function Waiting(s: System): nat {
    if s.cursor.At? then |After(s.stream, s.cursor.id)| else 0
  }

  lemma ReadShortens(s: System, start: int, count: nat)
    requires Inv(s, start)
    ensures var next := Next(s, Read(count));
      && Inv(next, start) && next.stream == s.stream
      && Waiting(next) == if count <= Waiting(s) then Waiting(s) - count else 0
  {
    ReadKeeps(s, start, count);
    ReadTakesFirst(s.stream, s.cursor.id, count);
    ChunkAndRest(s.stream, s.cursor.id, count);
    hide Inv, After, XRead;
  }

  /** Main result: each read shortens what waits by the number asked for, so enough reads deliver all of it. */
  lemma {:induction false} ReadsDrain(s: System, start: int, count: nat, times: nat)
    requires Inv(s, start)
    ensures Legal(s, Reads(count, times))
    ensures var after := Run(s, Reads(count, times));
      && after.stream == s.stream
      && Waiting(after) == if Product(count, times) <= Waiting(s) then Waiting(s) - Product(count, times) else 0
    decreases times
  {
    hide Inv, Next, Waiting, Product;
    if times == 0 {
      ProductNone(count);
    } else {
      var steps, next := Reads(count, times), Next(s, Read(count));
      assert steps[0] == Read(count) && steps[1..] == Reads(count, times - 1);
      ReadShortens(s, start, count);
      ReadsDrain(next, start, count, times - 1);
      ProductNext(count, times - 1);
    }
  }

  lemma ProductNone(count: nat)
    ensures Product(count, 0) == 0
  {
  }

  function Product(count: nat, times: nat): nat {
    count * times
  }

  lemma ProductNext(count: nat, times: nat)
    ensures Product(count, times + 1) == count + Product(count, times)
  {
  }

  /** Nothing lies past the last id of an ordered stream, so a read at "$" is empty and the position stays "$". */
  lemma NothingPastLast(messages: seq<Message>, count: nat)
    requires Ordered(messages)
    ensures XRead(messages, Latest, count) == [] && Moved(Latest, XRead(messages, Latest, count)) == Latest
  {
    forall m | m in messages
      ensures m.id <= LastId(messages)
    {
      var i :| 0 <= i < |messages| && messages[i] == m;
    }
    AfterNone(messages, LastId(messages));
  }

  ghost predicate AtLatest(s: System) {
    && s.cursor == Latest && Flatten(s.chunks) == []
    && Ordered(s.log) && Ordered(s.stream)
    && forall m :: m in s.stream ==> m in s.log
  }

  lemma LatestStep(s: System, op: Op)
    requires AtLatest(s) && Enabled(s, op)
    ensures AtLatest(Next(s, op))
  {
    match op
    case Add(m) => assert forall n :: n in s.log + [m] <==> n in s.log || n == m;
    case Trim(dropped) =>
    case Read(count) =>
      NothingPastLast(s.stream, count);
      FlattenPush(s.chunks, []);
  }

  /** From "$" no number of non-blocking reads ever delivers anything, whatever is added or trimmed in between: each call
      resolves "$" anew, past all that was added since the last one. */
  lemma {:induction false} LatestReadsNothing(s: System, ops: seq<Op>)
    requires AtLatest(s) && Legal(s, ops)
    ensures AtLatest(Run(s, ops))
    decreases |ops|
  {
    hide AtLatest, Next;
    if ops != [] {
      LatestStep(s, ops[0]);
      LatestReadsNothing(Next(s, ops[0]), ops[1..]);
    }
  }

  /** After a reset to "$" a run delivers nothing, however many messages it adds. */
  lemma ResetToLatestReadsNothing(stream: seq<Message>, ops: seq<Op>)
    requires Ordered(stream) && Legal(Fresh(stream, Latest), ops)
    ensures Flatten(Run(Fresh(stream, Latest), ops).chunks) == []
    ensures Run(Fresh(stream, Latest), ops).cursor == Latest
  {
    LatestReadsNothing(Fresh(stream, Latest), ops);
  }

  // ---- Each stock's latest message ----

  /** Messages without a stock code do not count. */
  function LatestByStock(messages: seq<Message>): map<string, Data> {
    if messages == [] then map[]
    else
      var data := messages[|messages| - 1].data;
      var earlier := LatestByStock(messages[..|messages| - 1]);
      if data.stockCode != "" then earlier[data.stockCode := data] else earlier
  }

  ghost predicate LastOf(messages: seq<Message>, stockCode: string, i: nat) {
    && i < |messages| && messages[i].data.stockCode == stockCode
    && forall j :: i < j < |messages| ==> messages[j].data.stockCode != stockCode
  }

  /** The map holds, for every stock with a message, the data of its last one. */
  lemma {:induction false} LatestIsLast(messages: seq<Message>, stockCode: string)
    requires stockCode != ""
    ensures stockCode in LatestByStock(messages) <==> exists i: nat :: LastOf(messages, stockCode, i)
    ensures forall i: nat :: LastOf(messages, stockCode, i) ==> LatestByStock(messages)[stockCode] == messages[i].data
  {
    if messages != [] {
      var n := |messages| - 1;
      LatestIsLast(messages[..n], stockCode);
      if messages[n].data.stockCode == stockCode {
        assert LastOf(messages, stockCode, n);
      } else {
        assert forall i: nat :: LastOf(messages, stockCode, i) <==> LastOf(messages[..n], stockCode, i);
      }
    }
  }

  /** Conflation is a homomorphism: overlaying the map of a later chunk on that of an earlier one is the map of both. */
  lemma {:induction false} LatestConcat(a: seq<Message>, b: seq<Message>)
    ensures LatestByStock(a + b) == LatestByStock(a) + LatestByStock(b)
  {
    if b == [] {
      assert a + b == a;
    } else {
      var n := |b| - 1;
      LatestConcat(a, b[..n]);
      assert (a + b)[..|a| + n] == a + b[..n];
    }
  }

  function Overlay(chunks: seq<seq<Message>>): map<string, Data> {
    if chunks == [] then map[] else Overlay(chunks[..|chunks| - 1]) + LatestByStock(chunks[|chunks| - 1])
  }

  /** Main result: overlaying the per-read maps in order gives each stock's latest message over everything read, in
      whatever chunks it was read. */
  lemma {:induction false} OverlayIsLatest(chunks: seq<seq<Message>>)
    ensures Overlay(chunks) == LatestByStock(Flatten(chunks))
  {
    if chunks != [] {
      OverlayIsLatest(chunks[..|chunks| - 1]);
      LatestConcat(Flatten(chunks[..|chunks| - 1]), chunks[|chunks| - 1]);
    }
  }

  /** Together: once nothing waits, a consumer that overlays its reads holds each stock's latest surviving message. */
  lemma ConsumerSeesLatest(stream: seq<Message>, start: int, ops: seq<Op>)
    requires Ordered(stream) && Legal(Fresh(stream, At(start)), ops)
    ensures var s := Run(Fresh(stream, At(start)), ops);
      && s.cursor.At?
      && (After(s.stream, s.cursor.id) == [] ==>
            Overlay(s.chunks) == LatestByStock(Except(After(s.log, start), s.missed)))
  {
    ChunksLoseNothing(stream, start, ops);
    var s := Run(Fresh(stream, At(start)), ops);
    OverlayIsLatest(s.chunks);
    hide Run, Except, LatestByStock, Overlay, Flatten;
    assert Flatten(s.chunks) + [] == Flatten(s.chunks);
  }

  // ---- Conversion to quotes ----

  /** Stocks whose latest message does not convert are left out. */
  function Converted(latest: map<string, Data>): map<string, real> {
    map s | s in latest && latest[s].quote.Some? :: latest[s].quote.value
  }

  function OverlayConverted(chunks: seq<seq<Message>>): map<string, real> {
    if chunks == [] then map[]
    else OverlayConverted(chunks[..|chunks| - 1]) + Converted(LatestByStock(chunks[|chunks| - 1]))
  }

  ghost predicate SomeReadConverts(chunks: seq<seq<Message>>, s: string) {
    exists k :: 0 <= k < |chunks| && s in Converted(LatestByStock(chunks[k]))
  }

  lemma {:induction false} OverlayConvertedMembers(chunks: seq<seq<Message>>, s: string)
    ensures s in OverlayConverted(chunks) <==> SomeReadConverts(chunks, s)
    ensures s in Overlay(chunks) && Overlay(chunks)[s].quote.Some? ==>
        s in OverlayConverted(chunks) && OverlayConverted(chunks)[s] == Overlay(chunks)[s].quote.value
    ensures s !in Overlay(chunks) ==> s !in OverlayConverted(chunks)
  {
    if chunks != [] {
      var n := |chunks| - 1;
      OverlayConvertedMembers(chunks[..n], s);
      if s in Converted(LatestByStock(chunks[n])) {
        assert SomeReadConverts(chunks, s);
      } else {
        assert SomeReadConverts(chunks, s) <==> SomeReadConverts(chunks[..n], s) by {
          assert forall k :: 0 <= k < n ==> chunks[..n][k] == chunks[k];
        }
      }
    }
  }

  ghost predicate NoStale(latest: map<string, Data>, chunks: seq<seq<Message>>) {
    forall s :: s in latest && latest[s].quote.None? ==> !SomeReadConverts(chunks, s)
  }

  lemma ConvertedIff(quotes: map<string, real>, latest: map<string, Data>)
    requires forall s :: s in latest && latest[s].quote.Some? ==> s in quotes && quotes[s] == latest[s].quote.value
    requires forall s :: s in quotes ==> s in latest
    ensures quotes == Converted(latest) <==> forall s :: s in latest && latest[s].quote.None? ==> s !in quotes
  {
    if s :| s in latest && latest[s].quote.None? && s in quotes {
      assert s !in Converted(latest);
    } else {
      assert quotes.Keys == Converted(latest).Keys;
    }
  }

  /** Overlaying the quotes a consumer is given equals converting the latest messages exactly when no stock whose last
      message fails to convert was converted in an earlier read; otherwise a stale quote stays. */
  lemma QuotesStaleIff(chunks: seq<seq<Message>>)
    ensures OverlayConverted(chunks) == Converted(LatestByStock(Flatten(chunks))) <==>
            NoStale(LatestByStock(Flatten(chunks)), chunks)
  {
    OverlayIsLatest(chunks);
    var quotes, latest := OverlayConverted(chunks), Overlay(chunks);
    forall s
      ensures s in quotes <==> SomeReadConverts(chunks, s)
      ensures s in latest && latest[s].quote.Some? ==> s in quotes && quotes[s] == latest[s].quote.value
      ensures s in quotes ==> s in latest
    {
      OverlayConvertedMembers(chunks, s);
    }
    hide SomeReadConverts, OverlayConverted, Overlay, LatestByStock, Converted;
    ConvertedIff(quotes, latest);
  }

  // ---- The manager ----

  /** Only each stock's latest message is kept. */
  method Conflate(messages: seq<Message>) returns (latest: map<string, Data>)
    ensures latest == LatestByStock(messages)
  {
    latest := map[];
    for i := 0 to |messages|
      invariant latest == LatestByStock(messages[..i])
    {
      assert messages[..i + 1][..i] == messages[..i];
      var data := messages[i].data;
      if data.stockCode != "" {
        latest := latest[data.stockCode := data];
      }
    }
    assert messages[..|messages|] == messages;
  }

  /** Each latest message that converts gives a quote. */
  method Convert(latest: map<string, Data>) returns (result: map<string, real>)
    ensures result == Converted(latest)
  {
    result := map[];
    var left := latest.Keys;
    while left != {}
      invariant left <= latest.Keys
      invariant result == map s | s in latest && s !in left && latest[s].quote.Some? :: latest[s].quote.value
      decreases |left|
    {
      var stockCode :| stockCode in left;
      if latest[stockCode].quote.Some? {
        result := result[stockCode := latest[stockCode].quote.value];
      }
      left := left - {stockCode};
    }
  }

  class RedisStreamManager {
    var lastReadIds: map<string, Cursor>

    constructor ()
      ensures lastReadIds == map[]
    {
      lastReadIds := map[];
    }

    /** A stream never read starts at its beginning. */
    function Position(streamName: string): Cursor
      reads this
    {
      if streamName in lastReadIds then lastReadIds[streamName] else At(0)
    }

    /** One non-blocking read of the stream as it is now; a count below one is an error, answered with nothing. */
    method XReadLatest(streamName: string, stream: seq<Message>, count: int) returns (messages: seq<Message>)
      modifies this
      ensures messages == if count < 1 then [] else XRead(stream, old(Position(streamName)), count)
      ensures Position(streamName) == Moved(old(Position(streamName)), messages)
      ensures forall other :: other != streamName ==> Position(other) == old(Position(other))
    {
      messages := [];
      if count < 1 {
        return;
      }
      var result := XRead(stream, Position(streamName), count);
      ghost var before := Position(streamName);
      for i := 0 to |result|
        invariant messages == result[..i]
        invariant Position(streamName) == Moved(before, result[..i])
        invariant forall other :: other != streamName ==> Position(other) == old(Position(other))
      {
        messages := messages + [result[i]];
        lastReadIds := lastReadIds[streamName := At(result[i].id)];
      }
    }

    /** The conflated read: one quote per stock, from its latest message in this chunk. */
    method GetLatestByStock(streamName: string, stream: seq<Message>, count: int) returns (result: map<string, real>)
      modifies this
      ensures var batch := if count < 1 then [] else XRead(stream, old(Position(streamName)), count);
        && result == Converted(LatestByStock(batch))
        && Position(streamName) == Moved(old(Position(streamName)), batch)
      ensures forall other :: other != streamName ==> Position(other) == old(Position(other))
    {
      hide XRead, Moved;
      var messages := XReadLatest(streamName, stream, count);
      hide Position;
      var latest := Conflate(messages);
      result := Convert(latest);
    }

    method ResetReadPosition(streamName: string, position: Cursor)
      modifies this
      ensures Position(streamName) == position
      ensures forall other :: other != streamName ==> Position(other) == old(Position(other))
    {
      lastReadIds := lastReadIds[streamName := position];
    }
  }
}
