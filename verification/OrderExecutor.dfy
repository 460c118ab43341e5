/** The executor's map of pending orders: which orders enter and leave it, and how many live ones a stock and side
    can have. Calls do not overlap. */
module OrderExecutor {
  import opened Wrappers

  datatype Side = Buy | Sell

  datatype Status = Pending | Submitted | PartiallyFilled | Filled | Cancelled | Rejected | Failed

  predicate Terminal(status: Status) {
    status == Filled || status == Cancelled || status == Rejected || status == Failed
  }

  predicate Ended(status: Status) {
    status == Filled || status == Rejected || status == Failed
  }

  predicate Failure(status: Status) {
    status == Rejected || status == Failed
  }

  datatype Entry = Entry(stockCode: string, side: Side, status: Status)

  type Book = map<string, Entry>

  /** A check passes, refuses the order, or raises. */
  datatype Check = Pass | Refuse | Crash

  datatype Checks = Checks(price: Check, risk: Check, order: Check)

  /** What submitting to the broker comes to: an exception, or an order with a status; it may be the object submitted or
      another one with the same id; handling it may raise. */
  datatype Reply = Raises | Answer(status: Status, sameObject: bool, crashes: bool)

  datatype EventKind = Accepted | Executed | Confirmed | Cancellation | Refusal | Unknown

  function StatusOf(kind: EventKind): Option<Status> {
    match kind
    case Accepted => Some(Submitted)
    case Executed => Some(Filled)
    case Confirmed => Some(Submitted)
    case Cancellation => Some(Cancelled)
    case Refusal => Some(Rejected)
    case Unknown => None
  }

  // ---- The map as a value ----

  predicate LiveFor(e: Entry, stockCode: string, side: Side) {
    e.stockCode == stockCode && e.side == side && !Terminal(e.status)
  }

  predicate Duplicate(book: Book, stockCode: string, side: Side) {
    exists id :: id in book && LiveFor(book[id], stockCode, side)
  }

  predicate Admitted(book: Book, stockCode: string, side: Side, checks: Checks) {
    checks.price == Pass && !Duplicate(book, stockCode, side) && checks.risk == Pass && checks.order == Pass
  }

  function AfterReply(book: Book, id: string, stockCode: string, side: Side, reply: Reply): Book {
    match reply
    case Raises => book - {id}
    case Answer(status, sameObject, crashes) =>
      if crashes || Ended(status) then book - {id}
      else if status == PartiallyFilled || sameObject then book[id := Entry(stockCode, side, status)]
      else book[id := Entry(stockCode, side, Submitted)]
  }

  /** A check raises before the order is submitted; the handler then drops whatever is pending under its id. */
  predicate RaisesEarly(book: Book, stockCode: string, side: Side, checks: Checks) {
    || checks.price == Crash
    || (checks.price == Pass && !Duplicate(book, stockCode, side) &&
        (checks.risk == Crash || (checks.risk == Pass && checks.order == Crash)))
  }

  function AfterExecute(book: Book, id: string, stockCode: string, side: Side, checks: Checks, reply: Reply): Book {
    if RaisesEarly(book, stockCode, side, checks) then book - {id}
    else if Admitted(book, stockCode, side, checks) then AfterReply(book, id, stockCode, side, reply)
    else book
  }

  function AfterCancel(book: Book, id: string): Book {
    if id in book && !Terminal(book[id].status) then book - {id} else book
  }

  function AfterEvent(book: Book, id: string, kind: EventKind, partial: bool): Book {
    if id !in book || StatusOf(kind).None? then book
    else
      var status := StatusOf(kind).value;
      if Terminal(status) then book - {id}
      else book[id := book[id].(status := if partial then PartiallyFilled else status)]
  }

  datatype Op =
    | Execute(id: string, stockCode: string, side: Side, checks: Checks, reply: Reply)
    | Cancel(id: string)
    | Event(id: string, kind: EventKind, partial: bool)

  function Apply(book: Book, op: Op): Book {
    match op
    case Execute(id, stockCode, side, checks, reply) => AfterExecute(book, id, stockCode, side, checks, reply)
    case Cancel(id) => AfterCancel(book, id)
    case Event(id, kind, partial) => AfterEvent(book, id, kind, partial)
  }

  function ApplyAll(book: Book, ops: seq<Op>): Book {
    if ops == [] then book else Apply(ApplyAll(book, ops[..|ops| - 1]), ops[|ops| - 1])
  }

  // ---- At most one live order per stock and side ----

  ghost predicate AtMostOne(book: Book) {
    forall a, b :: a in book && b in book && a != b && !Terminal(book[a].status) && !Terminal(book[b].status) ==>
                     book[a].stockCode != book[b].stockCode || book[a].side != book[b].side
  }

  ghost predicate AllLive(book: Book) {
    forall id :: id in book ==> !Terminal(book[id].status)
  }

  /** The broker hands back the submitted order itself, cancelled. */
  predicate CancelledReply(op: Op) {
    op.Execute? && op.reply.Answer? && !op.reply.crashes && op.reply.status == Cancelled && op.reply.sameObject
  }

  lemma EnterKeeps(book: Book, id: string, e: Entry)
    requires AtMostOne(book) && AllLive(book) && !Terminal(e.status) && !Duplicate(book, e.stockCode, e.side)
    ensures AtMostOne(book[id := e]) && AllLive(book[id := e])
  {
    assert forall other :: other in book ==> !LiveFor(book[other], e.stockCode, e.side);
  }

  lemma LeaveKeeps(book: Book, id: string)
    requires AtMostOne(book) && AllLive(book)
    ensures AtMostOne(book - {id}) && AllLive(book - {id})
  {
  }

  lemma ChangeKeeps(book: Book, id: string, status: Status)
    requires AtMostOne(book) && AllLive(book) && id in book && !Terminal(status)
    ensures AtMostOne(book[id := book[id].(status := status)]) && AllLive(book[id := book[id].(status := status)])
  {
  }

  lemma ApplyKeeps(book: Book, op: Op)
    requires AtMostOne(book) && AllLive(book) && !CancelledReply(op)
    ensures AtMostOne(Apply(book, op)) && AllLive(Apply(book, op))
  {
    LeaveKeeps(book, op.id);
    match op
    case Execute(id, stockCode, side, checks, reply) =>
      if Admitted(book, stockCode, side, checks) && id in Apply(book, op) {
        hide AtMostOne, AllLive;
        EnterKeeps(book, id, Apply(book, op)[id]);
      }
    case Cancel(id) =>
    case Event(id, kind, partial) =>
      if id in book && StatusOf(kind).Some? && !Terminal(StatusOf(kind).value) {
        hide AtMostOne, AllLive;
        ChangeKeeps(book, id, if partial then PartiallyFilled else StatusOf(kind).value);
      }
  }

  /** Main result: over any run of executions, cancellations and execution events, as long as no broker answer is the
      submitted order cancelled, the map holds only live orders and at most one per stock and side. */
  lemma {:induction false} OneLivePerSide(ops: seq<Op>)
    requires forall i :: 0 <= i < |ops| ==> !CancelledReply(ops[i])
    ensures AtMostOne(ApplyAll(map[], ops)) && AllLive(ApplyAll(map[], ops))
  {
    if ops != [] {
      OneLivePerSide(ops[..|ops| - 1]);
      ApplyKeeps(ApplyAll(map[], ops[..|ops| - 1]), ops[|ops| - 1]);
    }
  }

  const PASSED := Checks(Pass, Pass, Pass)

  /** Admitting such an answer (which the broker's interface allows, though neither client in the repository gives it) is
      exactly what spoils it: the cancelled order stays in the map, a second order for the
      same stock and side is admitted, and a late acceptance event brings the first one back to life. */
  lemma CancelledReplyRevives(book: Book, first: string, second: string, stockCode: string, side: Side)
    requires first !in book && second !in book && first != second
    requires AtMostOne(book) && AllLive(book) && !Duplicate(book, stockCode, side)
    ensures var op := Execute(first, stockCode, side, PASSED, Answer(Cancelled, true, false));
      var after := Apply(Apply(Apply(book, op),
                               Execute(second, stockCode, side, PASSED, Answer(Submitted, true, false))),
                         Event(first, Accepted, false));
      && CancelledReply(op)
      && LiveFor(after[first], stockCode, side) && LiveFor(after[second], stockCode, side)
      && !AtMostOne(after)
  {
    var cancelled := book[first := Entry(stockCode, side, Cancelled)];
    assert Apply(book, Execute(first, stockCode, side, PASSED, Answer(Cancelled, true, false))) == cancelled;
    assert !Duplicate(cancelled, stockCode, side) by {
      forall id | id in cancelled
        ensures !LiveFor(cancelled[id], stockCode, side)
      {
        if id != first {
          assert id in book && cancelled[id] == book[id];
        }
      }
    }
    var both := cancelled[second := Entry(stockCode, side, Submitted)];
    assert Apply(cancelled, Execute(second, stockCode, side, PASSED, Answer(Submitted, true, false))) == both;
    var after := both[first := Entry(stockCode, side, Submitted)];
    assert Apply(both, Event(first, Accepted, false)) == after;
  }

  /** A submission passes the duplicate check exactly when the stock and side have no live order; the order in the way
      is then the only one. */
  lemma SecondRefused(ops: seq<Op>, id: string, stockCode: string, side: Side, checks: Checks, reply: Reply)
    requires forall i :: 0 <= i < |ops| ==> !CancelledReply(ops[i])
    ensures var book := ApplyAll(map[], ops);
      && (Duplicate(book, stockCode, side) && checks.price != Crash ==>
            AfterExecute(book, id, stockCode, side, checks, reply) == book)
      && (Duplicate(book, stockCode, side) <==>
            exists a :: a in book && book[a].stockCode == stockCode && book[a].side == side)
      && (forall a, b :: a in book && b in book && book[a].stockCode == book[b].stockCode == stockCode ==>
                           book[a].side == book[b].side == side ==> a == b)
  {
    OneLivePerSide(ops);
    var book := ApplyAll(map[], ops);
    if a :| a in book && book[a].stockCode == stockCode && book[a].side == side {
      assert LiveFor(book[a], stockCode, side);
    }
  }

  // ---- What becomes of the orders that leave ----

  /** An order leaves with the last status reported for it. */
  datatype Departure = Departure(id: string, status: Status)

  function Replaced(book: Book, id: string): seq<Departure> {
    if id in book then [Departure(id, book[id].status)] else []
  }

  function Settled(id: string, reply: Reply): seq<Departure> {
    if reply.Raises? || reply.crashes then [Departure(id, Failed)]
    else if Ended(reply.status) then [Departure(id, reply.status)]
    else []
  }

  /** Which orders an operation takes out of the map, an order whose id is used again included. */
  function Leaving(book: Book, op: Op): seq<Departure> {
    match op
    case Execute(id, stockCode, side, checks, reply) =>
      if RaisesEarly(book, stockCode, side, checks) then Replaced(book, id)
      else if Admitted(book, stockCode, side, checks) then Replaced(book, id) + Settled(id, reply)
      else []
    case Cancel(id) => if id in book && !Terminal(book[id].status) then [Departure(id, Cancelled)] else []
    case Event(id, kind, partial) =>
      if id in book && StatusOf(kind).Some? && Terminal(StatusOf(kind).value)
      then [Departure(id, StatusOf(kind).value)]
      else []
  }

  function Entering(book: Book, op: Op): seq<string> {
    if op.Execute? && Admitted(book, op.stockCode, op.side, op.checks) then [op.id] else []
  }

  function Departed(ops: seq<Op>): seq<Departure> {
    if ops == [] then []
    else
      var front := ops[..|ops| - 1];
      Departed(front) + Leaving(ApplyAll(map[], front), ops[|ops| - 1])
  }

  function Entered(ops: seq<Op>): seq<string> {
    if ops == [] then []
    else
      var front := ops[..|ops| - 1];
      Entered(front) + Entering(ApplyAll(map[], front), ops[|ops| - 1])
  }

  function Ids(departures: seq<Departure>): seq<string> {
    seq(|departures|, i requires 0 <= i < |departures| => departures[i].id)
  }

  lemma IdsConcat(a: seq<Departure>, b: seq<Departure>)
    ensures Ids(a + b) == Ids(a) + Ids(b)
  {
  }

  /** The ids pending under any other id. */
  ghost function Others(book: Book, id: string): multiset<string> {
    multiset((book - {id}).Keys)
  }

  lemma KeysAdd(book: Book, id: string, e: Entry)
    ensures multiset(book[id := e].Keys) == Others(book, id) + multiset{id}
  {
    assert book[id := e].Keys == (book - {id}).Keys + {id};
  }

  lemma KeysSplit(book: Book, id: string)
    ensures multiset(book.Keys) == Others(book, id) + multiset(Ids(Replaced(book, id)))
  {
    if id in book {
      assert Ids(Replaced(book, id)) == [id];
      assert book.Keys == (book - {id}).Keys + {id};
    } else {
      assert Ids(Replaced(book, id)) == [];
      assert book - {id} == book;
    }
  }

  /** A submitted order is in the map afterwards or has left it. */
  lemma ReplyAccounts(book: Book, id: string, stockCode: string, side: Side, reply: Reply)
    ensures multiset(AfterReply(book, id, stockCode, side, reply).Keys) + multiset(Ids(Settled(id, reply)))
         == Others(book, id) + multiset{id}
  {
    if Settled(id, reply) == [] {
      KeysAdd(book, id, AfterReply(book, id, stockCode, side, reply)[id]);
    } else {
      assert Ids(Settled(id, reply)) == [id];
    }
  }

  lemma ExecuteAccounts(book: Book, op: Op)
    requires op.Execute?
    ensures multiset(book.Keys) + multiset(Entering(book, op))
         == multiset(Apply(book, op).Keys) + multiset(Ids(Leaving(book, op)))
  {
    KeysSplit(book, op.id);
    ReplyAccounts(book, op.id, op.stockCode, op.side, op.reply);
    IdsConcat(Replaced(book, op.id), Settled(op.id, op.reply));
    assert RaisesEarly(book, op.stockCode, op.side, op.checks) ==> !Admitted(book, op.stockCode, op.side, op.checks);
    hide Duplicate, RaisesEarly, Admitted, Ids, Replaced, Settled, AfterReply;
    var early := RaisesEarly(book, op.stockCode, op.side, op.checks);
    var admitted := Admitted(book, op.stockCode, op.side, op.checks);
    if admitted {
      assert Entering(book, op) == [op.id];
    } else if !early {
      assert Ids([]) == [];
    }
  }

  lemma RemovalAccounts(book: Book, after: Book, id: string, leaving: seq<Departure>)
    requires if leaving == [] then after.Keys == book.Keys
             else id in book && after == book - {id} && |leaving| == 1 && leaving[0].id == id
    ensures multiset(book.Keys) == multiset(after.Keys) + multiset(Ids(leaving))
  {
    if leaving == [] {
      assert Ids(leaving) == [];
    } else {
      KeysSplit(book, id);
      assert Ids(leaving) == [id] == Ids(Replaced(book, id));
    }
  }

  /** Each operation moves orders in, out, or not at all. */
  lemma StepAccounts(book: Book, op: Op)
    ensures multiset(book.Keys) + multiset(Entering(book, op))
         == multiset(Apply(book, op).Keys) + multiset(Ids(Leaving(book, op)))
  {
    if op.Execute? {
      ExecuteAccounts(book, op);
    } else {
      assert Leaving(book, op) == [] ==> Apply(book, op).Keys == book.Keys;
      RemovalAccounts(book, Apply(book, op), op.id, Leaving(book, op));
      hide Apply, Leaving, Ids;
      assert Entering(book, op) == [];
    }
  }

  lemma Chain<T>(entered: multiset<T>, entering: multiset<T>, held: multiset<T>, departed: multiset<T>,
                 after: multiset<T>, leaving: multiset<T>)
    requires entered == held + departed && held + entering == after + leaving
    ensures entered + entering == after + (departed + leaving)
  {
    assert entered + entering == (held + entering) + departed;
  }

  /** Every submitted order is pending or has left, each submission exactly once. */
  lemma {:induction false} SubmissionsAccounted(ops: seq<Op>)
    ensures multiset(Entered(ops)) == multiset(ApplyAll(map[], ops).Keys) + multiset(Ids(Departed(ops)))
  {
    if ops == [] {
      assert ApplyAll(map[], ops).Keys == {};
    } else {
      var front, op := ops[..|ops| - 1], ops[|ops| - 1];
      var book := ApplyAll(map[], front);
      SubmissionsAccounted(front);
      StepAccounts(book, op);
      IdsConcat(Departed(front), Leaving(book, op));
      hide ApplyAll, Apply, Leaving, Entering, Ids;
      Chain(multiset(Entered(front)), multiset(Entering(book, op)), multiset(book.Keys), multiset(Ids(Departed(front))),
            multiset(Apply(book, op).Keys), multiset(Ids(Leaving(book, op))));
    }
  }

  ghost predicate Uses(op: Op, id: string) {
    op.Execute? && op.id == id
  }

  /** No id is submitted, or tried, twice. */
  ghost predicate FreshIds(ops: seq<Op>) {
    forall i, j :: 0 <= i < j < |ops| && ops[i].Execute? && ops[j].Execute? ==> ops[i].id != ops[j].id
  }

  lemma {:induction false} PendingWereTried(ops: seq<Op>)
    ensures forall id :: id in ApplyAll(map[], ops) ==> exists i :: 0 <= i < |ops| && Uses(ops[i], id)
  {
    if ops != [] {
      var n := |ops| - 1;
      var front := ops[..n];
      PendingWereTried(front);
      forall id | id in ApplyAll(map[], ops)
        ensures exists i :: 0 <= i < |ops| && Uses(ops[i], id)
      {
        if id in ApplyAll(map[], front) {
          var i :| 0 <= i < |front| && Uses(front[i], id);
          assert ops[i] == front[i];
        } else {
          assert Uses(ops[n], id);
        }
      }
    }
  }

  lemma LastIsFresh(ops: seq<Op>)
    requires ops != [] && FreshIds(ops)
    ensures FreshIds(ops[..|ops| - 1])
    ensures ops[|ops| - 1].Execute? ==> ops[|ops| - 1].id !in ApplyAll(map[], ops[..|ops| - 1])
  {
    var n := |ops| - 1;
    PendingWereTried(ops[..n]);
    assert forall i :: 0 <= i < n ==> ops[..n][i] == ops[i];
  }

  /** Some operation takes a live order out of the map exactly when it tries a pending live order's id again. */
  predicate DropsLive(book: Book, op: Op) {
    && op.Execute? && op.id in book && !Terminal(book[op.id].status)
    && (RaisesEarly(book, op.stockCode, op.side, op.checks) || Admitted(book, op.stockCode, op.side, op.checks))
  }

  ghost predicate AllTerminal(departures: seq<Departure>) {
    forall d :: d in departures ==> Terminal(d.status)
  }

  lemma LeaveTerminalIff(book: Book, op: Op)
    ensures AllTerminal(Leaving(book, op)) <==> !DropsLive(book, op)
  {
    if DropsLive(book, op) {
      assert Departure(op.id, book[op.id].status) in Leaving(book, op);
    }
  }

  /** Main result: over every run in which no order id is tried twice, every order that has left the map left with a
      terminal status, and every submitted order is pending or has left, exactly once. */
  lemma {:induction false} DepartedAreTerminal(ops: seq<Op>)
    requires FreshIds(ops)
    ensures AllTerminal(Departed(ops))
    ensures multiset(Entered(ops)) == multiset(ApplyAll(map[], ops).Keys) + multiset(Ids(Departed(ops)))
  {
    SubmissionsAccounted(ops);
    if ops != [] {
      var front, op := ops[..|ops| - 1], ops[|ops| - 1];
      LastIsFresh(ops);
      DepartedAreTerminal(front);
      LeaveTerminalIff(ApplyAll(map[], front), op);
      hide Leaving;
    }
  }

  /** The condition is needed: trying a pending live order's id again drops that order as it is, for one by an exception
      in the checks, for another by submitting an order in a stock and side that is free. */
  lemma TriedTwiceDropsLive(book: Book, id: string, stockCode: string, side: Side, reply: Reply)
    requires id in book && !Terminal(book[id].status) && !Duplicate(book, stockCode, side)
    ensures DropsLive(book, Execute(id, stockCode, side, Checks(Crash, Pass, Pass), reply))
    ensures DropsLive(book, Execute(id, stockCode, side, PASSED, reply))
    ensures id !in Apply(book, Execute(id, stockCode, side, Checks(Crash, Pass, Pass), reply))
  {
  }

  lemma OneMore(ops: seq<Op>, op: Op)
    ensures ApplyAll(map[], ops + [op]) == Apply(ApplyAll(map[], ops), op)
    ensures Departed(ops + [op]) == Departed(ops) + Leaving(ApplyAll(map[], ops), op)
  {
    assert (ops + [op])[..|ops|] == ops;
  }

  /** After any run an event about a pending order decides it: a cancellation and a refusal make it leave as cancelled and as
      rejected, an execution as filled; an acceptance and a confirmation leave it pending as submitted, or as partly filled;
      any other kind, and an event about an order that is not pending, changes nothing. */
  lemma EventsDecide(ops: seq<Op>, id: string, kind: EventKind, partial: bool)
    ensures var book := ApplyAll(map[], ops);
      var after, left := ApplyAll(map[], ops + [Event(id, kind, partial)]), Departed(ops + [Event(id, kind, partial)]);
      && (id !in book || kind == Unknown ==> after == book && left == Departed(ops))
      && (id in book && kind == Executed ==> after == book - {id} && left == Departed(ops) + [Departure(id, Filled)])
      && (id in book && kind == Cancellation ==> after == book - {id} && left == Departed(ops) + [Departure(id, Cancelled)])
      && (id in book && kind == Refusal ==> after == book - {id} && left == Departed(ops) + [Departure(id, Rejected)])
      && (id in book && (kind == Accepted || kind == Confirmed) ==>
            left == Departed(ops) && after ==
            book[id := Entry(book[id].stockCode, book[id].side, if partial then PartiallyFilled else Submitted)])
  {
    OneMore(ops, Event(id, kind, partial));
    hide ApplyAll, Departed;
    assert Departed(ops) + [] == Departed(ops);
  }

  /** After any run a cancellation makes a pending order that is still live leave as cancelled, and changes nothing else. */
  lemma CancelDecides(ops: seq<Op>, id: string)
    ensures var book := ApplyAll(map[], ops);
      var after, left := ApplyAll(map[], ops + [Cancel(id)]), Departed(ops + [Cancel(id)]);
      if id in book && !Terminal(book[id].status)
      then after == book - {id} && left == Departed(ops) + [Departure(id, Cancelled)]
      else after == book && left == Departed(ops)
  {
    OneMore(ops, Cancel(id));
    hide ApplyAll, Departed;
    assert Departed(ops) + [] == Departed(ops);
  }

  /** After any run of the kind the main result is about, an order under a new id that passes its checks, in a stock and
      side with nothing pending, is decided by the broker's answer. */
  lemma ReplyDecides(ops: seq<Op>, id: string, stockCode: string, side: Side, reply: Reply)
    requires forall i :: 0 <= i < |ops| ==> !CancelledReply(ops[i])
    requires var book := ApplyAll(map[], ops);
      id !in book && forall other :: other in book ==> book[other].stockCode != stockCode || book[other].side != side
    ensures var book, op := ApplyAll(map[], ops), Execute(id, stockCode, side, PASSED, reply);
      var after, left := ApplyAll(map[], ops + [op]), Departed(ops + [op]);
      if reply.Raises? || reply.crashes then after == book && left == Departed(ops) + [Departure(id, Failed)]
      else if reply.status == Filled || reply.status == Rejected || reply.status == Failed
      then after == book && left == Departed(ops) + [Departure(id, reply.status)]
      else left == Departed(ops) && after ==
           book[id := Entry(stockCode, side, if reply.status == PartiallyFilled || reply.sameObject then reply.status else Submitted)]
  {
    OneMore(ops, Execute(id, stockCode, side, PASSED, reply));
    hide ApplyAll, Departed;
    var book := ApplyAll(map[], ops);
    assert book - {id} == book;
    assert !Duplicate(book, stockCode, side);
    assert [] + Settled(id, reply) == Settled(id, reply);
    assert Departed(ops) + [] == Departed(ops);
  }

  // ---- The unfilled quantity ----

  /** The run with every event's unfilled quantity ignored. */
  function Blind(ops: seq<Op>): seq<Op> {
    seq(|ops|, i requires 0 <= i < |ops| => if ops[i].Event? then ops[i].(partial := false) else ops[i])
  }

  /** The same orders are pending, and the same of them are live. */
  ghost predicate Alike(a: Book, b: Book) {
    && a.Keys == b.Keys
    && forall id :: id in a ==>
         && a[id].stockCode == b[id].stockCode && a[id].side == b[id].side
         && (Terminal(a[id].status) <==> Terminal(b[id].status))
  }

  lemma AlikeDuplicate(a: Book, b: Book, stockCode: string, side: Side)
    requires Alike(a, b)
    ensures Duplicate(a, stockCode, side) <==> Duplicate(b, stockCode, side)
  {
    assert forall id :: id in a && LiveFor(a[id], stockCode, side) ==> LiveFor(b[id], stockCode, side);
    assert forall id :: id in b && LiveFor(b[id], stockCode, side) ==> LiveFor(a[id], stockCode, side);
  }

  lemma AlikeReply(a: Book, b: Book, id: string, stockCode: string, side: Side, reply: Reply)
    requires Alike(a, b)
    ensures Alike(AfterReply(a, id, stockCode, side, reply), AfterReply(b, id, stockCode, side, reply))
    ensures Alike(a - {id}, b - {id})
    ensures Ids(Replaced(a, id)) == Ids(Replaced(b, id))
    ensures id !in a ==> Replaced(a, id) == Replaced(b, id) == []
  {
  }

  lemma BlindExecute(a: Book, b: Book, op: Op)
    requires Alike(a, b) && op.Execute?
    ensures Alike(Apply(a, op), Apply(b, op))
    ensures Entering(a, op) == Entering(b, op) && Ids(Leaving(a, op)) == Ids(Leaving(b, op))
    ensures op.id !in a ==> Leaving(a, op) == Leaving(b, op)
  {
    AlikeDuplicate(a, b, op.stockCode, op.side);
    AlikeReply(a, b, op.id, op.stockCode, op.side, op.reply);
    IdsConcat(Replaced(a, op.id), Settled(op.id, op.reply));
    IdsConcat(Replaced(b, op.id), Settled(op.id, op.reply));
    hide Duplicate, Alike, AfterReply, Replaced, Settled, Ids;
  }

  lemma BlindStep(a: Book, b: Book, op: Op, blind: Op)
    requires Alike(a, b) && blind == if op.Event? then op.(partial := false) else op
    ensures Alike(Apply(a, op), Apply(b, blind))
    ensures Entering(a, op) == Entering(b, blind) && Ids(Leaving(a, op)) == Ids(Leaving(b, blind))
    ensures (op.Execute? ==> op.id !in a) ==> Leaving(a, op) == Leaving(b, blind)
  {
    if op.Execute? {
      BlindExecute(a, b, op);
    } else {
      assert Leaving(a, op) == Leaving(b, blind);
    }
  }

  /** Whatever the events say is unfilled, the same orders enter, stay and leave; with fresh ids they also leave with the
      same status. So an execution event ends an order however much of it is unfilled. */
  lemma {:induction false} UnfilledNeverMatters(ops: seq<Op>)
    ensures Alike(ApplyAll(map[], ops), ApplyAll(map[], Blind(ops)))
    ensures Entered(ops) == Entered(Blind(ops)) && Ids(Departed(ops)) == Ids(Departed(Blind(ops)))
    ensures FreshIds(ops) ==> Departed(ops) == Departed(Blind(ops))
  {
    if ops != [] {
      var n := |ops| - 1;
      var front, op := ops[..n], ops[n];
      var a, b := ApplyAll(map[], front), ApplyAll(map[], Blind(front));
      UnfilledNeverMatters(front);
      assert Blind(ops)[..n] == Blind(front);
      BlindStep(a, b, op, Blind(ops)[n]);
      IdsConcat(Departed(front), Leaving(a, op));
      IdsConcat(Departed(Blind(front)), Leaving(b, Blind(ops)[n]));
      if FreshIds(ops) {
        LastIsFresh(ops);
      }
    }
  }

  /** After any run an execution event makes a pending order leave as filled, whatever is unfilled. */
  lemma ExecutionAlwaysCloses(ops: seq<Op>, id: string, partial: bool)
    requires id in ApplyAll(map[], ops)
    ensures Departed(ops + [Event(id, Executed, partial)]) == Departed(ops) + [Departure(id, Filled)]
    ensures ApplyAll(map[], ops + [Event(id, Executed, partial)]).Keys == ApplyAll(map[], ops).Keys - {id}
  {
    assert (ops + [Event(id, Executed, partial)])[..|ops|] == ops;
  }

  // ---- Orders and the executor ----

  class Order {
    const orderId: string
    const stockCode: string
    const side: Side
    var status: Status

    constructor (orderId: string, stockCode: string, side: Side, status: Status)
      ensures this.orderId == orderId && this.stockCode == stockCode && this.side == side && this.status == status
    {
      this.orderId, this.stockCode, this.side, this.status := orderId, stockCode, side, status;
    }

    function View(): Entry
      reads this
    {
      Entry(stockCode, side, status)
    }
  }

  ghost function BookOf(pending: map<string, Order>): Book
    reads pending.Values
  {
    map id | id in pending :: pending[id].View()
  }

  lemma ReplyByParts(book: Book, id: string, stockCode: string, side: Side, reply: Reply)
    ensures var placed := book[id := Entry(stockCode, side, if reply.Answer? && reply.sameObject then reply.status else Submitted)];
      AfterReply(book, id, stockCode, side, reply) ==
        if reply.Raises? || reply.crashes || Ended(reply.status) then placed - {id}
        else if reply.status == PartiallyFilled then placed[id := Entry(stockCode, side, PartiallyFilled)]
        else placed
  {
    assert book[id := Entry(stockCode, side, Submitted)] - {id} == book - {id};
  }

  lemma BookFacts(pending: map<string, Order>, id: string, order: Order)
    ensures BookOf(pending - {id}) == BookOf(pending) - {id}
    ensures BookOf(pending[id := order]) == BookOf(pending)[id := order.View()]
    ensures pending[id := order] - {id} == pending - {id}
  {
  }

  /** The duplicate check: some pending order of the stock and side that is not in a terminal state. */
  method CheckDuplicate(pending: map<string, Order>, stockCode: string, side: Side) returns (existing: Option<string>)
    ensures existing.Some? <==> Duplicate(BookOf(pending), stockCode, side)
    ensures existing.Some? ==> existing.value in pending && LiveFor(pending[existing.value].View(), stockCode, side)
  {
    var left := pending.Keys;
    while left != {}
      invariant left <= pending.Keys
      invariant forall id :: id in pending && id !in left ==> !LiveFor(pending[id].View(), stockCode, side)
      decreases |left|
    {
      var id :| id in left;
      var order := pending[id];
      if order.stockCode == stockCode && order.side == side && !Terminal(order.status) {
        assert LiveFor(BookOf(pending)[id], stockCode, side);
        return Some(id);
      }
      left := left - {id};
    }
    return None;
  }

  ghost function LiveIds(book: Book, stockCode: string): set<string> {
    set id | id in book && book[id].stockCode == stockCode && !Terminal(book[id].status)
  }

  predicate CountsFor(order: Order, stockCode: string)
    reads order
  {
    order.stockCode == stockCode && !Terminal(order.status)
  }

  method GetPendingOrderCount(pending: map<string, Order>, stockCode: string) returns (count: nat)
    ensures count == |LiveIds(BookOf(pending), stockCode)|
  {
    count := 0;
    var left := pending.Keys;
    ghost var live := LiveIds(BookOf(pending), stockCode);
    ghost var counted: set<string> := {};
    assert forall id :: id in live <==> id in pending && CountsFor(pending[id], stockCode);
    hide LiveIds, BookOf, CountsFor;
    while left != {}
      invariant left <= pending.Keys
      invariant forall id :: id in counted <==> id in live && id !in left
      invariant |counted| == count
      decreases |left|
    {
      var id :| id in left;
      if CountsFor(pending[id], stockCode) {
        count := count + 1;
        counted := counted + {id};
      }
      left := left - {id};
    }
    assert counted == live;
  }

  /** Under the main result's invariant a stock has at most two live orders, one per side. */
  lemma AtMostTwoLive(book: Book, stockCode: string)
    requires AtMostOne(book)
    ensures |LiveIds(book, stockCode)| <= 2
  {
    var live := LiveIds(book, stockCode);
    var buys := set id | id in live && book[id].side == Buy;
    var sells := set id | id in live && book[id].side == Sell;
    AtMostOneElement(buys);
    AtMostOneElement(sells);
    assert live == buys + sells;
  }

  lemma AtMostOneElement<T>(s: set<T>)
    requires forall x, y :: x in s && y in s ==> x == y
    ensures |s| <= 1
  {
    if s != {} {
      var x :| x in s;
      assert s == {x};
    }
  }

  /** The broker's answer is the submitted order with a new status, or another order with the same id. */
  method AskBroker(order: Order, reply: Reply) returns (answer: Option<Order>)
    modifies order
    ensures reply.Raises? ==> answer == None && order.status == old(order.status)
    ensures reply.Answer? ==>
        && answer.Some? && answer.value.orderId == order.orderId
        && answer.value.View() == Entry(order.stockCode, order.side, reply.status)
        && (if reply.sameObject then answer.value == order else fresh(answer.value) && order.status == old(order.status))
  {
    if reply.Raises? {
      return None;
    }
    if reply.sameObject {
      order.status := reply.status;
      return Some(order);
    }
    var another := new Order(order.orderId, order.stockCode, order.side, reply.status);
    return Some(another);
  }

  class OrderExecutor {
    var pendingOrders: map<string, Order>

    ghost predicate Keyed()
      reads this, pendingOrders.Values
    {
      forall id :: id in pendingOrders ==> pendingOrders[id].orderId == id
    }

    constructor ()
      ensures Keyed() && BookOf(pendingOrders) == map[]
    {
      pendingOrders := map[];
    }

    /** Submits an order that is not itself in the map. Its checks and the broker's reply are given; the map changes as
        AfterExecute says and under no other id, and an order object that is not in the map afterwards is terminal, unless
        it was never submitted or the broker answered with an object of its own. */
    method ExecuteOrder(order: Order, checks: Checks, reply: Reply) returns (success: bool)
      requires Keyed() && order !in pendingOrders.Values
      modifies this, order
      ensures Keyed()
      ensures BookOf(pendingOrders) ==
              AfterExecute(old(BookOf(pendingOrders)), order.orderId, order.stockCode, order.side, checks, reply)
      ensures pendingOrders - {order.orderId} == old(pendingOrders) - {order.orderId}
      ensures old(Admitted(BookOf(pendingOrders), order.stockCode, order.side, checks)) && order.orderId !in pendingOrders ==>
          Terminal(order.status) || (reply.Answer? && !reply.sameObject && Terminal(reply.status))
      ensures success <==> old(Admitted(BookOf(pendingOrders), order.stockCode, order.side, checks)) && reply.Answer? &&
                           !reply.crashes && !Failure(reply.status)
    {
      hide BookOf, AfterReply;
      if checks.price == Crash {
        Withdraw(order);
        return false;
      }
      if checks.price == Refuse {
        return false;
      }
      var existing := CheckDuplicate(pendingOrders, order.stockCode, order.side);
      if existing.Some? {
        return false;
      }
      if checks.risk == Crash || (checks.risk == Pass && checks.order == Crash) {
        Withdraw(order);
        return false;
      }
      if checks.risk == Refuse || checks.order == Refuse {
        order.status := Rejected;
        return false;
      }
      success := SubmitPending(order, reply);
    }

    /** The order enters the map as submitted before the broker is asked. */
    method PlaceOrder(order: Order, reply: Reply) returns (filled: Option<Order>)
      requires Keyed() && order !in pendingOrders.Values
      modifies this, order
      ensures Keyed() && pendingOrders == old(pendingOrders)[order.orderId := order]
      ensures BookOf(pendingOrders) == old(BookOf(pendingOrders))[order.orderId := order.View()]
      ensures order.status == if reply.Answer? && reply.sameObject then reply.status else Submitted
      ensures reply.Raises? <==> filled.None?
      ensures filled.Some? ==> filled.value.orderId == order.orderId &&
                               filled.value.View() == Entry(order.stockCode, order.side, reply.status)
    {
      hide BookOf;
      ghost var before := pendingOrders;
      order.status := Submitted;
      pendingOrders := pendingOrders[order.orderId := order];
      filled := AskBroker(order, reply);
      BookFacts(before, order.orderId, order);
    }

    /** The part after the checks: the order is placed, and the answer is handled. */
    method SubmitPending(order: Order, reply: Reply) returns (success: bool)
      requires Keyed() && order !in pendingOrders.Values
      modifies this, order
      ensures Keyed()
      ensures BookOf(pendingOrders) ==
              AfterReply(old(BookOf(pendingOrders)), order.orderId, order.stockCode, order.side, reply)
      ensures pendingOrders - {order.orderId} == old(pendingOrders) - {order.orderId}
      ensures order.orderId !in pendingOrders ==>
          Terminal(order.status) || (reply.Answer? && !reply.sameObject && Terminal(reply.status))
      ensures success <==> reply.Answer? && !reply.crashes && !Failure(reply.status)
    {
      BookFacts(pendingOrders, order.orderId, order);
      ReplyByParts(BookOf(pendingOrders), order.orderId, order.stockCode, order.side, reply);
      hide Keyed, BookOf, AfterReply;
      var filled := PlaceOrder(order, reply);
      if filled.None? || reply.crashes {
        Withdraw(order);
        return false;
      }
      HandleAnswer(order, filled.value);
      return !Failure(reply.status);
    }

    /** After an exception the order has failed, and whatever is under its id leaves the map. */
    method Withdraw(order: Order)
      requires Keyed()
      modifies this, order
      ensures Keyed() && pendingOrders == old(pendingOrders) - {order.orderId} && order.status == Failed
      ensures BookOf(pendingOrders) == old(BookOf(pendingOrders)) - {order.orderId}
    {
      order.status := Failed;
      pendingOrders := pendingOrders - {order.orderId};
    }

    /** A finished order leaves the map, a partly filled one replaces the submitted one, any other answer changes nothing. */
    method HandleAnswer(order: Order, filled: Order)
      requires Keyed() && order.orderId in pendingOrders && filled.orderId == order.orderId
      modifies this
      ensures Keyed()
      ensures pendingOrders - {order.orderId} == old(pendingOrders) - {order.orderId}
      ensures order.orderId !in pendingOrders <==> Ended(filled.status)
      ensures BookOf(pendingOrders) ==
          if Ended(filled.status) then old(BookOf(pendingOrders)) - {order.orderId}
          else if filled.status == PartiallyFilled then old(BookOf(pendingOrders))[order.orderId := filled.View()]
          else old(BookOf(pendingOrders))
    {
      if Ended(filled.status) {
        pendingOrders := pendingOrders - {filled.orderId};
      } else if filled.status == PartiallyFilled {
        pendingOrders := pendingOrders[filled.orderId := filled];
      }
    }

    /** Only a live order can be cancelled; it leaves the map, cancelled. */
    method CancelOrder(orderId: string) returns (success: bool)
      requires Keyed()
      modifies this, pendingOrders.Values
      ensures Keyed() && BookOf(pendingOrders) == AfterCancel(old(BookOf(pendingOrders)), orderId)
      ensures success <==> old(orderId in pendingOrders && !Terminal(pendingOrders[orderId].status))
      ensures success ==> pendingOrders == old(pendingOrders) - {orderId} && old(pendingOrders[orderId]).status == Cancelled
      ensures !success ==> pendingOrders == old(pendingOrders)
    {
      if orderId !in pendingOrders {
        return false;
      }
      var order := pendingOrders[orderId];
      if Terminal(order.status) {
        return false;
      }
      order.status := Cancelled;
      pendingOrders := pendingOrders - {orderId};
      return true;
    }

    /** An execution event changes only the order it names; that leaves the map exactly when its new status is terminal. */
    method HandleOrderExecutionEvent(orderId: string, kind: EventKind, filledQuantity: int, unfilledQuantity: int)
      requires Keyed()
      modifies this, pendingOrders.Values
      ensures Keyed()
      ensures BookOf(pendingOrders) ==
              AfterEvent(old(BookOf(pendingOrders)), orderId, kind, unfilledQuantity > 0 && filledQuantity > 0)
      ensures old(orderId in pendingOrders) && orderId !in pendingOrders ==> Terminal(old(pendingOrders[orderId]).status)
      ensures forall id :: id != orderId && id in old(pendingOrders) ==> id in pendingOrders && pendingOrders[id] == old(pendingOrders)[id]
    {
      if orderId !in pendingOrders {
        return;
      }
      var order := pendingOrders[orderId];
      var status := StatusOf(kind);
      if status.None? {
        return;
      }
      order.status := status.value;
      if Terminal(status.value) {
        pendingOrders := pendingOrders - {orderId};
      } else if unfilledQuantity > 0 && filledQuantity > 0 {
        order.status := PartiallyFilled;
      }
    }
  }
}
