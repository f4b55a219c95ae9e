/** The one-order DEMO validation harness: its fail-closed gates, and what any
    number of runs can do to the broker's book. */
module DemoHarness {
  import opened Common

  const B4_MAGIC := 84004
  const B4_COMMENT := "B4DEMO"
  const DEMO_TRADE_MODE := 0

  datatype Position = Position(ticket: int, magic: int, comment: string)

  predicate Own(p: Position) { p.magic == B4_MAGIC || p.comment == B4_COMMENT }

  type Book = seq<Position>

  function OwnCount(book: Book): nat {
    if book == [] then 0 else OwnCount(book[..|book| - 1]) + if Own(book[|book| - 1]) then 1 else 0
  }

  /** How a stage ends: normally, with ValidationAbort, or with another exception. */
  datatype Flow = Go | Abort | Crash {
    predicate IsFailure() { !Go? }
    function PropagateFailure(): Flow
      requires IsFailure()
    {
      this
    }
  }

  datatype Check = NoAnswer | Retcode(code: int) | CheckRaises

  /** What `positions_get` does at the guard: answer, return None, or raise. */
  datatype GuardRead = ReadOk | ReadNone | GuardRaises

  /** How the fill's verification ends: a ticket is missing or never appears, it
      is seen, or reading it raises before or after the sighting is recorded. */
  datatype Sighting = NotSeen | Seen(slTpMatched: bool) | ReadRaises(recorded: bool)

  /** Everything one run learns from the terminal, the broker and the engine. */
  datatype World = World(
    preflight: Flow,
    tradeMode: Option<int>,
    symbol: Flow,
    market: Flow,
    read: GuardRead,
    ledger: Flow,                  // recording an already open position
    arm: Flow,
    build: Flow,                   // wiring the store, volume, ATR, stop-loss and take-profit
    check: Check,
    engine: Flow,                  // constructing the engine
    opens: Option<int>,            // the position execute_order opened, even if it raised afterwards
    raises: Flow,                  // Go, or the exception out of execute_order
    reportsSuccess: bool,
    resultTicket: Option<int>,
    sighting: Sighting,
    evidenceOk: bool)              // the evidence file took the final write

  datatype Step =
    | Preflight | DemoGuard | MarketCheck | OpenPositionGuard | Armed | OrderCheck(ok: bool)
    | Submit | Execution | FillVerify | FillVerifySlTp(ok: bool) | Aborted | Failed

  datatype Result = Running | AlreadyValidated | DryRunOk | Filled | ResultAborted | ResultError

  datatype Outcome = Outcome(flow: Flow, result: Result, steps: seq<Step>, book: Book)

  // -------------------------------------------------------------------- one run

  /** What `positions_get` shows: a failed read is an empty book. */
  function SeenBook(w: World, book: Book): Book { if w.read == ReadOk then book else [] }

  predicate FindsOwn(w: World, book: Book) { exists p :: p in SeenBook(w, book) && Own(p) }

  function AfterSubmit(w: World, book: Book, steps: seq<Step>): Outcome {
    var after := if w.opens.Some? then book + [Position(w.opens.value, B4_MAGIC, B4_COMMENT)] else book;
    if w.raises != Go then Outcome(w.raises, Running, steps + [Submit], after)
    else if !w.reportsSuccess then Outcome(Abort, Running, steps + [Submit], after)
    else if w.resultTicket == None then Outcome(Abort, Running, steps + [Submit, Execution], after)
    else Verified(w, after, steps + [Submit, Execution])
  }

  /** The evidence is written last: a refusal there is one more exception. */
  function Finished(w: World, result: Result, steps: seq<Step>, book: Book): Outcome {
    Outcome(if w.evidenceOk then Go else Crash, result, steps, book)
  }

  function Verified(w: World, book: Book, steps: seq<Step>): Outcome {
    match w.sighting
    case NotSeen => Outcome(Abort, Running, steps, book)
    case Seen(matched) => Finished(w, Filled, steps + [FillVerify, FillVerifySlTp(matched)], book)
    case ReadRaises(recorded) => Outcome(Crash, Running, steps + if recorded then [FillVerify] else [], book)
  }

  /** `order_check`, which a run must pass before it goes on to `next`. */
  function Checked(w: World, book: Book, steps: seq<Step>, dryRun: bool): Outcome {
    if w.build != Go then Outcome(w.build, Running, steps, book)
    else if w.check == NoAnswer then Outcome(Abort, Running, steps, book)
    else if w.check == CheckRaises then Outcome(Crash, Running, steps, book)
    else if w.check != Retcode(0) then Outcome(Abort, Running, steps + [OrderCheck(false)], book)
    else if dryRun then Finished(w, DryRunOk, steps + [OrderCheck(true)], book)
    else if w.engine != Go then Outcome(w.engine, Running, steps + [OrderCheck(true)], book)
    else AfterSubmit(w, book, steps + [OrderCheck(true)])
  }

  function Guarded(w: World, book: Book, dryRun: bool): Outcome {
    var steps := [Preflight, DemoGuard, MarketCheck, OpenPositionGuard];
    if FindsOwn(w, book) then
      if w.ledger != Go then Outcome(w.ledger, Running, steps, book) else Finished(w, AlreadyValidated, steps, book)
    else if dryRun then Checked(w, book, steps, true)
    else if w.arm != Go then Outcome(w.arm, Running, steps, book)
    else Checked(w, book, steps + [Armed], false)
  }

  function Gated(w: World, book: Book, dryRun: bool): Outcome {
    if w.preflight != Go then Outcome(w.preflight, Running, [], book)
    else if w.tradeMode != Some(DEMO_TRADE_MODE) then Outcome(Abort, Running, [Preflight], book)
    else if w.symbol != Go then Outcome(w.symbol, Running, [Preflight, DemoGuard], book)
    else if w.market != Go then Outcome(w.market, Running, [Preflight, DemoGuard], book)
    else if w.read == GuardRaises then Outcome(Crash, Running, [Preflight, DemoGuard, MarketCheck], book)
    else Guarded(w, book, dryRun)
  }

  /** A whole run: the gates, then the exit path of its exception, if any. */
  function RunOnce(w: World, book: Book, dryRun: bool): (o: Outcome) {
    var o := Gated(w, book, dryRun);
    match o.flow
    case Go => o
    case Abort => o.(result := ResultAborted, steps := o.steps + [Aborted])
    case Crash => o.(result := ResultError, steps := o.steps + [Failed])
  }

  function ExitCode(f: Flow): int {
    match f
    case Go => 0
    case Abort => 2
    case Crash => 1
  }

  // ------------------------------------------------------------------- the gates

  /** Every gate before the submission is open. */
  predicate GatesOpen(w: World, book: Book, dryRun: bool) {
    && w.preflight == Go && w.tradeMode == Some(DEMO_TRADE_MODE) && w.symbol == Go && w.market == Go
    && !FindsOwn(w, book) && !dryRun && w.arm == Go && w.build == Go && w.check == Retcode(0)
    && w.engine == Go && w.read != GuardRaises
  }

  const GATES: seq<Step> := [Preflight, DemoGuard, MarketCheck, OpenPositionGuard, Armed, OrderCheck(true), Submit]

  predicate SubmitAt(steps: seq<Step>, at: nat) {
    forall k :: 0 <= k < |steps| ==> (steps[k] == Submit <==> k == at)
  }

  lemma OpenGatesSubmit(w: World, book: Book)
    requires GatesOpen(w, book, false)
    ensures Gated(w, book, false) == AfterSubmit(w, book, GATES[..6])
  {
    assert GATES[..6] == [Preflight, DemoGuard, MarketCheck, OpenPositionGuard] + [Armed] + [OrderCheck(true)];
  }

  lemma CheckedNoSubmit(w: World, book: Book, steps: seq<Step>, dryRun: bool)
    requires Submit !in steps && (dryRun || w.build != Go || w.check != Retcode(0) || w.engine != Go)
    ensures var o := Checked(w, book, steps, dryRun); Submit !in o.steps && o.book == book
  {
  }

  lemma ClosedGatesNoSubmit(w: World, book: Book, dryRun: bool)
    requires !GatesOpen(w, book, dryRun)
    ensures var o := RunOnce(w, book, dryRun); Submit !in o.steps && o.book == book
  {
    var steps := [Preflight, DemoGuard, MarketCheck, OpenPositionGuard];
    if dryRun {
      CheckedNoSubmit(w, book, steps, true);
    } else if w.build != Go || w.check != Retcode(0) || w.engine != Go {
      CheckedNoSubmit(w, book, steps + [Armed], false);
    }
    assert Submit !in Gated(w, book, dryRun).steps && Gated(w, book, dryRun).book == book;
  }

  lemma AfterSubmitSteps(w: World, book: Book, steps: seq<Step>)
    requires forall k :: 0 <= k < |steps| ==> steps[k] != Submit
    ensures var o := AfterSubmit(w, book, steps);
            steps + [Submit] <= o.steps && SubmitAt(o.steps, |steps|)
  {
  }

  /** An order is submitted exactly when every gate was open, and then the run's
      record starts with the DEMO guard, the market check, the no-own-position
      guard, arming and a clean order check, in this order, and submits once. */
  lemma SubmitOnlyThroughGates(w: World, book: Book, dryRun: bool)
    ensures var o := RunOnce(w, book, dryRun);
            && (Submit in o.steps <==> GatesOpen(w, book, dryRun))
            && (Submit in o.steps ==> GATES <= o.steps && SubmitAt(o.steps, 6))
            && (Submit !in o.steps ==> o.book == book)
            && (o.book == book || exists t :: o.book == book + [Position(t, B4_MAGIC, B4_COMMENT)])
  {
    if GatesOpen(w, book, dryRun) {
      OpenGatesSubmit(w, book);
      AfterSubmitSteps(w, book, GATES[..6]);
      assert GATES == GATES[..6] + [Submit];
      assert RunOnce(w, book, dryRun).steps[6] == Submit;
    } else {
      ClosedGatesNoSubmit(w, book, dryRun);
    }
  }

  /** What a clean exit means: nothing to do, a dry run that passed its check, or
      a fill that was seen at the broker. */
  lemma CleanExitMeans(w: World, book: Book, dryRun: bool)
    ensures var o := RunOnce(w, book, dryRun);
            ExitCode(o.flow) == 0 <==>
              || (o.result == AlreadyValidated && FindsOwn(w, book) && o.book == book)
              || (o.result == DryRunOk && dryRun && !FindsOwn(w, book) && o.book == book)
              || (o.result == Filled && w.evidenceOk && GatesOpen(w, book, dryRun) &&
                  w.raises == Go && w.reportsSuccess && w.resultTicket.Some? && w.sighting.Seen?)
  {
  }

  /** The exit code says how the record ends: 2 with an abort, 1 with a failure,
      and 0 with neither. */
  lemma ExitCodeMeans(w: World, book: Book, dryRun: bool)
    ensures var o := RunOnce(w, book, dryRun); var code := ExitCode(o.flow);
            && code in {0, 1, 2}
            && (code == 2 <==> o.result == ResultAborted) && (code == 1 <==> o.result == ResultError)
            && (code == 2 ==> o.steps != [] && o.steps[|o.steps| - 1] == Aborted)
            && (code == 1 ==> o.steps != [] && o.steps[|o.steps| - 1] == Failed)
  {
    var g := Gated(w, book, dryRun);
    assert g.result != ResultAborted && g.result != ResultError;
  }

  /** A position with either mark of the harness stops a run that reads it, and an
      account that is not in mode 0 stops any run. */
  lemma EitherMarkStops(w: World, book: Book, dryRun: bool, p: Position)
    requires (w.read == ReadOk && p in book && (p.magic == 84004 || p.comment == "B4DEMO")) || w.tradeMode != Some(0)
    ensures Submit !in RunOnce(w, book, dryRun).steps && RunOnce(w, book, dryRun).book == book
  {
    if w.tradeMode == Some(0) {
      assert p in SeenBook(w, book) && Own(p);
      assert FindsOwn(w, book);
    }
    ClosedGatesNoSubmit(w, book, dryRun);
  }

  /** A position with neither mark stops nothing. */
  lemma OthersDoNotStop(w: World, book: Book, p: Position, dryRun: bool)
    requires p.magic != 84004 && p.comment != "B4DEMO"
    ensures FindsOwn(w, book + [p]) <==> FindsOwn(w, book)
    ensures Submit in RunOnce(w, book + [p], dryRun).steps <==> Submit in RunOnce(w, book, dryRun).steps
  {
    if FindsOwn(w, book) {
      var q :| q in SeenBook(w, book) && Own(q);
      assert q in SeenBook(w, book + [p]);
    }
    SubmitOnlyThroughGates(w, book, dryRun);
    SubmitOnlyThroughGates(w, book + [p], dryRun);
  }

  // ------------------------------------------------------------------ many runs

  /** Between runs the outside world may close positions and open others that
      carry neither the harness magic nor its comment. */
  datatype Event = Harness(w: World, dryRun: bool) | Outside(book: Book)

  predicate OutsideMove(before: Book, after: Book) {
    multiset(OwnOf(after)) <= multiset(OwnOf(before))
  }

  function OwnOf(book: Book): (r: Book)
    ensures |r| == OwnCount(book)
    ensures forall p :: p in r <==> p in book && Own(p)
  {
    if book == [] then []
    else
      assert book == book[..|book| - 1] + [book[|book| - 1]];
      OwnOf(book[..|book| - 1]) + if Own(book[|book| - 1]) then [book[|book| - 1]] else []
  }

  lemma OwnOfNext(book: Book, q: Position)
    ensures OwnOf(book + [q]) == OwnOf(book) + if Own(q) then [q] else []
  {
    var all := book + [q];
    assert all[..|all| - 1] == book && all[|all| - 1] == q;
  }

  /** From outside nothing may happen, or a position be closed, or one without the
      harness's marks be opened. */
  lemma OutsideMay(book: Book, p: Position, q: Position)
    requires !Own(p)
    ensures OutsideMove(book, book) && OutsideMove(book, book + [p]) && OutsideMove(book + [q], book)
  {
    OwnOfNext(book, p);
    OwnOfNext(book, q);
    assert multiset(OwnOf(book) + [q]) == multiset(OwnOf(book)) + multiset{q};
  }

  predicate Allowed(book: Book, e: Event) { e.Outside? ==> OutsideMove(book, e.book) }

  function StepBook(book: Book, e: Event): Book {
    match e
    case Harness(w, dryRun) => RunOnce(w, book, dryRun).book
    case Outside(after) => after
  }

  function RunBook(book: Book, es: seq<Event>): Book
    decreases |es|
  {
    if es == [] then book else RunBook(StepBook(book, es[0]), es[1..])
  }

  predicate AllAllowed(book: Book, es: seq<Event>)
    decreases |es|
  {
    es == [] || (Allowed(book, es[0]) && AllAllowed(StepBook(book, es[0]), es[1..]))
  }

  /** A run whose guard takes a failed read for an empty book. */
  predicate Misread(e: Event) { e.Harness? && e.w.read == ReadNone }

  function Misreads(es: seq<Event>): nat {
    if es == [] then 0 else Misreads(es[1..]) + if Misread(es[0]) then 1 else 0
  }

  predicate ReadsSucceed(es: seq<Event>) {
    forall k :: 0 <= k < |es| && es[k].Harness? ==> !Misread(es[k])
  }

  lemma OwnCountNext(book: Book, p: Position)
    ensures OwnCount(book + [p]) == OwnCount(book) + if Own(p) then 1 else 0
  {
    assert (book + [p])[..|book|] == book;
  }

  lemma NoneFoundNoneOpen(book: Book)
    ensures OwnCount(book) == 0 <==> forall p :: p in book ==> !Own(p)
  {
    var own := OwnOf(book);
    if own != [] {
      assert own[0] in own;
    }
    forall p | p in book && Own(p) ensures own != [] {
      assert p in own;
    }
  }

  lemma AfterSubmitBook(w: World, book: Book, steps: seq<Step>)
    ensures AfterSubmit(w, book, steps).book ==
            if w.opens.Some? then book + [Position(w.opens.value, B4_MAGIC, B4_COMMENT)] else book
  {
  }

  lemma RunBookIs(w: World, book: Book, dryRun: bool)
    ensures RunOnce(w, book, dryRun).book == Gated(w, book, dryRun).book
  {
  }

  lemma RunOwnCount(w: World, book: Book, dryRun: bool)
    ensures OwnCount(RunOnce(w, book, dryRun).book) ==
            OwnCount(book) + if GatesOpen(w, book, dryRun) && w.opens.Some? then 1 else 0
  {
    if GatesOpen(w, book, dryRun) {
      RunBookIs(w, book, false);
      OpenGatesSubmit(w, book);
      AfterSubmitBook(w, book, GATES[..6]);
      if w.opens.Some? {
        OwnCountNext(book, Position(w.opens.value, B4_MAGIC, B4_COMMENT));
      }
    } else {
      ClosedGatesNoSubmit(w, book, dryRun);
    }
  }

  lemma MultisetSize(a: Book, b: Book)
    requires multiset(a) <= multiset(b)
    ensures |a| <= |b|
  {
    var rest := multiset(b) - multiset(a);
    assert multiset(b) == multiset(a) + rest;
    assert |multiset(b)| == |multiset(a)| + |rest|;
  }

  lemma StepAddsOne(book: Book, e: Event)
    requires Allowed(book, e)
    ensures OwnCount(StepBook(book, e)) <= Max(OwnCount(book), 1) + if Misread(e) then 1 else 0
  {
    match e
    case Harness(w, dryRun) =>
      RunOwnCount(w, book, dryRun);
      NoneFoundNoneOpen(book);
    case Outside(after) =>
      MultisetSize(OwnOf(after), OwnOf(book));
  }

  /** Over any number of runs and outside events, the harness positions open are
      at most those at the start, or one, plus one per misread guard. */
  lemma {:induction false} OrdersBounded(book: Book, es: seq<Event>)
    requires AllAllowed(book, es)
    ensures OwnCount(RunBook(book, es)) <= Max(OwnCount(book), 1) + Misreads(es)
    ensures Misreads(es) <= |es|
    decreases |es|
  {
    if es != [] {
      StepAddsOne(book, es[0]);
      OrdersBounded(StepBook(book, es[0]), es[1..]);
    }
  }

  lemma {:induction false} NoMisreads(es: seq<Event>)
    requires ReadsSucceed(es)
    ensures Misreads(es) == 0
    decreases |es|
  {
    if es != [] {
      assert forall k :: 0 <= k < |es[1..]| ==> es[1..][k] == es[k + 1];
      NoMisreads(es[1..]);
    }
  }

  /** At most one harness position is ever open, as long as no guard misreads. */
  lemma AtMostOneOrder(book: Book, es: seq<Event>)
    requires OwnCount(book) <= 1 && AllAllowed(book, es) && ReadsSucceed(es)
    ensures OwnCount(RunBook(book, es)) <= 1
  {
    OrdersBounded(book, es);
    NoMisreads(es);
  }

  /** With one harness position open, a run opens a second exactly when its
      positions read failed, every other gate was open, and the engine filled:
      the guard takes a failed read for an empty book. */
  lemma SecondOrderIff(w: World, book: Book, dryRun: bool)
    requires OwnCount(book) == 1
    ensures OwnCount(RunOnce(w, book, dryRun).book) == 2 <==>
            && w.read == ReadNone && w.opens.Some?
            && w.preflight == Go && w.tradeMode == Some(DEMO_TRADE_MODE) && w.symbol == Go && w.market == Go
            && !dryRun && w.arm == Go && w.build == Go && w.check == Retcode(0) && w.engine == Go
  {
    RunOwnCount(w, book, dryRun);
    NoneFoundNoneOpen(book);
  }

  /** A world in which every gate is open, the engine fills, and the guard's
      read succeeds or not. */
  function FillingWorld(ticket: int, read: GuardRead): World {
    World(Go, Some(DEMO_TRADE_MODE), Go, Go, read, Go, Go, Go, Retcode(0), Go, Some(ticket), Go, true, Some(ticket),
          Seen(true), true)
  }

  /** Two runs from an empty book, the second with a failed read: two orders. */
  lemma SecondOrderExample()
    ensures var es := [Harness(FillingWorld(1, ReadOk), false), Harness(FillingWorld(2, ReadNone), false)];
            AllAllowed([], es) && OwnCount(RunBook([], es)) == 2
  {
    var e1, e2 := Harness(FillingWorld(1, ReadOk), false), Harness(FillingWorld(2, ReadNone), false);
    var es := [e1, e2];
    assert es[1..] == [e2] && [e2][1..] == [];
    var one := StepBook([], e1);
    RunOwnCount(e1.w, [], false);
    RunOwnCount(e2.w, one, false);
    assert RunBook([], es) == RunBook(one, [e2]) == StepBook(one, e2);
  }

  /** An exception out of the engine, the verification or the last write ends the run with exit
      code 1 whether or not a position is open; the next run that reads the book
      finds it and submits nothing. */
  lemma CrashIsFoundNextRun(w: World, book: Book, next: World, dryRun: bool)
    requires GatesOpen(w, book, false) && w.opens.Some? && next.read == ReadOk
    requires w.raises == Crash || (w.raises == Go && w.reportsSuccess && w.resultTicket.Some? &&
                                   (w.sighting.ReadRaises? || (w.sighting.Seen? && !w.evidenceOk)))
    ensures var o := RunOnce(w, book, false);
            && ExitCode(o.flow) == 1 && o.result == ResultError && OwnCount(o.book) == OwnCount(book) + 1
            && Submit !in RunOnce(next, o.book, dryRun).steps && RunOnce(next, o.book, dryRun).book == o.book
  {
    var o := RunOnce(w, book, false);
    OpenGatesSubmit(w, book);
    RunOwnCount(w, book, false);
    NoneFoundNoneOpen(o.book);
    ClosedGatesNoSubmit(next, o.book, dryRun);
  }

  // ----------------------------------------------------------------- the harness

  class Broker {
    var book: Book

    constructor (book: Book)
      ensures this.book == book
    {
      this.book := book;
    }
  }

  /** The harness object: each stage records its step and may raise. */
  class B4Validation {
    const w: World
    const dryRun: bool
    const broker: Broker
    var steps: seq<Step>
    var result: Result

    constructor (w: World, dryRun: bool, broker: Broker)
      ensures this.w == w && this.dryRun == dryRun && this.broker == broker
      ensures steps == [] && result == Running
    {
      this.w, this.dryRun, this.broker := w, dryRun, broker;
      steps, result := [], Running;
    }

    method Record(step: Step)
      modifies this`steps
      ensures steps == old(steps) + [step]
    {
      steps := steps + [step];
    }

    method DoPreflight() returns (f: Flow)
      modifies this`steps
      ensures f == w.preflight && steps == old(steps) + if f == Go then [Preflight] else []
    {
      f := w.preflight;
      if f == Go {
        Record(Preflight);
      }
    }

    method DoDemoGuard() returns (f: Flow)
      modifies this`steps
      ensures f == if w.tradeMode == Some(DEMO_TRADE_MODE) then Go else Abort
      ensures steps == old(steps) + if f == Go then [DemoGuard] else []
    {
      if w.tradeMode != Some(DEMO_TRADE_MODE) {
        return Abort;
      }
      Record(DemoGuard);
      f := Go;
    }

    method DoMarketCheck() returns (f: Flow)
      modifies this`steps
      ensures f == w.market && steps == old(steps) + if f == Go then [MarketCheck] else []
    {
      f := w.market;
      if f == Go {
        Record(MarketCheck);
      }
    }

    /** `_find_own_position` over whatever the positions read returned. */
    method FindOwnPosition() returns (found: bool)
      requires w.read != GuardRaises
      ensures found == FindsOwn(w, broker.book)
    {
      var positions := if w.read == ReadOk then broker.book else [];
      for i := 0 to |positions|
        invariant forall k :: 0 <= k < i ==> !Own(positions[k])
      {
        if Own(positions[i]) {
          return true;
        }
      }
      found := false;
    }

    method DoArm() returns (f: Flow)
      modifies this`steps
      ensures f == w.arm && steps == old(steps) + if f == Go then [Armed] else []
    {
      f := w.arm;
      if f == Go {
        Record(Armed);
      }
    }

    method DoOrderCheck() returns (f: Flow)
      modifies this`steps
      ensures f == if w.check == Retcode(0) then Go else if w.check == CheckRaises then Crash else Abort
      ensures steps == old(steps) + if w.check.Retcode? then [OrderCheck(w.check == Retcode(0))] else []
    {
      if w.check == CheckRaises {
        return Crash;
      }
      if w.check == NoAnswer {
        return Abort;
      }
      var ok := w.check.code == 0;
      Record(OrderCheck(ok));
      f := if ok then Go else Abort;
    }

    /** `_submit` and `_verify_fill`: the engine's one call, which may raise with
        the position already open, then the poll. */
    method SubmitAndVerify() returns (f: Flow)
      requires result == Running
      modifies this, broker
      ensures var o := AfterSubmit(w, old(broker.book), old(steps));
              && f == o.flow && steps == o.steps && broker.book == o.book
              && result == o.result
    {
      Record(Submit);
      if w.opens.Some? {
        broker.book := broker.book + [Position(w.opens.value, B4_MAGIC, B4_COMMENT)];
      }
      if w.raises != Go {
        return w.raises;
      }
      if !w.reportsSuccess {
        return Abort;
      }
      Record(Execution);
      if w.resultTicket == None {
        return Abort;
      }
      f := VerifyFill();
      if f == Go {
        f := Finish(Filled);
      }
    }

    /** The result, and the evidence file that may refuse it. */
    method Finish(r: Result) returns (f: Flow)
      modifies this`result
      ensures result == r && f == if w.evidenceOk then Go else Crash
    {
      result := r;
      f := if w.evidenceOk then Go else Crash;
    }

    method VerifyFill() returns (f: Flow)
      modifies this`steps
      ensures steps == Verified(w, broker.book, old(steps)).steps
      ensures f == match w.sighting case NotSeen => Abort case Seen(_) => Go case ReadRaises(_) => Crash
    {
      match w.sighting
      case NotSeen =>
        f := Abort;
      case Seen(matched) =>
        Record(FillVerify);
        Record(FillVerifySlTp(matched));
        f := Go;
      case ReadRaises(recorded) =>
        if recorded {
          Record(FillVerify);
        }
        f := Crash;
    }

    /** Everything after the open-position guard. */
    method ProceedFrom(existing: bool) returns (f: Flow)
      requires existing == FindsOwn(w, broker.book) && result == Running
      requires steps == [Preflight, DemoGuard, MarketCheck, OpenPositionGuard]
      modifies this, broker
      ensures Outcome(f, result, steps, broker.book) == Guarded(w, old(broker.book), dryRun)
    {
      if existing {
        f := w.ledger;
        if f == Go {
          f := Finish(AlreadyValidated);
        }
        return;
      }
      if !dryRun {
        f := DoArm();
        if f != Go {
          return;
        }
      }
      f := w.build;
      if f != Go {
        return;
      }
      f := DoOrderCheck();
      if f != Go {
        return;
      }
      if dryRun {
        f := Finish(DryRunOk);
      } else if w.engine != Go {
        f := w.engine;
      } else {
        f := SubmitAndVerify();
      }
    }

    method Gates() returns (f: Flow)
      requires steps == [] && result == Running
      modifies this, broker
      ensures Outcome(f, result, steps, broker.book) == Gated(w, old(broker.book), dryRun)
    {
      f := DoPreflight();
      :- f;
      :- DoDemoGuard();
      :- w.symbol;
      :- DoMarketCheck();
      if w.read == GuardRaises {
        return Crash;
      }
      var existing := FindOwnPosition();
      Record(OpenPositionGuard);
      f := ProceedFrom(existing);
    }

    /** `run`: the exit code, with exceptions turned into their records. */
    method Run() returns (code: int)
      requires steps == [] && result == Running
      modifies this, broker
      ensures var o := RunOnce(w, old(broker.book), dryRun);
              code == ExitCode(o.flow) && result == o.result && steps == o.steps && broker.book == o.book
    {
      var f := Gates();
      match f
      case Go =>
        code := 0;
      case Abort =>
        Record(Aborted);
        result := ResultAborted;
        code := 2;
      case Crash =>
        Record(Failed);
        result := ResultError;
        code := 1;
    }
  }
}
