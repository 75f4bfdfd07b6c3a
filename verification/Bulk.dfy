/**
 * BulkIssue as a step system: the spawning loop, the semaphore of five, the wait group, and one
 * goroutine per item that runs an issuing call attempt by attempt, writes its own slot, frees its
 * semaphore place and leaves the wait group.
 */
module Bulk {
  import opened Options
  import opened Wire
  import opened Issuing

  const MAX_ITEMS: nat := 50
  const PLACES: nat := 5

  datatype Batch = Batch(company: string, items: seq<Item>, setup: Setup)

  datatype Slot = Slot(
    index: nat, externalId: string, success: bool, invoiceId: string, status: string, errorCode: string)

  datatype Output = Output(results: seq<Slot>, succeeded: nat, failed: nat)

  datatype Worker = Unstarted | Running(call: Issuing.Call) | Written | Released | Exited

  datatype Main = Adding(next: nat) | Acquiring(next: nat) | Waiting | Finished(output: Output)

  /** met records the attempts each item's call has seen. */
  datatype Bulk<S> = Bulk(
    provider: S,
    main: Main,
    sem: nat,
    wg: nat,
    workers: seq<Worker>,
    slots: seq<Option<Slot>>,
    met: seq<seq<Attempt>>)

  datatype Move = MainMove | WorkerMove(who: nat)

  function ItemAt(b: Batch, i: nat): Item
    requires i < |b.items|
  {
    if b.company != "" && b.items[i].company == "" then b.items[i].(company := b.company) else b.items[i]
  }

  function CallAt(b: Batch, i: nat): (c: Issuing.Call)
    requires i < |b.items|
    ensures Issuing.WellFormed(c)
  {
    Begin(b.setup, ItemAt(b, i))
  }

  function ErrorCode(why: IssueError): string {
    if why.FromProvider? && why.error.Api? then why.error.name else ""
  }

  function SlotOf(i: nat, item: Item, report: Report): Slot {
    match report
    case Issued(invoice) => Slot(i, item.externalId, true, invoice.id, invoice.status, "")
    case NotIssued(why) => Slot(i, item.externalId, false, "", "", ErrorCode(why))
  }

  function Successes(results: seq<Slot>): nat {
    if results == [] then 0
    else Successes(results[..|results| - 1]) + (if results[|results| - 1].success then 1 else 0)
  }

  /** The zero value an unwritten slot would show. */
  const ZERO_SLOT := Slot(0, "", false, "", "", "")

  function Contents(slots: seq<Option<Slot>>): seq<Slot> {
    seq(|slots|, i requires 0 <= i < |slots| => if slots[i].Some? then slots[i].value else ZERO_SLOT)
  }

  function Tally(results: seq<Slot>): Output {
    Output(results, Successes(results), Failures(results))
  }

  function Failures(results: seq<Slot>): nat {
    if results == [] then 0
    else Failures(results[..|results| - 1]) + (if results[|results| - 1].success then 0 else 1)
  }

  function Initial<S>(b: Batch, s: S): Bulk<S> {
    var n := |b.items|;
    Bulk(s, Adding(0), 0, 0, seq(n, i => Unstarted), seq(n, i => None), seq(n, i => []))
  }

  predicate Shaped<S>(b: Batch, st: Bulk<S>) {
    |st.workers| == |st.slots| == |st.met| == |b.items|
  }

  predicate Enabled<S>(b: Batch, st: Bulk<S>, m: Move)
    requires Shaped(b, st)
  {
    match m
    case MainMove =>
      (match st.main
       case Adding(_) => true
       case Acquiring(k) => k < |b.items| && st.sem < PLACES
       case Waiting => st.wg == 0
       case Finished(_) => false)
    case WorkerMove(i) =>
      && i < |b.items|
      && (match st.workers[i]
          case Running(_) => true
          case Written => st.sem > 0
          case Released => st.wg > 0
          case _ => false)
  }

  function MainStep<S>(b: Batch, st: Bulk<S>): Bulk<S>
    requires Shaped(b, st) && Enabled(b, st, MainMove)
  {
    match st.main
    case Adding(k) =>
      if k < |b.items| then st.(wg := st.wg + 1, main := Acquiring(k)) else st.(main := Waiting)
    case Acquiring(k) =>
      st.(sem := st.sem + 1, workers := st.workers[k := Running(CallAt(b, k))], main := Adding(k + 1))
    case Waiting => st.(main := Finished(Tally(Contents(st.slots))))
    case Finished(_) => st
  }

  function WorkerStep<S>(b: Batch, serve: Provider<S>, st: Bulk<S>, i: nat): Bulk<S>
    requires Shaped(b, st) && Enabled(b, st, WorkerMove(i))
  {
    match st.workers[i]
    case Running(c) =>
      if c.Active? then
        var (s, a) := serve(st.provider, Issuing.RequestOf(c));
        st.(provider := s, workers := st.workers[i := Running(Issuing.Resume(c, a))],
            met := st.met[i := st.met[i] + [a]])
      else
        st.(slots := st.slots[i := Some(SlotOf(i, ItemAt(b, i), c.report))], workers := st.workers[i := Written])
    case Written => st.(sem := st.sem - 1, workers := st.workers[i := Released])
    case Released => st.(wg := st.wg - 1, workers := st.workers[i := Exited])
    case _ => st
  }

  function Step<S>(b: Batch, serve: Provider<S>, st: Bulk<S>, m: Move): Bulk<S>
    requires Shaped(b, st) && Enabled(b, st, m)
  {
    match m
    case MainMove => MainStep(b, st)
    case WorkerMove(i) => WorkerStep(b, serve, st, i)
  }

  // The invariant.

  predicate Holds(w: Worker) {
    w.Running? || w.Written?
  }

  predicate Lives(w: Worker) {
    w.Running? || w.Written? || w.Released?
  }

  function Holders(ws: seq<Worker>): set<int> {
    set i | 0 <= i < |ws| && Holds(ws[i])
  }

  function Living(ws: seq<Worker>): set<int> {
    set i | 0 <= i < |ws| && Lives(ws[i])
  }

  /** The IssueNFSe calls being executed. */
  function InFlight(ws: seq<Worker>): set<int> {
    set i | 0 <= i < |ws| && ws[i].Running? && ws[i].call.Active?
  }

  function Spawned(b: Batch, main: Main): nat {
    match main
    case Adding(k) => k
    case Acquiring(k) => k
    case _ => |b.items|
  }

  /** One item's goroutine, its slot and the attempts it met agree; the slot is empty until it is written. */
  predicate WorkerInv(b: Batch, i: nat, w: Worker, slot: Option<Slot>, met: seq<Attempt>)
    requires i < |b.items|
  {
    match w
    case Unstarted => slot.None? && met == []
    case Running(c) => slot.None? && c == Replay(CallAt(b, i), met) && EndsThere(CallAt(b, i), met)
    case _ =>
      && EndsThere(CallAt(b, i), met)
      && Replay(CallAt(b, i), met).Done?
      && slot == Some(SlotOf(i, ItemAt(b, i), Replay(CallAt(b, i), met).report))
  }

  ghost predicate Inv<S>(b: Batch, st: Bulk<S>) {
    && Shaped(b, st)
    && Spawned(b, st.main) <= |b.items| && (st.main.Acquiring? ==> st.main.next < |b.items|)
    && st.sem == |Holders(st.workers)| && st.sem <= PLACES
    && st.wg == |Living(st.workers)| + (if st.main.Acquiring? then 1 else 0)
    && (forall i | 0 <= i < |st.workers| :: st.workers[i].Unstarted? <==> i >= Spawned(b, st.main))
    && (forall i | 0 <= i < |st.workers| :: WorkerInv(b, i, st.workers[i], st.slots[i], st.met[i]))
    && (st.main.Finished? ==>
          && (forall i | 0 <= i < |st.workers| :: st.workers[i].Exited?)
          && st.main.output == Tally(Contents(st.slots)))
  }

  lemma InitialInv<S>(b: Batch, s: S)
    ensures Inv(b, Initial(b, s))
  {
  }

  /** Changing one goroutine's state moves it in or out of the two sets. */
  lemma HoldersUpdate(ws: seq<Worker>, i: nat, w: Worker)
    requires i < |ws|
    ensures Holders(ws[i := w]) == (if Holds(w) then Holders(ws) + {i} else Holders(ws) - {i})
    ensures Living(ws[i := w]) == (if Lives(w) then Living(ws) + {i} else Living(ws) - {i})
    ensures i in Holders(ws) <==> Holds(ws[i])
    ensures i in Living(ws) <==> Lives(ws[i])
  {
  }

  lemma AcquireKeepsRecords<S>(b: Batch, st: Bulk<S>)
    requires Inv(b, st) && Enabled(b, st, MainMove) && st.main.Acquiring?
    ensures var st' := MainStep(b, st);
            forall j | 0 <= j < |b.items| :: WorkerInv(b, j, st'.workers[j], st'.slots[j], st'.met[j])
  {
    hide Replay, CallAt, ItemAt, SlotOf, Tally, Holders, Living;
    var k, st' := st.main.next, MainStep(b, st);
    ReplayNothing(CallAt(b, k));
    forall j | 0 <= j < |b.items| ensures WorkerInv(b, j, st'.workers[j], st'.slots[j], st'.met[j]) {
      assert WorkerInv(b, j, st.workers[j], st.slots[j], st.met[j]);
    }
  }

  lemma AcquireKeepsInv<S>(b: Batch, st: Bulk<S>)
    requires Inv(b, st) && Enabled(b, st, MainMove) && st.main.Acquiring?
    ensures Inv(b, MainStep(b, st))
  {
    AcquireKeepsRecords(b, st);
    hide WorkerInv, Replay, CallAt, Tally;
    HoldersUpdate(st.workers, st.main.next, Running(CallAt(b, st.main.next)));
    hide Holders, Living;
  }

  lemma MainKeepsInv<S>(b: Batch, st: Bulk<S>)
    requires Inv(b, st) && Enabled(b, st, MainMove)
    ensures Inv(b, MainStep(b, st))
  {
    hide WorkerInv, Tally;
    if st.main.Acquiring? {
      AcquireKeepsInv(b, st);
    } else if st.main.Waiting? {
      assert Living(st.workers) == {};
      forall i | 0 <= i < |st.workers| ensures st.workers[i].Exited? {
        assert i !in Living(st.workers);
        assert !st.workers[i].Unstarted?;
      }
    }
  }

  lemma ReplayNothing(c: Issuing.Call)
    ensures Replay(c, []) == c
  {
  }

  lemma WorkerKeepsRecords<S>(b: Batch, serve: Provider<S>, st: Bulk<S>, i: nat)
    requires Inv(b, st) && Enabled(b, st, WorkerMove(i))
    ensures var st' := WorkerStep(b, serve, st, i);
            forall j | 0 <= j < |b.items| :: WorkerInv(b, j, st'.workers[j], st'.slots[j], st'.met[j])
  {
    hide CallAt, ItemAt, SlotOf, Issuing.RequestOf, Issuing.Resume, Tally, Holders, Living;
    var st' := WorkerStep(b, serve, st, i);
    assert WorkerInv(b, i, st.workers[i], st.slots[i], st.met[i]);
    if st.workers[i].Running? && st.workers[i].call.Active? {
      var met := st'.met[i];
      assert met[..|met| - 1] == st.met[i];
    }
    forall j | 0 <= j < |b.items| ensures WorkerInv(b, j, st'.workers[j], st'.slots[j], st'.met[j]) {
      assert WorkerInv(b, j, st.workers[j], st.slots[j], st.met[j]);
    }
  }

  lemma WorkerKeepsCounts<S>(b: Batch, serve: Provider<S>, st: Bulk<S>, i: nat)
    requires Inv(b, st) && Enabled(b, st, WorkerMove(i))
    ensures var st' := WorkerStep(b, serve, st, i);
            && st'.sem == |Holders(st'.workers)| && st'.sem <= PLACES
            && st'.wg == |Living(st'.workers)| + (if st'.main.Acquiring? then 1 else 0)
  {
    hide WorkerInv, CallAt, ItemAt, SlotOf, Issuing.RequestOf, Issuing.Resume, Tally;
    var st' := WorkerStep(b, serve, st, i);
    HoldersUpdate(st.workers, i, st'.workers[i]);
    assert st'.workers == st.workers[i := st'.workers[i]];
    hide Holders, Living;
  }

  lemma WorkerKeepsShape<S>(b: Batch, serve: Provider<S>, st: Bulk<S>, i: nat)
    requires Shaped(b, st) && Enabled(b, st, WorkerMove(i))
    ensures var st' := WorkerStep(b, serve, st, i);
            && Shaped(b, st') && st'.main == st.main
            && (forall j | 0 <= j < |b.items| :: st'.workers[j].Unstarted? <==> st.workers[j].Unstarted?)
  {
    hide CallAt, ItemAt, SlotOf, Issuing.RequestOf, Issuing.Resume;
  }

  lemma WorkerKeepsInv<S>(b: Batch, serve: Provider<S>, st: Bulk<S>, i: nat)
    requires Inv(b, st) && Enabled(b, st, WorkerMove(i))
    ensures Inv(b, WorkerStep(b, serve, st, i))
  {
    WorkerKeepsRecords(b, serve, st, i);
    WorkerKeepsCounts(b, serve, st, i);
    WorkerKeepsShape(b, serve, st, i);
    hide WorkerInv, WorkerStep, Tally, Holders, Living;
  }

  lemma StepKeepsInv<S>(b: Batch, serve: Provider<S>, st: Bulk<S>, m: Move)
    requires Inv(b, st) && Enabled(b, st, m)
    ensures Inv(b, Step(b, serve, st, m))
  {
    hide Inv, MainStep, WorkerStep, Enabled;
    match m
    case MainMove => MainKeepsInv(b, st);
    case WorkerMove(i) => WorkerKeepsInv(b, serve, st, i);
  }

  /** At most five IssueNFSe calls are in flight. */
  lemma AtMostFiveInFlight<S>(b: Batch, st: Bulk<S>)
    requires Inv(b, st)
    ensures |InFlight(st.workers)| <= 5
  {
    SubsetSize(InFlight(st.workers), Holders(st.workers));
  }

  lemma {:induction false} SubsetSize<T>(a: set<T>, b: set<T>)
    requires a <= b
    ensures |a| <= |b|
  {
    if x :| x in a {
      SubsetSize(a - {x}, b - {x});
    }
  }

  /** A goroutine that was spawned is never blocked: its place and its wait-group count are there to give back. */
  lemma NeverBlocks<S>(b: Batch, st: Bulk<S>, i: nat)
    requires Inv(b, st) && i < |st.workers| && Lives(st.workers[i])
    ensures Enabled(b, st, WorkerMove(i))
  {
    hide Replay, CallAt, ItemAt, SlotOf;
    assert i in Living(st.workers);
    assert Holds(st.workers[i]) ==> i in Holders(st.workers);
  }

  /** Until the result is returned, somebody can move. */
  lemma NoDeadlock<S>(b: Batch, st: Bulk<S>)
    requires Inv(b, st) && !st.main.Finished?
    ensures exists m :: Enabled(b, st, m)
  {
    hide Replay, CallAt, ItemAt, SlotOf;
    if i :| 0 <= i < |st.workers| && Lives(st.workers[i]) {
      NeverBlocks(b, st, i);
      assert Enabled(b, st, WorkerMove(i));
    } else {
      assert Living(st.workers) == {} && Holders(st.workers) == {};
      assert Enabled(b, st, MainMove);
    }
  }

  // Termination.

  function WorkerRank(w: Worker): nat {
    match w
    case Unstarted => 8
    case Running(c) => if c.Active? && c.attempt <= MAX_ATTEMPTS then 4 + (MAX_ATTEMPTS + 1 - c.attempt) else 4
    case Written => 2
    case Released => 1
    case Exited => 0
  }

  function WorkersRank(ws: seq<Worker>): nat {
    if ws == [] then 0 else WorkerRank(ws[0]) + WorkersRank(ws[1..])
  }

  function MainRank(b: Batch, main: Main): nat {
    match main
    case Adding(k) => if k <= |b.items| then 2 * (|b.items| - k) + 2 else 0
    case Acquiring(k) => if k <= |b.items| then 2 * (|b.items| - k) + 1 else 0
    case Waiting => 1
    case Finished(_) => 0
  }

  function Measure<S>(b: Batch, st: Bulk<S>): nat {
    MainRank(b, st.main) + WorkersRank(st.workers)
  }

  lemma {:induction false} RankUpdate(ws: seq<Worker>, i: nat, w: Worker)
    requires i < |ws|
    ensures WorkersRank(ws[i := w]) == WorkersRank(ws) - WorkerRank(ws[i]) + WorkerRank(w)
  {
    if i > 0 {
      assert ws[i := w][1..] == ws[1..][i - 1 := w];
      RankUpdate(ws[1..], i - 1, w);
    } else {
      assert ws[0 := w][1..] == ws[1..];
    }
  }

  lemma RunningIsWellFormed<S>(b: Batch, st: Bulk<S>, i: nat)
    requires Inv(b, st) && i < |b.items| && st.workers[i].Running?
    ensures Issuing.WellFormed(st.workers[i].call)
  {
    assert WorkerInv(b, i, st.workers[i], st.slots[i], st.met[i]);
  }

  /** Every step of every schedule decreases the measure. */
  lemma StepDecreases<S>(b: Batch, serve: Provider<S>, st: Bulk<S>, m: Move)
    requires Inv(b, st) && Enabled(b, st, m)
    ensures Measure(b, Step(b, serve, st, m)) < Measure(b, st)
  {
    hide ItemAt, SlotOf, Issuing.RequestOf, Tally, Holders, Living, AcceptsInvoice, Conclude, Begin, DoOnce;
    match m
    case MainMove =>
      if st.main.Acquiring? {
        RankUpdate(st.workers, st.main.next, Running(CallAt(b, st.main.next)));
      }
    case WorkerMove(i) =>
      var st' := WorkerStep(b, serve, st, i);
      RankUpdate(st.workers, i, st'.workers[i]);
      if st.workers[i].Running? {
        RunningIsWellFormed(b, st, i);
      }
  }

  // The results.

  lemma {:induction false} CountsSum(results: seq<Slot>)
    ensures Successes(results) + Failures(results) == |results|
  {
    if results != [] {
      CountsSum(results[..|results| - 1]);
    }
  }

  /** What a finished batch returns: one slot per item, in order, each a function of its own item and replies alone. */
  ghost predicate IsResultOf(b: Batch, met: seq<seq<Attempt>>, output: Output) {
    && |met| == |output.results| == |b.items|
    && (forall i | 0 <= i < |b.items| ::
          && Replay(CallAt(b, i), met[i]).Done?
          && Reports(output.results[i], Replay(CallAt(b, i), met[i]).report)
          && output.results[i].index == i && output.results[i].externalId == b.items[i].externalId
          && SlotTells(output.results[i], met[i])
          && (met[i] == [] <==>
                || b.items[i].municipio !in b.setup.templates
                || (b.items[i].company == "" && b.company == "" && b.setup.defaultCompany == "")))
    && output.succeeded == |Succeeded(output.results)|
    && output.succeeded + output.failed == |b.items|
  }

  /** A slot carries the invoice's id and status on success, and the provider's error name on an API error. */
  predicate Reports(slot: Slot, report: Report) {
    && (slot.success <==> report.Issued?)
    && (report.Issued? ==>
          slot.invoiceId == report.invoice.id && slot.status == report.invoice.status && slot.errorCode == "")
    && (report.NotIssued? ==> slot.invoiceId == "" && slot.status == "")
    && (report.NotIssued? && report.why.FromProvider? && report.why.error.Api? ==>
          slot.errorCode == report.why.error.name)
    && (report.NotIssued? && !(report.why.FromProvider? && report.why.error.Api?) ==> slot.errorCode == "")
  }

  predicate IsSuccess(slot: Slot, body: Body) {
    && slot.success && slot.errorCode == ""
    && slot.invoiceId == TextUnder(body, "id") && slot.status == TextUnder(body, "status")
  }

  predicate IsFailureOf(slot: Slot, errorCode: string) {
    !slot.success && slot.invoiceId == "" && slot.status == "" && slot.errorCode == errorCode
  }

  /** What a slot shows, read off the last attempt its item met; no attempt means it was refused before any. */
  ghost predicate SlotTells(slot: Slot, met: seq<Attempt>) {
    if met == [] then IsFailureOf(slot, "")
    else
      var last := met[|met| - 1];
      match last.reply
      case NoResponse(_) => IsFailureOf(slot, "")
      case Response(code, _, _, body) =>
        if IsTransient(last.reply) && |met| < 3 && last.interrupt.Some? then IsFailureOf(slot, "")
        else if 200 <= code < 300 then
          if body.Empty? || AcceptsInvoice(body) then IsSuccess(slot, body) else IsFailureOf(slot, "")
        else if EffectiveStatus(code, body) == 409 then IsSuccess(slot, body)
        else IsFailureOf(slot, TextUnder(body, "name"))
  }

  lemma SlotTellsTheReply(b: Batch, i: nat, met: seq<Attempt>, slot: Slot)
    requires i < |b.items| && EndsThere(CallAt(b, i), met) && Replay(CallAt(b, i), met).Done?
    requires Reports(slot, Replay(CallAt(b, i), met).report)
    ensures SlotTells(slot, met)
    ensures met == [] <==>
              || b.items[i].municipio !in b.setup.templates
              || (b.items[i].company == "" && b.company == "" && b.setup.defaultCompany == "")
  {
    BeginIs(b.setup, ItemAt(b, i));
    if met == [] {
      hide AcceptsInvoice, IsOwnRequest, RequestOf;
      assert Replay(CallAt(b, i), met) == CallAt(b, i);
    } else {
      ConcludedSays(CallAt(b, i), met);
      hide AcceptsInvoice, IsOwnRequest, RequestOf, Replay, TextUnder, BodyStatus, Begin, Resume;
    }
  }

  ghost function Succeeded(results: seq<Slot>): set<int> {
    set i | 0 <= i < |results| && results[i].success
  }

  lemma {:induction false} SuccessesCounts(results: seq<Slot>)
    ensures Successes(results) == |Succeeded(results)|
  {
    if results != [] {
      var n := |results| - 1;
      SuccessesCounts(results[..n]);
      assert Succeeded(results) == Succeeded(results[..n]) + (if results[n].success then {n} else {});
    } else {
      assert Succeeded(results) == {};
    }
  }

  lemma SlotReports(b: Batch, i: nat, report: Report)
    requires i < |b.items|
    ensures var slot := SlotOf(i, ItemAt(b, i), report);
            Reports(slot, report) && slot.index == i && slot.externalId == b.items[i].externalId
  {
  }

  lemma FinishedIsResult<S>(b: Batch, st: Bulk<S>)
    requires Inv(b, st) && st.main.Finished?
    ensures IsResultOf(b, st.met, st.main.output)
  {
    hide Replay, CallAt, ItemAt, SlotOf, Holders, Living, Reports, Succeeded, Successes, Failures, SlotTells, EndsThere;
    var results := st.main.output.results;
    CountsSum(results);
    SuccessesCounts(results);
    forall i | 0 <= i < |b.items|
      ensures Replay(CallAt(b, i), st.met[i]).Done?
      ensures Reports(results[i], Replay(CallAt(b, i), st.met[i]).report)
      ensures results[i].index == i && results[i].externalId == b.items[i].externalId
      ensures SlotTells(results[i], st.met[i])
      ensures st.met[i] == [] <==>
                || b.items[i].municipio !in b.setup.templates
                || (b.items[i].company == "" && b.company == "" && b.setup.defaultCompany == "")
    {
      assert WorkerInv(b, i, st.workers[i], st.slots[i], st.met[i]);
      SlotReports(b, i, Replay(CallAt(b, i), st.met[i]).report);
      SlotTellsTheReply(b, i, st.met[i], results[i]);
    }
  }

  lemma InvShaped<S>(b: Batch, st: Bulk<S>)
    requires Inv(b, st)
    ensures Shaped(b, st)
  {
  }

  /** A slot is written while it is empty and never again. */
  lemma SlotsAreWrittenOnce<S>(b: Batch, serve: Provider<S>, st: Bulk<S>, m: Move, i: nat)
    requires Inv(b, st) && Enabled(b, st, m) && i < |b.items|
    ensures st.slots[i].Some? ==> Step(b, serve, st, m).slots[i] == st.slots[i]
  {
    hide Replay, CallAt, ItemAt, SlotOf, Tally;
    assert WorkerInv(b, i, st.workers[i], st.slots[i], st.met[i]);
  }

  // Schedules.

  /** A schedule is any sequence of moves; a move that is not enabled does nothing. */
  function Exec<S>(b: Batch, serve: Provider<S>, st: Bulk<S>, moves: seq<Move>): (end: Bulk<S>)
    requires Shaped(b, st)
    ensures Shaped(b, end)
    decreases |moves|
  {
    if moves == [] then st
    else
      var before := Exec(b, serve, st, moves[..|moves| - 1]);
      if Enabled(b, before, moves[|moves| - 1]) then Step(b, serve, before, moves[|moves| - 1]) else before
  }

  /** How many moves of a schedule do something. */
  function Effective<S>(b: Batch, serve: Provider<S>, st: Bulk<S>, moves: seq<Move>): nat
    requires Shaped(b, st)
    decreases |moves|
  {
    if moves == [] then 0
    else
      var early := moves[..|moves| - 1];
      Effective(b, serve, st, early)
      + (if Enabled(b, Exec(b, serve, st, early), moves[|moves| - 1]) then 1 else 0)
  }

  /** Every schedule keeps the invariant, and none makes more effective moves than the initial measure. */
  lemma {:induction false} ExecInv<S>(b: Batch, serve: Provider<S>, st: Bulk<S>, moves: seq<Move>)
    requires Shaped(b, st) && Inv(b, st)
    ensures Inv(b, Exec(b, serve, st, moves))
    ensures Effective(b, serve, st, moves) + Measure(b, Exec(b, serve, st, moves)) <= Measure(b, st)
    decreases |moves|
  {
    hide Inv, Step, Measure, Enabled;
    if moves != [] {
      var early, last := moves[..|moves| - 1], moves[|moves| - 1];
      ExecInv(b, serve, st, early);
      var before := Exec(b, serve, st, early);
      if Enabled(b, before, last) {
        StepKeepsInv(b, serve, before, last);
        StepDecreases(b, serve, before, last);
      }
    }
  }

  datatype BulkReport = TooLarge(count: nat) | Completed(output: Output)

  /** BulkIssue under an arbitrary schedule; moves and end are the schedule it took and where it led. */
  method BulkIssue<S>(b: Batch, serve: Provider<S>, s: S)
    returns (r: BulkReport, s': S, ghost moves: seq<Move>, ghost end: Bulk<S>)
    ensures r.TooLarge? <==> |b.items| > 50
    ensures r.TooLarge? ==> r.count == |b.items| && s' == s
    ensures b.items == [] ==> r == Completed(Output([], 0, 0)) && s' == s
    ensures 0 < |b.items| <= 50 ==>
              && end == Exec(b, serve, Initial(b, s), moves)
              && r.Completed? && end.main == Finished(r.output) && end.provider == s'
              && IsResultOf(b, end.met, r.output)
  {
    hide Inv, Step, Enabled, Measure;
    var st := Initial(b, s);
    moves, end := [], st;
    if |b.items| > MAX_ITEMS {
      return TooLarge(|b.items|), s, moves, end;
    }
    if |b.items| == 0 {
      return Completed(Output([], 0, 0)), s, moves, end;
    }
    InitialInv(b, s);
    while !st.main.Finished?
      invariant Shaped(b, st) && Inv(b, st)
      invariant st == Exec(b, serve, Initial(b, s), moves)
      decreases Measure(b, st)
    {
      NoDeadlock(b, st);
      var m: Move :| Enabled(b, st, m);
      StepKeepsInv(b, serve, st, m);
      StepDecreases(b, serve, st, m);
      ghost var early := moves;
      moves := moves + [m];
      assert moves[..|moves| - 1] == early;
      st := Step(b, serve, st, m);
      InvShaped(b, st);
    }
    FinishedIsResult(b, st);
    r, s', end := Completed(st.main.output), st.provider, st;
  }
}
