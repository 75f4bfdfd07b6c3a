/** What bulk issuing guarantees against providers that keep a promise of their own. */
module BulkOutcomes {
  import opened Options
  import opened Text
  import opened Wire
  import opened Issuing
  import opened InvoiceRegistry
  import opened Bulk

  /** The company an item is issued under: its own, else the batch's, else the configured default. */
  function CompanyOf(b: Batch, i: nat): string
    requires i < |b.items|
  {
    FirstNonEmpty(b.items[i].company, FirstNonEmpty(b.company, b.setup.defaultCompany))
  }

  function KeyOf(b: Batch, i: nat): Key
    requires i < |b.items|
  {
    Key(CompanyOf(b, i), b.items[i].externalId)
  }

  /** A call keeps its request from the first attempt to the last. */
  lemma {:induction false} ReplayKeepsRequest(c: Call, met: seq<Attempt>)
    ensures var now := Replay(c, met);
            now.Active? ==> c.Active? && now.item == c.item && now.company == c.company && now.body == c.body
    decreases |met|
  {
    hide Settle, Conclude;
    if met != [] {
      ReplayKeepsRequest(c, met[..|met| - 1]);
    }
  }

  lemma CallAtKey(b: Batch, i: nat, met: seq<Attempt>)
    requires i < |b.items|
    ensures var c := Replay(CallAt(b, i), met);
            && WellFormed(c)
            && (c.Active? ==>
                  && Key(c.company, c.item.externalId) == KeyOf(b, i)
                  && CallAt(b, i).Active? && RequestOf(c) == RequestOf(CallAt(b, i)))
  {
    ReplayKeepsRequest(CallAt(b, i), met);
  }

  /** What each item posts: its own request, under its company, from its template. */
  lemma ItemRequestIs(b: Batch, i: nat)
    requires i < |b.items| && CallAt(b, i).Active?
    ensures b.items[i].municipio in b.setup.templates
    ensures IsOwnRequest(RequestOf(CallAt(b, i)), CompanyOf(b, i), b.items[i], b.setup.templates[b.items[i].municipio])
  {
    BeginIs(b.setup, ItemAt(b, i));
    hide RequestOf, Begin;
  }

  // Exactly once.

  /** What meets one attempt: what other callers created since the attempt before it, and its own fate. */
  datatype Encounter = Encounter(others: seq<Creation>, fate: PostFate)

  /** misled collects the keys for which a reply was read that names no invoice of the registry. */
  datatype RegistrySim = RegistrySim(registry: Registry, fates: seq<Encounter>, misled: set<Key>)

  /** When the script runs out, requests are lost before they take effect. */
  function FateOf(s: RegistrySim): Encounter {
    if s.fates == [] then Encounter([], Cut(false, "", NoResponse(OtherCause), None)) else s.fates[0]
  }

  function Misled(r: Registry, req: Request, fate: PostFate): set<Key> {
    match PostedKey(req)
    case None => {}
    case Some(key) => if Misleads(fate) || Blanks(r, key, fate) then {key} else {}
  }

  function ServeRegistry(s: RegistrySim, req: Request): (RegistrySim, Attempt) {
    var seen := RegisterAll(s.registry, FateOf(s).others);
    var (r, a) := Serve(seen, req, FateOf(s).fate);
    (RegistrySim(r, if s.fates == [] then [] else s.fates[1..], s.misled + Misled(seen, req, FateOf(s).fate)), a)
  }

  lemma RegistryGrows(s: RegistrySim, req: Request)
    requires AtMostOnePerKey(s.registry)
    ensures var seen, s' := RegisterAll(s.registry, FateOf(s).others), ServeRegistry(s, req).0;
            AtMostOnePerKey(seen) && AtMostOnePerKey(s'.registry) && Extends(s.registry, s'.registry)
  {
    hide Serve, HasKey, IdFor, AtMostOnePerKey, Misled;
    RegisterAllGrows(s.registry, FateOf(s).others);
    ServeGrows(RegisterAll(s.registry, FateOf(s).others), req, FateOf(s).fate);
  }

  function RegistryProvider(): Provider<RegistrySim> {
    (s: RegistrySim, req: Request) => ServeRegistry(s, req)
  }

  /** A success of item i, reported or about to be, names the invoice registered for its key, or the key was misled. */
  predicate IsTrue(s: RegistrySim, key: Key, w: Worker, slot: Option<Slot>) {
    key !in s.misled ==>
      && (w.Running? && w.call.Done? && w.call.report.Issued? ==> Names(s.registry, key, w.call.report.invoice.id))
      && (slot.Some? && slot.value.success ==> Names(s.registry, key, slot.value.invoiceId))
  }

  ghost predicate AllTrue(b: Batch, st: Bulk<RegistrySim>) {
    && Shaped(b, st) && AtMostOnePerKey(st.provider.registry)
    && forall i | 0 <= i < |b.items| :: IsTrue(st.provider, KeyOf(b, i), st.workers[i], st.slots[i])
  }

  lemma AttemptKeepsTrue(b: Batch, st: Bulk<RegistrySim>, i: nat)
    requires Inv(b, st) && AllTrue(b, st) && i < |b.items| && st.workers[i].Running? && st.workers[i].call.Active?
    ensures AllTrue(b, WorkerStep(b, RegistryProvider(), st, i))
  {
    hide CallAt, ItemAt, SlotOf, KeyOf, RequestOf, Issuing.Resume, Serve, HasKey, IdFor, Replay, Tally, WellFormed,
         PostedKey, Misleads, Blanks, RegisterAll;
    var c := st.workers[i].call;
    assert WorkerInv(b, i, st.workers[i], st.slots[i], st.met[i]);
    CallAtKey(b, i, st.met[i]);
    RequestKey(c);
    RegistryGrows(st.provider, RequestOf(c));
    var seen := RegisterAll(st.provider.registry, FateOf(st.provider).others);
    SuccessNamesInvoice(seen, c, FateOf(st.provider).fate);
    var st' := WorkerStep(b, RegistryProvider(), st, i);
    forall j | 0 <= j < |b.items| ensures IsTrue(st'.provider, KeyOf(b, j), st'.workers[j], st'.slots[j]) {
      assert IsTrue(st.provider, KeyOf(b, j), st.workers[j], st.slots[j]);
    }
  }

  lemma BeginsUnissued(b: Batch, i: nat)
    requires i < |b.items|
    ensures CallAt(b, i).Done? ==> CallAt(b, i).report.NotIssued?
  {
  }

  lemma StepKeepsTrue(b: Batch, st: Bulk<RegistrySim>, m: Move)
    requires Inv(b, st) && AllTrue(b, st) && Enabled(b, st, m)
    ensures AllTrue(b, Step(b, RegistryProvider(), st, m))
  {
    hide CallAt, ItemAt, KeyOf, RequestOf, Issuing.Resume, Names, Replay, Tally, AtMostOnePerKey;
    if m.WorkerMove? && st.workers[m.who].Running? && st.workers[m.who].call.Active? {
      AttemptKeepsTrue(b, st, m.who);
    } else {
      if m.MainMove? && st.main.Acquiring? {
        BeginsUnissued(b, st.main.next);
      }
      var st' := Step(b, RegistryProvider(), st, m);
      forall j | 0 <= j < |b.items| ensures IsTrue(st'.provider, KeyOf(b, j), st'.workers[j], st'.slots[j]) {
        assert IsTrue(st.provider, KeyOf(b, j), st.workers[j], st.slots[j]);
      }
    }
  }

  lemma {:induction false} ExecKeepsTrue(b: Batch, st: Bulk<RegistrySim>, moves: seq<Move>)
    requires Shaped(b, st) && Inv(b, st) && AllTrue(b, st)
    ensures AllTrue(b, Exec(b, RegistryProvider(), st, moves))
    decreases |moves|
  {
    hide Inv, AllTrue, Step, Enabled, Measure;
    if moves != [] {
      var early, last := moves[..|moves| - 1], moves[|moves| - 1];
      ExecKeepsTrue(b, st, early);
      ExecInv(b, RegistryProvider(), st, early);
      var before := Exec(b, RegistryProvider(), st, early);
      if Enabled(b, before, last) {
        StepKeepsTrue(b, before, last);
      }
    }
  }

  lemma StepExtends(b: Batch, st: Bulk<RegistrySim>, m: Move)
    requires Shaped(b, st) && AtMostOnePerKey(st.provider.registry) && Enabled(b, st, m)
    ensures var st' := Step(b, RegistryProvider(), st, m);
            AtMostOnePerKey(st'.provider.registry) && Extends(st.provider.registry, st'.provider.registry)
  {
    hide CallAt, ItemAt, SlotOf, Tally, Issuing.RequestOf, Issuing.Resume, ServeRegistry, HasKey, IdFor;
    if m.WorkerMove? && st.workers[m.who].Running? && st.workers[m.who].call.Active? {
      RegistryGrows(st.provider, Issuing.RequestOf(st.workers[m.who].call));
    }
  }

  lemma {:induction false} ExecExtends(b: Batch, st: Bulk<RegistrySim>, moves: seq<Move>)
    requires Shaped(b, st) && AtMostOnePerKey(st.provider.registry)
    ensures var end := Exec(b, RegistryProvider(), st, moves);
            AtMostOnePerKey(end.provider.registry) && Extends(st.provider.registry, end.provider.registry)
    decreases |moves|
  {
    hide Step, Enabled, AtMostOnePerKey, HasKey, IdFor;
    if moves != [] {
      var early, last := moves[..|moves| - 1], moves[|moves| - 1];
      ExecExtends(b, st, early);
      var before := Exec(b, RegistryProvider(), st, early);
      if Enabled(b, before, last) {
        StepExtends(b, before, last);
      }
    }
  }

  ghost predicate AllPlain(fates: seq<Encounter>) {
    forall k | 0 <= k < |fates| :: IsPlain(fates[k].fate)
  }

  lemma {:induction false} ExecNotMisled(b: Batch, st: Bulk<RegistrySim>, moves: seq<Move>)
    requires Shaped(b, st) && AllPlain(st.provider.fates)
    ensures var end := Exec(b, RegistryProvider(), st, moves);
            AllPlain(end.provider.fates) && end.provider.misled == st.provider.misled
    decreases |moves|
  {
    hide CallAt, ItemAt, SlotOf, Tally, Issuing.RequestOf, Issuing.Resume, Serve, PostedKey, Enabled, RegisterAll;
    if moves != [] {
      ExecNotMisled(b, st, moves[..|moves| - 1]);
    }
  }

  /**
   * Against a provider that keeps one invoice per company and external id and answers 409 with it: whatever
   * the schedule, whatever other callers create in the meantime, whichever requests and replies are lost or cut and
   * whatever errors come back, at most one invoice exists per key, and every success reported for a key carries that
   * invoice's id, unless some attempt for that key met an error that was not the registry's answer but has
   * effective status 409, or an answer that was cut so that nothing of it names an invoice. Invoices registered
   * before keep their key and id, so this holds over any sequence of batches.
   */
  lemma ExactlyOnce(b: Batch, r: Registry, fates: seq<Encounter>, moves: seq<Move>)
    requires AtMostOnePerKey(r)
    ensures var end := Exec(b, RegistryProvider(), Initial(b, RegistrySim(r, fates, {})), moves);
            && AtMostOnePerKey(end.provider.registry)
            && Extends(r, end.provider.registry)
            && (forall i | 0 <= i < |b.items| && end.slots[i].Some? && end.slots[i].value.success ::
                  || Names(end.provider.registry, KeyOf(b, i), end.slots[i].value.invoiceId)
                  || KeyOf(b, i) in end.provider.misled)
            && (AllPlain(fates) ==> end.provider.misled == {})
  {
    hide KeyOf, Names, AtMostOnePerKey, Extends, AllPlain;
    var st := Initial(b, RegistrySim(r, fates, {}));
    ExecExtends(b, st, moves);
    if AllPlain(fates) {
      ExecNotMisled(b, st, moves);
    }
    InitialInv(b, RegistrySim(r, fates, {}));
    assert AllTrue(b, st);
    ExecKeepsTrue(b, st, moves);
    var end := Exec(b, RegistryProvider(), st, moves);
    forall i | 0 <= i < |b.items| && end.slots[i].Some? && end.slots[i].value.success
      ensures || Names(end.provider.registry, KeyOf(b, i), end.slots[i].value.invoiceId)
              || KeyOf(b, i) in end.provider.misled
    {
      assert IsTrue(end.provider, KeyOf(b, i), end.workers[i], end.slots[i]);
    }
  }

  // A provider that answers each attempt of a request by a script.

  /** What the n-th attempt of a request meets. */
  type Script = (Request, nat) -> Attempt

  ghost predicate Varies(script: Script, req: Request) {
    exists m: nat, n: nat :: script(req, m) != script(req, n)
  }

  /** The provider counts the attempts of every request whose answers vary, apart from all other requests. */
  ghost predicate FollowsScript<S(!new)>(serve: Provider<S>, script: Script, turn: (S, Request) -> nat) {
    forall s, req ::
      && serve(s, req).1 == script(req, turn(s, req))
      && forall other | Varies(script, other) ::
           turn(serve(s, req).0, other) == turn(s, other) + if other == req then 1 else 0
  }

  /** No two items post the same request, unless its answers do not vary. */
  ghost predicate HaveOwnScripts(b: Batch, script: Script) {
    forall i, j | 0 <= i < j < |b.items| && CallAt(b, i).Active? && CallAt(b, j).Active? ::
      RequestOf(CallAt(b, i)) == RequestOf(CallAt(b, j)) ==> !Varies(script, RequestOf(CallAt(b, i)))
  }

  /** Distinct company and external id are enough. */
  lemma DistinctKeysHaveOwnScripts(b: Batch, script: Script)
    requires forall i, j | 0 <= i < j < |b.items| :: KeyOf(b, i) != KeyOf(b, j)
    ensures HaveOwnScripts(b, script)
  {
    hide CallAt, RequestOf, PostedKey, KeyOf, Varies;
    forall i, j | 0 <= i < j < |b.items| && CallAt(b, i).Active? && CallAt(b, j).Active?
      ensures RequestOf(CallAt(b, i)) != RequestOf(CallAt(b, j))
    {
      CallAtPosts(b, i);
      CallAtPosts(b, j);
    }
  }

  lemma CallAtPosts(b: Batch, i: nat)
    requires i < |b.items| && CallAt(b, i).Active?
    ensures PostedKey(RequestOf(CallAt(b, i))) == Some(KeyOf(b, i))
  {
    hide RequestOf, PostedKey;
    CallAtKey(b, i, []);
    RequestKey(CallAt(b, i));
  }

  /** A provider that counts the attempts of each request follows any script. */
  function CountingProvider(script: Script): Provider<map<Request, nat>> {
    (s: map<Request, nat>, req: Request) => (s[req := Turn(s, req) + 1], script(req, Turn(s, req)))
  }

  function Turn(s: map<Request, nat>, req: Request): nat {
    if req in s then s[req] else 0
  }

  lemma CountingFollowsScript(script: Script)
    ensures FollowsScript(CountingProvider(script), script, Turn)
  {
  }

  function ScriptProvider(script: Script): Provider<nat> {
    (n: nat, req: Request) => (n + 1, script(req, n))
  }

  /** One call issued on its own: the retry loop against its script from the n-th attempt on. */
  function IssueAlone(c: Call, script: Script, n: nat): Report
    requires WellFormed(c)
  {
    if c.Done? then c.report
    else Conclude(DoFrom(ScriptProvider(script), n, RequestOf(c), AcceptsInvoice, c.attempt).outcome)
  }

  function FirstTurn<S>(b: Batch, turn: (S, Request) -> nat, s: S, i: nat): nat
    requires i < |b.items|
  {
    if CallAt(b, i).Active? then turn(s, RequestOf(CallAt(b, i))) else 0
  }

  /** The batch issued item by item, each on its own. */
  function SequentialMap<S>(b: Batch, script: Script, turn: (S, Request) -> nat, s: S): seq<Slot> {
    seq(|b.items|, i requires 0 <= i < |b.items| =>
      SlotOf(i, ItemAt(b, i), IssueAlone(CallAt(b, i), script, FirstTurn(b, turn, s, i))))
  }

  lemma AloneStep(c: Call, script: Script, n: nat)
    requires WellFormed(c)
    ensures var next := Resume(c, if c.Done? then Attempt(NoResponse(OtherCause), None) else script(RequestOf(c), n));
            && WellFormed(next)
            && (next.Active? ==> c.Active? && RequestOf(next) == RequestOf(c))
            && IssueAlone(next, script, n + 1) == IssueAlone(c, script, n)
  {
    hide Conclude, AcceptsInvoice, DoOnce, RequestOf;
    SameRequest(c, if c.Done? then Attempt(NoResponse(OtherCause), None) else script(RequestOf(c), n));
  }

  lemma SameRequest(c: Call, a: Attempt)
    ensures var next := Resume(c, a); next.Active? ==> c.Active? && RequestOf(next) == RequestOf(c)
  {
    hide Conclude, AcceptsInvoice, DoOnce;
  }

  /** The attempts met are the script's answers to this request from the n-th on. */
  ghost predicate MeetsScript(met: seq<Attempt>, script: Script, req: Request, n: nat) {
    forall k | 0 <= k < |met| :: met[k] == script(req, n + k)
  }

  lemma {:induction false} ReplayAlone(c: Call, met: seq<Attempt>, script: Script, n: nat)
    requires WellFormed(c) && (c.Active? ==> MeetsScript(met, script, RequestOf(c), n))
    ensures Replay(c, met).Done? ==> Replay(c, met).report == IssueAlone(c, script, n)
    decreases |met|
  {
    hide Resume, IssueAlone, RequestOf, WellFormed;
    if c.Done? {
      DoneStays(c, met);
      AloneIsDone(c, script, n);
    } else if met != [] {
      var later := met[1..];
      assert met == [met[0]] + later;
      assert met[0] == script(RequestOf(c), n + 0);
      ReplayFront(c, met[0], later);
      AloneStep(c, script, n);
      var next := Resume(c, met[0]);
      if next.Active? {
        forall k | 0 <= k < |later| ensures later[k] == script(RequestOf(next), n + 1 + k) {
          assert later[k] == met[k + 1] && n + (k + 1) == n + 1 + k;
        }
      }
      ReplayAlone(next, later, script, n + 1);
    }
  }

  lemma AloneIsDone(c: Call, script: Script, n: nat)
    requires WellFormed(c) && c.Done?
    ensures IssueAlone(c, script, n) == c.report
  {
  }

  lemma {:induction false} DoneStays(c: Call, met: seq<Attempt>)
    requires c.Done?
    ensures Replay(c, met) == c
    decreases |met|
  {
    if met != [] {
      DoneStays(c, met[..|met| - 1]);
    }
  }

  ghost predicate MetFollows<S>(b: Batch, st: Bulk<S>, script: Script, turn: (S, Request) -> nat, s0: S) {
    && Shaped(b, st)
    && forall i | 0 <= i < |b.items| :: ItemFollows(b, st, script, turn, s0, i)
  }

  ghost predicate ItemFollows<S>(b: Batch, st: Bulk<S>, script: Script, turn: (S, Request) -> nat, s0: S, i: nat)
    requires Shaped(b, st) && i < |b.items|
  {
    CallAt(b, i).Active? ==>
      var req, first := RequestOf(CallAt(b, i)), FirstTurn(b, turn, s0, i);
      && MeetsScript(st.met[i], script, req, first)
      && (Varies(script, req) ==> turn(st.provider, req) == first + |st.met[i]|)
  }

  /** The attempt a goroutine makes is the next one of its own script, and no other goroutine's turn moves. */
  lemma AttemptFollows<S(!new)>(b: Batch, serve: Provider<S>, st: Bulk<S>, i: nat, script: Script,
                                turn: (S, Request) -> nat, s0: S)
    requires FollowsScript(serve, script, turn) && HaveOwnScripts(b, script)
    requires Inv(b, st) && MetFollows(b, st, script, turn, s0)
    requires i < |b.items| && st.workers[i].Running? && st.workers[i].call.Active?
    ensures MetFollows(b, WorkerStep(b, serve, st, i), script, turn, s0)
  {
    hide CallAt, ItemAt, SlotOf, KeyOf, RequestOf, Issuing.Resume, Replay, Tally, WellFormed, Holders, Living,
         FirstTurn;
    var c, st' := st.workers[i].call, WorkerStep(b, serve, st, i);
    assert WorkerInv(b, i, st.workers[i], st.slots[i], st.met[i]);
    CallAtKey(b, i, st.met[i]);
    var req, first, n := RequestOf(c), FirstTurn(b, turn, s0, i), |st.met[i]|;
    assert ItemFollows(b, st, script, turn, s0, i);
    assert serve(st.provider, req).1 == script(req, turn(st.provider, req));
    assert script(req, turn(st.provider, req)) == script(req, first + n);
    assert st'.met[i] == st.met[i] + [script(req, first + n)];
    forall j | 0 <= j < |b.items| ensures ItemFollows(b, st', script, turn, s0, j) {
      assert ItemFollows(b, st, script, turn, s0, j);
      if j != i && CallAt(b, j).Active? && Varies(script, RequestOf(CallAt(b, j))) {
        assert RequestOf(CallAt(b, j)) != req;
      }
    }
  }

  lemma StepFollows<S(!new)>(b: Batch, serve: Provider<S>, st: Bulk<S>, m: Move, script: Script,
                             turn: (S, Request) -> nat, s0: S)
    requires FollowsScript(serve, script, turn) && HaveOwnScripts(b, script)
    requires Inv(b, st) && MetFollows(b, st, script, turn, s0) && Enabled(b, st, m)
    ensures MetFollows(b, Step(b, serve, st, m), script, turn, s0)
  {
    if m.WorkerMove? && st.workers[m.who].Running? && st.workers[m.who].call.Active? {
      AttemptFollows(b, serve, st, m.who, script, turn, s0);
    } else {
      hide CallAt, ItemAt, SlotOf, FollowsScript, HaveOwnScripts, Tally, FirstTurn, MeetsScript, RequestOf, Inv;
      forall j | 0 <= j < |b.items| ensures ItemFollows(b, Step(b, serve, st, m), script, turn, s0, j) {
        assert ItemFollows(b, st, script, turn, s0, j);
      }
    }
  }

  lemma {:induction false} ExecFollows<S(!new)>(b: Batch, serve: Provider<S>, st: Bulk<S>, moves: seq<Move>,
                                                script: Script, turn: (S, Request) -> nat, s0: S)
    requires FollowsScript(serve, script, turn) && HaveOwnScripts(b, script)
    requires Shaped(b, st) && Inv(b, st) && MetFollows(b, st, script, turn, s0)
    ensures MetFollows(b, Exec(b, serve, st, moves), script, turn, s0)
    decreases |moves|
  {
    hide Inv, MetFollows, FollowsScript, HaveOwnScripts, Step, Enabled, Measure;
    if moves != [] {
      var early, last := moves[..|moves| - 1], moves[|moves| - 1];
      ExecFollows(b, serve, st, early, script, turn, s0);
      ExecInv(b, serve, st, early);
      var before := Exec(b, serve, st, early);
      if Enabled(b, before, last) {
        StepFollows(b, serve, before, last, script, turn, s0);
      }
    }
  }

  lemma InitialFollows<S>(b: Batch, script: Script, turn: (S, Request) -> nat, s: S)
    ensures MetFollows(b, Initial(b, s), script, turn, s)
  {
    hide CallAt, RequestOf;
  }

  lemma ResultsAreSequential<S>(b: Batch, end: Bulk<S>, script: Script, turn: (S, Request) -> nat, s0: S)
    requires Inv(b, end) && end.main.Finished? && MetFollows(b, end, script, turn, s0)
    ensures end.main.output == Tally(SequentialMap(b, script, turn, s0))
  {
    hide CallAt, ItemAt, SlotOf, RequestOf, Replay, Tally, IssueAlone, Holders, Living, MeetsScript, FirstTurn;
    var results := Contents(end.slots);
    forall i | 0 <= i < |b.items| ensures results[i] == SequentialMap(b, script, turn, s0)[i] {
      assert WorkerInv(b, i, end.workers[i], end.slots[i], end.met[i]);
      assert ItemFollows(b, end, script, turn, s0, i);
      ReplayAlone(CallAt(b, i), end.met[i], script, FirstTurn(b, turn, s0, i));
    }
    assert results == SequentialMap(b, script, turn, s0);
  }

  /**
   * If the provider answers the n-th attempt of every request by a script, errors that a retry recovers from
   * included, and items do not share a request whose answers vary, then every finished schedule returns what
   * issuing the items one by one, each alone against its script, would return.
   */
  lemma EverySchedule<S(!new)>(b: Batch, serve: Provider<S>, s: S, moves: seq<Move>, script: Script,
                               turn: (S, Request) -> nat)
    requires FollowsScript(serve, script, turn) && HaveOwnScripts(b, script)
    requires Exec(b, serve, Initial(b, s), moves).main.Finished?
    ensures Exec(b, serve, Initial(b, s), moves).main.output == Tally(SequentialMap(b, script, turn, s))
  {
    hide CallAt, FollowsScript, HaveOwnScripts, MetFollows, Tally, Exec, Inv, SequentialMap;
    var st := Initial(b, s);
    InitialInv(b, s);
    ExecInv(b, serve, st, moves);
    InitialFollows(b, script, turn, s);
    ExecFollows(b, serve, st, moves, script, turn, s);
    ResultsAreSequential(b, Exec(b, serve, st, moves), script, turn, s);
  }

  /** In particular, a provider that answers each request alike every time needs no distinct requests. */
  lemma EveryScheduleOfAnswers<S(!new)>(b: Batch, serve: Provider<S>, s: S, moves: seq<Move>,
                                        answer: Request -> Attempt)
    requires forall s', req :: serve(s', req).1 == answer(req)
    requires Exec(b, serve, Initial(b, s), moves).main.Finished?
    ensures Exec(b, serve, Initial(b, s), moves).main.output
         == Tally(SequentialMap(b, (req, n) => answer(req), (s': S, req: Request) => 0, s))
  {
    hide Exec, Tally, SequentialMap, CallAt, RequestOf;
    EverySchedule(b, serve, s, moves, (req, n) => answer(req), (s': S, req: Request) => 0);
  }
}
