/**
 * Any number of ensure, observe and destroy calls against one provider, interleaved attempt by
 * attempt under every schedule and every pattern of lost requests and lost replies.
 */
module Interleaving {
  import opened Options
  import opened Json
  import opened Fates
  import opened Webhooks
  import opened Calls
  import opened WebhookStore

  datatype Config = Config(hidesSecret: bool, secret: string)

  /** misled collects the ids for which a destroy met an error that reads as their absence. */
  datatype World = World(store: Store, tasks: seq<Task>, calls: seq<Call>, misled: set<string>)

  datatype Move = Move(who: nat, fate: Fate)

  function StartAll(store: Store, tasks: seq<Task>, secret: string): World {
    World(store, tasks, seq(|tasks|, i requires 0 <= i < |tasks| => Start(tasks[i], secret)), {})
  }

  predicate AllWellFormed(calls: seq<Call>) {
    forall i | 0 <= i < |calls| :: WellFormed(calls[i])
  }

  function Misleads(c: Call, fate: Fate): set<string>
    requires c.Active?
  {
    if c.phase.Deleting? && fate.Disrupted? && ReadsAsMissing(fate.reply) then {TargetId(c.task)} else {}
  }

  /** One attempt of one call; a finished or unknown call does nothing. */
  function Step(cfg: Config, w: World, m: Move): (w': World)
    requires AllWellFormed(w.calls)
    ensures AllWellFormed(w'.calls)
  {
    if m.who >= |w.calls| || w.calls[m.who].Done? then w
    else
      var c := w.calls[m.who];
      var (store, a) := Serve(w.store, cfg.hidesSecret, RequestOf(c), m.fate);
      World(store, w.tasks, w.calls[m.who := Resume(c, a, cfg.secret)], w.misled + Misleads(c, m.fate))
  }

  function Exec(cfg: Config, w: World, moves: seq<Move>): World
    requires AllWellFormed(w.calls)
    decreases |moves|
  {
    if moves == [] then w else Exec(cfg, Step(cfg, w, moves[0]), moves[1..])
  }

  // What a stored object may be.

  predicate IsSecure(f: Fields) {
    InsecureSsl(f) == Some(false)
  }

  predicate HasSecret(f: Fields, secret: string) {
    SECRET in f && f[SECRET] == String(secret)
  }

  predicate HasId(f: Fields, id: string) {
    DocumentId(f) == Some(id)
  }

  predicate IsClean(f: Fields) {
    !HasAuthorization(HeadersOf(f))
  }

  /** What every object the adapter writes is. */
  predicate IsLanded(f: Fields, id: string, secret: string) {
    IsSecure(f) && HasSecret(f, secret) && HasId(f, id)
  }

  ghost predicate Evolves(store: Store, store': Store, secret: string) {
    && store'.Keys <= store.Keys
    && forall id | id in store' :: store'[id] == store[id] || IsLanded(store'[id], id, secret)
  }

  /** What holds of one call between its attempts, whatever the others do. */
  ghost predicate CallInv(cfg: Config, store: Store, misled: set<string>, task: Task, c: Call) {
    var id := TargetId(task);
    match c
    case Active(t, phase, _) =>
      && t == task && WellFormed(c) && Start(task, cfg.secret).Active?
      && (phase.Writing? ==>
            && IsLanded(phase.fields, id, cfg.secret)
            && (Migrates(task) ==> IsClean(phase.fields))
            && (cfg.hidesSecret ==> Migrates(task)))
      && (phase.Confirming? && id in store ==> IsLanded(store[id], id, cfg.secret))
    case Done(report) =>
      match report
      case Refused(_) => true
      case Observed(_, _) => task.Observe?
      case Ensured(_, _, _, updated) =>
        task.Ensure? && (id in store ==>
          IsSecure(store[id]) && HasId(store[id], id) && (updated ==> HasSecret(store[id], cfg.secret)))
      case Deleted(_) => task.Destroy? && (id !in store || id in misled)
  }

  ghost predicate Inv(cfg: Config, w: World) {
    |w.calls| == |w.tasks| && forall i | 0 <= i < |w.calls| :: CallInv(cfg, w.store, w.misled, w.tasks[i], w.calls[i])
  }

  lemma StartAllInv(cfg: Config, store: Store, tasks: seq<Task>)
    ensures Inv(cfg, StartAll(store, tasks, cfg.secret))
  {
    hide ValidateEnsure, ValidWebhookId;
    forall i | 0 <= i < |tasks| ensures CallInv(cfg, store, {}, tasks[i], Start(tasks[i], cfg.secret)) {
    }
  }

  /** Other calls' steps never break what a call relies on. */
  lemma EvolvesKeepsCall(cfg: Config, store: Store, misled: set<string>, store': Store, misled': set<string>,
                         task: Task, c: Call)
    requires CallInv(cfg, store, misled, task, c) && Evolves(store, store', cfg.secret) && misled <= misled'
    ensures CallInv(cfg, store', misled', task, c)
  {
    hide Start, WellFormed, DocumentId, InsecureSsl;
    var id := TargetId(task);
    if id in store' {
      assert store'[id] == store[id] || IsLanded(store'[id], id, cfg.secret);
    }
  }

  lemma RequestEvolves(cfg: Config, store: Store, misled: set<string>, task: Task, c: Call)
    requires c.Active? && CallInv(cfg, store, misled, task, c)
    ensures Evolves(store, Effect(store, RequestOf(c)), cfg.secret)
  {
    hide Start;
    RequestEffect(store, c);
  }

  /** The object computed from a read. */
  lemma ReadWrites(task: Task, f: Fields, hidesSecret: bool, secret: string)
    requires !task.Destroy?
    ensures var next := AfterRead(task, View(f, hidesSecret), secret);
            && (next.Active? ==>
                  && task.Ensure? && next.phase.Writing? && next.task == task
                  && IsLanded(next.phase.fields, TargetId(task), secret)
                  && (Migrates(task) || IsClean(f) ==> IsClean(next.phase.fields))
                  && (hidesSecret ==> Migrates(task)))
            && (next.Done? && next.report.Ensured? ==>
                  task.Ensure? && !next.report.updated && IsSecure(f) && HasId(f, TargetId(task)))
            && (next.Done? && next.report.Observed? ==> task.Observe?)
            && (next.Done? ==> !next.report.Deleted?)
  {
    DesiredFieldsFrame(View(f, hidesSecret), Migrates(task), secret);
    assert HeadersOf(View(f, hidesSecret)) == HeadersOf(f);
    assert InsecureSsl(View(f, hidesSecret)) == InsecureSsl(f);
    assert DocumentId(View(f, hidesSecret)) == DocumentId(f);
  }

  lemma HonestKeepsCall(cfg: Config, store: Store, misled: set<string>, task: Task, c: Call)
    requires c.Active? && CallInv(cfg, store, misled, task, c)
    ensures var (store', a) := Serve(store, cfg.hidesSecret, RequestOf(c), Honest);
            CallInv(cfg, store', misled + Misleads(c, Honest), task, Resume(c, a, cfg.secret))
  {
    hide Start, AfterRead, WebhookPath, DocumentId, InsecureSsl, Effect, Answer, Resume;
    var id := TargetId(task);
    RequestEffect(store, c);
    HonestResume(store, cfg.hidesSecret, c, cfg.secret);
    if id in store && c.phase.Reading? {
      ReadWrites(task, store[id], cfg.hidesSecret, cfg.secret);
    }
  }

  lemma CroppedKeepsCall(cfg: Config, store: Store, misled: set<string>, task: Task, c: Call, fate: Fate)
    requires fate.Cropped? && c.Active? && CallInv(cfg, store, misled, task, c)
    ensures var (store', a) := Serve(store, cfg.hidesSecret, RequestOf(c), fate);
            CallInv(cfg, store', misled + Misleads(c, fate), task, Resume(c, a, cfg.secret))
  {
    hide Start, AfterRead, WebhookPath, DocumentId, InsecureSsl, Effect, Answer, Resume, IsLanded, IsSecure, HasId;
    HonestKeepsCall(cfg, store, misled, task, c);
    CroppedResume(store, cfg.hidesSecret, c, fate.kept, cfg.secret);
  }

  lemma DisruptedKeepsCall(cfg: Config, store: Store, misled: set<string>, task: Task, c: Call, fate: Fate)
    requires fate.Disrupted? && c.Active? && CallInv(cfg, store, misled, task, c)
    ensures var (store', a) := Serve(store, cfg.hidesSecret, RequestOf(c), fate);
            CallInv(cfg, store', misled + Misleads(c, fate), task, Resume(c, a, cfg.secret))
  {
    hide Start, WebhookPath, DocumentId, InsecureSsl, Effect, Resume;
    RequestEffect(store, c);
    DisruptedResume(c, fate.reply, fate.interrupt, cfg.secret);
  }

  lemma StepKeeps(cfg: Config, w: World, m: Move)
    requires AllWellFormed(w.calls) && Inv(cfg, w)
    ensures Inv(cfg, Step(cfg, w, m)) && Evolves(w.store, Step(cfg, w, m).store, cfg.secret)
  {
    hide CallInv, Resume, RequestOf, Effect, Answer;
    if m.who < |w.calls| && w.calls[m.who].Active? {
      var c, w' := w.calls[m.who], Step(cfg, w, m);
      assert CallInv(cfg, w.store, w.misled, w.tasks[m.who], c);
      RequestEvolves(cfg, w.store, w.misled, w.tasks[m.who], c);
      if m.fate.Honest? {
        HonestKeepsCall(cfg, w.store, w.misled, w.tasks[m.who], c);
      } else if m.fate.Cropped? {
        CroppedKeepsCall(cfg, w.store, w.misled, w.tasks[m.who], c, m.fate);
      } else {
        DisruptedKeepsCall(cfg, w.store, w.misled, w.tasks[m.who], c, m.fate);
      }
      forall i | 0 <= i < |w'.calls| ensures CallInv(cfg, w'.store, w'.misled, w'.tasks[i], w'.calls[i]) {
        assert CallInv(cfg, w.store, w.misled, w.tasks[i], w.calls[i]);
        if i != m.who {
          EvolvesKeepsCall(cfg, w.store, w.misled, w'.store, w'.misled, w.tasks[i], w.calls[i]);
        }
      }
    }
  }

  /**
   * From any point of any run on: no id appears, and "insecureSsl is false", "the secret is the runtime
   * secret" and "the stored id equals its key" never become false once true.
   */
  lemma {:induction false} Absorbing(cfg: Config, w: World, moves: seq<Move>)
    requires AllWellFormed(w.calls) && Inv(cfg, w)
    ensures var w' := Exec(cfg, w, moves);
            && Inv(cfg, w')
            && w'.store.Keys <= w.store.Keys
            && (forall id | id in w'.store ::
                  && (IsSecure(w.store[id]) ==> IsSecure(w'.store[id]))
                  && (HasSecret(w.store[id], cfg.secret) ==> HasSecret(w'.store[id], cfg.secret))
                  && (HasId(w.store[id], id) ==> HasId(w'.store[id], id)))
    decreases |moves|
  {
    hide CallInv, Step, IsSecure, HasSecret, HasId;
    if moves != [] {
      StepKeeps(cfg, w, moves[0]);
      Absorbing(cfg, Step(cfg, w, moves[0]), moves[1..]);
      var w1, w' := Step(cfg, w, moves[0]), Exec(cfg, w, moves);
      forall id | id in w'.store
        ensures && (IsSecure(w.store[id]) ==> IsSecure(w'.store[id]))
                && (HasSecret(w.store[id], cfg.secret) ==> HasSecret(w'.store[id], cfg.secret))
                && (HasId(w.store[id], id) ==> HasId(w'.store[id], id))
      {
        assert w1.store[id] == w.store[id] || IsLanded(w1.store[id], id, cfg.secret);
      }
    }
  }

  /**
   * Whatever else runs, and however long ago the report was made: an ensure that reported success names an
   * object that is secure and carries its id (and the runtime secret, if it was updated), unless a destroy
   * removed it; a destroy that reported success names an id that is absent, unless a destroy of
   * it met an error that was not the store's answer but has effective status 404.
   */
  lemma ReportsStayTrue(cfg: Config, store: Store, tasks: seq<Task>, moves: seq<Move>, i: nat)
    requires i < |tasks|
    ensures var w := Exec(cfg, StartAll(store, tasks, cfg.secret), moves);
            var id := TargetId(tasks[i]);
            && |w.calls| == |tasks|
            && (w.calls[i].Done? && w.calls[i].report.Ensured? && id in w.store ==>
                  && IsSecure(w.store[id]) && HasId(w.store[id], id)
                  && (w.calls[i].report.updated ==> HasSecret(w.store[id], cfg.secret)))
            && (w.calls[i].Done? && w.calls[i].report.Deleted? ==> id !in w.store || id in w.misled)
            && (NeverMisleads(moves) ==> w.misled == {})
  {
    hide IsSecure, HasSecret, HasId, Start;
    StartAllInv(cfg, store, tasks);
    Absorbing(cfg, StartAll(store, tasks, cfg.secret), moves);
    ExecKeepsTasks(cfg, StartAll(store, tasks, cfg.secret), moves);
    if NeverMisleads(moves) {
      ExecNotMisled(cfg, StartAll(store, tasks, cfg.secret), moves);
    }
    var w := Exec(cfg, StartAll(store, tasks, cfg.secret), moves);
    assert CallInv(cfg, w.store, w.misled, w.tasks[i], w.calls[i]);
  }

  ghost predicate NeverMisleads(moves: seq<Move>) {
    forall k | 0 <= k < |moves| && moves[k].fate.Disrupted? :: !ReadsAsMissing(moves[k].fate.reply)
  }

  lemma {:induction false} ExecNotMisled(cfg: Config, w: World, moves: seq<Move>)
    requires AllWellFormed(w.calls) && NeverMisleads(moves)
    ensures Exec(cfg, w, moves).misled == w.misled
    decreases |moves|
  {
    hide Resume, RequestOf, Effect, Answer, ReadsAsMissing;
    if moves != [] {
      assert forall k | 0 <= k < |moves[1..]| :: moves[1..][k] == moves[k + 1];
      ExecNotMisled(cfg, Step(cfg, w, moves[0]), moves[1..]);
    }
  }

  lemma {:induction false} ExecKeepsTasks(cfg: Config, w: World, moves: seq<Move>)
    requires AllWellFormed(w.calls)
    ensures Exec(cfg, w, moves).tasks == w.tasks
    decreases |moves|
  {
    if moves != [] {
      ExecKeepsTasks(cfg, Step(cfg, w, moves[0]), moves[1..]);
    }
  }

  predicate IsConfirmedDestroy(task: Task, id: string) {
    && task.Destroy? && task.ref == id && ValidWebhookId(id)
    && task.desired.confirmId == id && task.desired.ref in {"", id} && task.desired.id in {"", id}
  }

  lemma StepRemoves(cfg: Config, w: World, m: Move, id: string)
    requires AllWellFormed(w.calls) && Inv(cfg, w)
    requires id in w.store && id !in Step(cfg, w, m).store
    ensures exists i | 0 <= i < |w.tasks| :: IsConfirmedDestroy(w.tasks[i], id)
  {
    hide Resume, WebhookPath, Effect, Answer;
    var c := w.calls[m.who];
    assert CallInv(cfg, w.store, w.misled, w.tasks[m.who], c);
    RequestEffect(w.store, c);
    assert IsConfirmedDestroy(w.tasks[m.who], id);
  }

  /** An id disappears only if some destroy named it as ref and confirm_id, and nothing else as ref or id. */
  lemma {:induction false} RemovedOnlyByConfirmedDestroy(cfg: Config, w: World, moves: seq<Move>, id: string)
    requires AllWellFormed(w.calls) && Inv(cfg, w)
    requires id in w.store && id !in Exec(cfg, w, moves).store
    ensures exists i | 0 <= i < |w.tasks| :: IsConfirmedDestroy(w.tasks[i], id)
    decreases |moves|
  {
    hide Step, IsConfirmedDestroy;
    if moves != [] {
      StepKeeps(cfg, w, moves[0]);
      var w1 := Step(cfg, w, moves[0]);
      StepKeepsTasks(cfg, w, moves[0]);
      if id in w1.store {
        RemovedOnlyByConfirmedDestroy(cfg, w1, moves[1..], id);
      } else {
        StepRemoves(cfg, w, moves[0], id);
      }
    }
  }

  lemma StepKeepsTasks(cfg: Config, w: World, m: Move)
    requires AllWellFormed(w.calls)
    ensures Step(cfg, w, m).tasks == w.tasks
  {
  }
}

/** When removing the legacy Authorization header is stable, and when it is not. */
module Migration {
  import opened Options
  import opened Json
  import opened Fates
  import opened Webhooks
  import opened Calls
  import opened WebhookStore
  import opened Interleaving

  /** A call that is about to write an Authorization header back. */
  predicate IsThreat(c: Call, id: string) {
    c.Active? && c.phase.Writing? && TargetId(c.task) == id && !IsClean(c.phase.fields)
  }

  predicate NoThreat(w: World, id: string) {
    forall i | 0 <= i < |w.calls| :: !IsThreat(w.calls[i], id)
  }

  predicate StoreIsClean(w: World, id: string) {
    id in w.store ==> IsClean(w.store[id])
  }

  lemma ResumeIsNoThreat(cfg: Config, store: Store, c: Call, fate: Fate, id: string)
    requires c.Active? && WellFormed(c)
    requires !IsThreat(c, id) && (id in store ==> IsClean(store[id]))
    ensures !IsThreat(Resume(c, Serve(store, cfg.hidesSecret, RequestOf(c), fate).1, cfg.secret), id)
  {
    hide AfterRead, AfterConfirm, WebhookPath, IsClean, Effect, Answer, Resume;
    HonestResume(store, cfg.hidesSecret, c, cfg.secret);
    if c.phase.Reading? && TargetId(c.task) in store {
      ReadWrites(c.task, store[TargetId(c.task)], cfg.hidesSecret, cfg.secret);
    }
    match fate
    case Honest =>
    case Cropped(kept) => CroppedResume(store, cfg.hidesSecret, c, kept, cfg.secret);
    case Disrupted(_, reply, interrupt) => DisruptedResume(c, reply, interrupt, cfg.secret);
  }

  lemma StepStaysClean(cfg: Config, w: World, m: Move, id: string)
    requires AllWellFormed(w.calls) && NoThreat(w, id) && StoreIsClean(w, id)
    ensures NoThreat(Step(cfg, w, m), id) && StoreIsClean(Step(cfg, w, m), id)
  {
    hide Resume, RequestOf, Effect, Answer, IsClean;
    if m.who < |w.calls| && w.calls[m.who].Active? {
      var c := w.calls[m.who];
      ResumeIsNoThreat(cfg, w.store, c, m.fate, id);
      RequestEffect(w.store, c);
    }
  }

  lemma {:induction false} ExecStaysClean(cfg: Config, w: World, moves: seq<Move>, id: string)
    requires AllWellFormed(w.calls) && NoThreat(w, id) && StoreIsClean(w, id)
    ensures StoreIsClean(Exec(cfg, w, moves), id)
    decreases |moves|
  {
    hide Step;
    if moves != [] {
      StepStaysClean(cfg, w, moves[0], id);
      ExecStaysClean(cfg, Step(cfg, w, moves[0]), moves[1..], id);
    }
  }

  lemma ThreatStrikes(cfg: Config, w: World, i: nat, id: string)
    requires AllWellFormed(w.calls) && i < |w.calls| && IsThreat(w.calls[i], id) && id in w.store
    ensures !StoreIsClean(Exec(cfg, w, [Move(i, Honest)]), id)
  {
    hide Resume, WebhookPath, Answer, IsClean;
    RequestEffect(w.store, w.calls[i]);
    var w1 := Step(cfg, w, Move(i, Honest));
    assert w1.store == Effect(w.store, RequestOf(w.calls[i]));
    assert [Move(i, Honest)][1..] == [];
    assert Exec(cfg, w, [Move(i, Honest)]) == w1;
  }

  /**
   * The Authorization header stays away under every continuation exactly when no call in flight is about
   * to write an object that still has it.
   */
  lemma CleanIsStableIff(cfg: Config, w: World, id: string)
    requires AllWellFormed(w.calls) && id in w.store && IsClean(w.store[id])
    ensures (forall moves :: StoreIsClean(Exec(cfg, w, moves), id)) <==> NoThreat(w, id)
  {
    hide IsClean, IsThreat, Exec;
    if NoThreat(w, id) {
      forall moves ensures StoreIsClean(Exec(cfg, w, moves), id) {
        ExecStaysClean(cfg, w, moves, id);
      }
    } else {
      var i :| 0 <= i < |w.calls| && IsThreat(w.calls[i], id);
      ThreatStrikes(cfg, w, i, id);
    }
  }

  /** Only ordinary calls threaten, and only against a provider that shows the secret. */
  lemma ThreatsAreOrdinary(cfg: Config, w: World, id: string)
    requires Inv(cfg, w)
    ensures forall i | 0 <= i < |w.calls| && IsThreat(w.calls[i], id) ::
              !Migrates(w.calls[i].task) && !cfg.hidesSecret
  {
    hide IsClean, IsLanded, Start;
    forall i | 0 <= i < |w.calls| && IsThreat(w.calls[i], id)
      ensures !Migrates(w.calls[i].task) && !cfg.hidesSecret
    {
      assert CallInv(cfg, w.store, w.misled, w.tasks[i], w.calls[i]);
    }
  }

  /**
   * Once a migration's PUT lands, the header is gone for good, provided every call that is past its read by
   * then is itself a migration, or the provider leaves the secret out of its replies.
   */
  lemma MigrationSettles(cfg: Config, w: World, who: nat, fate: Fate, moves: seq<Move>)
    requires AllWellFormed(w.calls) && Inv(cfg, w)
    requires who < |w.calls| && w.calls[who].Active? && w.calls[who].phase.Writing? && Migrates(w.calls[who].task)
    requires fate.Disrupted? ==> fate.applied
    requires cfg.hidesSecret || forall i | 0 <= i < |w.calls| ::
               w.calls[i].Active? && w.calls[i].phase.Writing?
               && TargetId(w.calls[i].task) == TargetId(w.calls[who].task)
               ==> Migrates(w.calls[i].task)
    ensures StoreIsClean(Exec(cfg, Step(cfg, w, Move(who, fate)), moves), TargetId(w.calls[who].task))
  {
    hide IsClean, IsLanded, Start, Resume, WebhookPath, Effect, Answer;
    var c := w.calls[who];
    var id := TargetId(c.task);
    ThreatsAreOrdinary(cfg, w, id);
    assert NoThreat(w, id);
    assert CallInv(cfg, w.store, w.misled, w.tasks[who], c);
    var w1 := Step(cfg, w, Move(who, fate));
    RequestEffect(w.store, c);
    assert StoreIsClean(w1, id);
    HonestResume(w.store, cfg.hidesSecret, c, cfg.secret);
    match fate {
      case Honest =>
      case Cropped(kept) => CroppedResume(w.store, cfg.hidesSecret, c, kept, cfg.secret);
      case Disrupted(_, reply, interrupt) => DisruptedResume(c, reply, interrupt, cfg.secret);
    }
    assert NoThreat(w1, id);
    ExecStaysClean(cfg, w1, moves, id);
  }

  /** The two inputs of the lost-update scenario below. */
  function OrdinaryInput(id: string): EnsureInput {
    EnsureInput(id, Some(false), false, false, "", "", "")
  }

  function MigrationInput(id: string): EnsureInput {
    EnsureInput(id, Some(false), true, true, id, "", "")
  }

  /** An ordinary call reads, a migration reads and writes, and then the ordinary call writes. */
  const LOST_UPDATE: seq<Move> := [Move(0, Honest), Move(1, Honest), Move(1, Honest), Move(0, Honest)]

  lemma ReadStep(cfg: Config, w: World, who: nat, fields: Fields)
    requires AllWellFormed(w.calls) && who < |w.calls| && w.calls[who].Active? && w.calls[who].phase.Reading?
    requires TargetId(w.calls[who].task) in w.store
    requires AfterRead(w.calls[who].task, View(w.store[TargetId(w.calls[who].task)], cfg.hidesSecret), cfg.secret)
             == Active(w.calls[who].task, Writing(fields), 1)
    ensures Step(cfg, w, Move(who, Honest))
            == World(w.store, w.tasks, w.calls[who := Active(w.calls[who].task, Writing(fields), 1)], w.misled)
  {
    hide Resume, WebhookPath, Effect, Answer, AfterRead;
    HonestResume(w.store, cfg.hidesSecret, w.calls[who], cfg.secret);
    RequestEffect(w.store, w.calls[who]);
  }

  lemma WriteStep(cfg: Config, w: World, who: nat)
    requires AllWellFormed(w.calls) && who < |w.calls| && w.calls[who].Active? && w.calls[who].phase.Writing?
    requires TargetId(w.calls[who].task) in w.store
    ensures Step(cfg, w, Move(who, Honest))
            == World(w.store[TargetId(w.calls[who].task) := w.calls[who].phase.fields], w.tasks,
                           w.calls[who := Active(w.calls[who].task, Confirming, 1)], w.misled)
  {
    hide Resume, WebhookPath, Effect, Answer, AfterRead;
    HonestResume(w.store, cfg.hidesSecret, w.calls[who], cfg.secret);
    RequestEffect(w.store, w.calls[who]);
  }

  /**
   * The condition is not idle: against a provider that shows the secret, from any insecure object with a
   * matching secret and a legacy header, this schedule cleans the header and then brings it back.
   */
  lemma OrdinaryWriteRestoresAuthorization(cfg: Config, id: string, f: Fields)
    requires !cfg.hidesSecret && ValidSecret(cfg.secret) && ValidWebhookId(id)
    requires HasId(f, id) && InsecureSsl(f) == Some(true) && SecretMatches(f, cfg.secret) && !IsClean(f)
    ensures var w := StartAll(map[id := f], [Ensure(OrdinaryInput(id)), Ensure(MigrationInput(id))], cfg.secret);
            && id in Exec(cfg, w, LOST_UPDATE[..3]).store && IsClean(Exec(cfg, w, LOST_UPDATE[..3]).store[id])
            && id in Exec(cfg, w, LOST_UPDATE).store && !IsClean(Exec(cfg, w, LOST_UPDATE).store[id])
  {
    hide ValidSecret, ValidWebhookId, SecretMatches, DocumentId, Resume, WebhookPath, Step;
    var ordinary, migration := Ensure(OrdinaryInput(id)), Ensure(MigrationInput(id));
    var w0 := StartAll(map[id := f], [ordinary, migration], cfg.secret);
    assert w0.calls == [Active(ordinary, Reading, 1), Active(migration, Reading, 1)];
    var dirty := f[INSECURE_SSL := Bool(false)];
    var clean := DesiredFields(f, true, cfg.secret).value;
    ReadStep(cfg, w0, 0, dirty);
    var w1 := Step(cfg, w0, LOST_UPDATE[0]);
    ReadStep(cfg, w1, 1, clean);
    var w2 := Step(cfg, w1, LOST_UPDATE[1]);
    WriteStep(cfg, w2, 1);
    var w3 := Step(cfg, w2, LOST_UPDATE[2]);
    WriteStep(cfg, w3, 0);
    var w4 := Step(cfg, w3, LOST_UPDATE[3]);
    ExecFour(cfg, w0, LOST_UPDATE);
    assert w3.store[id] == clean && IsClean(clean);
    assert w4.store[id] == dirty && !IsClean(dirty);
  }

  lemma ExecFour(cfg: Config, w: World, moves: seq<Move>)
    requires AllWellFormed(w.calls) && |moves| == 4
    ensures var w3 := Step(cfg, Step(cfg, Step(cfg, w, moves[0]), moves[1]), moves[2]);
            Exec(cfg, w, moves[..3]) == w3 && Exec(cfg, w, moves) == Step(cfg, w3, moves[3])
  {
    hide Step;
    var w1 := Step(cfg, w, moves[0]);
    var w2 := Step(cfg, w1, moves[1]);
    var w3 := Step(cfg, w2, moves[2]);
    assert Exec(cfg, w3, moves[3..]) == Step(cfg, w3, moves[3]);
    assert Exec(cfg, w2, moves[2..]) == Exec(cfg, w3, moves[3..]) by { assert moves[2..][1..] == moves[3..]; }
    assert Exec(cfg, w1, moves[1..]) == Exec(cfg, w2, moves[2..]) by { assert moves[1..][1..] == moves[2..]; }
    assert Exec(cfg, w2, moves[2..3]) == w3;
    assert Exec(cfg, w1, moves[1..3]) == w3 by { assert moves[1..3][1..] == moves[2..3]; }
    assert Exec(cfg, w, moves[..3]) == w3 by { assert moves[..3][1..] == moves[1..3]; }
  }
}
