/** One caller at a time: runs as schedules, what a run leaves behind, and what repeating it does. */
module Convergence {
  import opened Options
  import opened Json
  import Text
  import opened Wire
  import opened Fates
  import opened Webhooks
  import opened Calls
  import opened WebhookStore
  import opened Interleaving

  /** The provider a single client talks to: the store, and the fate of every coming request. */
  datatype Sim = Sim(store: Store, fates: seq<Fate>)

  function Simulate(hidesSecret: bool, s: Sim, req: Request): (Sim, Attempt) {
    var (store, a) := Serve(s.store, hidesSecret, req, NextFate(s.fates));
    (Sim(store, LaterFates(s.fates)), a)
  }

  function SimProvider(hidesSecret: bool): Provider<Sim> {
    (s: Sim, req: Request) => Simulate(hidesSecret, s, req)
  }

  function RunSim(hidesSecret: bool, s: Sim, c: Call, secret: string): Run<Sim>
    requires WellFormed(c)
  {
    RunCall(SimProvider(hidesSecret), s, c, secret)
  }

  predicate AllHonest(fates: seq<Fate>) {
    forall i | 0 <= i < |fates| :: fates[i].Honest?
  }

  lemma SimStep(hidesSecret: bool, s: Sim, c: Call, secret: string)
    requires c.Active? && WellFormed(c)
    ensures var (store, a) := Serve(s.store, hidesSecret, RequestOf(c), NextFate(s.fates));
            var r := RunSim(hidesSecret, s, c, secret);
            var rest := RunSim(hidesSecret, Sim(store, LaterFates(s.fates)), Resume(c, a, secret), secret);
            r.state == rest.state && r.report == rest.report && r.log == [Exchange(RequestOf(c), a)] + rest.log
  {
    hide Resume, RequestOf, Serve;
    RunStep(SimProvider(hidesSecret), s, c, secret);
  }

  /** A sequential run of one call is one schedule of any system that contains the call. */
  lemma {:induction false} SequentialIsSchedule(cfg: Config, w: World, who: nat, fates: seq<Fate>)
    returns (moves: seq<Move>)
    requires AllWellFormed(w.calls) && who < |w.calls|
    ensures var r := RunSim(cfg.hidesSecret, Sim(w.store, fates), w.calls[who], cfg.secret);
            var end := Exec(cfg, w, moves);
            end == World(r.state.store, w.tasks, w.calls[who := Done(r.report)], end.misled)
    decreases Budget(w.calls[who])
  {
    hide Resume, RequestOf, Serve, Budget;
    moves := [];
    if w.calls[who].Active? {
      SimStep(cfg.hidesSecret, Sim(w.store, fates), w.calls[who], cfg.secret);
      var m := Move(who, NextFate(fates));
      var w1 := Step(cfg, w, m);
      var later := SequentialIsSchedule(cfg, w1, who, LaterFates(fates));
      moves := [m] + later;
      assert moves[1..] == later;
      var r := RunSim(cfg.hidesSecret, Sim(w.store, fates), w.calls[who], cfg.secret);
      assert w1.calls[who := Done(r.report)] == w.calls[who := Done(r.report)];
    } else {
      assert w.calls[who := w.calls[who]] == w.calls;
    }
  }

  // What one ensure leaves behind.

  /** The object a call writes if it writes at all. */
  function Body(hidesSecret: bool, store: Store, c: Call, secret: string): Option<Fields>
    requires c.Active? && c.task.Ensure?
  {
    if c.phase.Writing? then Some(c.phase.fields)
    else if c.phase.Reading? && TargetId(c.task) in store then
      DesiredFields(View(store[TargetId(c.task)], hidesSecret), Migrates(c.task), secret)
    else None
  }

  /**
   * However often the PUT is sent and whatever is lost, the run leaves the provider as it was or as one
   * application of the computed object leaves it; a run that reports an update did apply it.
   */
  lemma {:induction false} AppliedAtMostOnce(hidesSecret: bool, s: Sim, c: Call, secret: string)
    requires c.Active? && c.task.Ensure? && WellFormed(c)
    ensures var r := RunSim(hidesSecret, s, c, secret);
            var id, body := TargetId(c.task), Body(hidesSecret, s.store, c, secret);
            && (r.state.store == s.store
                || (id in s.store && body.Some? && r.state.store == s.store[id := body.value]))
            && (r.report.Ensured? ==> id in s.store)
            && (r.report.Ensured? && r.report.updated && !c.phase.Confirming? ==>
                  body.Some? && r.state.store == s.store[id := body.value])
    decreases Budget(c)
  {
    hide Resume, WebhookPath, Effect, Answer, Budget, AfterConfirm, DesiredFields, DocumentId, InsecureSsl,
         SecretMatches;
    SimStep(hidesSecret, s, c, secret);
    RequestEffect(s.store, c);
    var id, fate := TargetId(c.task), NextFate(s.fates);
    var (store, a) := Serve(s.store, hidesSecret, RequestOf(c), fate);
    HonestResume(s.store, hidesSecret, c, secret);
    match fate {
      case Honest =>
      case Cropped(kept) => CroppedResume(s.store, hidesSecret, c, kept, secret);
      case Disrupted(_, reply, interrupt) => DisruptedResume(c, reply, interrupt, secret);
    }
    if c.phase.Reading? && id in s.store {
      ReadDecides(c.task.input, View(s.store[id], hidesSecret), secret);
      ReadWrites(c.task, s.store[id], hidesSecret, secret);
    }
    var next := Resume(c, a, secret);
    if next.Active? {
      AppliedAtMostOnce(hidesSecret, Sim(store, LaterFates(s.fates)), next, secret);
    }
  }

  lemma EnsuredIsSettled(hidesSecret: bool, s: Sim, input: EnsureInput, secret: string)
    requires RunSim(hidesSecret, s, Start(Ensure(input), secret), secret).report.Ensured?
    ensures var store := RunSim(hidesSecret, s, Start(Ensure(input), secret), secret).state.store;
            && input.id in store && IsSecure(store[input.id]) && HasId(store[input.id], input.id)
            && ValidateEnsure(input, secret).None?
  {
    hide ValidateEnsure, IsSecure, HasId, HasSecret, Body;
    var cfg, task := Config(hidesSecret, secret), Ensure(input);
    var w := StartAll(s.store, [task], secret);
    var moves := SequentialIsSchedule(cfg, w, 0, s.fates);
    ReportsStayTrue(cfg, s.store, [task], moves, 0);
    AppliedAtMostOnce(hidesSecret, s, Start(task, secret), secret);
  }

  // Repeating an ordinary ensure.

  lemma {:induction false} SecureNeedsNoUpdate(hidesSecret: bool, s: Sim, c: Call, secret: string)
    requires c.Active? && c.task.Ensure? && !Migrates(c.task) && c.phase.Reading? && WellFormed(c)
    requires var id := TargetId(c.task); id in s.store && IsSecure(s.store[id]) && HasId(s.store[id], id)
    ensures var r := RunSim(hidesSecret, s, c, secret);
            var id := TargetId(c.task);
            && r.state.store == s.store
            && |r.log| <= MAX_ATTEMPTS + 1 - c.attempt
            && IsPhaseLog(r.log, PhaseRequest(id, Reading))
            && (r.report == Ensured(id, false, true, false) || r.report.Refused?)
            && (AllHonest(s.fates) ==> |r.log| == 1 && r.report == Ensured(id, false, true, false))
    decreases Budget(c)
  {
    hide Resume, WebhookPath, Effect, Answer, Budget, DesiredFields, SecretMatches;
    SimStep(hidesSecret, s, c, secret);
    RequestEffect(s.store, c);
    var id, fate := TargetId(c.task), NextFate(s.fates);
    var (store, a) := Serve(s.store, hidesSecret, RequestOf(c), fate);
    HonestResume(s.store, hidesSecret, c, secret);
    match fate {
      case Honest =>
      case Cropped(kept) => CroppedResume(s.store, hidesSecret, c, kept, secret);
      case Disrupted(_, reply, interrupt) => DisruptedResume(c, reply, interrupt, secret);
    }
    var next := Resume(c, a, secret);
    if next.Active? {
      SecureNeedsNoUpdate(hidesSecret, Sim(store, LaterFates(s.fates)), next, secret);
    }
  }

  // Repeating a migration.

  /** The object a migration computes from what it reads is the object itself. */
  predicate IsMigrated(f: Fields, hidesSecret: bool, secret: string) {
    DesiredFields(View(f, hidesSecret), true, secret) == Some(f)
  }

  lemma MigratedIsFixed(f: Fields, hidesSecret: bool, secret: string)
    requires DesiredFields(View(f, hidesSecret), true, secret).Some?
    ensures IsMigrated(DesiredFields(View(f, hidesSecret), true, secret).value, hidesSecret, secret)
  {
    var v := View(f, hidesSecret);
    var b := DesiredFields(v, true, secret).value;
    if HeadersOf(v).HeaderMap? {
      var h := HeadersOf(v).entries;
      assert WithoutAuthorization(WithoutAuthorization(h)) == WithoutAuthorization(h);
    }
    assert HeadersOf(View(b, hidesSecret)) == HeadersOf(b);
    assert DesiredFields(View(b, hidesSecret), true, secret).value == b;
  }

  lemma MigratedIsConfirmed(f: Fields, hidesSecret: bool, secret: string, task: Task)
    requires IsMigrated(f, hidesSecret, secret) && Migrates(task) && HasId(f, TargetId(task))
    ensures AfterRead(task, View(f, hidesSecret), secret) == Active(task, Writing(f), 1)
    ensures AfterConfirm(task, View(f, hidesSecret)) == Done(Ensured(TargetId(task), false, true, true))
  {
    var v := View(f, hidesSecret);
    DesiredFieldsFrame(v, true, secret);
    assert HeadersOf(v) == HeadersOf(f);
    assert InsecureSsl(v) == InsecureSsl(f) && DocumentId(v) == DocumentId(f);
  }

  lemma {:induction false} ReplayChangesNothing(hidesSecret: bool, s: Sim, c: Call, secret: string)
    requires c.Active? && Migrates(c.task) && WellFormed(c) && TargetId(c.task) in s.store
    requires var f := s.store[TargetId(c.task)];
             && HasId(f, TargetId(c.task)) && IsMigrated(f, hidesSecret, secret)
             && (c.phase.Writing? ==> c.phase.fields == f)
    ensures var r := RunSim(hidesSecret, s, c, secret);
            && r.state.store == s.store
            && (forall i | 0 <= i < |r.log| && r.log[i].request.verb == Put ::
                  r.log[i].request.body == Some(Envelope(s.store[TargetId(c.task)])))
            && (AllHonest(s.fates) ==> |r.log| == PhaseRank(c.phase) + 1
                                       && r.report == Ensured(TargetId(c.task), false, true, true))
    decreases Budget(c)
  {
    hide Resume, WebhookPath, Effect, Answer, Budget, DesiredFields, AfterRead, AfterConfirm, DocumentId, IsMigrated;
    SimStep(hidesSecret, s, c, secret);
    RequestEffect(s.store, c);
    var id, fate := TargetId(c.task), NextFate(s.fates);
    var (store, a) := Serve(s.store, hidesSecret, RequestOf(c), fate);
    HonestResume(s.store, hidesSecret, c, secret);
    match fate {
      case Honest =>
      case Cropped(kept) => CroppedResume(s.store, hidesSecret, c, kept, secret);
      case Disrupted(_, reply, interrupt) => DisruptedResume(c, reply, interrupt, secret);
    }
    MigratedIsConfirmed(s.store[id], hidesSecret, secret, c.task);
    var next := Resume(c, a, secret);
    assert store == s.store;
    if next.Active? {
      ReplayChangesNothing(hidesSecret, Sim(store, LaterFates(s.fates)), next, secret);
    }
  }

  /**
   * After an ensure succeeds, repeating it never changes the provider: an ordinary one only reads and
   * reports no update, a migration sends exactly the object already stored and succeeds again.
   */
  lemma EnsureConverges(hidesSecret: bool, s: Sim, input: EnsureInput, secret: string, fates: seq<Fate>)
    requires RunSim(hidesSecret, s, Start(Ensure(input), secret), secret).report.Ensured?
    ensures var store := RunSim(hidesSecret, s, Start(Ensure(input), secret), secret).state.store;
            var again := RunSim(hidesSecret, Sim(store, fates), Start(Ensure(input), secret), secret);
            && again.state.store == store && input.id in store
            && (!input.setHmac ==>
                  && IsPhaseLog(again.log, PhaseRequest(input.id, Reading))
                  && (again.report == Ensured(input.id, false, true, false) || again.report.Refused?)
                  && (AllHonest(fates) ==> |again.log| == 1 && again.report == Ensured(input.id, false, true, false)))
            && (input.setHmac ==> forall i | 0 <= i < |again.log| && again.log[i].request.verb == Put ::
                  again.log[i].request.body == Some(Envelope(store[input.id])))
            && (input.setHmac && AllHonest(fates) ==>
                  |again.log| == 3 && again.report == Ensured(input.id, false, true, true))
  {
    hide ValidateEnsure, DesiredFields, WebhookPath, IsSecure, HasId, IsMigrated;
    EnsuredIsSettled(hidesSecret, s, input, secret);
    var c := Start(Ensure(input), secret);
    var r := RunSim(hidesSecret, s, c, secret);
    if !input.setHmac {
      SecureNeedsNoUpdate(hidesSecret, Sim(r.state.store, fates), c, secret);
    } else {
      MigrationUpdates(hidesSecret, s, c, secret);
      AppliedAtMostOnce(hidesSecret, s, c, secret);
      MigratedIsFixed(s.store[input.id], hidesSecret, secret);
      ReplayChangesNothing(hidesSecret, Sim(r.state.store, fates), c, secret);
    }
  }

  lemma {:induction false} MigrationUpdates(hidesSecret: bool, s: Sim, c: Call, secret: string)
    requires c.Active? && Migrates(c.task) && WellFormed(c)
    ensures var r := RunSim(hidesSecret, s, c, secret); r.report.Ensured? ==> r.report.updated
    decreases Budget(c)
  {
    hide WebhookPath, Serve, Budget, DesiredFields, DocumentId, InsecureSsl, DoOnce;
    SimStep(hidesSecret, s, c, secret);
    var (store, a) := Serve(s.store, hidesSecret, RequestOf(c), NextFate(s.fates));
    var next := Resume(c, a, secret);
    if next.Active? {
      MigrationUpdates(hidesSecret, Sim(store, LaterFates(s.fates)), next, secret);
    }
  }

  // What a first ensure does against an undisturbed provider.

  lemma HonestStep(hidesSecret: bool, s: Sim, c: Call, secret: string)
    requires c.Active? && WellFormed(c) && TargetId(c.task) in s.store && AllHonest(s.fates)
    ensures var id := TargetId(c.task);
            var next := match c.phase
                        case Reading => AfterRead(c.task, View(s.store[id], hidesSecret), secret)
                        case Writing(_) => Active(c.task, Confirming, 1)
                        case Confirming => AfterConfirm(c.task, View(s.store[id], hidesSecret))
                        case Deleting => Done(Deleted(false));
            var store := match c.phase
                         case Writing(fields) => s.store[id := fields]
                         case Deleting => s.store - {id}
                         case _ => s.store;
            var r := RunSim(hidesSecret, s, c, secret);
            var rest := RunSim(hidesSecret, Sim(store, LaterFates(s.fates)), next, secret);
            && WellFormed(next) && AllHonest(LaterFates(s.fates))
            && r.state == rest.state && r.report == rest.report && |r.log| == 1 + |rest.log|
            && r.log[0].request == RequestOf(c) && r.log[1..] == rest.log
  {
    hide WebhookPath, Effect, Answer, AfterRead, AfterConfirm, Resume;
    SimStep(hidesSecret, s, c, secret);
    RequestEffect(s.store, c);
    HonestResume(s.store, hidesSecret, c, secret);
  }

  /** A call that reads an object which calls for an update, writes it and confirms it. */
  lemma UpdateHappens(hidesSecret: bool, s: Sim, input: EnsureInput, secret: string, w: Fields)
    requires IsAcceptable(input, secret) && AllHonest(s.fates) && input.id in s.store
    requires AfterRead(Ensure(input), View(s.store[input.id], hidesSecret), secret)
             == Active(Ensure(input), Writing(w), 1)
    requires AfterConfirm(Ensure(input), View(w, hidesSecret)) == Done(Ensured(input.id, false, true, true))
    ensures var r := RunTask(SimProvider(hidesSecret), s, Ensure(input), secret);
            && |r.log| == 3 && r.report == Ensured(input.id, false, true, true)
            && r.state.store == s.store[input.id := w]
            && r.log[1].request
               == Request(Put, "/v2/webhooks/" + input.id, Some(Object(map["webHook" := Object(w)])))
  {
    ValidatesIff(input, secret);
    PhaseRequestIs(input.id, Writing(w));
    hide ValidateEnsure, IsAcceptable, IsGround, ValidWebhookId, AfterRead, AfterConfirm, PhaseRequest, View;
    var task := Ensure(input);
    var s1 := Sim(s.store, LaterFates(s.fates));
    var s2 := Sim(s.store[input.id := w], LaterFates(s1.fates));
    HonestStep(hidesSecret, s, Active(task, Reading, 1), secret);
    HonestStep(hidesSecret, s1, Active(task, Writing(w), 1), secret);
    HonestStep(hidesSecret, s2, Active(task, Confirming, 1), secret);
  }

  /**
   * An ordinary ensure of an insecure object that shows the runtime secret repairs it: GET, one PUT of the object
   * with insecureSsl false and nothing else changed, confirming GET, and a reported update.
   */
  lemma OrdinaryRepairHappens(s: Sim, input: EnsureInput, secret: string)
    requires IsAcceptable(input, secret) && !input.setHmac && AllHonest(s.fates) && input.id in s.store
    requires ShowsId(s.store[input.id], input.id) && ShowsSsl(s.store[input.id], true)
    requires ShowsSecret(s.store[input.id], secret)
    ensures var r := RunTask(SimProvider(false), s, Ensure(input), secret);
            var repaired := s.store[input.id]["insecureSsl" := Bool(false)];
            && |r.log| == 3 && r.report == Ensured(input.id, false, true, true)
            && r.state.store == s.store[input.id := repaired]
            && r.log[1].request
               == Request(Put, "/v2/webhooks/" + input.id, Some(Object(map["webHook" := Object(repaired)])))
  {
    var f := s.store[input.id];
    var repaired := f["insecureSsl" := Bool(false)];
    ReadDecides(input, f, secret);
    var w := AfterRead(Ensure(input), f, secret).phase.fields;
    assert w == repaired by {
      assert forall name | name in repaired :: w[name] == repaired[name];
    }
    ConfirmDecides(input, repaired);
    hide AfterRead, AfterConfirm, IsAcceptable, RunTask, IsFrameOf, ValidSecret;
    UpdateHappens(false, s, input, secret, w);
  }

  /**
   * A migration of any object with its id, a readable insecureSsl and readable headers succeeds, whether or not the
   * provider shows the secret: one PUT of the object with exactly the three fields reset.
   */
  lemma MigrationHappens(hidesSecret: bool, s: Sim, input: EnsureInput, secret: string)
    requires IsAcceptable(input, secret) && input.setHmac && AllHonest(s.fates) && input.id in s.store
    requires var f := s.store[input.id];
             ShowsId(f, input.id) && (ShowsSsl(f, true) || ShowsSsl(f, false)) && ShowsHeaders(f)
    ensures var r := RunTask(SimProvider(hidesSecret), s, Ensure(input), secret);
            && |r.log| == 3 && r.report == Ensured(input.id, false, true, true)
            && input.id in r.state.store && r.state.store == s.store[input.id := r.state.store[input.id]]
            && IsFrameOf(s.store[input.id], true, secret, r.state.store[input.id])
  {
    var f := s.store[input.id];
    var v := View(f, hidesSecret);
    ReadDecides(input, v, secret);
    var w := AfterRead(Ensure(input), v, secret).phase.fields;
    FrameOfView(f, hidesSecret, secret, w);
    FrameIsConfirmed(f, secret, w, hidesSecret, input);
    ConfirmDecides(input, View(w, hidesSecret));
    hide AfterRead, AfterConfirm, IsAcceptable, RunTask, IsFrameOf, ValidSecret;
    UpdateHappens(hidesSecret, s, input, secret, w);
  }

  lemma FrameOfView(f: Fields, hidesSecret: bool, secret: string, w: Fields)
    requires IsFrameOf(View(f, hidesSecret), true, secret, w)
    ensures IsFrameOf(f, true, secret, w)
  {
    var v := View(f, hidesSecret);
    assert "headers" in v <==> "headers" in f;
    assert forall name | name in f && name != "secret" :: name in v && v[name] == f[name];
    assert v.Keys + {"secret"} == f.Keys + {"secret"};
  }

  lemma FrameIsConfirmed(f: Fields, secret: string, w: Fields, hidesSecret: bool, input: EnsureInput)
    requires IsFrameOf(f, true, secret, w) && ShowsId(f, input.id) && ShowsHeaders(f)
    ensures var v := View(w, hidesSecret);
            ShowsId(v, input.id) && ShowsSsl(v, false) && ShowsHeaders(v) && !ShowsAuthorization(v)
  {
    hide Text.EqualFold;
  }
}
