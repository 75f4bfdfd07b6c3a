/** The municipalities cache: fresh entries answer alone, stale ones answer for a failing upstream. */
module Municipalities {
  import opened Options
  import opened Wire
  import opened Queries

  datatype Entry = Entry(data: Body, expiresAt: int)

  type Entries = map<string, Entry>

  datatype Listing = Listed(data: Body) | Failure(error: Error)

  class MunicipalitiesCache {
    const ttl: int
    var entries: Entries

    constructor (ttl: int)
      ensures this.ttl == ttl && entries == map[]
    {
      this.ttl := ttl;
      entries := map[];
    }

    /** The entry under a key, if any, and whether it is fresh. */
    method Get(key: string, now: int) returns (data: Option<Body>, isFresh: bool)
      ensures data == (if key in entries then Some(entries[key].data) else None)
      ensures isFresh <==> key in entries && now < entries[key].expiresAt
    {
      if key !in entries {
        return None, false;
      }
      return Some(entries[key].data), now < entries[key].expiresAt;
    }

    method Set(key: string, data: Body, now: int)
      modifies this
      ensures entries == old(entries)[key := Entry(data, now + ttl)]
    {
      entries := entries[key := Entry(data, now + ttl)];
    }
  }

  function UpstreamRequest(q: Query): Request {
    Request(Wire.Get, Path(q), None)
  }

  /** A GET whose path reads as what serves the caller. */
  predicate IsRequestFor(r: Request, input: Query) {
    r.verb == Wire.Get && r.body.None? && ParsePath(r.path).Some? && Serves(ParsePath(r.path).value, input)
  }

  lemma RequestServes(q: Query, input: Query)
    requires Serves(q, input)
    ensures IsRequestFor(UpstreamRequest(q), input)
  {
    PathParses(q);
  }

  /** ListMunicipalities, called alone: now is the time of the lookup, later the time of the store. */
  method ListMunicipalities<S>(cli: Client<S>, cache: MunicipalitiesCache, accepts: Sink, input: Query,
                               now: int, later: int)
    returns (r: Listing)
    modifies cli, cache
    ensures forall q | Serves(q, input) ::
            var key, before := Key(q), old(cache.entries);
            var d := Perform(cli.serve, old(cli.state), UpstreamRequest(q), accepts);
            if key in before && now < before[key].expiresAt then
              && r == Listed(before[key].data) && cache.entries == before
              && cli.state == old(cli.state) && cli.log == old(cli.log)
            else
              && cli.state == d.state && cli.log == old(cli.log) + d.log
              && (match d.outcome
                  case Received(data) =>
                    r == Listed(data) && cache.entries == before[key := Entry(data, later + cache.ttl)]
                  case Failed(error) =>
                    && cache.entries == before
                    && r == if key in before then Listed(before[key].data) else Failure(error))
    ensures forall k | |old(cli.log)| <= k < |cli.log| :: IsRequestFor(cli.log[k].request, input)
  {
    var page, pageSize := input.page, input.pageSize;
    if page == 0 {
      page := 1;
    }
    if pageSize == 0 {
      pageSize := 100;
    }
    if pageSize > 500 {
      pageSize := 500;
    }
    var q := Query(input.state, page, pageSize);
    assert Serves(q, input) && forall other | Serves(other, input) :: other == q;
    RequestServes(q, input);
    RetryMeetsSpec(cli.serve, cli.state, UpstreamRequest(q), accepts);
    hide Key, Path, ParsePath, Serves, DoFrom;
    var cached, isFresh := cache.Get(Key(q), now);
    if cached.Some? && isFresh {
      return Listed(cached.value);
    }
    var outcome, _, _ := cli.Do(UpstreamRequest(q), accepts);
    match outcome
    case Failed(error) =>
      var stale, _ := cache.Get(Key(q), later);
      if stale.Some? {
        return Listed(stale.value);
      }
      return Failure(error);
    case Received(data) =>
      cache.Set(Key(q), data, later);
      return Listed(data);
  }

  // Any number of interleaved calls sharing one cache.

  datatype Call =
    | Looking(query: Query)
    | Asking(query: Query)
    | Storing(query: Query, data: Body)
    | Falling(query: Query, error: Error)
    | Returned(query: Query, result: Listing, asked: bool, at: int)

  datatype Answer = Answer(query: Query, data: Body)

  datatype Stored = Stored(query: Query, data: Body, at: int)

  datatype Return = Return(query: Query, ok: bool)

  /** How asking ends: upstream gave a payload that decodes, of which so much was read, or the call failed. */
  datatype Upstream = Gave(sent: Body, kept: Kept) | Broke(error: Error)

  /**
   * requests, answers, stores and outcomes record what upstream was sent and gave, what was cached when, and what
   * callers got, in order; emptied holds the queries for which nothing was read of a payload upstream gave.
   */
  datatype System = System(
    now: int, entries: Entries, calls: seq<Call>, requests: seq<Request>, answers: set<Answer>, emptied: set<Query>,
    stores: set<Stored>, outcomes: seq<Return>)

  /** One step of a call; reply is how asking ends if this step is its end; elapsed is the time passing first. */
  datatype Move = Move(who: nat, reply: Upstream, elapsed: nat)

  function Finish(s: System, i: nat, result: Listing, asked: bool): System
    requires i < |s.calls|
  {
    var q := s.calls[i].query;
    s.(calls := s.calls[i := Returned(q, result, asked, s.now)],
       outcomes := s.outcomes + [Return(q, result.Listed?)])
  }

  function Ask(s: System, i: nat, reply: Upstream): System
    requires i < |s.calls|
  {
    var q := s.calls[i].query;
    var sent := s.(requests := s.requests + [UpstreamRequest(q)]);
    match reply
    case Broke(error) => sent.(calls := s.calls[i := Falling(q, error)])
    case Gave(payload, kept) =>
      var read := ReadBody(payload, kept);
      sent.(calls := s.calls[i := if read.NotJson? then Falling(q, Decode) else Storing(q, read)],
            answers := s.answers + {Answer(q, payload)},
            emptied := if read == payload || read.NotJson? then s.emptied else s.emptied + {q})
  }

  function StepCall(s: System, i: nat, reply: Upstream, ttl: int): System
    requires i < |s.calls|
  {
    var q := s.calls[i].query;
    match s.calls[i]
    case Looking(_) =>
      if Key(q) in s.entries && s.now < s.entries[Key(q)].expiresAt then
        Finish(s, i, Listed(s.entries[Key(q)].data), false)
      else s.(calls := s.calls[i := Asking(q)])
    case Asking(_) => Ask(s, i, reply)
    case Storing(_, data) =>
      Finish(s.(entries := s.entries[Key(q) := Entry(data, s.now + ttl)],
                stores := s.stores + {Stored(q, data, s.now)}), i, Listed(data), true)
    case Falling(_, error) =>
      Finish(s, i, if Key(q) in s.entries then Listed(s.entries[Key(q)].data) else Failure(error), true)
    case Returned(_, _, _, _) => s
  }

  function Step(s: System, m: Move, ttl: int): System {
    var s1 := s.(now := s.now + m.elapsed);
    if m.who < |s.calls| then StepCall(s1, m.who, m.reply, ttl) else s1
  }

  function Exec(s: System, moves: seq<Move>, ttl: int): System
    decreases |moves|
  {
    if moves == [] then s else Exec(Step(s, moves[0], ttl), moves[1..], ttl)
  }

  function Initial(inputs: seq<Query>, now: int): System {
    System(now, map[], seq(|inputs|, i requires 0 <= i < |inputs| => Looking(Normalize(inputs[i]))), [], {}, {}, {}, [])
  }

  /** A payload upstream gave for the query, or the empty one after a read of nothing. */
  predicate IsGiven(s: System, q: Query, data: Body) {
    Answer(q, data) in s.answers || (data.Empty? && q in s.emptied)
  }

  /** What a returned call got: a payload given for its query, and without asking only within the TTL. */
  ghost predicate CallInv(s: System, c: Call, ttl: int) {
    && (c.Storing? || c.Falling? || (c.Returned? && c.asked) ==> UpstreamRequest(c.query) in s.requests)
    && (c.Storing? ==> IsGiven(s, c.query, c.data))
    && (c.Returned? && c.result.Listed? ==> IsGiven(s, c.query, c.result.data) && Key(c.query) in s.entries)
    && (c.Returned? && !c.asked ==>
          && c.result.Listed?
          && exists t :: Stored(c.query, c.result.data, t) in s.stores && t <= c.at < t + ttl)
  }

  ghost predicate Inv(s: System, ttl: int) {
    && (forall i | 0 <= i < |s.calls| :: CallInv(s, s.calls[i], ttl))
    && (forall k | k in s.entries :: EntryInv(s, k, ttl))
    && (forall r | r in s.outcomes && r.ok :: Key(r.query) in s.entries)
    && (forall a, b | 0 <= a < b < |s.outcomes| && s.outcomes[a].query == s.outcomes[b].query && s.outcomes[a].ok ::
          s.outcomes[b].ok)
  }

  ghost predicate EntryInv(s: System, k: string, ttl: int)
    requires k in s.entries
  {
    exists q :: Key(q) == k && q == KeyQuery(k) && IsGiven(s, q, s.entries[k].data)
                && Stored(q, s.entries[k].data, s.entries[k].expiresAt - ttl) in s.stores
                && s.entries[k].expiresAt - ttl <= s.now
  }

  function KeyQuery(k: string): Query {
    if ParseKey(k).Some? then ParseKey(k).value else Query("", 0, 0)
  }

  lemma EntryOf(s: System, q: Query, ttl: int)
    requires Key(q) in s.entries && EntryInv(s, Key(q), ttl)
    ensures IsGiven(s, q, s.entries[Key(q)].data)
    ensures Stored(q, s.entries[Key(q)].data, s.entries[Key(q)].expiresAt - ttl) in s.stores
    ensures s.entries[Key(q)].expiresAt - ttl <= s.now
  {
    KeyParses(q);
  }

  /** Whatever only grows keeps what the other calls and entries rely on. */
  ghost predicate Grows(s: System, s': System) {
    && s.now <= s'.now && s.requests <= s'.requests && s.answers <= s'.answers && s.emptied <= s'.emptied
    && s.stores <= s'.stores && s.entries.Keys <= s'.entries.Keys
  }

  lemma GrowsKeepsCall(s: System, s': System, c: Call, ttl: int)
    requires CallInv(s, c, ttl) && Grows(s, s')
    ensures CallInv(s', c, ttl)
  {
    hide Key;
    if c.Returned? && !c.asked {
      var t :| Stored(c.query, c.result.data, t) in s.stores && t <= c.at < t + ttl;
      assert Stored(c.query, c.result.data, t) in s'.stores;
    }
  }

  lemma AskKeeps(s: System, i: nat, reply: Upstream, ttl: int)
    requires Inv(s, ttl) && i < |s.calls| && s.calls[i].Asking?
    ensures Inv(Ask(s, i, reply), ttl)
  {
    hide Key, ParseKey, UpstreamRequest, ReadBody;
    var s' := Ask(s, i, reply);
    assert CallInv(s, s.calls[i], ttl);
    assert Grows(s, s');
    forall j | 0 <= j < |s'.calls| ensures CallInv(s', s'.calls[j], ttl) {
      GrowsKeepsCall(s, s', s.calls[j], ttl);
    }
    forall k | k in s'.entries ensures EntryInv(s', k, ttl) {
      assert EntryInv(s, k, ttl);
    }
  }

  lemma StepCallKeeps(s: System, i: nat, reply: Upstream, ttl: int)
    requires Inv(s, ttl) && i < |s.calls|
    ensures Inv(StepCall(s, i, reply, ttl), ttl)
  {
    hide Key, ParseKey, UpstreamRequest, Ask;
    if s.calls[i].Asking? {
      AskKeeps(s, i, reply, ttl);
      return;
    }
    var c, s' := s.calls[i], StepCall(s, i, reply, ttl);
    var q := c.query;
    KeyParses(q);
    assert CallInv(s, c, ttl);
    if Key(q) in s.entries {
      assert EntryInv(s, Key(q), ttl);
      EntryOf(s, q, ttl);
    }
    assert Grows(s, s');
    forall j | 0 <= j < |s'.calls| ensures CallInv(s', s'.calls[j], ttl) {
      GrowsKeepsCall(s, s', s.calls[j], ttl);
    }
    forall k | k in s'.entries ensures EntryInv(s', k, ttl) {
      if k in s.entries {
        assert EntryInv(s, k, ttl);
      }
    }
  }

  lemma TickKeeps(s: System, elapsed: nat, ttl: int)
    requires Inv(s, ttl)
    ensures Inv(s.(now := s.now + elapsed), ttl)
  {
    hide Key, ParseKey;
    var s' := s.(now := s.now + elapsed);
    forall j | 0 <= j < |s.calls| ensures CallInv(s', s.calls[j], ttl) {
      GrowsKeepsCall(s, s', s.calls[j], ttl);
    }
    forall k | k in s.entries ensures EntryInv(s', k, ttl) {
      assert EntryInv(s, k, ttl);
    }
  }

  lemma {:induction false} ExecKeeps(s: System, moves: seq<Move>, ttl: int)
    requires Inv(s, ttl)
    ensures Inv(Exec(s, moves, ttl), ttl)
    decreases |moves|
  {
    hide Inv, StepCall;
    if moves != [] {
      TickKeeps(s, moves[0].elapsed, ttl);
      if moves[0].who < |s.calls| {
        StepCallKeeps(s.(now := s.now + moves[0].elapsed), moves[0].who, moves[0].reply, ttl);
      }
      ExecKeeps(Step(s, moves[0], ttl), moves[1..], ttl);
    }
  }

  // What upstream was asked.

  ghost predicate IsRequestOfOne(r: Request, inputs: seq<Query>) {
    exists i | 0 <= i < |inputs| :: r == UpstreamRequest(Normalize(inputs[i]))
  }

  /** Every call still has its own normalized input, and every request sent is one of theirs. */
  ghost predicate AsksFor(s: System, inputs: seq<Query>) {
    && |s.calls| == |inputs|
    && (forall i | 0 <= i < |inputs| :: s.calls[i].query == Normalize(inputs[i]))
    && (forall k | 0 <= k < |s.requests| :: IsRequestOfOne(s.requests[k], inputs))
  }

  lemma StepCallAsks(s: System, i: nat, reply: Upstream, ttl: int, inputs: seq<Query>)
    requires AsksFor(s, inputs) && i < |s.calls|
    ensures AsksFor(StepCall(s, i, reply, ttl), inputs)
  {
    hide Key, Path, Normalize;
    assert IsRequestOfOne(UpstreamRequest(s.calls[i].query), inputs);
  }

  lemma {:induction false} ExecAsks(s: System, moves: seq<Move>, ttl: int, inputs: seq<Query>)
    requires AsksFor(s, inputs)
    ensures AsksFor(Exec(s, moves, ttl), inputs)
    decreases |moves|
  {
    hide StepCall, Normalize, IsRequestOfOne;
    if moves != [] {
      if moves[0].who < |s.calls| {
        StepCallAsks(s.(now := s.now + moves[0].elapsed), moves[0].who, moves[0].reply, ttl, inputs);
      }
      ExecAsks(Step(s, moves[0], ttl), moves[1..], ttl, inputs);
    }
  }

  /** Whose request this is; it is bounded by 500 entries exactly when that caller's state adds no larger size. */
  ghost predicate IsAccountedFor(r: Request, inputs: seq<Query>) {
    exists i | 0 <= i < |inputs| ::
      && IsRequestFor(r, inputs[i])
      && (IsBounded(r.path) <==> AtMostLimit(Sizes(AddedParameters(inputs[i].state))))
  }

  // What was read of what upstream gave.

  ghost predicate AllReadSomething(moves: seq<Move>) {
    forall k | 0 <= k < |moves| && moves[k].reply.Gave? :: !moves[k].reply.kept.Nothing?
  }

  lemma {:induction false} ExecNotEmptied(s: System, moves: seq<Move>, ttl: int)
    requires AllReadSomething(moves)
    ensures Exec(s, moves, ttl).emptied == s.emptied
    decreases |moves|
  {
    hide Key, Path;
    if moves != [] {
      assert forall k | 0 <= k < |moves[1..]| :: moves[1..][k] == moves[k + 1];
      ExecNotEmptied(Step(s, moves[0], ttl), moves[1..], ttl);
    }
  }

  /** One read: what is about to be stored is what upstream gave exactly when all of it was read. */
  lemma OneReadIff(s: System, i: nat, payload: Body, kept: Kept, ttl: int)
    requires i < |s.calls| && s.calls[i].Asking? && payload.Value?
    ensures var next := StepCall(s, i, Gave(payload, kept), ttl).calls[i];
            && (next == Storing(s.calls[i].query, payload) <==> kept.All?)
            && (next == Storing(s.calls[i].query, Empty) <==> kept.Nothing?)
            && (next == Falling(s.calls[i].query, Decode) <==> kept.Part?)
  {
    hide Key, Path;
  }

  /**
   * Two callers of one query that is not cached, or cached but stale: when nothing is read of the payload upstream
   * gives the first, the empty listing replaces what was cached, and the second gets it without asking.
   */
  lemma EmptyListingIsServed(s: System, q: Query, payload: Body, ttl: int)
    requires |s.calls| == 2 && s.calls[0] == Looking(q) && s.calls[1] == Looking(q) && payload.Value? && ttl > 0
    requires Key(q) in s.entries ==> s.entries[Key(q)].expiresAt <= s.now
    ensures var read, idle := Move(0, Gave(payload, Nothing), 0), Broke(Unreachable);
            var end := Exec(s, [Move(0, idle, 0), read, Move(0, idle, 0), Move(1, idle, 0)], ttl);
            && Key(q) in end.entries && end.entries[Key(q)].data == Empty
            && |end.calls| == 2 && end.calls[1] == Returned(q, Listed(Empty), false, s.now)
            && end.requests == s.requests + [UpstreamRequest(q)]
  {
    hide Key, UpstreamRequest;
    var read, idle := Move(0, Gave(payload, Nothing), 0), Broke(Unreachable);
    var s1 := Step(s, Move(0, idle, 0), ttl);
    assert s1.calls == [Asking(q), Looking(q)] && s1.now == s.now;
    var s2 := Step(s1, read, ttl);
    assert s2.calls == [Storing(q, Empty), Looking(q)] && s2.now == s.now;
    var s3 := Step(s2, Move(0, idle, 0), ttl);
    assert s3.calls[1] == Looking(q) && s3.now == s.now && s3.entries[Key(q)] == Entry(Empty, s.now + ttl);
    var s4 := Step(s3, Move(1, idle, 0), ttl);
    ExecFour(s, [Move(0, idle, 0), read, Move(0, idle, 0), Move(1, idle, 0)], ttl);
  }

  lemma ExecFour(s: System, moves: seq<Move>, ttl: int)
    requires |moves| == 4
    ensures Exec(s, moves, ttl) == Step(Step(Step(Step(s, moves[0], ttl), moves[1], ttl), moves[2], ttl), moves[3], ttl)
  {
    hide Step;
    var s1 := Step(s, moves[0], ttl);
    var s2 := Step(s1, moves[1], ttl);
    var s3 := Step(s2, moves[2], ttl);
    assert moves[1..][1..] == moves[2..] && moves[2..][1..] == moves[3..] && moves[3..][1..] == [];
    assert Exec(s3, moves[3..], ttl) == Step(s3, moves[3], ttl);
    assert Exec(s2, moves[2..], ttl) == Exec(s3, moves[3..], ttl);
    assert Exec(s1, moves[1..], ttl) == Exec(s2, moves[2..], ttl);
  }

  /**
   * Every run of interleaved calls over a clock that never goes back: a payload returned for a query is one
   * upstream gave for that query, or the empty one if nothing was read of such a payload; one returned without
   * asking upstream was stored less than the TTL ago; once a query has succeeded it never fails again; and every
   * request sent belongs to a caller and asks for at most 500 entries exactly when that caller's state adds no
   * larger page size.
   */
  lemma EveryRun(inputs: seq<Query>, now: int, moves: seq<Move>, ttl: int)
    ensures var s := Exec(Initial(inputs, now), moves, ttl);
            && |s.calls| == |inputs|
            && (forall i | 0 <= i < |s.calls| ::
                  Serves(s.calls[i].query, inputs[i]) && CallInv(s, s.calls[i], ttl))
            && (forall k | k in s.entries :: IsGiven(s, KeyQuery(k), s.entries[k].data))
            && (AllReadSomething(moves) ==> s.emptied == {})
            && (forall k | 0 <= k < |s.requests| :: IsAccountedFor(s.requests[k], inputs))
            && (forall a, b | 0 <= a < b < |s.outcomes| && s.outcomes[a].query == s.outcomes[b].query ::
                  s.outcomes[a].ok ==> s.outcomes[b].ok)
  {
    forall i | 0 <= i < |inputs| ensures Serves(Normalize(inputs[i]), inputs[i]) {
      NormalizeServes(inputs[i]);
    }
    hide Key, Path, Normalize, IsBounded, AtMostLimit, Sizes, AddedParameters, IsGiven, AllReadSomething, Serves;
    assert Inv(Initial(inputs, now), ttl);
    ExecKeeps(Initial(inputs, now), moves, ttl);
    ExecAsks(Initial(inputs, now), moves, ttl, inputs);
    if AllReadSomething(moves) {
      ExecNotEmptied(Initial(inputs, now), moves, ttl);
    }
    var s := Exec(Initial(inputs, now), moves, ttl);
    forall k | k in s.entries ensures IsGiven(s, KeyQuery(k), s.entries[k].data) {
      assert EntryInv(s, k, ttl);
    }
    forall k | 0 <= k < |s.requests| ensures IsAccountedFor(s.requests[k], inputs) {
      var i :| 0 <= i < |inputs| && s.requests[k] == UpstreamRequest(Normalize(inputs[i]));
      BoundedIff(Normalize(inputs[i]), inputs[i]);
      RequestServes(Normalize(inputs[i]), inputs[i]);
    }
  }
}
