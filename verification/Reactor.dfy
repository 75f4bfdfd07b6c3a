/** The dedup memory: a least-recently-used cache of a fixed number of keys, newest first. */
module Recent {
  function Without(order: seq<string>, key: string): seq<string> {
    if order == [] then []
    else if order[0] == key then Without(order[1..], key)
    else [order[0]] + Without(order[1..], key)
  }

  function Take(order: seq<string>, count: nat): seq<string> {
    if order == [] || count == 0 then [] else [order[0]] + Take(order[1..], count - 1)
  }

  /** Touching a key makes it the newest; past the capacity the oldest one goes. */
  function Touch(order: seq<string>, key: string, capacity: nat): seq<string> {
    Take([key] + Without(order, key), capacity)
  }

  /** The cache after touching the keys of a history in order. */
  function After(history: seq<string>, capacity: nat): seq<string> {
    if history == [] then [] else Touch(After(history[..|history| - 1], capacity), history[|history| - 1], capacity)
  }

  /** The distinct keys touched since the last touch of this one. */
  function Since(history: seq<string>, key: string): set<string> {
    if history == [] then {}
    else if history[|history| - 1] == key then {}
    else Since(history[..|history| - 1], key) + {history[|history| - 1]}
  }

  /** Seen, and fewer than capacity distinct other keys ago. */
  predicate IsRecent(history: seq<string>, key: string, capacity: nat) {
    key in history && |Since(history, key)| < capacity
  }

  // The same memory without a bound, of which the cache keeps the newest part.

  function Everything(history: seq<string>): seq<string> {
    if history == [] then []
    else [history[|history| - 1]] + Without(Everything(history[..|history| - 1]), history[|history| - 1])
  }

  predicate NoDuplicates(s: seq<string>) {
    s == [] || (s[0] !in s[1..] && NoDuplicates(s[1..]))
  }

  /** The keys in front of this one. */
  function Ahead(order: seq<string>, key: string): set<string> {
    if order == [] || order[0] == key then {} else {order[0]} + Ahead(order[1..], key)
  }

  lemma {:induction false} WithoutFacts(order: seq<string>, key: string)
    requires NoDuplicates(order)
    ensures NoDuplicates(Without(order, key))
    ensures forall k :: k in Without(order, key) <==> k in order && k != key
    ensures key !in order ==> Without(order, key) == order
  {
    if order != [] {
      WithoutFacts(order[1..], key);
      var rest := Without(order[1..], key);
      assert order == [order[0]] + order[1..];
      if order[0] != key {
        assert ([order[0]] + rest)[1..] == rest;
      }
    }
  }

  lemma {:induction false} AheadWithout(order: seq<string>, x: string, key: string)
    requires NoDuplicates(order) && x != key
    ensures key in order ==> Ahead(Without(order, x), key) == Ahead(order, key) - {x}
  {
    if order != [] && key in order && order[0] != key {
      var tail := order[1..];
      AheadWithout(tail, x, key);
      assert key in tail;
      if order[0] == x {
        AheadIsWithin(tail, key);
        WithoutFacts(tail, x);
      } else {
        assert ([order[0]] + Without(tail, x))[1..] == Without(tail, x);
      }
    }
  }

  lemma {:induction false} AheadIsWithin(order: seq<string>, key: string)
    ensures forall k | k in Ahead(order, key) :: k in order && k != key
  {
    if order != [] && order[0] != key {
      AheadIsWithin(order[1..], key);
    }
  }

  lemma {:induction false} EverythingFacts(history: seq<string>)
    ensures NoDuplicates(Everything(history))
    ensures forall key :: key in Everything(history) <==> key in history
    decreases |history|
  {
    if history != [] {
      var early, x := history[..|history| - 1], history[|history| - 1];
      EverythingFacts(early);
      WithoutFacts(Everything(early), x);
      assert ([x] + Without(Everything(early), x))[1..] == Without(Everything(early), x);
      assert history == early + [x];
    }
  }

  lemma {:induction false} AheadIsSince(history: seq<string>, key: string)
    requires key in history
    ensures Ahead(Everything(history), key) == Since(history, key)
    decreases |history|
  {
    var early, x := history[..|history| - 1], history[|history| - 1];
    if x != key {
      assert key in early;
      AheadIsSince(early, key);
      EverythingFacts(early);
      AheadWithout(Everything(early), x, key);
      assert ([x] + Without(Everything(early), x))[1..] == Without(Everything(early), x);
    }
  }

  lemma {:induction false} TakeHolds(order: seq<string>, count: nat, key: string)
    requires NoDuplicates(order)
    ensures key in Take(order, count) <==> key in order && |Ahead(order, key)| < count
  {
    if order != [] && count > 0 {
      TakeHolds(order[1..], count - 1, key);
      AheadIsWithin(order[1..], key);
      assert order[0] !in Ahead(order[1..], key);
      assert order == [order[0]] + order[1..];
    }
  }

  lemma {:induction false} TakeTake(order: seq<string>, count: nat)
    ensures Take(Take(order, count), count) == Take(order, count)
  {
    if order != [] && count > 0 {
      TakeTake(order[1..], count - 1);
      assert Take(order, count)[1..] == Take(order[1..], count - 1);
    }
  }

  lemma {:induction false} WithoutTake(order: seq<string>, key: string, count: nat)
    requires NoDuplicates(order)
    ensures Take(Without(Take(order, count + 1), key), count) == Take(Without(order, key), count)
  {
    if order != [] {
      var tail := order[1..];
      assert Take(order, count + 1)[1..] == Take(tail, count);
      if order[0] == key {
        WithoutFacts(tail, key);
        TakeNoDuplicates(tail, count, key);
        WithoutFacts(Take(tail, count), key);
        TakeTake(tail, count);
      } else if count > 0 {
        WithoutTake(tail, key, count - 1);
        assert ([order[0]] + Without(Take(tail, count), key))[1..] == Without(Take(tail, count), key);
        assert ([order[0]] + Without(tail, key))[1..] == Without(tail, key);
      }
    }
  }

  lemma {:induction false} TakeNoDuplicates(order: seq<string>, count: nat, key: string)
    requires NoDuplicates(order)
    ensures NoDuplicates(Take(order, count)) && forall k | k in Take(order, count) :: k in order
  {
    if order != [] && count > 0 {
      TakeNoDuplicates(order[1..], count - 1, key);
      assert Take(order, count)[1..] == Take(order[1..], count - 1);
    }
  }

  /** The cache is the newest part of the unbounded memory. */
  lemma {:induction false} AfterIsNewest(history: seq<string>, capacity: nat)
    requires capacity > 0
    ensures After(history, capacity) == Take(Everything(history), capacity)
    decreases |history|
  {
    if history != [] {
      var early, x := history[..|history| - 1], history[|history| - 1];
      AfterIsNewest(early, capacity);
      EverythingFacts(early);
      WithoutTake(Everything(early), x, capacity - 1);
      var bounded, all := Without(After(early, capacity), x), Without(Everything(early), x);
      assert ([x] + bounded)[1..] == bounded && ([x] + all)[1..] == all;
    }
  }

  /** Membership is exactly "among the capacity most recently touched distinct keys". */
  lemma HoldsExactlyTheRecent(history: seq<string>, capacity: nat, key: string)
    requires capacity > 0
    ensures key in After(history, capacity) <==> IsRecent(history, key, capacity)
  {
    AfterIsNewest(history, capacity);
    EverythingFacts(history);
    TakeHolds(Everything(history), capacity, key);
    if key in history {
      AheadIsSince(history, key);
    }
  }
}

/** The inbound webhook server: authenticate, decode, deduplicate, route, publish. */
module Reactor {
  import opened Options
  import opened Recent
  import opened Signature

  const DEDUP_CAPACITY: nat := 4096

  /** The cache class the server holds: Get promotes, Add evicts the oldest key past the capacity. */
  class Cache {
    const capacity: nat
    var order: seq<string>

    constructor (capacity: nat)
      ensures this.capacity == capacity && order == []
    {
      this.capacity := capacity;
      order := [];
    }

    method Get(key: string) returns (hit: bool)
      modifies this
      ensures hit <==> key in old(order)
      ensures order == if hit then Touch(old(order), key, capacity) else old(order)
    {
      hit := key in order;
      if hit {
        order := Touch(order, key, capacity);
      }
    }

    method Add(key: string)
      modifies this
      ensures order == Touch(old(order), key, capacity)
    {
      order := Touch(order, key, capacity);
    }
  }

  function NormalizeEvent(raw: string): string {
    if raw in ["nfse.issued", "nfe.emitted", "nfse.emitted"] then "issued"
    else if raw in ["nfse.cancelled", "nfse.canceled", "nfe.cancelled", "nfe.canceled"] then "cancelled"
    else if raw in ["nfse.processing_failed", "nfse.failed", "nfe.failed", "nfe.rejected"] then "processing_failed"
    else ""
  }

  function QueueFor(normalized: string): string {
    if normalized == "issued" then "enterprise-payments.nfe.emitted.q"
    else if normalized == "processing_failed" then "enterprise-payments.nfe.rejected.q"
    else if normalized == "cancelled" then "enterprise-payments.nfe.canceled.q"
    else ""
  }

  lemma SameVerb(kind: string, verb: string, other: string, whole: string)
    requires kind + other == whole
    ensures kind + verb == whole <==> verb == other
  {
    assert (kind + verb)[|kind|..] == verb && (kind + other)[|kind|..] == other;
  }

  lemma NfeVocabulary(verb: string)
    ensures NormalizeEvent("nfe." + verb) ==
              if verb == "emitted" then "issued"
              else if verb in ["cancelled", "canceled"] then "cancelled"
              else if verb in ["failed", "rejected"] then "processing_failed"
              else ""
  {
    var raw := "nfe." + verb;
    assert raw[2] == 'e';
    SameVerb("nfe.", verb, "emitted", "nfe.emitted");
    SameVerb("nfe.", verb, "cancelled", "nfe.cancelled");
    SameVerb("nfe.", verb, "canceled", "nfe.canceled");
    SameVerb("nfe.", verb, "failed", "nfe.failed");
    SameVerb("nfe.", verb, "rejected", "nfe.rejected");
  }

  lemma NfseIssuedVerbs(verb: string)
    ensures "nfse." + verb in ["nfse.issued", "nfe.emitted", "nfse.emitted"] <==> verb in ["issued", "emitted"]
  {
    assert ("nfse." + verb)[2] == 's';
    SameVerb("nfse.", verb, "issued", "nfse.issued");
    SameVerb("nfse.", verb, "emitted", "nfse.emitted");
  }

  lemma NfseCancelledVerbs(verb: string)
    ensures "nfse." + verb in ["nfse.cancelled", "nfse.canceled", "nfe.cancelled", "nfe.canceled"]
       <==> verb in ["cancelled", "canceled"]
  {
    assert ("nfse." + verb)[2] == 's';
    SameVerb("nfse.", verb, "cancelled", "nfse.cancelled");
    SameVerb("nfse.", verb, "canceled", "nfse.canceled");
  }

  lemma NfseFailedVerbs(verb: string)
    ensures "nfse." + verb in ["nfse.processing_failed", "nfse.failed", "nfe.failed", "nfe.rejected"]
       <==> verb in ["processing_failed", "failed"]
  {
    assert ("nfse." + verb)[2] == 's';
    SameVerb("nfse.", verb, "processing_failed", "nfse.processing_failed");
    SameVerb("nfse.", verb, "failed", "nfse.failed");
  }

  lemma NfseVocabulary(verb: string)
    ensures NormalizeEvent("nfse." + verb) ==
              if verb in ["issued", "emitted"] then "issued"
              else if verb in ["cancelled", "canceled"] then "cancelled"
              else if verb in ["processing_failed", "failed"] then "processing_failed"
              else ""
  {
    NfseIssuedVerbs(verb);
    NfseCancelledVerbs(verb);
    NfseFailedVerbs(verb);
  }

  /** The queue of an event by document kind and verb; the two kinds do not share all of their verbs. */
  function Route(event: string): string {
    if "nfse." <= event then
      var verb := event[5..];
      if verb in ["issued", "emitted"] then "enterprise-payments.nfe.emitted.q"
      else if verb in ["cancelled", "canceled"] then "enterprise-payments.nfe.canceled.q"
      else if verb in ["processing_failed", "failed"] then "enterprise-payments.nfe.rejected.q"
      else ""
    else if "nfe." <= event then
      var verb := event[4..];
      if verb == "emitted" then "enterprise-payments.nfe.emitted.q"
      else if verb in ["cancelled", "canceled"] then "enterprise-payments.nfe.canceled.q"
      else if verb in ["failed", "rejected"] then "enterprise-payments.nfe.rejected.q"
      else ""
    else ""
  }

  /** Every event name is routed by its kind and verb, and one of neither kind is not routed. */
  lemma RoutesByVerb(event: string)
    ensures QueueFor(NormalizeEvent(event)) == Route(event)
  {
    if "nfse." <= event {
      NfseVocabulary(event[5..]);
      assert "nfse." + event[5..] == event;
    } else if "nfe." <= event {
      NfeVocabulary(event[4..]);
      assert "nfe." + event[4..] == event;
    } else {
      OtherKinds(event);
    }
    hide NormalizeEvent;
  }

  lemma OtherKinds(event: string)
    requires !("nfse." <= event) && !("nfe." <= event)
    ensures NormalizeEvent(event) == ""
  {
    assert "nfse." <= "nfse.issued" && "nfe." <= "nfe.emitted" && "nfse." <= "nfse.emitted";
    assert "nfse." <= "nfse.cancelled" && "nfse." <= "nfse.canceled";
    assert "nfe." <= "nfe.cancelled" && "nfe." <= "nfe.canceled";
    assert "nfse." <= "nfse.processing_failed" && "nfse." <= "nfse.failed";
    assert "nfe." <= "nfe.failed" && "nfe." <= "nfe.rejected";
  }

  datatype Payload = Payload(id: string, event: string)

  /** digest is the hexadecimal SHA-256 of a body, decode its JSON decoding; nothing is assumed of either. */
  datatype Setting = Setting(secret: string, mac: Mac, decode: Bytes -> Option<Payload>, digest: Bytes -> string)

  datatype Delivery = Delivery(headers: HttpHeaders, body: Bytes)

  /** Answered 401, 400, 200, 202, 202 and 500. */
  datatype Verdict = Unauthorized | Malformed | Duplicate | Unrouted | Published | PublishFailed

  /** What an authentic, well-formed delivery asks for; an empty queue means an unknown event. */
  datatype Event = Event(key: string, queue: string, body: Bytes)

  function EventOf(setting: Setting, body: Bytes, p: Payload): Event {
    Event(if p.id == "" then setting.digest(body) else p.id, QueueFor(NormalizeEvent(p.event)), body)
  }

  /** An event in terms of the payload alone. */
  lemma EventIs(setting: Setting, body: Bytes, p: Payload)
    ensures EventOf(setting, body, p) == Event(if p.id == "" then setting.digest(body) else p.id, Route(p.event), body)
  {
    RoutesByVerb(p.event);
    hide NormalizeEvent, QueueFor, Route;
  }

  function Keys(events: seq<Event>): seq<string> {
    seq(|events|, i requires 0 <= i < |events| => events[i].key)
  }

  /** What is handed to the publisher when the memory holds the capacity most recent keys. */
  function BoundedLog(events: seq<Event>, capacity: nat): seq<Event> {
    if events == [] then []
    else
      var early, e := events[..|events| - 1], events[|events| - 1];
      BoundedLog(early, capacity) + (if e.key in After(Keys(early), capacity) || e.queue == "" then [] else [e])
  }

  /** What an unlimited memory would hand over: the first delivery of every key, if it is routed. */
  function UnlimitedLog(events: seq<Event>): seq<Event> {
    if events == [] then []
    else
      var early, e := events[..|events| - 1], events[|events| - 1];
      UnlimitedLog(early) + (if e.key in Keys(early) || e.queue == "" then [] else [e])
  }

  /** Every routed repeat comes back before capacity distinct other keys have been touched. */
  ghost predicate IsWindowed(events: seq<Event>, capacity: nat) {
    forall i | 0 <= i < |events| && events[i].queue != "" && events[i].key in Keys(events[..i]) ::
      |Since(Keys(events[..i]), events[i].key)| < capacity
  }

  lemma WindowedEarly(events: seq<Event>, capacity: nat)
    requires events != []
    ensures var early, e := events[..|events| - 1], events[|events| - 1];
            IsWindowed(events, capacity) <==>
              IsWindowed(early, capacity)
              && (e.queue != "" && e.key in Keys(early) ==> |Since(Keys(early), e.key)| < capacity)
  {
    var early := events[..|events| - 1];
    forall i | 0 <= i < |early| ensures events[i] == early[i] && events[..i] == early[..i] {
    }
    if IsWindowed(events, capacity) {
      forall i | 0 <= i < |early| && early[i].queue != "" && early[i].key in Keys(early[..i])
        ensures |Since(Keys(early[..i]), early[i].key)| < capacity
      {
        assert events[i] == early[i] && events[..i] == early[..i];
      }
    }
  }

  lemma {:induction false} BoundedPublishesMore(events: seq<Event>, capacity: nat)
    requires capacity > 0
    ensures |BoundedLog(events, capacity)| >= |UnlimitedLog(events)|
    ensures |BoundedLog(events, capacity)| == |UnlimitedLog(events)| <==> IsWindowed(events, capacity)
    ensures IsWindowed(events, capacity) ==> BoundedLog(events, capacity) == UnlimitedLog(events)
    decreases |events|
  {
    hide After, Since;
    if events != [] {
      var early, e := events[..|events| - 1], events[|events| - 1];
      BoundedPublishesMore(early, capacity);
      WindowedEarly(events, capacity);
      HoldsExactlyTheRecent(Keys(early), capacity, e.key);
    }
  }

  /** The bounded memory publishes what an unlimited one would exactly when every routed repeat is inside the window. */
  lemma AgreesInsideWindow(events: seq<Event>, capacity: nat)
    requires capacity > 0
    ensures BoundedLog(events, capacity) == UnlimitedLog(events) <==> IsWindowed(events, capacity)
  {
    BoundedPublishesMore(events, capacity);
  }

  /** history and published are what has been admitted and handed to the publisher so far. */
  class WebhookServer {
    const setting: Setting
    const dedup: Cache
    ghost var history: seq<Event>
    ghost var published: seq<Event>

    ghost predicate Valid()
      reads this, dedup
    {
      && dedup.capacity == DEDUP_CAPACITY
      && dedup.order == After(Keys(history), DEDUP_CAPACITY)
      && published == BoundedLog(history, DEDUP_CAPACITY)
    }

    constructor (setting: Setting)
      ensures Valid() && fresh(dedup) && this.setting == setting && history == []
    {
      this.setting := setting;
      dedup := new Cache(DEDUP_CAPACITY);
      history, published := [], [];
    }

    /** One delivery; publishFails is how the publisher will answer if it is called. */
    method Handle(d: Delivery, publishFails: bool) returns (v: Verdict)
      requires Valid()
      modifies this, dedup
      ensures Valid()
      ensures v.Unauthorized? <==> !IsAuthentic(d.headers, d.body, setting.secret, setting.mac)
      ensures v.Malformed? <==> !v.Unauthorized? && setting.decode(d.body).None?
      ensures v.Unauthorized? || v.Malformed? ==> history == old(history) && published == old(published)
      ensures !v.Unauthorized? && !v.Malformed? ==>
                var p := setting.decode(d.body).value;
                var e := Event(if p.id == "" then setting.digest(d.body) else p.id, Route(p.event), d.body);
                && history == old(history) + [e]
                && (v.Duplicate? <==> IsRecent(Keys(old(history)), e.key, 4096))
                && (v.Unrouted? <==> !v.Duplicate? && e.queue == "")
                && (v.PublishFailed? <==> !v.Duplicate? && e.queue != "" && publishFails)
                && published == old(published) + (if v.Published? || v.PublishFailed? then [e] else [])
    {
      var accepted := VerifySignature(d.headers, d.body, setting.secret, setting.mac);
      if !accepted {
        return Unauthorized;
      }
      var payload := setting.decode(d.body);
      if payload.None? {
        return Malformed;
      }
      var key := payload.value.id;
      if key == "" {
        key := setting.digest(d.body);
      }
      ghost var e := EventOf(setting, d.body, payload.value);
      EventIs(setting, d.body, payload.value);
      hide Route, NormalizeEvent, QueueFor;
      HoldsExactlyTheRecent(Keys(history), DEDUP_CAPACITY, key);
      HistoryGrows(history, e);
      history := history + [e];
      var hit := dedup.Get(key);
      if hit {
        return Duplicate;
      }
      dedup.Add(key);
      var queue := QueueFor(NormalizeEvent(payload.value.event));
      if queue == "" {
        return Unrouted;
      }
      published := published + [Event(key, queue, d.body)];
      return if publishFails then PublishFailed else Published;
    }
  }

  lemma HistoryGrows(history: seq<Event>, e: Event)
    ensures After(Keys(history + [e]), DEDUP_CAPACITY)
         == Touch(After(Keys(history), DEDUP_CAPACITY), e.key, DEDUP_CAPACITY)
    ensures BoundedLog(history + [e], DEDUP_CAPACITY) == BoundedLog(history, DEDUP_CAPACITY)
              + (if e.key in After(Keys(history), DEDUP_CAPACITY) || e.queue == "" then [] else [e])
  {
    assert (history + [e])[..|history|] == history;
    var keys := Keys(history + [e]);
    assert keys[..|keys| - 1] == Keys(history);
  }

  // Deliveries whose lookup and insertion interleave.

  datatype Progress = Fresh | Missed | Finished(duplicate: bool)

  /** touched records every key touched, published the deliveries handed to the publisher. */
  datatype Traffic = Traffic(
    events: seq<Event>, progress: seq<Progress>, order: seq<string>, touched: seq<string>, published: seq<nat>)

  predicate Consistent(t: Traffic) {
    |t.events| == |t.progress|
  }

  /** The next cache operation of delivery i, and for an insertion what follows it. */
  function Advance(t: Traffic, i: nat, capacity: nat): (t': Traffic)
    requires Consistent(t)
    ensures Consistent(t') && t'.events == t.events
  {
    if i >= |t.events| then t
    else
      var e := t.events[i];
      match t.progress[i]
      case Fresh =>
        if e.key in t.order then
          t.(progress := t.progress[i := Finished(true)],
             order := Touch(t.order, e.key, capacity), touched := t.touched + [e.key])
        else t.(progress := t.progress[i := Missed])
      case Missed =>
        t.(progress := t.progress[i := Finished(false)],
           order := Touch(t.order, e.key, capacity), touched := t.touched + [e.key],
           published := if e.queue == "" then t.published else t.published + [i])
      case Finished(_) => t
  }

  function AdvanceAll(t: Traffic, moves: seq<nat>, capacity: nat): (t': Traffic)
    requires Consistent(t)
    ensures Consistent(t') && t'.events == t.events
    decreases |moves|
  {
    if moves == [] then t else AdvanceAll(Advance(t, moves[0], capacity), moves[1..], capacity)
  }

  function Arrived(events: seq<Event>): Traffic {
    Traffic(events, seq(|events|, i => Fresh), [], [], [])
  }

  ghost predicate TrafficInv(t: Traffic, capacity: nat) {
    && Consistent(t) && t.order == After(t.touched, capacity)
    && (forall i | 0 <= i < |t.events| && t.progress[i] == Finished(false) :: t.events[i].key in t.touched)
    && (forall i | i in t.published :: i < |t.events| && t.progress[i] == Finished(false) && t.events[i].queue != "")
    && (forall a, b | 0 <= a < b < |t.published| :: t.published[a] != t.published[b])
  }

  /** What is finished stays as it finished, and what is published stays published. */
  ghost predicate Follows(t: Traffic, t': Traffic) {
    && Consistent(t) && Consistent(t') && t'.events == t.events
    && (forall j | 0 <= j < |t.events| && t.progress[j].Finished? :: t'.progress[j] == t.progress[j])
    && (forall j | j in t.published :: j in t'.published)
  }

  lemma LookupKeeps(t: Traffic, i: nat, capacity: nat)
    requires TrafficInv(t, capacity) && i < |t.events| && t.progress[i].Fresh?
    ensures TrafficInv(Advance(t, i, capacity), capacity) && Follows(t, Advance(t, i, capacity))
  {
    hide Touch;
    var key := t.events[i].key;
    assert (t.touched + [key])[..|t.touched|] == t.touched;
  }

  lemma InsertionKeeps(t: Traffic, i: nat, capacity: nat)
    requires TrafficInv(t, capacity) && i < |t.events| && t.progress[i].Missed?
    ensures TrafficInv(Advance(t, i, capacity), capacity) && Follows(t, Advance(t, i, capacity))
    ensures i in Advance(t, i, capacity).published <==> t.events[i].queue != ""
  {
    hide Touch;
    var key, t' := t.events[i].key, Advance(t, i, capacity);
    assert i !in t.published;
    assert (t.touched + [key])[..|t.touched|] == t.touched;
    if t.events[i].queue != "" {
      assert t'.published[|t.published|] == i;
    }
  }

  lemma AdvanceKeeps(t: Traffic, i: nat, capacity: nat)
    requires TrafficInv(t, capacity)
    ensures TrafficInv(Advance(t, i, capacity), capacity) && Follows(t, Advance(t, i, capacity))
  {
    hide Touch, After;
    if i < |t.events| && t.progress[i].Fresh? {
      LookupKeeps(t, i, capacity);
    } else if i < |t.events| && t.progress[i].Missed? {
      InsertionKeeps(t, i, capacity);
    }
  }

  lemma {:induction false} AdvanceAllKeeps(t: Traffic, moves: seq<nat>, capacity: nat)
    requires TrafficInv(t, capacity)
    ensures TrafficInv(AdvanceAll(t, moves, capacity), capacity) && Follows(t, AdvanceAll(t, moves, capacity))
    decreases |moves|
  {
    hide Advance, TrafficInv;
    if moves != [] {
      AdvanceKeeps(t, moves[0], capacity);
      AdvanceAllKeeps(Advance(t, moves[0], capacity), moves[1..], capacity);
    }
  }

  /** A delivery whose lookup missed is published by its next step, if it is routed, and by nothing else. */
  lemma {:induction false} MissedIsPublishedIff(t: Traffic, i: nat, moves: seq<nat>, capacity: nat)
    requires TrafficInv(t, capacity) && i < |t.events| && t.progress[i].Missed?
    ensures i in AdvanceAll(t, moves, capacity).published <==> i in moves && t.events[i].queue != ""
    decreases |moves|
  {
    hide Touch, After;
    if moves != [] {
      var t1 := Advance(t, moves[0], capacity);
      AdvanceKeeps(t, moves[0], capacity);
      if moves[0] == i {
        InsertionKeeps(t, i, capacity);
        AdvanceAllKeeps(t1, moves[1..], capacity);
        assert t1.progress[i] == Finished(false);
        if t.events[i].queue == "" {
          assert i !in AdvanceAll(t1, moves[1..], capacity).published;
        }
      } else {
        assert t1.progress[i].Missed?;
        MissedIsPublishedIff(t1, i, moves[1..], capacity);
      }
    }
  }

  /**
   * Exactly when the deduplication lets a delivery through: it is published if and only if it is routed,
   * gets to its insertion, and at its lookup its key was not among the capacity most recently touched ones,
   * whatever the other deliveries do in between.
   */
  lemma PublishedIff(t: Traffic, late: nat, moves: seq<nat>, capacity: nat)
    requires capacity > 0 && TrafficInv(t, capacity) && late < |t.events| && t.progress[late].Fresh?
    ensures var e, end := t.events[late], AdvanceAll(Advance(t, late, capacity), moves, capacity);
            && (late in end.published <==> e.queue != "" && late in moves && !IsRecent(t.touched, e.key, capacity))
            && (end.progress[late] == Finished(true) <==> IsRecent(t.touched, e.key, capacity))
  {
    hide Touch, After, IsRecent;
    HoldsExactlyTheRecent(t.touched, capacity, t.events[late].key);
    var t1 := Advance(t, late, capacity);
    AdvanceKeeps(t, late, capacity);
    AdvanceAllKeeps(t1, moves, capacity);
    if t1.progress[late].Missed? {
      MissedIsPublishedIff(t1, late, moves, capacity);
      MissedIsNoDuplicate(t1, late, moves, capacity);
    }
  }

  lemma {:induction false} MissedIsNoDuplicate(t: Traffic, i: nat, moves: seq<nat>, capacity: nat)
    requires Consistent(t) && i < |t.events| && t.progress[i] in {Missed, Finished(false)}
    ensures AdvanceAll(t, moves, capacity).progress[i] in {Missed, Finished(false)}
    decreases |moves|
  {
    hide Touch;
    if moves != [] {
      MissedIsNoDuplicate(Advance(t, moves[0], capacity), i, moves[1..], capacity);
    }
  }

  /** Every schedule from the arrival of all deliveries publishes each at most once, and none that is not routed. */
  lemma EveryTraffic(events: seq<Event>, moves: seq<nat>, capacity: nat)
    ensures var end := AdvanceAll(Arrived(events), moves, capacity);
            && TrafficInv(end, capacity)
            && (forall a, b | 0 <= a < b < |end.published| :: end.published[a] != end.published[b])
            && (forall i | i in end.published :: i < |events| && events[i].queue != "")
  {
    AdvanceAllKeeps(Arrived(events), moves, capacity);
  }

  lemma {:induction false} AdvanceAllSplits(t: Traffic, before: seq<nat>, moves: seq<nat>, capacity: nat)
    requires Consistent(t)
    ensures AdvanceAll(t, before + moves, capacity) == AdvanceAll(AdvanceAll(t, before, capacity), moves, capacity)
    decreases |before|
  {
    hide Advance;
    if before == [] {
      assert before + moves == moves;
    } else {
      assert (before + moves)[1..] == before[1..] + moves;
      AdvanceAllSplits(Advance(t, before[0], capacity), before[1..], moves, capacity);
    }
  }

  lemma {:induction false} UnmovedIsFresh(t: Traffic, i: nat, moves: seq<nat>, capacity: nat)
    requires Consistent(t) && i < |t.events| && t.progress[i].Fresh? && i !in moves
    ensures AdvanceAll(t, moves, capacity).progress[i].Fresh?
    decreases |moves|
  {
    hide Touch;
    if moves != [] {
      assert moves[0] in moves;
      UnmovedIsFresh(Advance(t, moves[0], capacity), i, moves[1..], capacity);
    }
  }

  /** The same over whole schedules: before is what runs before the delivery's lookup, later what runs after it. */
  lemma PublishedInRunIff(events: seq<Event>, i: nat, before: seq<nat>, later: seq<nat>, capacity: nat)
    requires capacity > 0 && i < |events| && i !in before
    ensures var met := AdvanceAll(Arrived(events), before, capacity);
            i in AdvanceAll(Arrived(events), before + [i] + later, capacity).published <==>
              events[i].queue != "" && i in later && !IsRecent(met.touched, events[i].key, capacity)
  {
    hide Advance, IsRecent, TrafficInv;
    assert TrafficInv(Arrived(events), capacity) by { EveryTraffic(events, [], capacity); }
    var met := AdvanceAll(Arrived(events), before, capacity);
    AdvanceAllKeeps(Arrived(events), before, capacity);
    UnmovedIsFresh(Arrived(events), i, before, capacity);
    AdvanceAllSplits(Arrived(events), before, [i] + later, capacity);
    assert before + [i] + later == before + ([i] + later);
    assert ([i] + later)[1..] == later;
    PublishedIff(met, i, later, capacity);
  }

  /**
   * A delivery whose lookup comes after another delivery of its key finished its insertion, with fewer than
   * capacity distinct other keys touched in between, is a duplicate and is never published.
   */
  lemma LateDeliveryIsNeverPublished(t: Traffic, first: nat, late: nat, moves: seq<nat>, capacity: nat)
    requires capacity > 0 && TrafficInv(t, capacity)
    requires first < |t.events| && late < |t.events| && t.events[first].key == t.events[late].key
    requires t.progress[first] == Finished(false) && t.progress[late].Fresh?
    requires |Since(t.touched, t.events[late].key)| < capacity
    ensures var end := AdvanceAll(Advance(t, late, capacity), moves, capacity);
            end.progress[late] == Finished(true) && late !in end.published
  {
    hide Advance, AdvanceAll, After, Since;
    PublishedIff(t, late, moves, capacity);
  }

  /** Lookup and insertion are two operations: two deliveries of a key that both look up first are both published. */
  lemma OverlappingDeliveriesBothPublish(t: Traffic, a: nat, b: nat, moves: seq<nat>, capacity: nat)
    requires capacity > 0 && TrafficInv(t, capacity) && a < |t.events| && b < |t.events| && a != b
    requires t.progress[a].Fresh? && t.progress[b].Fresh? && t.events[a].key == t.events[b].key
    requires t.events[a].queue != "" && t.events[b].queue != "" && !IsRecent(t.touched, t.events[a].key, capacity)
    requires a in moves && b in moves
    ensures var end := AdvanceAll(Advance(Advance(t, a, capacity), b, capacity), moves, capacity);
            a in end.published && b in end.published
  {
    hide Touch, After, IsRecent;
    HoldsExactlyTheRecent(t.touched, capacity, t.events[a].key);
    var t1 := Advance(t, a, capacity);
    AdvanceKeeps(t, a, capacity);
    assert ([b] + moves)[1..] == moves;
    PublishedIff(t, a, [b] + moves, capacity);
    PublishedIff(t1, b, moves, capacity);
  }

  /** Such a traffic exists: one event delivered twice to an empty cache. */
  lemma OneEventTwicePublished(e: Event, capacity: nat)
    requires capacity > 0 && e.queue != ""
    ensures var end := AdvanceAll(Arrived([e, e]), [0, 1, 0, 1], capacity); 0 in end.published && 1 in end.published
  {
    hide Advance, IsRecent, TrafficInv, Since;
    var t := Arrived([e, e]);
    assert TrafficInv(t, capacity) by { EveryTraffic([e, e], [], capacity); }
    assert !IsRecent([], e.key, capacity) by { NothingIsRecent(e.key, capacity); }
    var moves: seq<nat> := [0, 1, 0, 1];
    assert moves[1..] == [1, 0, 1] && moves[1..][1..] == [0, 1];
    OverlappingDeliveriesBothPublish(t, 0, 1, [0, 1], capacity);
  }

  lemma NothingIsRecent(key: string, capacity: nat)
    ensures !IsRecent([], key, capacity)
  {
  }
}
