/** Bags of issue texts, gathered from bags of entries, and the one sorted arrangement of a bag. */
module IssueBags {
  /** The sum of f over a bag; the order in which elements are picked is arbitrary. */
  ghost function Gather<T(!new)>(m: multiset<T>, f: T -> multiset<string>): multiset<string>
    decreases |m|
  {
    if m == multiset{} then multiset{}
    else
      var x :| x in m;
      f(x) + Gather(m - multiset{x}, f)
  }

  lemma {:induction false} GatherOne<T(!new)>(m: multiset<T>, f: T -> multiset<string>, x: T)
    requires x in m
    ensures Gather(m, f) == f(x) + Gather(m - multiset{x}, f)
    decreases |m|
  {
    var y :| y in m && Gather(m, f) == f(y) + Gather(m - multiset{y}, f);
    if y != x {
      var rest := m - multiset{y} - multiset{x};
      assert rest == m - multiset{x} - multiset{y};
      GatherOne(m - multiset{y}, f, x);
      GatherOne(m - multiset{x}, f, y);
      assert f(y) + (f(x) + Gather(rest, f)) == f(x) + (f(y) + Gather(rest, f));
    }
  }

  lemma GatherNone<T(!new)>(f: T -> multiset<string>)
    ensures Gather(multiset{}, f) == multiset{}
  {
  }

  lemma GatherAdd<T(!new)>(m: multiset<T>, f: T -> multiset<string>, x: T)
    ensures Gather(m + multiset{x}, f) == Gather(m, f) + f(x)
  {
    GatherOne(m + multiset{x}, f, x);
    assert m + multiset{x} - multiset{x} == m;
  }

  lemma {:induction false} GatherIsEmpty<T(!new)>(m: multiset<T>, f: T -> multiset<string>)
    ensures Gather(m, f) == multiset{} <==> forall x | x in m :: f(x) == multiset{}
    decreases |m|
  {
    if m != multiset{} {
      var x :| x in m && Gather(m, f) == f(x) + Gather(m - multiset{x}, f);
      GatherIsEmpty(m - multiset{x}, f);
      assert forall y | y in m :: y == x || y in m - multiset{x};
      assert forall t | t in f(x) :: t in f(x) + Gather(m - multiset{x}, f);
      assert forall t | t in Gather(m - multiset{x}, f) :: t in f(x) + Gather(m - multiset{x}, f);
    }
  }

  /** String order by code point, which is also the byte order of the UTF-8 encodings. */
  predicate AtMost(s: string, t: string) {
    s == "" || (t != "" && (s[0] < t[0] || (s[0] == t[0] && AtMost(s[1..], t[1..]))))
  }

  lemma {:induction false} AtMostOrders(s: string, t: string)
    ensures AtMost(s, t) || AtMost(t, s)
    ensures AtMost(s, t) && AtMost(t, s) ==> s == t
  {
    if s != "" && t != "" && s[0] == t[0] {
      AtMostOrders(s[1..], t[1..]);
      assert s == [s[0]] + s[1..] && t == [t[0]] + t[1..];
    }
  }

  lemma {:induction false} AtMostTransits(s: string, t: string, u: string)
    requires AtMost(s, t) && AtMost(t, u)
    ensures AtMost(s, u)
  {
    if s != "" && s[0] == t[0] && t[0] == u[0] {
      AtMostTransits(s[1..], t[1..], u[1..]);
    }
  }

  predicate IsSorted(s: seq<string>) {
    forall i, j | 0 <= i < j < |s| :: AtMost(s[i], s[j])
  }

  function Insert(x: string, s: seq<string>): (r: seq<string>)
    requires IsSorted(s)
    ensures IsSorted(r) && multiset(r) == multiset(s) + multiset{x}
  {
    if s == [] then [x]
    else if AtMost(x, s[0]) then
      assert forall i | 0 < i < |s| :: AtMost(x, s[i]) by {
        forall i | 0 < i < |s| ensures AtMost(x, s[i]) { AtMostTransits(x, s[0], s[i]); }
      }
      [x] + s
    else
      AtMostOrders(x, s[0]);
      assert s == [s[0]] + s[1..];
      var rest := Insert(x, s[1..]);
      assert forall y | y in rest :: AtMost(s[0], y) by {
        forall y | y in rest ensures AtMost(s[0], y) { assert y in multiset(rest); }
      }
      [s[0]] + rest
  }

  /** sort.Strings. */
  function SortStrings(s: seq<string>): (r: seq<string>)
    ensures IsSorted(r) && multiset(r) == multiset(s)
  {
    if s == [] then []
    else
      assert s == [s[0]] + s[1..];
      Insert(s[0], SortStrings(s[1..]))
  }

  lemma HeadIsLeast(s: seq<string>, x: string)
    requires IsSorted(s) && x in multiset(s)
    ensures AtMost(s[0], x)
  {
    var i :| 0 <= i < |s| && s[i] == x;
    AtMostOrders(s[0], s[0]);
  }

  lemma TailBag(s: seq<string>)
    requires s != []
    ensures s == [s[0]] + s[1..] && multiset(s[1..]) == multiset(s) - multiset{s[0]}
    ensures IsSorted(s) ==> IsSorted(s[1..])
  {
    hide AtMost;
    assert s == [s[0]] + s[1..];
  }

  lemma {:induction false} SortedIsUnique(s: seq<string>, t: seq<string>)
    requires IsSorted(s) && IsSorted(t) && multiset(s) == multiset(t)
    ensures s == t
  {
    hide AtMost, IsSorted;
    assert |s| == |multiset(s)| == |multiset(t)| == |t|;
    if s != [] {
      assert s[0] in multiset(s) && t[0] in multiset(t);
      HeadIsLeast(s, t[0]);
      HeadIsLeast(t, s[0]);
      AtMostOrders(s[0], t[0]);
      TailBag(s);
      TailBag(t);
      SortedIsUnique(s[1..], t[1..]);
    }
  }
}

/** The lint that keeps a describe contract and the supported operations together. */
module Contractcheck {
  import opened Options
  import opened IssueBags

  datatype ResourceType = ResourceType(name: string, defaultActions: seq<string>)
  datatype ActionDefinition = ActionDefinition(name: string, resourceTypes: seq<string>)
  datatype DescribeResponse = DescribeResponse(
    resourceTypes: seq<ResourceType>, actionCatalog: seq<ActionDefinition>, idempotentActions: seq<string>)

  /** The %q verb. */
  type Quote = string -> string

  function MissingFromCatalog(quote: Quote, op: string): string {
    "operation " + quote(op) + " in SupportedExecuteOperations is missing from ActionCatalog"
  }

  function MissingFromSupported(quote: Quote, name: string): string {
    "action " + quote(name) + " in ActionCatalog is missing from SupportedExecuteOperations"
  }

  function NoResourceTypes(quote: Quote, name: string): string {
    "action " + quote(name) + " has no resource_types"
  }

  function UnknownResourceType(quote: Quote, name: string, ref: string): string {
    "action " + quote(name) + " references unknown resource_type " + quote(ref)
  }

  function UnknownDefault(quote: Quote, name: string, op: string): string {
    "resource_type " + quote(name) + " default_actions references unknown operation " + quote(op)
  }

  function UnknownIdempotent(quote: Quote, op: string): string {
    "idempotent_actions references unknown operation " + quote(op)
  }

  function Join(lines: seq<string>, separator: string): string {
    if lines == [] then ""
    else if |lines| == 1 then lines[0]
    else lines[0] + separator + Join(lines[1..], separator)
  }

  const ITEM := "\n  - "

  function Render(lines: seq<string>): string {
    "describe contract drift detected:" + ITEM + Join(lines, ITEM)
  }

  // The contract with every order forgotten.

  /** An entry by its name and the bag of what it lists. */
  datatype Entry = Entry(name: string, listed: multiset<string>)

  datatype Contract = Contract(
    resourceTypes: multiset<Entry>, actionCatalog: multiset<Entry>, idempotentActions: multiset<string>,
    supported: multiset<string>)

  function ResourceEntry(rt: ResourceType): Entry {
    Entry(rt.name, multiset(rt.defaultActions))
  }

  function ActionEntry(a: ActionDefinition): Entry {
    Entry(a.name, multiset(a.resourceTypes))
  }

  function Entries<T>(items: seq<T>, entry: T -> Entry): multiset<Entry> {
    if items == [] then multiset{}
    else Entries(items[..|items| - 1], entry) + multiset{entry(items[|items| - 1])}
  }

  function Unordered(spec: DescribeResponse, supported: seq<string>): Contract {
    Contract(Entries(spec.resourceTypes, ResourceEntry), Entries(spec.actionCatalog, ActionEntry),
             multiset(spec.idempotentActions), multiset(supported))
  }

  ghost function Names(entries: multiset<Entry>): set<string> {
    set e | e in entries :: e.name
  }

  // What each check reports about one element.

  function CheckOperation(quote: Quote, catalog: set<string>): string -> multiset<string> {
    (op: string) => if op in catalog then multiset{} else multiset{MissingFromCatalog(quote, op)}
  }

  function CheckName(quote: Quote, supported: multiset<string>): string -> multiset<string> {
    (name: string) => if name in supported then multiset{} else multiset{MissingFromSupported(quote, name)}
  }

  function CheckReference(quote: Quote, name: string, known: set<string>): string -> multiset<string> {
    (ref: string) => if ref in known then multiset{} else multiset{UnknownResourceType(quote, name, ref)}
  }

  ghost function CheckAction(quote: Quote, known: set<string>): Entry -> multiset<string> {
    (a: Entry) => if a.listed == multiset{} then multiset{NoResourceTypes(quote, a.name)}
                  else Gather(a.listed, CheckReference(quote, a.name, known))
  }

  function CheckDefault(quote: Quote, name: string, supported: multiset<string>): string -> multiset<string> {
    (op: string) => if op in supported then multiset{} else multiset{UnknownDefault(quote, name, op)}
  }

  ghost function CheckResource(quote: Quote, supported: multiset<string>): Entry -> multiset<string> {
    (rt: Entry) => Gather(rt.listed, CheckDefault(quote, rt.name, supported))
  }

  function CheckIdempotent(quote: Quote, supported: multiset<string>): string -> multiset<string> {
    (op: string) => if op in supported then multiset{} else multiset{UnknownIdempotent(quote, op)}
  }

  /** Every issue of a contract, with multiplicity; catalog names count once, list elements each time. */
  ghost function Issues(quote: Quote, c: Contract): multiset<string> {
    Gather(c.supported, CheckOperation(quote, Names(c.actionCatalog)))
    + Gather(multiset(Names(c.actionCatalog)), CheckName(quote, c.supported))
    + Gather(c.actionCatalog, CheckAction(quote, Names(c.resourceTypes)))
    + Gather(c.resourceTypes, CheckResource(quote, c.supported))
    + Gather(c.idempotentActions, CheckIdempotent(quote, c.supported))
  }

  /** nil for no issue, otherwise the issues in sorted order. */
  ghost predicate IsReport(report: Option<string>, issues: multiset<string>) {
    exists lines :: IsSorted(lines) && multiset(lines) == issues
                    && report == if lines == [] then None else Some(Render(lines))
  }

  lemma {:induction false} EntriesHold<T>(items: seq<T>, entry: T -> Entry)
    ensures forall e :: e in Entries(items, entry) <==> exists i :: 0 <= i < |items| && e == entry(items[i])
  {
    if items != [] {
      EntriesHold(items[..|items| - 1], entry);
      forall e ensures e in Entries(items, entry) <==> exists i :: 0 <= i < |items| && e == entry(items[i]) {
        if e == entry(items[|items| - 1]) {
        } else if e in Entries(items, entry) {
          var i :| 0 <= i < |items| - 1 && e == entry(items[..|items| - 1][i]);
          assert items[i] == items[..|items| - 1][i];
        } else {
          forall i | 0 <= i < |items| ensures e != entry(items[i]) {
            if i < |items| - 1 {
              assert items[i] == items[..|items| - 1][i];
            }
          }
        }
      }
    }
  }

  lemma EntriesGrow<T>(items: seq<T>, entry: T -> Entry, i: nat)
    requires i < |items|
    ensures Entries(items[..i + 1], entry) == Entries(items[..i], entry) + multiset{entry(items[i])}
  {
    assert items[..i + 1][..i] == items[..i];
  }

  lemma BagGrows(items: seq<string>, i: nat)
    requires i < |items|
    ensures multiset(items[..i + 1]) == multiset(items[..i]) + multiset{items[i]}
  {
    assert items[..i + 1] == items[..i] + [items[i]];
  }

  // The checks, in source order; each returns what it appends to the issues.

  method CheckOperations(quote: Quote, catalog: map<string, ActionDefinition>, supportedOps: seq<string>)
    returns (found: seq<string>)
    ensures multiset(found) == Gather(multiset(supportedOps), CheckOperation(quote, catalog.Keys))
  {
    hide MissingFromCatalog, Gather;
    ghost var check := CheckOperation(quote, catalog.Keys);
    found := [];
    GatherNone(check);
    assert multiset(supportedOps[..0]) == multiset{};
    for i := 0 to |supportedOps|
      invariant multiset(found) == Gather(multiset(supportedOps[..i]), check)
    {
      BagGrows(supportedOps, i);
      GatherAdd(multiset(supportedOps[..i]), check, supportedOps[i]);
      if supportedOps[i] !in catalog {
        found := found + [MissingFromCatalog(quote, supportedOps[i])];
      }
    }
    assert supportedOps[..|supportedOps|] == supportedOps;
  }

  lemma NameStep(quote: Quote, supportedOps: seq<string>, seen: set<string>, name: string)
    requires name !in seen
    ensures var check := CheckName(quote, multiset(supportedOps));
            Gather(multiset(seen + {name}), check) == Gather(multiset(seen), check)
              + if name in supportedOps then multiset{} else multiset{MissingFromSupported(quote, name)}
  {
    hide Gather, MissingFromSupported;
    assert multiset(seen + {name}) == multiset(seen) + multiset{name};
    GatherAdd(multiset(seen), CheckName(quote, multiset(supportedOps)), name);
  }

  /** The catalog map is iterated in an arbitrary order. */
  method CheckNames(quote: Quote, catalog: map<string, ActionDefinition>, supportedOps: seq<string>)
    returns (found: seq<string>)
    ensures multiset(found) == Gather(multiset(catalog.Keys), CheckName(quote, multiset(supportedOps)))
  {
    hide MissingFromSupported, Gather, CheckName;
    ghost var check := CheckName(quote, multiset(supportedOps));
    found := [];
    GatherNone(check);
    var rest := catalog.Keys;
    ghost var seen: set<string> := {};
    assert multiset(seen) == multiset{};
    while rest != {}
      invariant seen !! rest
      invariant seen + rest == catalog.Keys
      invariant multiset(found) == Gather(multiset(seen), check)
      decreases |rest|
    {
      var name :| name in rest;
      NameStep(quote, supportedOps, seen, name);
      if name !in supportedOps {
        found := found + [MissingFromSupported(quote, name)];
      }
      rest, seen := rest - {name}, seen + {name};
    }
    assert seen == catalog.Keys;
  }

  method CheckReferences(quote: Quote, action: ActionDefinition, known: set<string>) returns (found: seq<string>)
    ensures multiset(found) == CheckAction(quote, known)(ActionEntry(action))
  {
    hide NoResourceTypes, UnknownResourceType, Gather;
    if |action.resourceTypes| == 0 {
      return [NoResourceTypes(quote, action.name)];
    }
    ghost var check := CheckReference(quote, action.name, known);
    found := [];
    GatherNone(check);
    assert multiset(action.resourceTypes[..0]) == multiset{};
    for i := 0 to |action.resourceTypes|
      invariant multiset(found) == Gather(multiset(action.resourceTypes[..i]), check)
    {
      BagGrows(action.resourceTypes, i);
      GatherAdd(multiset(action.resourceTypes[..i]), check, action.resourceTypes[i]);
      if action.resourceTypes[i] !in known {
        found := found + [UnknownResourceType(quote, action.name, action.resourceTypes[i])];
      }
    }
    assert action.resourceTypes[..|action.resourceTypes|] == action.resourceTypes;
    assert action.resourceTypes[0] in multiset(action.resourceTypes);
  }

  method CheckActions(quote: Quote, actions: seq<ActionDefinition>, known: set<string>) returns (found: seq<string>)
    ensures multiset(found) == Gather(Entries(actions, ActionEntry), CheckAction(quote, known))
  {
    hide CheckAction, ActionEntry;
    found := [];
    for i := 0 to |actions|
      invariant multiset(found) == Gather(Entries(actions[..i], ActionEntry), CheckAction(quote, known))
    {
      EntriesGrow(actions, ActionEntry, i);
      GatherAdd(Entries(actions[..i], ActionEntry), CheckAction(quote, known), ActionEntry(actions[i]));
      var more := CheckReferences(quote, actions[i], known);
      found := found + more;
    }
    assert actions[..|actions|] == actions;
  }

  method CheckDefaults(quote: Quote, rt: ResourceType, supportedOps: seq<string>) returns (found: seq<string>)
    ensures multiset(found) == CheckResource(quote, multiset(supportedOps))(ResourceEntry(rt))
  {
    hide UnknownDefault, Gather;
    ghost var check := CheckDefault(quote, rt.name, multiset(supportedOps));
    found := [];
    GatherNone(check);
    assert multiset(rt.defaultActions[..0]) == multiset{};
    for i := 0 to |rt.defaultActions|
      invariant multiset(found) == Gather(multiset(rt.defaultActions[..i]), check)
    {
      BagGrows(rt.defaultActions, i);
      GatherAdd(multiset(rt.defaultActions[..i]), check, rt.defaultActions[i]);
      if rt.defaultActions[i] !in supportedOps {
        found := found + [UnknownDefault(quote, rt.name, rt.defaultActions[i])];
      }
    }
    assert rt.defaultActions[..|rt.defaultActions|] == rt.defaultActions;
  }

  method CheckResources(quote: Quote, resources: seq<ResourceType>, supportedOps: seq<string>)
    returns (found: seq<string>)
    ensures multiset(found) == Gather(Entries(resources, ResourceEntry), CheckResource(quote, multiset(supportedOps)))
  {
    hide CheckResource, ResourceEntry;
    found := [];
    for i := 0 to |resources|
      invariant multiset(found)
             == Gather(Entries(resources[..i], ResourceEntry), CheckResource(quote, multiset(supportedOps)))
    {
      EntriesGrow(resources, ResourceEntry, i);
      GatherAdd(Entries(resources[..i], ResourceEntry), CheckResource(quote, multiset(supportedOps)),
                ResourceEntry(resources[i]));
      var more := CheckDefaults(quote, resources[i], supportedOps);
      found := found + more;
    }
    assert resources[..|resources|] == resources;
  }

  method CheckIdempotents(quote: Quote, actions: seq<string>, supportedOps: seq<string>) returns (found: seq<string>)
    ensures multiset(found) == Gather(multiset(actions), CheckIdempotent(quote, multiset(supportedOps)))
  {
    hide UnknownIdempotent, Gather;
    ghost var check := CheckIdempotent(quote, multiset(supportedOps));
    found := [];
    GatherNone(check);
    assert multiset(actions[..0]) == multiset{};
    for i := 0 to |actions|
      invariant multiset(found) == Gather(multiset(actions[..i]), check)
    {
      BagGrows(actions, i);
      GatherAdd(multiset(actions[..i]), check, actions[i]);
      if actions[i] !in supportedOps {
        found := found + [UnknownIdempotent(quote, actions[i])];
      }
    }
    assert actions[..|actions|] == actions;
  }

  /** The name-keyed catalog; a repeated name keeps its last definition. */
  method IndexCatalog(actions: seq<ActionDefinition>) returns (catalog: map<string, ActionDefinition>)
    ensures catalog.Keys == Names(Entries(actions, ActionEntry))
  {
    hide Names;
    catalog := map[];
    NoNames();
    for i := 0 to |actions|
      invariant catalog.Keys == Names(Entries(actions[..i], ActionEntry))
    {
      EntriesGrow(actions, ActionEntry, i);
      NamesGrow(Entries(actions[..i], ActionEntry), ActionEntry(actions[i]));
      catalog := catalog[actions[i].name := actions[i]];
    }
    assert actions[..|actions|] == actions;
  }

  /** newStringSet, over the resource type names. */
  method IndexResources(resources: seq<ResourceType>) returns (known: set<string>)
    ensures known == Names(Entries(resources, ResourceEntry))
  {
    hide Names;
    known := {};
    NoNames();
    for i := 0 to |resources|
      invariant known == Names(Entries(resources[..i], ResourceEntry))
    {
      EntriesGrow(resources, ResourceEntry, i);
      NamesGrow(Entries(resources[..i], ResourceEntry), ResourceEntry(resources[i]));
      known := known + {resources[i].name};
    }
    assert resources[..|resources|] == resources;
  }

  lemma NoNames()
    ensures Names(multiset{}) == {}
  {
  }

  lemma NamesGrow(entries: multiset<Entry>, e: Entry)
    ensures Names(entries + multiset{e}) == Names(entries) + {e.name}
  {
  }

  /** LintDescribeContract: the report depends only on the bag of issues. */
  method LintDescribeContract(quote: Quote, spec: DescribeResponse, supportedOps: seq<string>)
    returns (report: Option<string>)
    ensures IsReport(report, Issues(quote, Unordered(spec, supportedOps)))
  {
    hide Gather, Entries, Render, Names, IsSorted, CheckOperation, CheckName, CheckAction, CheckResource,
         CheckIdempotent;
    var catalog := IndexCatalog(spec.actionCatalog);
    var resources := IndexResources(spec.resourceTypes);
    var missing := CheckOperations(quote, catalog, supportedOps);
    var extra := CheckNames(quote, catalog, supportedOps);
    var references := CheckActions(quote, spec.actionCatalog, resources);
    var defaults := CheckResources(quote, spec.resourceTypes, supportedOps);
    var idempotents := CheckIdempotents(quote, spec.idempotentActions, supportedOps);
    var issues := missing + extra + references + defaults + idempotents;
    var lines := SortStrings(issues);
    report := if |issues| == 0 then None else Some(Render(lines));
    assert |lines| == |multiset(lines)| == |multiset(issues)| == |issues|;
    assert multiset(lines) == Issues(quote, Unordered(spec, supportedOps));
  }

  // What the report promises.

  /** The six documented relations. */
  ghost predicate IsConsistent(spec: DescribeResponse, supportedOps: seq<string>) {
    && (forall op | op in supportedOps :: exists a :: a in spec.actionCatalog && a.name == op)
    && (forall a | a in spec.actionCatalog :: a.name in supportedOps)
    && (forall a | a in spec.actionCatalog :: a.resourceTypes != [])
    && (forall a, ref | a in spec.actionCatalog && ref in a.resourceTypes ::
          exists rt :: rt in spec.resourceTypes && rt.name == ref)
    && (forall rt, op | rt in spec.resourceTypes && op in rt.defaultActions :: op in supportedOps)
    && (forall op | op in spec.idempotentActions :: op in supportedOps)
  }

  lemma ReportIsUnique(r1: Option<string>, r2: Option<string>, issues: multiset<string>)
    requires IsReport(r1, issues) && IsReport(r2, issues)
    ensures r1 == r2
  {
    hide Render, IsSorted;
    var s :| IsSorted(s) && multiset(s) == issues && r1 == if s == [] then None else Some(Render(s));
    var t :| IsSorted(t) && multiset(t) == issues && r2 == if t == [] then None else Some(Render(t));
    SortedIsUnique(s, t);
  }

  lemma NamesOfActions(actions: seq<ActionDefinition>, name: string)
    ensures name in Names(Entries(actions, ActionEntry)) <==> exists a :: a in actions && a.name == name
  {
  }

  lemma NamesOfResources(resources: seq<ResourceType>, name: string)
    ensures name in Names(Entries(resources, ResourceEntry)) <==> exists rt :: rt in resources && rt.name == name
  {
  }

  lemma OperationsSilent(quote: Quote, spec: DescribeResponse, supportedOps: seq<string>)
    ensures Gather(multiset(supportedOps), CheckOperation(quote, Names(Entries(spec.actionCatalog, ActionEntry))))
            == multiset{}
       <==> forall op | op in supportedOps :: exists a :: a in spec.actionCatalog && a.name == op
  {
    var names := Names(Entries(spec.actionCatalog, ActionEntry));
    GatherIsEmpty(multiset(supportedOps), CheckOperation(quote, names));
    forall op ensures op in names <==> exists a :: a in spec.actionCatalog && a.name == op {
      NamesOfActions(spec.actionCatalog, op);
    }
    hide Gather, Entries, Names, MissingFromCatalog;
    assert forall op :: op in supportedOps <==> op in multiset(supportedOps);
  }

  lemma NamesSilent(quote: Quote, spec: DescribeResponse, supportedOps: seq<string>)
    ensures Gather(multiset(Names(Entries(spec.actionCatalog, ActionEntry))), CheckName(quote, multiset(supportedOps)))
            == multiset{}
       <==> forall a | a in spec.actionCatalog :: a.name in supportedOps
  {
    var names := Names(Entries(spec.actionCatalog, ActionEntry));
    var check := CheckName(quote, multiset(supportedOps));
    GatherIsEmpty(multiset(names), check);
    forall name ensures name in names <==> exists a :: a in spec.actionCatalog && a.name == name {
      NamesOfActions(spec.actionCatalog, name);
    }
    hide Gather, Entries, Names, MissingFromSupported;
    assert forall name :: name in names <==> name in multiset(names);
    assert forall name :: check(name) == multiset{} <==> name in supportedOps;
    if forall name | name in names :: name in supportedOps {
      forall a | a in spec.actionCatalog ensures a.name in supportedOps {
        assert a.name in names;
      }
    }
  }

  lemma ReferencesSilent(quote: Quote, spec: DescribeResponse, a: ActionDefinition)
    ensures Gather(multiset(a.resourceTypes),
                   CheckReference(quote, a.name, Names(Entries(spec.resourceTypes, ResourceEntry)))) == multiset{}
       <==> forall ref | ref in a.resourceTypes :: exists rt :: rt in spec.resourceTypes && rt.name == ref
  {
    var known := Names(Entries(spec.resourceTypes, ResourceEntry));
    GatherIsEmpty(multiset(a.resourceTypes), CheckReference(quote, a.name, known));
    forall ref ensures ref in known <==> exists rt :: rt in spec.resourceTypes && rt.name == ref {
      NamesOfResources(spec.resourceTypes, ref);
    }
    hide Gather, Entries, Names, UnknownResourceType;
    assert forall ref :: ref in a.resourceTypes <==> ref in multiset(a.resourceTypes);
  }

  lemma ActionSilent(quote: Quote, spec: DescribeResponse, a: ActionDefinition)
    ensures CheckAction(quote, Names(Entries(spec.resourceTypes, ResourceEntry)))(ActionEntry(a)) == multiset{}
       <==> a.resourceTypes != []
            && forall ref | ref in a.resourceTypes :: exists rt :: rt in spec.resourceTypes && rt.name == ref
  {
    hide Gather, Entries, Names, CheckReference, NoResourceTypes;
    ReferencesSilent(quote, spec, a);
    assert a.resourceTypes != [] ==> a.resourceTypes[0] in multiset(a.resourceTypes);
  }

  lemma ResourceSilent(quote: Quote, rt: ResourceType, supportedOps: seq<string>)
    ensures CheckResource(quote, multiset(supportedOps))(ResourceEntry(rt)) == multiset{}
       <==> forall op | op in rt.defaultActions :: op in supportedOps
  {
    GatherIsEmpty(multiset(rt.defaultActions), CheckDefault(quote, rt.name, multiset(supportedOps)));
    hide Gather, UnknownDefault;
    assert forall op :: op in rt.defaultActions <==> op in multiset(rt.defaultActions);
  }

  /** A check over listed items is silent exactly when it is silent on each of them. */
  lemma EntriesSilent<T>(items: seq<T>, entry: T -> Entry, check: Entry -> multiset<string>)
    ensures Gather(Entries(items, entry), check) == multiset{}
       <==> forall i | 0 <= i < |items| :: check(entry(items[i])) == multiset{}
  {
    GatherIsEmpty(Entries(items, entry), check);
    EntriesHold(items, entry);
    hide Gather, Entries;
    var entries := Entries(items, entry);
    if forall e | e in entries :: check(e) == multiset{} {
      forall i | 0 <= i < |items| ensures check(entry(items[i])) == multiset{} {
        assert entry(items[i]) in entries;
      }
    }
  }

  lemma IdempotentsSilent(quote: Quote, spec: DescribeResponse, supportedOps: seq<string>)
    ensures Gather(multiset(spec.idempotentActions), CheckIdempotent(quote, multiset(supportedOps))) == multiset{}
       <==> forall op | op in spec.idempotentActions :: op in supportedOps
  {
    GatherIsEmpty(multiset(spec.idempotentActions), CheckIdempotent(quote, multiset(supportedOps)));
    hide Gather, UnknownIdempotent;
    assert forall op :: op in spec.idempotentActions <==> op in multiset(spec.idempotentActions);
  }

  lemma ActionsSilent(quote: Quote, spec: DescribeResponse)
    ensures Gather(Entries(spec.actionCatalog, ActionEntry),
                   CheckAction(quote, Names(Entries(spec.resourceTypes, ResourceEntry)))) == multiset{}
       <==> && (forall a | a in spec.actionCatalog :: a.resourceTypes != [])
            && (forall a, ref | a in spec.actionCatalog && ref in a.resourceTypes ::
                  exists rt :: rt in spec.resourceTypes && rt.name == ref)
  {
    hide Gather, Entries, Names, CheckAction, ActionEntry;
    EntriesSilent(spec.actionCatalog, ActionEntry,
                  CheckAction(quote, Names(Entries(spec.resourceTypes, ResourceEntry))));
    forall i | 0 <= i < |spec.actionCatalog| {
      ActionSilent(quote, spec, spec.actionCatalog[i]);
    }
  }

  lemma ResourcesSilent(quote: Quote, spec: DescribeResponse, supportedOps: seq<string>)
    ensures Gather(Entries(spec.resourceTypes, ResourceEntry), CheckResource(quote, multiset(supportedOps)))
            == multiset{}
       <==> forall rt, op | rt in spec.resourceTypes && op in rt.defaultActions :: op in supportedOps
  {
    hide Gather, Entries, CheckResource, ResourceEntry;
    EntriesSilent(spec.resourceTypes, ResourceEntry, CheckResource(quote, multiset(supportedOps)));
    forall i | 0 <= i < |spec.resourceTypes| {
      ResourceSilent(quote, spec.resourceTypes[i], supportedOps);
    }
  }

  lemma NilMeansNoIssue(report: Option<string>, issues: multiset<string>)
    requires IsReport(report, issues)
    ensures report.None? <==> issues == multiset{}
  {
  }

  lemma SumIsEmpty(a: multiset<string>, b: multiset<string>)
    ensures a + b == multiset{} <==> a == multiset{} && b == multiset{}
  {
  }

  /** nil exactly when the six documented relations hold. */
  lemma NilMeansConsistent(quote: Quote, spec: DescribeResponse, supportedOps: seq<string>, report: Option<string>)
    requires IsReport(report, Issues(quote, Unordered(spec, supportedOps)))
    ensures report.None? <==> IsConsistent(spec, supportedOps)
  {
    hide IsReport, Gather, Entries, Names, CheckOperation, CheckName, CheckAction, CheckResource, CheckIdempotent;
    var c := Unordered(spec, supportedOps);
    NilMeansNoIssue(report, Issues(quote, c));
    OperationsSilent(quote, spec, supportedOps);
    NamesSilent(quote, spec, supportedOps);
    ActionsSilent(quote, spec);
    ResourcesSilent(quote, spec, supportedOps);
    IdempotentsSilent(quote, spec, supportedOps);
    var a := Gather(c.supported, CheckOperation(quote, Names(c.actionCatalog)));
    var b := Gather(multiset(Names(c.actionCatalog)), CheckName(quote, c.supported));
    var d := Gather(c.actionCatalog, CheckAction(quote, Names(c.resourceTypes)));
    var e := Gather(c.resourceTypes, CheckResource(quote, c.supported));
    var f := Gather(c.idempotentActions, CheckIdempotent(quote, c.supported));
    assert Issues(quote, c) == a + b + d + e + f;
    SumIsEmpty(a, b);
    SumIsEmpty(a + b, d);
    SumIsEmpty(a + b + d, e);
    SumIsEmpty(a + b + d + e, f);
  }

  // Order.

  lemma DropEarlier<T>(items: seq<T>, k: nat)
    requires k < |items| - 1
    ensures var short, n := items[..k] + items[k + 1..], |items| - 1;
            && |short| == n && items[..n][k] == items[k]
            && short[..n - 1] == items[..n][..k] + items[..n][k + 1..] && short[n - 1] == items[n]
  {
  }

  lemma {:induction false} EntriesWithout<T>(items: seq<T>, entry: T -> Entry, k: nat)
    requires k < |items|
    ensures Entries(items, entry) == Entries(items[..k] + items[k + 1..], entry) + multiset{entry(items[k])}
  {
    var n := |items| - 1;
    if k == n {
      assert items[..k] + items[k + 1..] == items[..n];
    } else {
      EntriesWithout(items[..n], entry, k);
      DropEarlier(items, k);
    }
  }

  lemma {:induction false} EntriesPermute<T>(items: seq<T>, other: seq<T>, entry: T -> Entry)
    requires multiset(items) == multiset(other)
    ensures Entries(items, entry) == Entries(other, entry)
  {
    assert |items| == |multiset(items)| == |multiset(other)| == |other|;
    if items != [] {
      var n := |items| - 1;
      assert items == items[..n] + [items[n]];
      assert items[n] in multiset(other);
      var k :| 0 <= k < |other| && other[k] == items[n];
      assert other == other[..k] + [other[k]] + other[k + 1..];
      assert multiset(other[..k] + other[k + 1..]) == multiset(other) - multiset{items[n]} == multiset(items[..n]);
      EntriesPermute(items[..n], other[..k] + other[k + 1..], entry);
      EntriesWithout(other, entry, k);
    }
  }

  lemma {:induction false} EntriesAgree<T>(items: seq<T>, other: seq<T>, entry: T -> Entry)
    requires |items| == |other| && forall i | 0 <= i < |items| :: entry(items[i]) == entry(other[i])
    ensures Entries(items, entry) == Entries(other, entry)
  {
    if items != [] {
      var n := |items| - 1;
      EntriesAgree(items[..n], other[..n], entry);
    }
  }

  /** The same items in another order, each listing the same names in another order. */
  ghost predicate Reorders<T(!new)>(items: seq<T>, other: seq<T>, entry: T -> Entry) {
    exists shuffled: seq<T> ::
      && multiset(shuffled) == multiset(items)
      && |shuffled| == |other| && forall i | 0 <= i < |other| :: entry(shuffled[i]) == entry(other[i])
  }

  /** Permuting the input lists, outer or inner, or iterating the map otherwise, never changes the text. */
  lemma OrderDoesNotMatter(quote: Quote, spec1: DescribeResponse, ops1: seq<string>,
                           spec2: DescribeResponse, ops2: seq<string>,
                           report1: Option<string>, report2: Option<string>)
    requires Reorders(spec1.resourceTypes, spec2.resourceTypes, ResourceEntry)
    requires Reorders(spec1.actionCatalog, spec2.actionCatalog, ActionEntry)
    requires multiset(spec1.idempotentActions) == multiset(spec2.idempotentActions) && multiset(ops1) == multiset(ops2)
    requires IsReport(report1, Issues(quote, Unordered(spec1, ops1)))
    requires IsReport(report2, Issues(quote, Unordered(spec2, ops2)))
    ensures report1 == report2
  {
    hide IsReport, Issues, Entries, ResourceEntry, ActionEntry;
    var rs: seq<ResourceType> :| multiset(rs) == multiset(spec1.resourceTypes) && |rs| == |spec2.resourceTypes|
      && forall i | 0 <= i < |rs| :: ResourceEntry(rs[i]) == ResourceEntry(spec2.resourceTypes[i]);
    EntriesPermute(rs, spec1.resourceTypes, ResourceEntry);
    EntriesAgree(rs, spec2.resourceTypes, ResourceEntry);
    var actions: seq<ActionDefinition> :|
      multiset(actions) == multiset(spec1.actionCatalog) && |actions| == |spec2.actionCatalog|
      && forall i | 0 <= i < |actions| :: ActionEntry(actions[i]) == ActionEntry(spec2.actionCatalog[i]);
    EntriesPermute(actions, spec1.actionCatalog, ActionEntry);
    EntriesAgree(actions, spec2.actionCatalog, ActionEntry);
    assert Unordered(spec1, ops1) == Unordered(spec2, ops2);
    ReportIsUnique(report1, report2, Issues(quote, Unordered(spec1, ops1)));
  }

  // The text of a report.

  /** Each line on a line of its own, under the header. */
  function Listing(lines: seq<string>): string {
    if lines == [] then "" else "\n  - " + lines[0] + Listing(lines[1..])
  }

  lemma {:induction false} JoinLists(lines: seq<string>)
    requires lines != []
    ensures ITEM + Join(lines, ITEM) == Listing(lines)
  {
    if |lines| > 1 {
      JoinLists(lines[1..]);
      assert ITEM + Join(lines, ITEM) == ITEM + lines[0] + (ITEM + Join(lines[1..], ITEM));
    } else {
      assert lines[1..] == [] && Listing([]) == "";
      assert ITEM + lines[0] + "" == ITEM + lines[0];
    }
  }

  /** No line is dropped. */
  lemma RenderLists(lines: seq<string>)
    requires lines != []
    ensures Render(lines) == "describe contract drift detected:" + Listing(lines)
  {
    hide Join, Listing;
    JoinLists(lines);
  }

  lemma {:induction false} GatherHas<T(!new)>(m: multiset<T>, f: T -> multiset<string>, text: string)
    ensures text in Gather(m, f) <==> exists x :: x in m && text in f(x)
    decreases |m|
  {
    if m != multiset{} {
      var y :| y in m && Gather(m, f) == f(y) + Gather(m - multiset{y}, f);
      GatherHas(m - multiset{y}, f, text);
      assert forall x | x in m :: x == y || x in m - multiset{y};
      assert forall x | x in m - multiset{y} :: x in m;
    }
  }

  // One lemma per check: the lines it writes, in the terms of the contract.

  ghost predicate IsOperationLine(quote: Quote, spec: DescribeResponse, supportedOps: seq<string>, text: string) {
    exists op :: op in supportedOps && (forall a | a in spec.actionCatalog :: a.name != op)
      && text == "operation " + quote(op) + " in SupportedExecuteOperations is missing from ActionCatalog"
  }

  ghost predicate IsNameLine(quote: Quote, spec: DescribeResponse, supportedOps: seq<string>, text: string) {
    exists a :: a in spec.actionCatalog && a.name !in supportedOps
      && text == "action " + quote(a.name) + " in ActionCatalog is missing from SupportedExecuteOperations"
  }

  ghost predicate IsActionLine(quote: Quote, spec: DescribeResponse, a: ActionDefinition, text: string) {
    || (a.resourceTypes == [] && text == "action " + quote(a.name) + " has no resource_types")
    || (exists ref :: ref in a.resourceTypes && (forall rt | rt in spec.resourceTypes :: rt.name != ref)
          && text == "action " + quote(a.name) + " references unknown resource_type " + quote(ref))
  }

  ghost predicate IsTypeLine(quote: Quote, spec: DescribeResponse, text: string) {
    exists a :: a in spec.actionCatalog && IsActionLine(quote, spec, a, text)
  }

  ghost predicate IsDefaultLine(quote: Quote, spec: DescribeResponse, supportedOps: seq<string>, text: string) {
    exists rt, op :: rt in spec.resourceTypes && op in rt.defaultActions && op !in supportedOps
      && text == "resource_type " + quote(rt.name) + " default_actions references unknown operation " + quote(op)
  }

  ghost predicate IsIdempotentLine(quote: Quote, spec: DescribeResponse, supportedOps: seq<string>, text: string) {
    exists op :: op in spec.idempotentActions && op !in supportedOps
      && text == "idempotent_actions references unknown operation " + quote(op)
  }

  lemma OperationLines(quote: Quote, spec: DescribeResponse, supportedOps: seq<string>, text: string)
    ensures text in Gather(multiset(supportedOps),
                           CheckOperation(quote, Names(Entries(spec.actionCatalog, ActionEntry))))
       <==> IsOperationLine(quote, spec, supportedOps, text)
  {
    var check := CheckOperation(quote, Names(Entries(spec.actionCatalog, ActionEntry)));
    GatherHas(multiset(supportedOps), check, text);
    forall op {
      NamesOfActions(spec.actionCatalog, op);
    }
    hide Gather, Entries, Names;
    assert forall op :: op in supportedOps <==> op in multiset(supportedOps);
  }

  lemma NameLines(quote: Quote, spec: DescribeResponse, supportedOps: seq<string>, text: string)
    ensures text in Gather(multiset(Names(Entries(spec.actionCatalog, ActionEntry))),
                           CheckName(quote, multiset(supportedOps)))
       <==> IsNameLine(quote, spec, supportedOps, text)
  {
    var names := Names(Entries(spec.actionCatalog, ActionEntry));
    var check := CheckName(quote, multiset(supportedOps));
    GatherHas(multiset(names), check, text);
    forall name ensures name in names <==> exists a :: a in spec.actionCatalog && a.name == name {
      NamesOfActions(spec.actionCatalog, name);
    }
    forall name
      ensures text in check(name)
         <==> name !in supportedOps
              && text == "action " + quote(name) + " in ActionCatalog is missing from SupportedExecuteOperations"
    {
      CheckNameIs(quote, supportedOps, name, text);
    }
    hide Gather, Entries, Names, CheckName, MissingFromSupported;
    assert forall name :: name in multiset(names) <==> name in names;
    if IsNameLine(quote, spec, supportedOps, text) {
      var a :| a in spec.actionCatalog && a.name !in supportedOps
               && text == "action " + quote(a.name) + " in ActionCatalog is missing from SupportedExecuteOperations";
      assert a.name in multiset(names) && text in check(a.name);
    }
  }

  lemma CheckNameIs(quote: Quote, supportedOps: seq<string>, name: string, text: string)
    ensures text in CheckName(quote, multiset(supportedOps))(name)
       <==> name !in supportedOps
            && text == "action " + quote(name) + " in ActionCatalog is missing from SupportedExecuteOperations"
  {
  }

  /** The entries of the listed items, one by one. */
  lemma EntryLines<T>(items: seq<T>, entry: T -> Entry, check: Entry -> multiset<string>, text: string)
    ensures text in Gather(Entries(items, entry), check)
       <==> exists i | 0 <= i < |items| :: text in check(entry(items[i]))
  {
    GatherHas(Entries(items, entry), check, text);
    EntriesHold(items, entry);
    hide Gather, Entries;
    if i :| 0 <= i < |items| && text in check(entry(items[i])) {
      assert entry(items[i]) in Entries(items, entry);
    }
  }

  lemma ActionLines(quote: Quote, spec: DescribeResponse, a: ActionDefinition, text: string)
    ensures text in CheckAction(quote, Names(Entries(spec.resourceTypes, ResourceEntry)))(ActionEntry(a))
       <==> IsActionLine(quote, spec, a, text)
  {
    var known := Names(Entries(spec.resourceTypes, ResourceEntry));
    GatherHas(multiset(a.resourceTypes), CheckReference(quote, a.name, known), text);
    forall ref {
      NamesOfResources(spec.resourceTypes, ref);
    }
    hide Gather, Entries, Names;
    assert forall ref :: ref in a.resourceTypes <==> ref in multiset(a.resourceTypes);
    assert a.resourceTypes != [] ==> a.resourceTypes[0] in multiset(a.resourceTypes);
  }

  lemma TypeLines(quote: Quote, spec: DescribeResponse, text: string)
    ensures text in Gather(Entries(spec.actionCatalog, ActionEntry),
                           CheckAction(quote, Names(Entries(spec.resourceTypes, ResourceEntry))))
       <==> IsTypeLine(quote, spec, text)
  {
    hide Gather, Entries, Names, CheckAction, ActionEntry, IsActionLine;
    var check := CheckAction(quote, Names(Entries(spec.resourceTypes, ResourceEntry)));
    EntryLines(spec.actionCatalog, ActionEntry, check, text);
    forall i | 0 <= i < |spec.actionCatalog|
      ensures text in check(ActionEntry(spec.actionCatalog[i]))
         <==> IsActionLine(quote, spec, spec.actionCatalog[i], text)
    {
      ActionLines(quote, spec, spec.actionCatalog[i], text);
    }
  }

  lemma ResourceLines(quote: Quote, rt: ResourceType, supportedOps: seq<string>, text: string)
    ensures text in CheckResource(quote, multiset(supportedOps))(ResourceEntry(rt))
       <==> exists op :: op in rt.defaultActions && op !in supportedOps
              && text == "resource_type " + quote(rt.name) + " default_actions references unknown operation "
                         + quote(op)
  {
    GatherHas(multiset(rt.defaultActions), CheckDefault(quote, rt.name, multiset(supportedOps)), text);
    hide Gather;
    assert forall op :: op in rt.defaultActions <==> op in multiset(rt.defaultActions);
  }

  lemma DefaultLines(quote: Quote, spec: DescribeResponse, supportedOps: seq<string>, text: string)
    ensures text in Gather(Entries(spec.resourceTypes, ResourceEntry), CheckResource(quote, multiset(supportedOps)))
       <==> IsDefaultLine(quote, spec, supportedOps, text)
  {
    hide Gather, Entries, CheckResource, ResourceEntry;
    EntryLines(spec.resourceTypes, ResourceEntry, CheckResource(quote, multiset(supportedOps)), text);
    forall i | 0 <= i < |spec.resourceTypes| {
      ResourceLines(quote, spec.resourceTypes[i], supportedOps, text);
    }
  }

  lemma IdempotentLines(quote: Quote, spec: DescribeResponse, supportedOps: seq<string>, text: string)
    ensures text in Gather(multiset(spec.idempotentActions), CheckIdempotent(quote, multiset(supportedOps)))
       <==> IsIdempotentLine(quote, spec, supportedOps, text)
  {
    GatherHas(multiset(spec.idempotentActions), CheckIdempotent(quote, multiset(supportedOps)), text);
    hide Gather;
    assert forall op :: op in spec.idempotentActions <==> op in multiset(spec.idempotentActions);
  }

  /** The lines of a report, all of them: one for every violation of one of the six relations, in its own words. */
  lemma IssueLines(quote: Quote, spec: DescribeResponse, supportedOps: seq<string>, text: string)
    ensures text in Issues(quote, Unordered(spec, supportedOps))
       <==> || IsOperationLine(quote, spec, supportedOps, text)
            || IsNameLine(quote, spec, supportedOps, text)
            || IsTypeLine(quote, spec, text)
            || IsDefaultLine(quote, spec, supportedOps, text)
            || IsIdempotentLine(quote, spec, supportedOps, text)
  {
    OperationLines(quote, spec, supportedOps, text);
    NameLines(quote, spec, supportedOps, text);
    TypeLines(quote, spec, text);
    DefaultLines(quote, spec, supportedOps, text);
    IdempotentLines(quote, spec, supportedOps, text);
    hide Gather, Entries, Names, CheckOperation, CheckName, CheckAction, CheckResource, CheckIdempotent,
         IsOperationLine, IsNameLine, IsTypeLine, IsDefaultLine, IsIdempotentLine;
  }
}
