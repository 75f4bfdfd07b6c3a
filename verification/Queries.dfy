/** Cache keys and request paths of a municipalities query. */
module Queries {
  import opened Options
  import opened Text
  import Paths

  datatype Query = Query(state: string, page: int, pageSize: int)

  /** The defaults and the cap applied before anything else. */
  function Normalize(q: Query): Query {
    Query(
      q.state,
      if q.page == 0 then 1 else q.page,
      if q.pageSize == 0 then 100 else if q.pageSize > 500 then 500 else q.pageSize)
  }

  /** What a caller who asked for input is to be served: page 1 by default, 100 entries by default and 500 at most. */
  predicate Serves(asked: Query, input: Query) {
    && asked.state == input.state
    && (input.page != 0 ==> asked.page == input.page)
    && (input.page == 0 ==> asked.page == 1)
    && (input.pageSize != 0 && input.pageSize <= 500 ==> asked.pageSize == input.pageSize)
    && (input.pageSize == 0 ==> asked.pageSize == 100)
    && (input.pageSize > 500 ==> asked.pageSize == 500)
  }

  lemma NormalizeServes(input: Query)
    ensures forall asked :: Serves(asked, input) <==> asked == Normalize(input)
  {
  }

  function Key(q: Query): string {
    q.state + "|p" + PrintInt(q.page) + "|s" + PrintInt(q.pageSize)
  }

  function Path(q: Query): string {
    "/v2/municipalities?page=" + PrintInt(q.page) + "&pageSize=" + PrintInt(q.pageSize)
    + (if q.state != "" then "&stateCode=" + q.state else "")
  }

  /** The text of the key and of the path. */
  lemma Texts(q: Query)
    ensures Key(q) == q.state + ("|p" + PrintInt(q.page)) + ("|s" + PrintInt(q.pageSize))
    ensures Path(q) == "/v2/municipalities?page=" + PrintInt(q.page) + ("&pageSize=" + PrintInt(q.pageSize))
                       + (if q.state == "" then "" else "&stateCode=" + q.state)
  {
    hide PrintInt;
  }

  /** Splitting at the last occurrence of a character. */
  function CutLast(t: string, c: char): Option<(string, string)> {
    if t == "" then None
    else if t[|t| - 1] == c then Some((t[..|t| - 1], ""))
    else
      match CutLast(t[..|t| - 1], c)
      case None => None
      case Some((head, tail)) => Some((head, tail + [t[|t| - 1]]))
  }

  /** Splitting at the first occurrence of a character; the rest is empty when there is none. */
  function CutFirst(t: string, c: char): (string, string) {
    if t == "" then ("", "")
    else if t[0] == c then ("", t[1..])
    else
      var (head, tail) := CutFirst(t[1..], c);
      ([t[0]] + head, tail)
  }

  lemma {:induction false} CutLastFinds(head: string, c: char, tail: string)
    requires c !in tail
    ensures CutLast(head + [c] + tail, c) == Some((head, tail))
    decreases |tail|
  {
    var t := head + [c] + tail;
    if tail == "" {
      assert t[..|t| - 1] == head;
    } else {
      CutLastFinds(head, c, tail[..|tail| - 1]);
      assert t[..|t| - 1] == head + [c] + tail[..|tail| - 1];
      assert tail[..|tail| - 1] + [tail[|tail| - 1]] == tail;
    }
  }

  lemma {:induction false} CutFirstFinds(head: string, c: char, tail: string)
    requires c !in head
    ensures CutFirst(head + [c] + tail, c) == (head, tail)
    ensures CutFirst(head, c) == (head, "")
  {
    if head == "" {
      assert (head + [c] + tail)[1..] == tail;
    } else {
      CutFirstFinds(head[1..], c, tail);
      assert (head + [c] + tail)[1..] == head[1..] + [c] + tail;
      assert [head[0]] + head[1..] == head;
    }
  }

  lemma PrintedHasNone(n: int, c: char)
    requires !IsDigit(c) && c != '-'
    ensures c !in PrintInt(n)
  {
    PrintIntParses(n);
  }

  function Tagged(t: string, tag: char): Option<int> {
    if t != "" && t[0] == tag then ParseInt(t[1..]) else None
  }

  /** Reading a key from its last two bars. */
  function ParseKey(key: string): Option<Query> {
    match CutLast(key, '|')
    case None => None
    case Some((front, size)) =>
      match CutLast(front, '|')
      case None => None
      case Some((state, page)) =>
        match (Tagged(page, 'p'), Tagged(size, 's'))
        case (Some(p), Some(s)) => Some(Query(state, p, s))
        case _ => None
  }

  /** The key determines the query, whatever the state contains and whatever the signs of the numbers. */
  lemma KeyParses(q: Query)
    ensures ParseKey(Key(q)) == Some(q)
  {
    var page, size := "p" + PrintInt(q.page), "s" + PrintInt(q.pageSize);
    PrintedHasNone(q.page, '|');
    PrintedHasNone(q.pageSize, '|');
    PrintIntParses(q.page);
    PrintIntParses(q.pageSize);
    assert page[1..] == PrintInt(q.page) && size[1..] == PrintInt(q.pageSize);
    CutLastFinds(q.state + "|" + page, '|', size);
    CutLastFinds(q.state, '|', page);
    assert Key(q) == (q.state + "|" + page) + "|" + size;
  }

  const PREFIX := "/v2/municipalities?page="
  const SIZE := "pageSize="
  const STATE := "stateCode="

  function ParsePath(path: string): Option<Query> {
    if !(PREFIX <= path) then None
    else
      var (page, rest) := CutFirst(path[|PREFIX|..], '&');
      var (sized, stated) := CutFirst(rest, '&');
      if !(SIZE <= sized) then None
      else
        match (ParseInt(page), ParseInt(sized[|SIZE|..]))
        case (Some(p), Some(s)) => Some(Query(if STATE <= stated then stated[|STATE|..] else "", p, s))
        case _ => None
  }

  lemma PathShape(q: Query)
    ensures var stated := if q.state != "" then STATE + q.state else "";
            var rest := SIZE + PrintInt(q.pageSize) + (if q.state != "" then "&" + stated else "");
            Path(q) == PREFIX + (PrintInt(q.page) + "&" + rest)
  {
    hide PrintInt;
  }

  lemma PathParses(q: Query)
    ensures ParsePath(Path(q)) == Some(q)
  {
    hide PrintInt, ParseInt, CutFirst, Path;
    var page, size := PrintInt(q.page), PrintInt(q.pageSize);
    var sized := SIZE + size;
    var stated := if q.state != "" then STATE + q.state else "";
    var rest := if q.state != "" then sized + "&" + stated else sized;
    PathShape(q);
    assert rest == SIZE + size + (if q.state != "" then "&" + stated else "");
    PrintedHasNone(q.page, '&');
    PrintedHasNone(q.pageSize, '&');
    PrintIntParses(q.page);
    PrintIntParses(q.pageSize);
    assert '&' !in SIZE;
    CutFirstFinds(sized, '&', stated);
    CutFirstFinds(page, '&', rest);
    assert Path(q)[|PREFIX|..] == page + "&" + rest;
    assert sized[|SIZE|..] == size;
    assert q.state != "" ==> stated[|STATE|..] == q.state;
  }

  // What goes on the wire: the text of a path up to the fragment, which the HTTP client keeps to itself.

  function Sent(path: string): string {
    CutFirst(path, '#').0
  }

  function SentState(state: string): Option<string> {
    if state == "" then None else Some(Sent(state))
  }

  lemma {:induction false} CutFirstAfter(head: string, t: string, c: char)
    requires c !in head
    ensures CutFirst(head + t, c) == (head + CutFirst(t, c).0, CutFirst(t, c).1)
  {
    if head == "" {
      assert head + t == t && head + CutFirst(t, c).0 == CutFirst(t, c).0;
    } else {
      CutFirstAfter(head[1..], t, c);
      assert (head + t)[1..] == head[1..] + t;
      assert [head[0]] + (head[1..] + CutFirst(t, c).0) == head + CutFirst(t, c).0;
    }
  }

  /** The part of a path before its state. */
  function Head(q: Query): string {
    PREFIX + (PrintInt(q.page) + "&" + (SIZE + PrintInt(q.pageSize)))
  }

  lemma PathSplits(q: Query)
    ensures q.state == "" ==> Path(q) == Head(q)
    ensures q.state != "" ==> Path(q) == Head(q) + ("&" + STATE) + q.state
  {
    hide PrintInt;
  }

  lemma NoFragmentBefore(q: Query)
    ensures '#' !in Head(q) && '#' !in Head(q) + ("&" + STATE)
  {
    hide PrintInt;
    PrintedHasNone(q.page, '#');
    PrintedHasNone(q.pageSize, '#');
    assert '#' !in PREFIX && '#' !in SIZE && '#' !in STATE;
  }

  lemma HeadWith(q: Query, stated: string)
    ensures Head(q) + stated == PREFIX + (PrintInt(q.page) + "&" + (SIZE + PrintInt(q.pageSize) + stated))
  {
    hide PrintInt;
  }

  /** The path with the state cut at its fragment. */
  lemma SentPath(q: Query)
    ensures var stated := if q.state != "" then "&" + (STATE + Sent(q.state)) else "";
            Sent(Path(q)) == PREFIX + (PrintInt(q.page) + "&" + (SIZE + PrintInt(q.pageSize) + stated))
  {
    PathSplits(q);
    NoFragmentBefore(q);
    hide PrintInt, Path, Head, CutFirst;
    if q.state == "" {
      SentWhole(Head(q));
      HeadWith(q, "");
      assert Head(q) + "" == Head(q);
    } else {
      CutFirstAfter(Head(q) + ("&" + STATE), q.state, '#');
      HeadWith(q, "&" + (STATE + Sent(q.state)));
      assert Head(q) + ("&" + STATE) + Sent(q.state) == Head(q) + ("&" + (STATE + Sent(q.state)));
    }
  }

  /** Page, page size parameter and whatever follows them. */
  function Dissect(path: string): (string, string, string) {
    if !(PREFIX <= path) then ("", "", "")
    else
      var (page, rest) := CutFirst(path[|PREFIX|..], '&');
      var (sized, stated) := CutFirst(rest, '&');
      (page, sized, stated)
  }

  lemma DissectFinds(page: string, sized: string, rest: string, stated: string)
    requires '&' !in page && '&' !in sized
    requires rest == sized + "&" + stated || (rest == sized && stated == "")
    ensures Dissect(PREFIX + (page + "&" + rest)) == (page, sized, stated)
  {
    hide CutFirst;
    CutFirstFinds(sized, '&', stated);
    CutFirstFinds(page, '&', rest);
    assert (PREFIX + (page + "&" + rest))[|PREFIX|..] == page + "&" + rest;
  }

  lemma SentDissects(q: Query)
    ensures Dissect(Sent(Path(q)))
         == (PrintInt(q.page), SIZE + PrintInt(q.pageSize), if q.state != "" then STATE + Sent(q.state) else "")
  {
    hide PrintInt, CutFirst, Path, Sent, Dissect;
    SentPath(q);
    var page, sized := PrintInt(q.page), SIZE + PrintInt(q.pageSize);
    PrintedHasNone(q.page, '&');
    PrintedHasNone(q.pageSize, '&');
    assert '&' !in SIZE;
    if q.state == "" {
      assert sized + "" == sized;
      DissectFinds(page, sized, sized, "");
    } else {
      var stated := STATE + Sent(q.state);
      assert sized + ("&" + stated) == sized + "&" + stated;
      DissectFinds(page, sized, sized + "&" + stated, stated);
    }
  }

  /** Two queries send the same request exactly when they agree on page, size and the state up to its first '#'. */
  lemma SameRequestIff(q: Query, r: Query)
    ensures Sent(Path(q)) == Sent(Path(r))
       <==> q.page == r.page && q.pageSize == r.pageSize && SentState(q.state) == SentState(r.state)
  {
    hide PrintInt, ParseInt, Path, Sent, Dissect;
    SentPath(q);
    SentPath(r);
    if Sent(Path(q)) == Sent(Path(r)) {
      SentDissects(q);
      SentDissects(r);
      PrintIntParses(q.page);
      PrintIntParses(r.page);
      PrintIntParses(q.pageSize);
      PrintIntParses(r.pageSize);
      assert (SIZE + PrintInt(q.pageSize))[|SIZE|..] == PrintInt(q.pageSize);
      assert (SIZE + PrintInt(r.pageSize))[|SIZE|..] == PrintInt(r.pageSize);
      assert (STATE + Sent(q.state))[|STATE|..] == Sent(q.state);
      assert (STATE + Sent(r.state))[|STATE|..] == Sent(r.state);
    }
  }

  /**
   * Queries that share a cache entry send the same request. The converse fails exactly for two states that
   * differ only from a '#' on, so it holds whenever neither state has one.
   */
  lemma KeyIdentifiesRequest(q: Query, r: Query)
    ensures Key(q) == Key(r) <==> q == r
    ensures Key(q) == Key(r) ==> Sent(Path(q)) == Sent(Path(r))
    ensures Sent(Path(q)) == Sent(Path(r)) && Key(q) != Key(r)
       <==> q.page == r.page && q.pageSize == r.pageSize && q.state != r.state
            && SentState(q.state) == SentState(r.state)
    ensures '#' !in q.state && '#' !in r.state ==> (Key(q) == Key(r) <==> Sent(Path(q)) == Sent(Path(r)))
  {
    hide Path, Sent, Key, ParseKey;
    KeyParses(q);
    KeyParses(r);
    SameRequestIff(q, r);
    SentWhole(q.state);
    SentWhole(r.state);
  }

  lemma SentWhole(state: string)
    ensures '#' !in state ==> Sent(state) == state
  {
    if '#' !in state {
      CutFirstFinds(state, '#', "");
    }
  }

  /** Such states: two cache entries, one request. */
  lemma FragmentSharesRequest(page: int, pageSize: int)
    ensures var q, r := Query("SP", page, pageSize), Query("SP#x", page, pageSize);
            Sent(Path(q)) == Sent(Path(r)) && Key(q) != Key(r)
  {
    hide Path, Key;
    var q, r := Query("SP", page, pageSize), Query("SP#x", page, pageSize);
    CutFirstFinds("SP", '#', "x");
    assert "SP" + ['#'] + "x" == "SP#x";
    assert |q.state| != |r.state|;
    KeyIdentifiesRequest(q, r);
  }

  // The page sizes a request asks for.

  /** The parameters of a query string. */
  function Pieces(t: string): (ps: seq<string>)
    ensures ps != []
  {
    if t == "" then [""]
    else if t[0] == '&' then [""] + Pieces(t[1..])
    else [[t[0]] + Pieces(t[1..])[0]] + Pieces(t[1..])[1..]
  }

  lemma {:induction false} PiecesAfter(head: string, t: string)
    requires '&' !in head
    ensures Pieces(head + t) == [head + Pieces(t)[0]] + Pieces(t)[1..]
  {
    if head == "" {
      assert head + t == t && "" + Pieces(t)[0] == Pieces(t)[0];
    } else {
      PiecesAfter(head[1..], t);
      assert (head + t)[1..] == head[1..] + t;
      assert [head[0]] + (head[1..] + Pieces(t)[0]) == head + Pieces(t)[0];
    }
  }

  lemma PiecesFirst(head: string, tail: string)
    requires '&' !in head
    ensures Pieces(head) == [head]
    ensures Pieces(head + "&" + tail) == [head] + Pieces(tail)
  {
    PiecesAfter(head, "");
    assert head + "" == head;
    PiecesAfter(head, "&" + tail);
    assert head + ("&" + tail) == head + "&" + tail;
    assert ("&" + tail)[1..] == tail;
  }

  /** A parameter whose name reads as pageSize, plainly or percent-encoded. */
  predicate AsksSize(piece: string) {
    Paths.Unescape(CutFirst(piece, '=').0) == Some("pageSize")
  }

  /** The size it asks for, if its value reads as a number. */
  function AskedSize(piece: string): Option<int> {
    match Paths.Unescape(CutFirst(piece, '=').1)
    case None => None
    case Some(value) => ParseInt(value)
  }

  function Sizes(pieces: seq<string>): seq<Option<int>> {
    if pieces == [] then []
    else (if AsksSize(pieces[0]) then [AskedSize(pieces[0])] else []) + Sizes(pieces[1..])
  }

  /** Every page size in the query string of the request that is sent. */
  function RequestedSizes(path: string): seq<Option<int>> {
    Sizes(Pieces(CutFirst(Sent(path), '?').1))
  }

  /** The parameters a state adds to the request: whatever follows a '&' before its first '#'. */
  function AddedParameters(state: string): seq<string> {
    Pieces(Sent(state))[1..]
  }

  lemma LiteralReads(s: string)
    requires forall i | 0 <= i < |s| :: Paths.IsLiteral(s[i])
    ensures Paths.Unescape(s) == Some(s)
  {
    Paths.LiteralsEscapeToThemselves(s);
    Paths.EscapeRoundTrip(s);
  }

  lemma ParameterReads(name: string, value: string)
    requires '=' !in name && forall i | 0 <= i < |name| :: Paths.IsLiteral(name[i])
    ensures AsksSize(name + "=" + value) <==> name == "pageSize"
    ensures (forall i | 0 <= i < |value| :: Paths.IsLiteral(value[i])) ==>
              AskedSize(name + "=" + value) == ParseInt(value)
  {
    hide ParseInt, Paths.Unescape;
    CutFirstFinds(name, '=', value);
    LiteralReads(name);
    if forall i | 0 <= i < |value| :: Paths.IsLiteral(value[i]) {
      LiteralReads(value);
    }
  }

  lemma PrintedIsLiteral(n: int)
    ensures forall i | 0 <= i < |PrintInt(n)| :: Paths.IsLiteral(PrintInt(n)[i])
  {
    PrintIntParses(n);
  }

  lemma OwnParameters(q: Query)
    ensures Sizes(["page=" + PrintInt(q.page)]) == []
    ensures Sizes([SIZE + PrintInt(q.pageSize)]) == [Some(q.pageSize)]
  {
    hide PrintInt, ParseInt, AsksSize, AskedSize;
    ParameterReads("page", PrintInt(q.page));
    ParameterReads("pageSize", PrintInt(q.pageSize));
    PrintedIsLiteral(q.pageSize);
    PrintIntParses(q.pageSize);
    assert "page" + "=" + PrintInt(q.page) == "page=" + PrintInt(q.page);
    assert "pageSize" + "=" + PrintInt(q.pageSize) == SIZE + PrintInt(q.pageSize);
    assert |"page"| != |"pageSize"|;
  }

  lemma StateIsNoSize(text: string)
    ensures Sizes([STATE + text]) == []
  {
    hide AsksSize, AskedSize;
    ParameterReads("stateCode", text);
    assert "stateCode" + "=" + text == STATE + text;
    assert |"stateCode"| != |"pageSize"|;
  }

  lemma SizesStep(piece: string, rest: seq<string>)
    ensures Sizes([piece] + rest) == Sizes([piece]) + Sizes(rest)
  {
    hide AsksSize, AskedSize;
    assert ([piece] + rest)[1..] == rest;
    assert Sizes([]) == [];
  }

  lemma SentQueryString(q: Query)
    ensures var stated := if q.state != "" then "&" + (STATE + Sent(q.state)) else "";
            CutFirst(Sent(Path(q)), '?').1 == "page=" + PrintInt(q.page) + "&" + (SIZE + PrintInt(q.pageSize) + stated)
  {
    hide PrintInt, CutFirst, Path, Sent;
    SentPath(q);
    var stated := if q.state != "" then "&" + (STATE + Sent(q.state)) else "";
    var rest := "page=" + PrintInt(q.page) + "&" + (SIZE + PrintInt(q.pageSize) + stated);
    CutFirstFinds("/v2/municipalities", '?', rest);
    assert PREFIX == "/v2/municipalities" + "?" + "page=";
    assert Sent(Path(q)) == "/v2/municipalities" + "?" + rest;
  }

  lemma SizesOfNone()
    ensures Sizes([]) == []
  {
  }

  /** A request asks for its own page size and for whatever sizes its state adds, and for nothing else. */
  lemma RequestedSizesAre(q: Query)
    ensures RequestedSizes(Path(q)) == [Some(q.pageSize)] + Sizes(AddedParameters(q.state))
  {
    hide PrintInt, CutFirst, Path, Sent, Sizes, Pieces;
    SentQueryString(q);
    OwnParameters(q);
    var page, sized := "page=" + PrintInt(q.page), SIZE + PrintInt(q.pageSize);
    PrintedHasNone(q.page, '&');
    PrintedHasNone(q.pageSize, '&');
    assert '&' !in "page=" && '&' !in SIZE && '&' !in STATE;
    if q.state == "" {
      PiecesFirst(page, sized);
      PiecesFirst(sized, "");
      assert sized + "" == sized;
      SizesStep(page, [sized]);
      assert Sent("") == "" by { SentWhole(""); }
      assert Pieces("") == [""] by { PiecesFirst("", ""); }
      assert AddedParameters("") == [] && Sizes([]) == [] by { SizesOfNone(); }
    } else {
      var text := STATE + Sent(q.state);
      PiecesFirst(page, sized + "&" + text);
      PiecesFirst(sized, text);
      PiecesAfter(STATE, Sent(q.state));
      var own, added := STATE + Pieces(Sent(q.state))[0], AddedParameters(q.state);
      assert sized + ("&" + text) == sized + "&" + text;
      assert Pieces(page + "&" + (sized + "&" + text)) == [page] + ([sized] + ([own] + added));
      SizesStep(page, [sized] + ([own] + added));
      SizesStep(sized, [own] + added);
      SizesStep(own, added);
      StateIsNoSize(Pieces(Sent(q.state))[0]);
    }
  }

  predicate AtMostLimit(sizes: seq<Option<int>>) {
    forall k | 0 <= k < |sizes| && sizes[k].Some? :: sizes[k].value <= 500
  }

  /** The cap on entries, over every page size the request asks for. */
  predicate IsBounded(path: string) {
    AtMostLimit(RequestedSizes(path))
  }

  /**
   * A request asks for no more than 500 entries exactly when its state adds no larger page size; and it asks for
   * its own size alone exactly when no parameter of its state reads as a page size.
   */
  lemma BoundedIff(asked: Query, input: Query)
    requires Serves(asked, input)
    ensures IsBounded(Path(asked)) <==> AtMostLimit(Sizes(AddedParameters(input.state)))
    ensures RequestedSizes(Path(asked)) == [Some(asked.pageSize)]
       <==> forall k | 0 <= k < |AddedParameters(input.state)| :: !AsksSize(AddedParameters(input.state)[k])
  {
    hide Path, Sizes, AddedParameters, RequestedSizes, AsksSize;
    RequestedSizesAre(asked);
    var own, added := [Some(asked.pageSize)], Sizes(AddedParameters(input.state));
    assert asked.pageSize <= 500;
    assert forall k | 0 <= k < |added| :: (own + added)[k + 1] == added[k];
    assert |own + added| == 1 + |added|;
    SizesEmptyIff(AddedParameters(input.state));
  }

  lemma {:induction false} SizesEmptyIff(pieces: seq<string>)
    ensures Sizes(pieces) == [] <==> forall k | 0 <= k < |pieces| :: !AsksSize(pieces[k])
  {
    hide AsksSize, AskedSize;
    if pieces != [] {
      SizesEmptyIff(pieces[1..]);
      assert forall k | 1 <= k < |pieces| :: pieces[k] == pieces[1..][k - 1];
    }
  }

  /** A state without '&' adds nothing, so its request is bounded. */
  lemma PlainStateIsBounded(asked: Query, input: Query)
    requires Serves(asked, input) && '&' !in input.state
    ensures RequestedSizes(Path(asked)) == [Some(asked.pageSize)]
    ensures IsBounded(Path(asked))
  {
    hide Path, Sizes, RequestedSizes, Pieces, AsksSize;
    BoundedIff(asked, input);
    CutFirstWithin(input.state, '#');
    PiecesFirst(Sent(input.state), "");
    SizesOfNone();
  }

  lemma {:induction false} CutFirstWithin(t: string, c: char)
    ensures forall d | d in CutFirst(t, c).0 :: d in t
  {
    if t != "" && t[0] != c {
      CutFirstWithin(t[1..], c);
    }
  }

  /** A state that breaks the bound: the request asks for 100 and for 9999 entries. */
  lemma StateAddsPageSize()
    ensures Serves(Query("SP&pageSize=9999", 1, 100), Query("SP&pageSize=9999", 0, 0))
    ensures RequestedSizes(Path(Query("SP&pageSize=9999", 1, 100))) == [Some(100), Some(9999)]
    ensures !IsBounded(Path(Query("SP&pageSize=9999", 1, 100)))
  {
    hide Path, Sizes, RequestedSizes, AddedParameters;
    RequestedSizesAre(Query("SP&pageSize=9999", 1, 100));
    NinesAreAdded();
    NinesRead();
    assert RequestedSizes(Path(Query("SP&pageSize=9999", 1, 100)))[1] == Some(9999);
  }

  lemma NinesAreAdded()
    ensures AddedParameters("SP&pageSize=9999") == ["pageSize=9999"]
  {
    hide CutFirst, Pieces, Sent;
    SentWhole("SP&pageSize=9999");
    PiecesFirst("SP", "pageSize=9999");
    PiecesFirst("pageSize=9999", "");
    assert "SP" + "&" + "pageSize=9999" == "SP&pageSize=9999";
  }

  lemma NinesRead()
    ensures Sizes(["pageSize=9999"]) == [Some(9999)]
  {
    hide AsksSize, AskedSize;
    ParameterReads("pageSize", "9999");
    assert "pageSize" + "=" + "9999" == "pageSize=9999";
    assert PrintNat(9) == "9" && PrintNat(99) == "99" && PrintNat(999) == "999" && PrintNat(9999) == "9999";
    PrintIntParses(9999);
  }
}
