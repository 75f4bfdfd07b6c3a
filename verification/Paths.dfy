/** UTF-8 (RFC 3629), as Go encodes a string before escaping its bytes. */
module Utf8 {
  import opened Options

  type Bytes = seq<int>

  predicate IsByte(b: int) {
    0 <= b < 0x100
  }

  function EncodeChar(c: char): (bs: Bytes)
    ensures bs != [] && forall i | 0 <= i < |bs| :: IsByte(bs[i])
  {
    var n := c as int;
    if n < 0x80 then [n]
    else if n < 0x800 then [0xC0 + n / 0x40, 0x80 + n % 0x40]
    else if n < 0x1_0000 then [0xE0 + n / 0x1000, 0x80 + n / 0x40 % 0x40, 0x80 + n % 0x40]
    else [0xF0 + n / 0x4_0000, 0x80 + n / 0x1000 % 0x40, 0x80 + n / 0x40 % 0x40, 0x80 + n % 0x40]
  }

  function Encode(s: string): (bs: Bytes)
    ensures forall i | 0 <= i < |bs| :: IsByte(bs[i])
  {
    if s == "" then [] else EncodeChar(s[0]) + Encode(s[1..])
  }

  /** len(s) of the Go string. */
  function Length(s: string): nat {
    |Encode(s)|
  }

  /** How many bytes the character starting with this lead byte takes. */
  function Width(lead: int): nat {
    if lead < 0x80 then 1 else if lead < 0xE0 then 2 else if lead < 0xF0 then 3 else 4
  }

  function CodePoint(bs: Bytes): int
    requires |bs| in {1, 2, 3, 4}
  {
    match |bs|
    case 1 => bs[0]
    case 2 => (bs[0] - 0xC0) * 0x40 + (bs[1] - 0x80)
    case 3 => (bs[0] - 0xE0) * 0x1000 + (bs[1] - 0x80) * 0x40 + (bs[2] - 0x80)
    case _ => (bs[0] - 0xF0) * 0x4_0000 + (bs[1] - 0x80) * 0x1000 + (bs[2] - 0x80) * 0x40 + (bs[3] - 0x80)
  }

  predicate IsScalar(n: int) {
    0 <= n < 0xD800 || 0xE000 <= n < 0x11_0000
  }

  function Decode(bs: Bytes): Option<string> {
    if bs == [] then Some("")
    else
      var w := Width(bs[0]);
      if |bs| < w || !IsScalar(CodePoint(bs[..w])) then None
      else
        match Decode(bs[w..])
        case None => None
        case Some(rest) => Some([CodePoint(bs[..w]) as char] + rest)
  }

  lemma CharDecodes(c: char)
    ensures var bs := EncodeChar(c); |bs| == Width(bs[0]) && CodePoint(bs) == c as int && IsScalar(c as int)
  {
    var n := c as int;
    assert IsScalar(n);
    if 0x800 <= n < 0x1_0000 {
      assert n / 0x1000 == n / 0x40 / 0x40;
    } else if 0x1_0000 <= n {
      assert n / 0x1000 == n / 0x40 / 0x40;
      assert n / 0x4_0000 == n / 0x40 / 0x40 / 0x40;
    }
  }

  lemma {:induction false} RoundTrip(s: string)
    ensures Decode(Encode(s)) == Some(s)
  {
    if s != "" {
      var first, bs := EncodeChar(s[0]), Encode(s);
      CharDecodes(s[0]);
      RoundTrip(s[1..]);
      assert bs[..|first|] == first && bs[|first|..] == Encode(s[1..]);
      assert [s[0]] + s[1..] == s;
    }
  }
}

/** The request paths of the NFe.io API, with every caller-supplied id escaped as one segment. */
module Paths {
  import opened Options
  import Utf8

  // Percent-encoding of one path segment (url.PathEscape).

  predicate IsAlphanumeric(c: char) {
    'a' <= c <= 'z' || 'A' <= c <= 'Z' || '0' <= c <= '9'
  }

  /** Bytes that url.PathEscape leaves alone. */
  predicate IsLiteral(c: char) {
    IsAlphanumeric(c) || c in "-_.~$&+=:@"
  }

  function HexDigit(d: int): (c: char)
    requires 0 <= d < 16
    ensures IsAlphanumeric(c)
  {
    if d < 10 then ('0' as int + d) as char else ('A' as int + d - 10) as char
  }

  /** A hexadecimal digit of either letter case (section 8 of RFC 4648). */
  function HexValue(c: char): Option<int> {
    if '0' <= c <= '9' then Some(c as int - '0' as int)
    else if 'A' <= c <= 'F' then Some(c as int - 'A' as int + 10)
    else if 'a' <= c <= 'f' then Some(c as int - 'a' as int + 10)
    else None
  }

  function EscapeByte(b: int): string
    requires Utf8.IsByte(b)
  {
    if IsLiteral(b as char) then [b as char] else ['%', HexDigit(b / 16), HexDigit(b % 16)]
  }

  function EscapeBytes(bs: Utf8.Bytes): string
    requires forall i | 0 <= i < |bs| :: Utf8.IsByte(bs[i])
  {
    if bs == [] then "" else EscapeByte(bs[0]) + EscapeBytes(bs[1..])
  }

  function Escape(s: string): string {
    EscapeBytes(Utf8.Encode(s))
  }

  function UnescapeBytes(t: string): Option<Utf8.Bytes> {
    if t == "" then Some([])
    else if t[0] != '%' then
      match UnescapeBytes(t[1..])
      case None => None
      case Some(rest) => Some([t[0] as int] + rest)
    else if |t| < 3 then None
    else
      match (HexValue(t[1]), HexValue(t[2]), UnescapeBytes(t[3..]))
      case (Some(high), Some(low), Some(rest)) => Some([16 * high + low] + rest)
      case _ => None
  }

  function Unescape(t: string): Option<string> {
    match UnescapeBytes(t)
    case None => None
    case Some(bs) => Utf8.Decode(bs)
  }

  predicate IsSegmentChar(c: char) {
    c != '/' && c != '?' && c != '#'
  }

  predicate IsSegment(t: string) {
    forall i | 0 <= i < |t| :: IsSegmentChar(t[i])
  }

  lemma EscapeByteRoundTrip(b: int, t: string)
    requires Utf8.IsByte(b) && UnescapeBytes(t).Some?
    ensures UnescapeBytes(EscapeByte(b) + t) == Some([b] + UnescapeBytes(t).value)
    ensures IsSegment(EscapeByte(b))
  {
    var e := EscapeByte(b);
    if IsLiteral(b as char) {
      assert (e + t)[1..] == t;
    } else {
      assert (e + t)[0] == '%' && (e + t)[1] == e[1] && (e + t)[2] == e[2];
      assert (e + t)[3..] == t;
      assert HexValue(e[1]) == Some(b / 16) && HexValue(e[2]) == Some(b % 16);
      assert IsSegmentChar(e[1]) && IsSegmentChar(e[2]);
    }
  }

  lemma {:induction false} EscapeBytesRoundTrip(bs: Utf8.Bytes)
    requires forall i | 0 <= i < |bs| :: Utf8.IsByte(bs[i])
    ensures UnescapeBytes(EscapeBytes(bs)) == Some(bs)
    ensures IsSegment(EscapeBytes(bs))
  {
    if bs != [] {
      EscapeBytesRoundTrip(bs[1..]);
      EscapeByteRoundTrip(bs[0], EscapeBytes(bs[1..]));
      assert [bs[0]] + bs[1..] == bs;
    }
  }

  /** Escaping is invertible, and the result never opens a further segment, a query or a fragment. */
  lemma EscapeRoundTrip(s: string)
    ensures Unescape(Escape(s)) == Some(s)
    ensures IsSegment(Escape(s))
  {
    EscapeBytesRoundTrip(Utf8.Encode(s));
    Utf8.RoundTrip(s);
  }

  lemma {:induction false} LiteralsEscapeToThemselves(s: string)
    requires forall i | 0 <= i < |s| :: IsLiteral(s[i])
    ensures Escape(s) == s
  {
    if s != "" {
      LiteralsEscapeToThemselves(s[1..]);
      assert IsLiteral(s[0]);
      assert Utf8.Encode(s) == [s[0] as int] + Utf8.Encode(s[1..]);
    }
  }

  // Building a path and reading it back.

  function Join(segments: seq<string>): string {
    if segments == [] then "" else "/" + segments[0] + Join(segments[1..])
  }

  /** The text before the first slash, and what follows it. */
  function Cut(t: string): (string, Option<string>) {
    if t == "" then ("", None)
    else if t[0] == '/' then ("", Some(t[1..]))
    else
      var (head, rest) := Cut(t[1..]);
      ([t[0]] + head, rest)
  }

  lemma {:induction false} CutShrinks(t: string)
    ensures Cut(t).1.Some? ==> |Cut(t).1.value| < |t|
  {
    if t != "" && t[0] != '/' {
      CutShrinks(t[1..]);
    }
  }

  function Split(t: string): seq<string>
    decreases |t|
  {
    CutShrinks(t);
    match Cut(t)
    case (head, None) => [head]
    case (head, Some(rest)) => [head] + Split(rest)
  }

  lemma {:induction false} CutSegment(head: string, rest: string)
    requires '/' !in head
    ensures Cut(head) == (head, None)
    ensures Cut(head + "/" + rest) == (head, Some(rest))
  {
    if head == "" {
      assert head + "/" + rest == "/" + rest;
    } else {
      CutSegment(head[1..], rest);
      assert (head + "/" + rest)[1..] == head[1..] + "/" + rest;
      assert [head[0]] + head[1..] == head;
    }
  }

  lemma {:induction false} SplitJoin(head: string, segments: seq<string>)
    requires '/' !in head && forall i | 0 <= i < |segments| :: '/' !in segments[i]
    ensures Split(head + Join(segments)) == [head] + segments
    decreases |segments|
  {
    hide Cut;
    if segments == [] {
      assert head + Join(segments) == head;
      CutSegment(head, "");
    } else {
      SplitJoin(segments[0], segments[1..]);
      CutSegment(head, segments[0] + Join(segments[1..]));
      assert head + Join(segments) == head + "/" + (segments[0] + Join(segments[1..]));
      assert [segments[0]] + segments[1..] == segments;
    }
  }

  /** The endpoints the adapter addresses by id. */
  datatype Endpoint =
    | Companies
    | Company(company: string)
    | Invoices(company: string)
    | Invoice(company: string, invoice: string)
    | CancelInvoice(company: string, invoice: string)
    | InvoicePdf(company: string, invoice: string)
    | InvoiceXml(company: string, invoice: string)
    | Webhook(id: string)

  const COMPANIES := "companies"
  const INVOICES := "serviceinvoices"

  function Segments(e: Endpoint): seq<string> {
    match e
    case Companies => ["v2", COMPANIES]
    case Company(c) => ["v2", COMPANIES, Escape(c)]
    case Invoices(c) => ["v2", COMPANIES, Escape(c), INVOICES]
    case Invoice(c, i) => ["v2", COMPANIES, Escape(c), INVOICES, Escape(i)]
    case CancelInvoice(c, i) => ["v2", COMPANIES, Escape(c), INVOICES, Escape(i), "cancel"]
    case InvoicePdf(c, i) => ["v2", COMPANIES, Escape(c), INVOICES, Escape(i), "pdf"]
    case InvoiceXml(c, i) => ["v2", COMPANIES, Escape(c), INVOICES, Escape(i), "xml"]
    case Webhook(id) => ["v2", "webhooks", Escape(id)]
  }

  function PathOf(e: Endpoint): string {
    Join(Segments(e))
  }

  function Under(c: Option<string>, f: string -> Endpoint): Option<Endpoint> {
    match c
    case None => None
    case Some(v) => Some(f(v))
  }

  function RouteSegments(p: seq<string>): Option<Endpoint> {
    if |p| < 3 || p[0] != "" || p[1] != "v2" then None
    else if p[2] == "webhooks" then
      if |p| == 4 then Under(Unescape(p[3]), id => Webhook(id)) else None
    else if p[2] != COMPANIES then None
    else if |p| == 3 then Some(Companies)
    else if |p| == 4 then Under(Unescape(p[3]), c => Company(c))
    else if p[4] != INVOICES then None
    else if |p| == 5 then Under(Unescape(p[3]), c => Invoices(c))
    else
      match (Unescape(p[3]), Unescape(p[5]))
      case (Some(c), Some(i)) =>
        if |p| == 6 then Some(Invoice(c, i))
        else if |p| != 7 then None
        else if p[6] == "cancel" then Some(CancelInvoice(c, i))
        else if p[6] == "pdf" then Some(InvoicePdf(c, i))
        else if p[6] == "xml" then Some(InvoiceXml(c, i))
        else None
      case _ => None
  }

  /** What a server that splits on slashes and unescapes each segment makes of a path. */
  function Route(path: string): Option<Endpoint> {
    RouteSegments(Split(path))
  }

  lemma EscapedId(id: string)
    ensures '/' !in Escape(id) && Unescape(Escape(id)) == Some(id)
  {
    EscapeRoundTrip(id);
  }

  lemma EscapedIds(e: Endpoint)
    ensures !e.Companies? && !e.Webhook? ==> '/' !in Escape(e.company) && Unescape(Escape(e.company)) == Some(e.company)
    ensures e.Webhook? ==> '/' !in Escape(e.id) && Unescape(Escape(e.id)) == Some(e.id)
    ensures e.Invoice? || e.CancelInvoice? || e.InvoicePdf? || e.InvoiceXml? ==>
              '/' !in Escape(e.invoice) && Unescape(Escape(e.invoice)) == Some(e.invoice)
  {
    match e
    case Companies =>
    case Webhook(id) => EscapedId(id);
    case Company(c) => EscapedId(c);
    case Invoices(c) => EscapedId(c);
    case _ => EscapedId(e.company); EscapedId(e.invoice);
  }

  lemma SegmentsAreWhole(e: Endpoint)
    ensures forall k | 0 <= k < |Segments(e)| :: '/' !in Segments(e)[k]
  {
    EscapedIds(e);
    assert '/' !in "v2" && '/' !in COMPANIES && '/' !in INVOICES && '/' !in "webhooks";
    assert '/' !in "cancel" && '/' !in "pdf" && '/' !in "xml";
  }

  lemma SegmentsRoute(e: Endpoint)
    ensures RouteSegments([""] + Segments(e)) == Some(e)
  {
    EscapedIds(e);
    hide Escape, Unescape;
  }

  /** Whatever the ids contain, the path carries the endpoint kind and the exact ids. */
  lemma PathRoundTrip(e: Endpoint)
    ensures Route(PathOf(e)) == Some(e)
  {
    SegmentsAreWhole(e);
    SplitJoin("", Segments(e));
    assert "" + Join(Segments(e)) == PathOf(e);
    SegmentsRoute(e);
  }

  lemma DistinctEndpointsDistinctPaths(e: Endpoint, f: Endpoint)
    ensures PathOf(e) == PathOf(f) <==> e == f
  {
    PathRoundTrip(e);
    PathRoundTrip(f);
  }

  // Servers that also remove dot segments (section 5.2.4 of RFC 3986).

  predicate IsDot(segment: string) {
    segment == "." || segment == ".."
  }

  /** done holds the segments already output; a final dot segment leaves an empty one behind. */
  function RemoveDots(done: seq<string>, rest: seq<string>): seq<string>
    decreases |rest|
  {
    if rest == [] then done
    else if !IsDot(rest[0]) then RemoveDots(done + [rest[0]], rest[1..])
    else
      var kept := if rest[0] == ".." && done != [] then done[..|done| - 1] else done;
      if |rest| == 1 then kept + [""] else RemoveDots(kept, rest[1..])
  }

  function RemoveDotSegments(path: string): string {
    var parts := Split(path);
    if parts != [] && parts[0] == "" then Join(RemoveDots([], parts[1..])) else path
  }

  predicate HasDot(segments: seq<string>) {
    exists k | 0 <= k < |segments| :: IsDot(segments[k])
  }

  lemma {:induction false} RemoveDotsIsIdle(done: seq<string>, rest: seq<string>)
    requires !HasDot(rest)
    ensures RemoveDots(done, rest) == done + rest
    decreases |rest|
  {
    if rest != [] {
      assert !IsDot(rest[0]);
      assert forall k | 0 <= k < |rest[1..]| :: rest[1..][k] == rest[k + 1];
      RemoveDotsIsIdle(done + [rest[0]], rest[1..]);
      assert done + [rest[0]] + rest[1..] == done + rest;
    }
  }

  /** A dot segment costs a segment, or, in last place, leaves an empty one. */
  lemma {:induction false} RemoveDotsShows(done: seq<string>, rest: seq<string>)
    requires HasDot(rest)
    ensures var out := RemoveDots(done, rest);
            || |out| < |done| + |rest|
            || (|out| == |done| + |rest| && out[|out| - 1] == "" && IsDot(rest[|rest| - 1]))
    decreases |rest|
  {
    var tail := rest[1..];
    if !IsDot(rest[0]) {
      var k :| 0 <= k < |rest| && IsDot(rest[k]);
      assert tail[k - 1] == rest[k];
      RemoveDotsShows(done + [rest[0]], tail);
      assert tail[|tail| - 1] == rest[|rest| - 1];
    } else if |rest| > 1 {
      var kept := if rest[0] == ".." && done != [] then done[..|done| - 1] else done;
      RemoveDotsNeverGrows(kept, tail);
    }
  }

  lemma {:induction false} RemoveDotsNeverGrows(done: seq<string>, rest: seq<string>)
    ensures |RemoveDots(done, rest)| <= |done| + |rest|
    decreases |rest|
  {
    if rest != [] && !IsDot(rest[0]) {
      RemoveDotsNeverGrows(done + [rest[0]], rest[1..]);
    } else if |rest| > 1 {
      RemoveDotsNeverGrows(if rest[0] == ".." && done != [] then done[..|done| - 1] else done, rest[1..]);
    }
  }

  lemma {:induction false} RemoveDotsKeepsWhole(done: seq<string>, rest: seq<string>)
    requires forall k | 0 <= k < |done| :: '/' !in done[k]
    requires forall k | 0 <= k < |rest| :: '/' !in rest[k]
    ensures forall k | 0 <= k < |RemoveDots(done, rest)| :: '/' !in RemoveDots(done, rest)[k]
    decreases |rest|
  {
    if rest != [] && !IsDot(rest[0]) {
      RemoveDotsKeepsWhole(done + [rest[0]], rest[1..]);
    } else if |rest| > 1 {
      RemoveDotsKeepsWhole(if rest[0] == ".." && done != [] then done[..|done| - 1] else done, rest[1..]);
    }
  }

  /** What such a server makes of a built path, in segments. */
  lemma DotlessRoute(e: Endpoint)
    ensures Route(RemoveDotSegments(PathOf(e))) == RouteSegments([""] + RemoveDots([], Segments(e)))
  {
    hide Split, Segments, RemoveDots, RouteSegments;
    SegmentsAreWhole(e);
    SplitJoin("", Segments(e));
    assert "" + Join(Segments(e)) == PathOf(e);
    assert ([""] + Segments(e))[1..] == Segments(e);
    var out := RemoveDots([], Segments(e));
    RemoveDotsKeepsWhole([], Segments(e));
    SplitJoin("", out);
    assert "" + Join(out) == Join(out);
  }

  /** The ids of an endpoint. */
  predicate HasDotId(e: Endpoint) {
    match e
    case Companies => false
    case Company(c) => IsDot(c)
    case Invoices(c) => IsDot(c)
    case Webhook(id) => IsDot(id)
    case _ => IsDot(e.company) || IsDot(e.invoice)
  }

  lemma DotsEscape(id: string)
    ensures IsDot(Escape(id)) <==> IsDot(id)
  {
    EscapeRoundTrip(id);
    LiteralsEscapeToThemselves(".");
    LiteralsEscapeToThemselves("..");
    EscapeRoundTrip(".");
    EscapeRoundTrip("..");
  }

  lemma DotSegmentsIff(e: Endpoint)
    ensures HasDot(Segments(e)) <==> HasDotId(e)
  {
    hide Escape;
    if !e.Companies? && !e.Webhook? {
      DotsEscape(e.company);
    }
    if e.Webhook? {
      DotsEscape(e.id);
    }
    if e.Invoice? || e.CancelInvoice? || e.InvoicePdf? || e.InvoiceXml? {
      DotsEscape(e.invoice);
      assert Segments(e)[4] == Escape(e.invoice);
    }
    if !e.Companies? {
      assert Segments(e)[2] == Escape(if e.Webhook? then e.id else e.company);
    }
  }

  /** The number of segments of a path is that of the endpoint it routes to, and its last segment tells the last id. */
  lemma RouteShape(p: seq<string>, e: Endpoint)
    requires RouteSegments([""] + p) == Some(e)
    ensures p != [] && |p| == |Segments(e)|
    ensures e.Company? ==> Unescape(p[|p| - 1]) == Some(e.company)
    ensures e.Webhook? ==> Unescape(p[|p| - 1]) == Some(e.id)
    ensures e.Invoice? ==> Unescape(p[|p| - 1]) == Some(e.invoice)
  {
    hide Escape, Unescape;
  }

  lemma LastDotIsId(e: Endpoint)
    requires IsDot(Segments(e)[|Segments(e)| - 1])
    ensures e.Company? || e.Webhook? || e.Invoice?
    ensures IsDot(if e.Company? then e.company else if e.Webhook? then e.id else e.invoice)
  {
    hide Escape;
    DotsEscape(if e.Company? then e.company else if e.Webhook? then e.id else if e.Invoice? then e.invoice else "");
  }

  /**
   * Against a server that removes dot segments, the path still carries the endpoint and its exact ids if and only
   * if no id is "." or "..".
   */
  lemma DotlessRoundTripIff(e: Endpoint)
    ensures Route(RemoveDotSegments(PathOf(e))) == Some(e) <==> !HasDotId(e)
  {
    hide Segments, RouteSegments, RemoveDots, RemoveDotSegments, Route;
    DotlessRoute(e);
    DotSegmentsIff(e);
    var out := RemoveDots([], Segments(e));
    if HasDotId(e) {
      RemoveDotsShows([], Segments(e));
      if RouteSegments([""] + out) == Some(e) {
        RouteShape(out, e);
        LastDotIsId(e);
      }
    } else {
      RemoveDotsIsIdle([], Segments(e));
      assert [] + Segments(e) == Segments(e);
      SegmentsRoute(e);
    }
  }

  /** Such an id: issuing under company "." posts to the company "serviceinvoices". */
  lemma DotCompanyAddressesAnother()
    ensures Route(RemoveDotSegments(PathOf(Invoices(".")))) == Some(Company(INVOICES))
  {
    hide Escape, Unescape, Split, Route, RemoveDotSegments;
    DotlessRoute(Invoices("."));
    LiteralsEscapeToThemselves(".");
    LiteralsEscapeToThemselves(INVOICES);
    EscapeRoundTrip(INVOICES);
    assert Segments(Invoices(".")) == ["v2", COMPANIES, ".", INVOICES];
  }

  // The texts on the wire.

  /** Every path, written out segment by segment. */
  lemma PathTexts(c: string, i: string)
    ensures PathOf(Companies) == "/v2/companies"
    ensures PathOf(Company(c)) == PathOf(Companies) + "/" + Escape(c)
    ensures PathOf(Invoices(c)) == PathOf(Company(c)) + "/" + "serviceinvoices"
    ensures PathOf(Invoice(c, i)) == PathOf(Invoices(c)) + "/" + Escape(i)
    ensures PathOf(CancelInvoice(c, i)) == PathOf(Invoice(c, i)) + "/" + "cancel"
    ensures PathOf(InvoicePdf(c, i)) == PathOf(Invoice(c, i)) + "/" + "pdf"
    ensures PathOf(InvoiceXml(c, i)) == PathOf(Invoice(c, i)) + "/" + "xml"
  {
    hide Escape;
    assert Join(["companies"]) == "/companies" && ["v2", "companies"][1..] == ["companies"];
    JoinLast(Segments(Companies), Escape(c));
    JoinLast(Segments(Company(c)), "serviceinvoices");
    JoinLast(Segments(Invoices(c)), Escape(i));
    JoinLast(Segments(Invoice(c, i)), "cancel");
    JoinLast(Segments(Invoice(c, i)), "pdf");
    JoinLast(Segments(Invoice(c, i)), "xml");
    hide Join;
    assert Segments(Company(c)) == Segments(Companies) + [Escape(c)];
    assert Segments(Invoices(c)) == Segments(Company(c)) + ["serviceinvoices"];
    assert Segments(Invoice(c, i)) == Segments(Invoices(c)) + [Escape(i)];
    assert Segments(CancelInvoice(c, i)) == Segments(Invoice(c, i)) + ["cancel"];
    assert Segments(InvoicePdf(c, i)) == Segments(Invoice(c, i)) + ["pdf"];
    assert Segments(InvoiceXml(c, i)) == Segments(Invoice(c, i)) + ["xml"];
  }

  lemma {:induction false} JoinLast(p: seq<string>, last: string)
    ensures Join(p + [last]) == Join(p) + "/" + last
    decreases |p|
  {
    if p == [] {
      assert p + [last] == [last];
    } else {
      assert (p + [last])[1..] == p[1..] + [last];
      JoinLast(p[1..], last);
    }
  }

  /** A hexadecimal digit in either letter case, and nothing else. */
  lemma HexValueIff(c: char, d: int)
    ensures HexValue(c) == Some(d) <==> 0 <= d < 16 && (c == "0123456789abcdef"[d] || c == "0123456789ABCDEF"[d])
  {
  }

  /** The escapes of the three delimiters an id must not open. */
  lemma DelimitersEscape()
    ensures Escape("/") == "%2F" && Escape("?") == "%3F" && Escape("#") == "%23" && Escape(" ") == "%20"
  {
    assert Utf8.Encode("/") == [0x2F] && Utf8.Encode("?") == [0x3F];
    assert Utf8.Encode("#") == [0x23] && Utf8.Encode(" ") == [0x20];
    assert HexDigit(2) == '2' && HexDigit(15) == 'F' && HexDigit(3) == '3' && HexDigit(0) == '0';
  }

  /** Escaping goes character by character. */
  lemma {:induction false} EscapeAppends(s: string, t: string)
    ensures Escape(s + t) == Escape(s) + Escape(t)
  {
    EncodeAppends(s, t);
    EscapeBytesAppends(Utf8.Encode(s), Utf8.Encode(t));
  }

  lemma {:induction false} EncodeAppends(s: string, t: string)
    ensures Utf8.Encode(s + t) == Utf8.Encode(s) + Utf8.Encode(t)
  {
    hide Utf8.EncodeChar;
    if s == "" {
      assert s + t == t;
    } else {
      assert (s + t)[1..] == s[1..] + t;
      EncodeAppends(s[1..], t);
    }
  }

  lemma {:induction false} EscapeBytesAppends(a: Utf8.Bytes, b: Utf8.Bytes)
    requires forall i | 0 <= i < |a| :: Utf8.IsByte(a[i])
    requires forall i | 0 <= i < |b| :: Utf8.IsByte(b[i])
    ensures EscapeBytes(a + b) == EscapeBytes(a) + EscapeBytes(b)
  {
    hide EscapeByte;
    if a == [] {
      assert a + b == b;
    } else {
      assert (a + b)[1..] == a[1..] + b;
      EscapeBytesAppends(a[1..], b);
    }
  }

  /** Every ASCII character: itself where a path segment may hold it, otherwise its two upper-case digits. */
  lemma AsciiEscapes(c: char)
    requires c as int < 0x80
    ensures var n := c as int;
            Escape([c]) ==
              if 'a' <= c <= 'z' || 'A' <= c <= 'Z' || '0' <= c <= '9'
                 || c in ['-', '_', '.', '~', '$', '&', '+', '=', ':', '@']
              then [c] else ['%', "0123456789ABCDEF"[n / 16], "0123456789ABCDEF"[n % 16]]
  {
    assert [c][1..] == [] && Utf8.Encode([c]) == [c as int];
    assert EscapeBytes([c as int]) == EscapeByte(c as int) + EscapeBytes([]);
    assert c in "-_.~$&+=:@" <==> c in ['-', '_', '.', '~', '$', '&', '+', '=', ':', '@'];
  }
}
