/** Authenticating an inbound callback. */
module Signature {
  import opened Options
  import opened Text
  import opened Webhooks

  type HttpHeaders = map<string, seq<string>>

  type Bytes = seq<int>

  /** The HMAC-SHA1 of a body under a secret; nothing about it is assumed. */
  type Mac = (string, Bytes) -> Bytes

  const SIGNATURE := "X-Hub-Signature"
  const OBSOLETE_SIGNATURE := "X-Hub-Signature-256"
  const SCHEME := "sha1="
  const DIGEST_SIZE := 20

  /** Among these keys, the ones that fold to name hold one value in total, and it is v. */
  ghost predicate HoldOnly(headers: HttpHeaders, keys: set<string>, name: string, v: string) {
    exists k | k in keys && k in headers ::
      && EqualFold(k, name) && headers[k] == [v]
      && forall j | j in keys && j in headers && EqualFold(j, name) && j != k :: headers[j] == []
  }

  ghost predicate HoldNothing(headers: HttpHeaders, keys: set<string>, name: string) {
    forall k | k in keys && k in headers && EqualFold(k, name) :: headers[k] == []
  }

  predicate IsPresent(headers: HttpHeaders, name: string) {
    exists k | k in headers :: EqualFold(k, name)
  }

  /** Values seen so far against what the keys seen so far hold. */
  ghost predicate Gathers(headers: HttpHeaders, keys: set<string>, name: string, values: seq<string>) {
    && (values == [] <==> HoldNothing(headers, keys, name))
    && (|values| == 1 ==> HoldOnly(headers, keys, name, values[0]))
    && (forall v | HoldOnly(headers, keys, name, v) :: values == [v])
  }

  lemma GatherKey(headers: HttpHeaders, keys: set<string>, name: string, values: seq<string>, k: string)
    requires Gathers(headers, keys, name, values) && k in headers && k !in keys
    ensures Gathers(headers, keys + {k}, name, if EqualFold(k, name) then values + headers[k] else values)
  {
    var after := if EqualFold(k, name) then values + headers[k] else values;
    if |after| == 1 {
      if values == [] {
        assert headers[k] == [after[0]];
        assert k in keys + {k} && EqualFold(k, name);
      } else {
        var j :| j in keys && j in headers && EqualFold(j, name) && headers[j] == [values[0]]
                 && forall i | i in keys && i in headers && EqualFold(i, name) && i != j :: headers[i] == [];
        assert j in keys + {k};
      }
      assert HoldOnly(headers, keys + {k}, name, after[0]);
    }
    forall v | HoldOnly(headers, keys + {k}, name, v) ensures after == [v] {
      var j :| j in keys + {k} && j in headers && EqualFold(j, name) && headers[j] == [v]
               && forall i | i in keys + {k} && i in headers && EqualFold(i, name) && i != j :: headers[i] == [];
      if j == k {
        assert HoldNothing(headers, keys, name);
      } else {
        assert HoldOnly(headers, keys, name, v);
        assert EqualFold(k, name) ==> headers[k] == [];
      }
    }
    assert values == [] ==> (after == [] <==> HoldNothing(headers, keys + {k}, name));
    if values != [] {
      var j :| j in keys && j in headers && EqualFold(j, name) && headers[j] != [];
      assert j in keys + {k};
    }
  }

  /** singleHTTPHeader, with the header map visited in an arbitrary order. */
  method SingleHttpHeader(headers: HttpHeaders, name: string) returns (value: string, present: bool)
    ensures present <==> IsPresent(headers, name)
    ensures value != "" ==>
              exists v :: HoldOnly(headers, headers.Keys, name, v) && value == TrimSpace(v) && ',' !in value
    ensures forall v | HoldOnly(headers, headers.Keys, name, v) && ',' !in TrimSpace(v) :: value == TrimSpace(v)
  {
    var values: seq<string>, found := [], false;
    var pending := headers.Keys;
    while pending != {}
      invariant pending <= headers.Keys
      invariant found <==> exists k | k in headers.Keys - pending :: EqualFold(k, name)
      invariant Gathers(headers, headers.Keys - pending, name, values)
      decreases |pending|
    {
      var k :| k in pending;
      GatherKey(headers, headers.Keys - pending, name, values, k);
      assert headers.Keys - (pending - {k}) == headers.Keys - pending + {k};
      if EqualFold(k, name) {
        found, values := true, values + headers[k];
      }
      pending := pending - {k};
    }
    assert headers.Keys - pending == headers.Keys;
    if |values| != 1 {
      return "", found;
    }
    var trimmed := TrimSpace(values[0]);
    if trimmed == "" || ',' in trimmed {
      return "", true;
    }
    return trimmed, true;
  }

  function HexDecode(s: string): Option<Bytes> {
    if s == "" then Some([])
    else if |s| == 1 then None
    else
      match (Paths.HexValue(s[0]), Paths.HexValue(s[1]), HexDecode(s[2..]))
      case (Some(high), Some(low), Some(rest)) => Some([16 * high + low] + rest)
      case _ => None
  }

  predicate SpellsAt(s: string, bs: Bytes, i: nat)
    requires 2 * i + 1 < |s| && i < |bs|
  {
    && Paths.HexValue(s[2 * i]).Some? && Paths.HexValue(s[2 * i + 1]).Some?
    && bs[i] == 16 * Paths.HexValue(s[2 * i]).value + Paths.HexValue(s[2 * i + 1]).value
  }

  /** A hexadecimal spelling of the bytes: two digits each, every digit in either letter case. */
  predicate Spells(s: string, bs: Bytes) {
    |s| == 2 * |bs| && forall i | 0 <= i < |bs| :: SpellsAt(s, bs, i)
  }

  lemma SpellsStep(s: string, bs: Bytes)
    requires |s| >= 2 && bs != []
    ensures Spells(s, bs) <==> SpellsAt(s, bs, 0) && Spells(s[2..], bs[1..])
  {
    hide Paths.HexValue;
    if |s| == 2 * |bs| {
      forall i | 1 <= i < |bs| ensures SpellsAt(s, bs, i) <==> SpellsAt(s[2..], bs[1..], i - 1) {
        assert s[2 * i] == s[2..][2 * (i - 1)] && s[2 * i + 1] == s[2..][2 * (i - 1) + 1] && bs[i] == bs[1..][i - 1];
      }
      if SpellsAt(s, bs, 0) && Spells(s[2..], bs[1..]) {
        forall i | 0 <= i < |bs| ensures SpellsAt(s, bs, i) {
          assert i > 0 ==> SpellsAt(s[2..], bs[1..], i - 1);
        }
      }
      if Spells(s, bs) {
        forall i | 0 <= i < |bs[1..]| ensures SpellsAt(s[2..], bs[1..], i) {
          assert SpellsAt(s, bs, i + 1);
        }
      }
    }
  }

  lemma {:induction false} HexDecodeSpells(s: string, bs: Bytes)
    ensures HexDecode(s) == Some(bs) <==> Spells(s, bs)
    decreases |s|
  {
    hide Paths.HexValue, Spells;
    if |s| >= 2 && bs != [] {
      SpellsStep(s, bs);
      HexDecodeSpells(s[2..], bs[1..]);
      assert bs == [bs[0]] + bs[1..];
    } else {
      assert Spells(s, bs) <==> s == "" && bs == [] by { SpellsShort(s, bs); }
    }
  }

  lemma SpellsShort(s: string, bs: Bytes)
    requires |s| < 2 || bs == []
    ensures Spells(s, bs) <==> s == "" && bs == []
  {
  }

  /** The contract with the provider, independent of how the header map is visited. */
  ghost predicate IsAuthentic(headers: HttpHeaders, body: Bytes, secret: string, mac: Mac) {
    && ValidSecret(secret)
    && !IsPresent(headers, OBSOLETE_SIGNATURE)
    && |mac(secret, body)| == DIGEST_SIZE
    && exists v :: HoldOnly(headers, headers.Keys, SIGNATURE, v) && IsSigned(TrimSpace(v), mac(secret, body))
  }

  /** The trimmed header value is the scheme followed by a spelling of the digest. */
  predicate IsSigned(value: string, digest: Bytes) {
    SCHEME <= value && Spells(value[|SCHEME|..], digest)
  }

  lemma SignedHasNoComma(value: string, digest: Bytes)
    requires IsSigned(value, digest)
    ensures ',' !in value && value != ""
  {
    forall i | 0 <= i < |value| ensures value[i] != ',' {
      if i >= |SCHEME| {
        assert SpellsAt(value[|SCHEME|..], digest, (i - |SCHEME|) / 2);
      }
    }
  }

  /** verifyNFeIOSignature. */
  method VerifySignature(headers: HttpHeaders, body: Bytes, secret: string, mac: Mac) returns (accepted: bool)
    ensures accepted <==> IsAuthentic(headers, body, secret, mac)
  {
    hide Spells, HexDecode, HoldOnly, TrimSpace;
    if !ValidSecret(secret) {
      return false;
    }
    var _, obsolete := SingleHttpHeader(headers, OBSOLETE_SIGNATURE);
    if obsolete {
      return false;
    }
    var signature, present := SingleHttpHeader(headers, SIGNATURE);
    ghost var digest := mac(secret, body);
    forall v | HoldOnly(headers, headers.Keys, SIGNATURE, v) && IsSigned(TrimSpace(v), digest)
      ensures signature == TrimSpace(v) && signature != ""
    {
      SignedHasNoComma(TrimSpace(v), digest);
    }
    if signature != "" {
      HoldOnlyIsPresent(headers, SIGNATURE);
    }
    if !present || !(SCHEME <= signature) {
      return false;
    }
    var decoded := HexDecode(signature[|SCHEME|..]);
    HexDecodeSpells(signature[|SCHEME|..], digest);
    if decoded.None? || |decoded.value| != DIGEST_SIZE {
      return false;
    }
    return decoded.value == mac(secret, body);
  }

  lemma HoldOnlyIsPresent(headers: HttpHeaders, name: string)
    ensures (exists v :: HoldOnly(headers, headers.Keys, name, v)) ==> IsPresent(headers, name)
  {
  }

  // What a sender has to do.

  /** The bytes in hexadecimal, with these sixteen digits. */
  function HexText(bs: Bytes, digits: string): string
    requires |digits| == 16 && forall i | 0 <= i < |bs| :: 0 <= bs[i] < 256
  {
    if bs == [] then "" else [digits[bs[0] / 16], digits[bs[0] % 16]] + HexText(bs[1..], digits)
  }

  lemma {:induction false} HexTextSpells(bs: Bytes, digits: string)
    requires digits == "0123456789abcdef" || digits == "0123456789ABCDEF"
    requires forall i | 0 <= i < |bs| :: 0 <= bs[i] < 256
    ensures Spells(HexText(bs, digits), bs)
    decreases |bs|
  {
    hide Paths.HexValue;
    var s := HexText(bs, digits);
    if bs != [] {
      HexTextSpells(bs[1..], digits);
      Paths.HexValueIff(s[0], bs[0] / 16);
      Paths.HexValueIff(s[1], bs[0] % 16);
      assert s[2..] == HexText(bs[1..], digits);
      SpellsStep(s, bs);
    }
  }

  /** A callback signed in one header of any letter case, with lower-case or upper-case digits, is accepted. */
  lemma SenderIsAccepted(key: string, digits: string, body: Bytes, secret: string, mac: Mac)
    requires key in {"X-Hub-Signature", Lower("X-Hub-Signature"), Upper("X-Hub-Signature")}
    requires digits == "0123456789abcdef" || digits == "0123456789ABCDEF"
    requires ValidSecret(secret) && |mac(secret, body)| == 20
    requires forall i | 0 <= i < 20 :: 0 <= mac(secret, body)[i] < 256
    ensures IsAuthentic(map[key := ["sha1=" + HexText(mac(secret, body), digits)]], body, secret, mac)
  {
    hide Spells, ValidSecret, TrimSpace;
    var hex := HexText(mac(secret, body), digits);
    var v := "sha1=" + hex;
    var headers: HttpHeaders := map[key := [v]];
    AnyCaseFolds("X-Hub-Signature");
    assert |key| == 15 && |OBSOLETE_SIGNATURE| == 19;
    hide EqualFold, Lower, Upper;
    HexTextSpells(mac(secret, body), digits);
    assert v[|SCHEME|..] == hex;
    SignedIsTrimmed(v, mac(secret, body));
    OtherLengthsDiffer(key, OBSOLETE_SIGNATURE);
    assert HoldOnly(headers, headers.Keys, SIGNATURE, v) by { assert key in headers.Keys; }
  }

  lemma OtherLengthsDiffer(s: string, t: string)
    ensures |s| != |t| ==> !EqualFold(s, t)
  {
  }

  /** A signed value has no white space at its ends. */
  lemma SignedIsTrimmed(value: string, digest: Bytes)
    requires IsSigned(value, digest)
    ensures TrimSpace(value) == value
  {
    forall i | 0 <= i < |value| ensures !IsSpace(value[i]) {
      if i >= |SCHEME| {
        assert SpellsAt(value[|SCHEME|..], digest, (i - |SCHEME|) / 2);
      }
    }
    SignedHasNoComma(value, digest);
  }

  /** The obsolete header, in any letter case, or no signature at all, is refused. */
  lemma SenderIsRefused(headers: HttpHeaders, body: Bytes, secret: string, mac: Mac)
    ensures "X-Hub-Signature-256" in headers || Lower("X-Hub-Signature-256") in headers ==>
              !IsAuthentic(headers, body, secret, mac)
    ensures headers == map[] ==> !IsAuthentic(headers, body, secret, mac)
    ensures !ValidSecret(secret) ==> !IsAuthentic(headers, body, secret, mac)
  {
    AnyCaseFolds("X-Hub-Signature-256");
    hide EqualFold, Lower, ValidSecret;
  }
}
