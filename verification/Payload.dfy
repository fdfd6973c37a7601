/** The canonical key=value payload of a signed request, and reading it back. */
module Payloads {
  import opened Wrappers

  type Param = (string, string)

  /** std::string order: character by character, a prefix first. */
  predicate Less(a: string, b: string) {
    b != [] && (a == [] || a[0] < b[0] || (a[0] == b[0] && Less(a[1..], b[1..])))
  }

  lemma LessTransitive(a: string, b: string, c: string)
    requires Less(a, b) && Less(b, c)
    ensures Less(a, c)
  {}

  lemma LessIrreflexive(a: string)
    ensures !Less(a, a)
  {}

  lemma LessTotal(a: string, b: string)
    ensures Less(a, b) || a == b || Less(b, a)
  {}

  /** The strings agree up to n, where a ends and b does not, or where a has the smaller character. */
  predicate DiffersAt(a: string, b: string, n: nat) {
    n <= |a| && n < |b| && a[..n] == b[..n] && (n == |a| || a[n] < b[n])
  }

  /** a comes before b exactly when it is a proper prefix of b, or smaller at the first difference. */
  lemma {:induction false} LessIff(a: string, b: string)
    ensures Less(a, b) <==> exists n: nat :: DiffersAt(a, b, n)
  {
    if b != [] {
      if a == [] || a[0] < b[0] {
        assert DiffersAt(a, b, 0);
      } else if a[0] == b[0] {
        LessIff(a[1..], b[1..]);
        if n: nat :| DiffersAt(a[1..], b[1..], n) {
          assert a[..n+1] == [a[0]] + a[1..][..n] && b[..n+1] == [b[0]] + b[1..][..n];
          assert DiffersAt(a, b, n + 1);
        }
        if n: nat :| DiffersAt(a, b, n) {
          assert n > 0;
          assert a[1..][..n-1] == a[..n][1..] && b[1..][..n-1] == b[..n][1..];
          assert DiffersAt(a[1..], b[1..], n - 1);
        }
      }
    }
  }

  /** A std::map<string, string>: its entries in iteration order, keys strictly increasing. */
  ghost predicate Sorted(s: seq<Param>) {
    forall i, j :: 0 <= i < j < |s| ==> Less(s[i].0, s[j].0)
  }

  predicate HasKey(s: seq<Param>, key: string) {
    exists i :: 0 <= i < |s| && s[i].0 == key
  }

  /** std::map::insert: an existing key keeps its value. */
  function Inserted(s: seq<Param>, key: string, value: string): seq<Param> {
    if s == [] then [(key, value)]
    else if s[0].0 == key then s
    else if Less(key, s[0].0) then [(key, value)] + s
    else [s[0]] + Inserted(s[1..], key, value)
  }

  lemma SortedTail(s: seq<Param>)
    requires Sorted(s) && s != []
    ensures Sorted(s[1..])
    ensures !HasKey(s[1..], s[0].0)
  {
    LessIrreflexive(s[0].0);
  }

  /** Insertion keeps the order, adds exactly the new entry, and does nothing to a key that is there. */
  lemma {:induction false} InsertedIs(s: seq<Param>, key: string, value: string)
    requires Sorted(s)
    ensures var r := Inserted(s, key, value);
            && Sorted(r)
            && (HasKey(s, key) ==> r == s)
            && (!HasKey(s, key) ==> forall p :: p in r <==> p in s || p == (key, value))
            && HasKey(r, key)
            && (forall k: string :: k != key ==> (HasKey(r, k) <==> HasKey(s, k)))
  {
    if s == [] {
      assert Inserted(s, key, value)[0].0 == key;
    } else {
      SortedTail(s);
      var tail := s[1..];
      assert s == [s[0]] + tail;
      InsertedIs(tail, key, value);
      var r := Inserted(s, key, value);
      if s[0].0 == key {
      } else if Less(key, s[0].0) {
        InsertFront(s, key, value);
      } else {
        LessTotal(key, s[0].0);
        InsertLater(s, key, value);
      }
    }
  }

  lemma {:induction false} InsertFront(s: seq<Param>, key: string, value: string)
    requires Sorted(s) && s != [] && Less(key, s[0].0)
    ensures var r := [(key, value)] + s;
            && Sorted(r) && !HasKey(s, key) && HasKey(r, key)
            && (forall k: string :: k != key ==> (HasKey(r, k) <==> HasKey(s, k)))
  {
    var r := [(key, value)] + s;
    forall i | 0 <= i < |s| ensures Less(key, s[i].0) && s[i].0 != key {
      if i > 0 {
        LessTransitive(key, s[0].0, s[i].0);
      }
      LessIrreflexive(key);
    }
    assert r[0].0 == key;
    forall i, j | 0 <= i < j < |r| ensures Less(r[i].0, r[j].0) {
      if i > 0 {
        assert r[i] == s[i-1] && r[j] == s[j-1];
      }
    }
    forall k: string | k != key ensures HasKey(r, k) <==> HasKey(s, k) {
      ConsKeys((key, value), s, k);
    }
  }

  lemma ConsKeys(p: Param, s: seq<Param>, k: string)
    ensures HasKey([p] + s, k) <==> p.0 == k || HasKey(s, k)
  {
    var r := [p] + s;
    assert r[0] == p;
    if HasKey(s, k) {
      var i :| 0 <= i < |s| && s[i].0 == k;
      assert r[i+1] == s[i];
    }
  }

  lemma {:induction false} InsertLater(s: seq<Param>, key: string, value: string)
    requires Sorted(s) && s != [] && Less(s[0].0, key)
    requires var t := Inserted(s[1..], key, value);
             && Sorted(t) && HasKey(t, key)
             && (HasKey(s[1..], key) ==> t == s[1..])
             && (!HasKey(s[1..], key) ==> forall p :: p in t <==> p in s[1..] || p == (key, value))
             && (forall k: string :: k != key ==> (HasKey(t, k) <==> HasKey(s[1..], k)))
    ensures var r := [s[0]] + Inserted(s[1..], key, value);
            && Sorted(r) && HasKey(r, key)
            && (HasKey(s, key) ==> r == s)
            && (!HasKey(s, key) ==> forall p :: p in r <==> p in s || p == (key, value))
            && (forall k: string :: k != key ==> (HasKey(r, k) <==> HasKey(s, k)))
  {
    var tail, t := s[1..], Inserted(s[1..], key, value);
    var r := [s[0]] + t;
    assert s == [s[0]] + tail;
    LessIrreflexive(key);
    ConsKeys(s[0], tail, key);
    ConsKeys(s[0], t, key);
    forall k: string | k != key ensures HasKey(r, k) <==> HasKey(s, k) {
      ConsKeys(s[0], tail, k);
      ConsKeys(s[0], t, k);
    }
    forall j | 0 <= j < |t| ensures Less(s[0].0, t[j].0) {
      if t[j].0 != key {
        assert HasKey(t, t[j].0);
        var i :| 0 <= i < |tail| && tail[i].0 == t[j].0;
        assert s[i+1] == tail[i];
      }
    }
    forall i, j | 0 <= i < j < |r| ensures Less(r[i].0, r[j].0) {
      if i > 0 {
        assert r[i] == t[i-1] && r[j] == t[j-1];
      }
    }
  }

  // ----- Writing the payload -----

  function Piece(p: Param): string {
    p.0 + "=" + p.1
  }

  /** fmt::join with "&". */
  function Join(pieces: seq<string>): string {
    if pieces == [] then ""
    else if |pieces| == 1 then pieces[0]
    else pieces[0] + "&" + Join(pieces[1..])
  }

  function Pieces(s: seq<Param>): (r: seq<string>)
    ensures |r| == |s| && forall i :: 0 <= i < |r| ==> r[i] == Piece(s[i])
  {
    seq(|s|, i requires 0 <= i < |s| => Piece(s[i]))
  }

  function Payload(s: seq<Param>): string {
    Join(Pieces(s))
  }

  method GeneratePayload(params: seq<Param>) returns (payload: string)
    ensures payload == Payload(params)
  {
    var paramList: seq<string> := [];
    for i := 0 to |params|
      invariant paramList == Pieces(params[..i])
    {
      paramList := paramList + [params[i].0 + "=" + params[i].1];
    }
    assert params[..|params|] == params;
    payload := Join(paramList);
  }

  /** One more parameter, as the last in key order, is appended as &key=value. */
  lemma {:induction false} PayloadAppends(s: seq<Param>, p: Param)
    ensures Payload([]) == "" && Payload(s + [p]) == (if s == [] then "" else Payload(s) + "&") + (p.0 + "=" + p.1)
  {
    assert Pieces(s + [p]) == Pieces(s) + [p.0 + "=" + p.1];
    JoinAppends(Pieces(s), p.0 + "=" + p.1);
  }

  lemma {:induction false} JoinAppends(pieces: seq<string>, last: string)
    ensures Join(pieces + [last]) == (if pieces == [] then "" else Join(pieces) + "&") + last
  {
    if |pieces| > 0 {
      assert (pieces + [last])[0] == pieces[0] && (pieces + [last])[1..] == pieces[1..] + [last];
      JoinAppends(pieces[1..], last);
    }
  }

  // ----- Reading it back -----

  /** The index of the first c, or the length. */
  function IndexOf(s: string, c: char): (i: nat)
    ensures i <= |s| && (forall k :: 0 <= k < i ==> s[k] != c) && (i < |s| ==> s[i] == c)
  {
    if s == [] || s[0] == c then 0 else 1 + IndexOf(s[1..], c)
  }

  /** Splits at every '&'. */
  function Split(s: string): (r: seq<string>)
    ensures r != [] && forall i :: 0 <= i < |r| ==> '&' !in r[i]
    decreases |s|
  {
    var i := IndexOf(s, '&');
    if i == |s| then [s] else [s[..i]] + Split(s[i+1..])
  }

  /** The text before and after the first '='. */
  function ParsePiece(s: string): Option<Param> {
    var i := IndexOf(s, '=');
    if i == |s| then None else Some((s[..i], s[i+1..]))
  }

  function ParsePieces(pieces: seq<string>): Option<seq<Param>> {
    if pieces == [] then Some([])
    else
      match (ParsePiece(pieces[0]), ParsePieces(pieces[1..]))
      case (Some(p), Some(rest)) => Some([p] + rest)
      case _ => None
  }

  /** The parameters a payload encodes; the empty payload encodes none. */
  function Parse(payload: string): Option<seq<Param>> {
    if payload == "" then Some([]) else ParsePieces(Split(payload))
  }

  /** No key contains '=' or '&', no value contains '&'. */
  ghost predicate Clean(s: seq<Param>) {
    forall i :: 0 <= i < |s| ==> '=' !in s[i].0 && '&' !in s[i].0 && '&' !in s[i].1
  }

  lemma IndexIs(a: string, c: char, b: string)
    requires c !in a
    ensures IndexOf(a + [c] + b, c) == |a|
  {
    var s := a + [c] + b;
    assert s[|a|] == c;
    assert forall k :: 0 <= k < |a| ==> s[k] == a[k];
  }

  lemma NoIndex(a: string, c: char)
    requires c !in a
    ensures IndexOf(a, c) == |a|
  {}

  lemma {:induction false} SplitJoin(pieces: seq<string>)
    requires pieces != [] && forall i :: 0 <= i < |pieces| ==> '&' !in pieces[i]
    ensures Split(Join(pieces)) == pieces
  {
    if |pieces| == 1 {
      NoIndex(pieces[0], '&');
    } else {
      var rest := Join(pieces[1..]);
      IndexIs(pieces[0], '&', rest);
      var s := pieces[0] + "&" + rest;
      assert s == pieces[0] + ['&'] + rest;
      assert s[..|pieces[0]|] == pieces[0] && s[|pieces[0]|+1..] == rest;
      SplitJoin(pieces[1..]);
      assert [pieces[0]] + pieces[1..] == pieces;
    }
  }

  lemma ParsePieceIs(p: Param)
    requires '=' !in p.0
    ensures ParsePiece(Piece(p)) == Some(p)
  {
    IndexIs(p.0, '=', p.1);
    var s := p.0 + "=" + p.1;
    assert s == p.0 + ['='] + p.1;
    assert s[..|p.0|] == p.0 && s[|p.0|+1..] == p.1;
  }

  lemma {:induction false} ParsePiecesIs(s: seq<Param>)
    requires forall i :: 0 <= i < |s| ==> '=' !in s[i].0
    ensures ParsePieces(Pieces(s)) == Some(s)
  {
    if s != [] {
      assert Pieces(s)[1..] == Pieces(s[1..]);
      ParsePieceIs(s[0]);
      ParsePiecesIs(s[1..]);
      assert [s[0]] + s[1..] == s;
    }
  }

  lemma {:induction false} ParsedIsClean(pieces: seq<string>)
    requires forall i :: 0 <= i < |pieces| ==> '&' !in pieces[i]
    ensures ParsePieces(pieces).Some? ==> Clean(ParsePieces(pieces).value)
  {
    if pieces != [] {
      ParsedIsClean(pieces[1..]);
    }
  }

  lemma PayloadNonEmpty(s: seq<Param>)
    requires s != []
    ensures Payload(s) != ""
  {}

  /** Reading a payload back gives the parameters exactly when the keys contain neither '=' nor '&' and the values no
      '&'. */
  lemma {:induction false} RoundTripIff(s: seq<Param>)
    ensures Parse(Payload(s)) == Some(s) <==> Clean(s)
  {
    if s != [] {
      PayloadNonEmpty(s);
      ParsedIsClean(Split(Payload(s)));
      if Clean(s) {
        forall i | 0 <= i < |s| ensures '&' !in Pieces(s)[i] {
          assert Pieces(s)[i] == s[i].0 + "=" + s[i].1;
        }
        SplitJoin(Pieces(s));
        ParsePiecesIs(s);
      }
    }
  }

  /** Hence on such parameters the payload determines the parameters. */
  lemma PayloadInjective(s: seq<Param>, t: seq<Param>)
    requires Clean(s) && Clean(t) && Payload(s) == Payload(t)
    ensures s == t
  {
    RoundTripIff(s);
    RoundTripIff(t);
  }

  /** Without that condition it does not: a value with '&' reads like two parameters. */
  lemma PayloadCanCollide()
    ensures var s, t := [("a", "1&b=2")], [("a", "1"), ("b", "2")];
            Sorted(s) && Sorted(t) && s != t && Payload(s) == Payload(t)
  {}

  // ----- Signing -----

  /** The caller's map of parameters. */
  class Params {
    var entries: seq<Param>

    constructor (entries: seq<Param>)
      requires Sorted(entries)
      ensures this.entries == entries
    {
      this.entries := entries;
    }

    method Insert(key: string, value: string)
      modifies this
      ensures entries == Inserted(old(entries), key, value)
    {
      entries := Inserted(entries, key, value);
    }
  }

  /** The parameters after signing; hmac stands for the keyed digest in hexadecimal. */
  function Signed(s: seq<Param>, apiKey: string, secretKey: string, hmac: (string, string) -> string): seq<Param> {
    var withKey := Inserted(s, "apiKey", apiKey);
    Inserted(withKey, "signature", hmac(secretKey, Payload(withKey)))
  }

  method SignRequestHMAC(params: Params, apiKey: string, secretKey: string, hmac: (string, string) -> string)
    modifies params
    ensures params.entries == Signed(old(params.entries), apiKey, secretKey, hmac)
  {
    params.Insert("apiKey", apiKey);
    var payload := GeneratePayload(params.entries);
    params.Insert("signature", hmac(secretKey, payload));
  }

  /** The entries other than the signature. */
  function Unsigned(s: seq<Param>): seq<Param> {
    if s == [] then []
    else (if s[0].0 == "signature" then [] else [s[0]]) + Unsigned(s[1..])
  }

  lemma {:induction false} UnsignedOfInserted(s: seq<Param>, value: string)
    requires Sorted(s) && !HasKey(s, "signature")
    ensures Unsigned(Inserted(s, "signature", value)) == s
  {
    UnsignedIsAll(s);
    if s != [] {
      SortedTail(s);
      ConsKeys(s[0], s[1..], "signature");
      assert [s[0]] + s[1..] == s;
      if Less("signature", s[0].0) {
        var r := [("signature", value)] + s;
        assert r[0] == ("signature", value) && r[1..] == s;
      } else {
        UnsignedOfInserted(s[1..], value);
        var r := [s[0]] + Inserted(s[1..], "signature", value);
        assert r[0] == s[0] && r[1..] == Inserted(s[1..], "signature", value);
      }
    }
  }

  lemma {:induction false} UnsignedIsAll(s: seq<Param>)
    requires !HasKey(s, "signature")
    ensures Unsigned(s) == s
  {
    if s != [] {
      assert [s[0]] + s[1..] == s;
      ConsKeys(s[0], s[1..], "signature");
      UnsignedIsAll(s[1..]);
    }
  }

  /** The request carries the digest of the payload of everything else in it. */
  ghost predicate ProperlySigned(s: seq<Param>, secretKey: string, hmac: (string, string) -> string) {
    ("signature", hmac(secretKey, Payload(Unsigned(s)))) in s
  }

  lemma {:induction false} SignatureIsFresh(s: seq<Param>, value: string)
    requires Sorted(s) && !HasKey(s, "signature")
    ensures Unsigned(Inserted(s, "signature", value)) == s && ("signature", value) in Inserted(s, "signature", value)
  {
    UnsignedOfInserted(s, value);
    InsertedIs(s, "signature", value);
  }

  lemma OneValue(s: seq<Param>, i: nat, p: Param)
    requires Sorted(s) && i < |s| && s[i].0 == p.0 && s[i].1 != p.1
    ensures p !in s
  {
    LessIrreflexive(p.0);
    forall j | 0 <= j < |s| ensures s[j] != p {
      if i < j {
        assert Less(s[i].0, s[j].0);
      } else if j < i {
        assert Less(s[j].0, s[i].0);
      }
    }
  }

  /** With no signature before, the signature covers every other final parameter. */
  lemma {:induction false} FirstSignatureCovers(s: seq<Param>, apiKey: string, secretKey: string,
      hmac: (string, string) -> string)
    requires Sorted(s) && !HasKey(s, "signature")
    ensures Sorted(Signed(s, apiKey, secretKey, hmac))
            && ProperlySigned(Signed(s, apiKey, secretKey, hmac), secretKey, hmac)
    ensures Unsigned(Signed(s, apiKey, secretKey, hmac)) == Inserted(s, "apiKey", apiKey)
  {
    hide Inserted, Unsigned, Payload;
    InsertedIs(s, "apiKey", apiKey);
    var withKey := Inserted(s, "apiKey", apiKey);
    InsertedIs(withKey, "signature", hmac(secretKey, Payload(withKey)));
    SignatureIsFresh(withKey, hmac(secretKey, Payload(withKey)));
  }

  /** A signature that was there before stays, so some digest does not match it. */
  lemma {:induction false} StaleSignatureStays(s: seq<Param>, apiKey: string, secretKey: string)
    returns (hmac: (string, string) -> string)
    requires Sorted(s) && HasKey(s, "signature")
    ensures !ProperlySigned(Signed(s, apiKey, secretKey, hmac), secretKey, hmac)
  {
    hide Inserted, Unsigned, Payload;
    InsertedIs(s, "apiKey", apiKey);
    var withKey := Inserted(s, "apiKey", apiKey);
    var i :| 0 <= i < |withKey| && withKey[i].0 == "signature";
    var other := withKey[i].1 + "0";
    assert |other| != |withKey[i].1|;
    hmac := (key, payload) => other;
    InsertedIs(withKey, "signature", other);
    OneValue(withKey, i, ("signature", other));
  }

  /** A request that comes with the signature x keeps it, whatever digest is computed. */
  lemma {:induction false} OldSignatureIsSent(secretKey: string)
    ensures var s, hmac := [("signature", "x")], (key: string, payload: string) => "digest";
            && Sorted(s) && Signed(s, "k", secretKey, hmac) == [("apiKey", "k"), ("signature", "x")]
            && !ProperlySigned(Signed(s, "k", secretKey, hmac), secretKey, hmac)
  {
    var s: seq<Param> := [("signature", "x")];
    var withKey: seq<Param> := [("apiKey", "k"), ("signature", "x")];
    assert "apiKey"[0] == 'a' && "signature"[0] == 's';
    assert Less("apiKey", "signature") && !Less("signature", "apiKey");
    assert Inserted(s, "apiKey", "k") == withKey;
    assert withKey[1..] == s;
    assert Inserted(withKey, "signature", "digest") == withKey;
    assert ("signature", "digest") !in withKey by {
      assert |"digest"| != |"x"|;
    }
  }

  /** Whatever the digest, a request is signed over exactly its final parameters if and only if it had no signature
      before. */
  lemma {:induction false} SigningCoversIff(s: seq<Param>, apiKey: string, secretKey: string)
    requires Sorted(s)
    ensures (forall hmac: (string, string) -> string ::
              ProperlySigned(Signed(s, apiKey, secretKey, hmac), secretKey, hmac))
            <==> !HasKey(s, "signature")
  {
    hide Signed, ProperlySigned;
    if HasKey(s, "signature") {
      var hmac := StaleSignatureStays(s, apiKey, secretKey);
    } else {
      forall hmac: (string, string) -> string
        ensures ProperlySigned(Signed(s, apiKey, secretKey, hmac), secretKey, hmac)
      {
        FirstSignatureCovers(s, apiKey, secretKey, hmac);
      }
    }
  }

  lemma {:induction false} InsertedIsClean(s: seq<Param>, key: string, value: string)
    requires Sorted(s) && Clean(s) && '=' !in key && '&' !in key && '&' !in value
    ensures Clean(Inserted(s, key, value))
  {
    if s != [] {
      SortedTail(s);
      if !(s[0].0 == key || Less(key, s[0].0)) {
        InsertedIsClean(s[1..], key, value);
      }
    }
  }

  /** A first signature over clean parameters: the payload that was signed encodes exactly the final parameters but the
      signature, which are the given ones and the API key. */
  lemma {:induction false} SignedPayloadEncodes(s: seq<Param>, apiKey: string, secretKey: string,
      hmac: (string, string) -> string)
    requires Sorted(s) && !HasKey(s, "signature") && Clean(s) && '&' !in apiKey
    ensures var r := Signed(s, apiKey, secretKey, hmac);
            && Parse(Payload(Unsigned(r))) == Some(Unsigned(r))
            && (forall p :: p in Unsigned(r) <==> p in s || (!HasKey(s, "apiKey") && p == ("apiKey", apiKey)))
  {
    FirstSignatureCovers(s, apiKey, secretKey, hmac);
    InsertedIsClean(s, "apiKey", apiKey);
    InsertedIs(s, "apiKey", apiKey);
    hide Inserted, Unsigned, Signed, Clean;
    RoundTripIff(Inserted(s, "apiKey", apiKey));
  }
}
