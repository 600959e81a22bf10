/**
 * The parts of Go's net/http and net/url that the generated request builder touches:
 * the HTTP verbs, url.Values, http.Header with its canonical keys, and an abstract
 * request record.
 */
module Http {
  import opened Wrappers

  newtype byte = x: int | 0 <= x < 256

  /** The verbs an endpoint annotation may carry. */
  datatype Verb = GET | POST | PUT | DELETE

  /** url.Values: each key maps to the values added under it, in order. */
  type Values = map<string, seq<string>>

  /** url.Values.Add: appends `value` to the values under `key`. */
  function Add(vs: Values, key: string, value: string): (r: Values)
    ensures r.Keys == vs.Keys + {key}
    ensures r[key] == (if key in vs then vs[key] else []) + [value]
    ensures forall k :: k in vs && k != key ==> r[k] == vs[k]
  {
    vs[key := (if key in vs then vs[key] else []) + [value]]
  }

  /** A character allowed in a header field name (a token character of RFC 7230). */
  predicate IsTokenChar(c: char)
  {
    || 'a' <= c <= 'z' || 'A' <= c <= 'Z' || '0' <= c <= '9'
    || c == '!' || c == '#' || c == '$' || c == '%' || c == '&' || c == '\'' || c == '*'
    || c == '+' || c == '-' || c == '.' || c == '^' || c == '_' || c == '`' || c == '|' || c == '~'
  }

  function ToUpper(c: char): char
  {
    if 'a' <= c <= 'z' then (c as int - 32) as char else c
  }

  function ToLower(c: char): char
  {
    if 'A' <= c <= 'Z' then (c as int + 32) as char else c
  }

  /** Upper-cases the first letter and every letter after a '-', lower-cases the rest. */
  function CanonicalCase(s: string, upper: bool): (r: string)
    ensures |r| == |s|
    decreases |s|
  {
    if |s| == 0 then ""
    else
      var c := if upper then ToUpper(s[0]) else ToLower(s[0]);
      [c] + CanonicalCase(s[1..], c == '-')
  }

  /**
   * textproto.CanonicalMIMEHeaderKey, which http.Header.Set applies to its key: a key
   * made only of token characters is brought into canonical case; any other key is kept
   * as it is.
   */
  function CanonicalKey(key: string): (r: string)
    ensures |r| == |key|
  {
    if forall i :: 0 <= i < |key| ==> IsTokenChar(key[i]) then CanonicalCase(key, true)
    else key
  }

  lemma {:induction false} CanonicalCaseTwice(s: string, upper: bool)
    ensures CanonicalCase(CanonicalCase(s, upper), upper) == CanonicalCase(s, upper)
    ensures forall i :: 0 <= i < |s| ==> (IsTokenChar(s[i]) ==> IsTokenChar(CanonicalCase(s, upper)[i]))
    decreases |s|
  {
    if |s| > 0 {
      var c := if upper then ToUpper(s[0]) else ToLower(s[0]);
      var r := CanonicalCase(s, upper);
      assert r == [c] + CanonicalCase(s[1..], c == '-');
      assert r[1..] == CanonicalCase(s[1..], c == '-');
      CanonicalCaseTwice(s[1..], c == '-');
      forall i | 0 <= i < |s| && IsTokenChar(s[i])
        ensures IsTokenChar(r[i])
      {
        if i > 0 { assert r[i] == r[1..][i - 1] && s[i] == s[1..][i - 1]; }
      }
    }
  }

  /** Canonicalising a canonical key changes nothing. */
  lemma {:induction false} CanonicalKeyIdempotent(key: string)
    ensures CanonicalKey(CanonicalKey(key)) == CanonicalKey(key)
  {
    CanonicalCaseTwice(key, true);
  }

  /** http.Header, with at most one value per canonical key (all this builder uses). */
  type Header = map<string, string>

  /** http.Header.Set: replaces the value under the canonical form of `key`. */
  function SetHeader(h: Header, key: string, value: string): (r: Header)
    ensures CanonicalKey(key) in r && r[CanonicalKey(key)] == value
    ensures forall k :: k in h && k != CanonicalKey(key) ==> k in r && r[k] == h[k]
    ensures r.Keys == h.Keys + {CanonicalKey(key)}
  {
    h[CanonicalKey(key) := value]
  }

  /**
   * Applies the header bindings `params` with Set, visiting their keys in `order`
   * (Go visits a map in an unspecified order).
   */
  function SetHeaders(h: Header, params: map<string, string>, order: seq<string>): Header
    requires forall k :: k in order ==> k in params
    decreases |order|
  {
    if order == [] then h
    else
      var k := order[|order| - 1];
      SetHeader(SetHeaders(h, params, order[..|order| - 1]), k, params[k])
  }

  /** One more key visited: Set is applied to the header so far. */
  lemma {:induction false} SetHeadersSnoc(h: Header, params: map<string, string>, order: seq<string>, k: string)
    requires forall j :: j in order ==> j in params
    requires k in params
    ensures SetHeaders(h, params, order + [k]) == SetHeader(SetHeaders(h, params, order), k, params[k])
  {
    assert (order + [k])[..|order|] == order;
  }

  /** The images of `keys` under `f`. */
  ghost function Images(keys: set<string>, f: string -> string): set<string>
  {
    set k | k in keys :: f(k)
  }

  /** `f` maps distinct keys of `params` to distinct keys. */
  ghost predicate InjectiveOn(params: map<string, string>, f: string -> string)
  {
    forall j, k :: j in params && k in params && f(j) == f(k) ==> j == k
  }

  /** The canonical forms of a set of keys. */
  ghost function CanonicalKeys(keys: set<string>): set<string>
  {
    Images(keys, CanonicalKey)
  }

  /** No two distinct binding keys name the same header. */
  ghost predicate CanonicallyDistinct(params: map<string, string>)
  {
    InjectiveOn(params, CanonicalKey)
  }

  /** The header loop with the key mapping `f` in place of canonicalisation. */
  function Overlay(h: Header, params: map<string, string>, order: seq<string>, f: string -> string): Header
    requires forall k :: k in order ==> k in params
    decreases |order|
  {
    if order == [] then h
    else
      var k := order[|order| - 1];
      Overlay(h, params, order[..|order| - 1], f)[f(k) := params[k]]
  }

  lemma {:induction false} SetHeadersOverlay(h: Header, params: map<string, string>, order: seq<string>)
    requires forall k :: k in order ==> k in params
    ensures SetHeaders(h, params, order) == Overlay(h, params, order, CanonicalKey)
    decreases |order|
  {
    if order != [] {
      SetHeadersOverlay(h, params, order[..|order| - 1]);
    }
  }

  /**
   * Whatever the key mapping, an entry whose key no visited binding maps to is
   * untouched, and the keys are the old ones plus the images of the visited keys.
   */
  lemma {:induction false} OverlayKeys(h: Header, params: map<string, string>, order: seq<string>, f: string -> string)
    requires forall k :: k in order ==> k in params
    ensures forall c :: c in h && c !in Images(Elems(order), f) ==>
                         c in Overlay(h, params, order, f) && Overlay(h, params, order, f)[c] == h[c]
    ensures Overlay(h, params, order, f).Keys == h.Keys + Images(Elems(order), f)
    decreases |order|
  {
    if order != [] {
      var init := order[..|order| - 1];
      var last := order[|order| - 1];
      OverlayKeys(h, params, init, f);
      assert order == init + [last];
      assert Elems(order) == Elems(init) + {last};
      assert Images(Elems(order), f) == Images(Elems(init), f) + {f(last)};
    }
  }

  /**
   * When `f` keeps the bindings apart, every visited binding ends up under its image,
   * whatever the visiting order.
   */
  lemma {:induction false} OverlayEffect(h: Header, params: map<string, string>, order: seq<string>, f: string -> string)
    requires forall k :: k in order ==> k in params
    requires InjectiveOn(params, f)
    ensures forall k :: k in order ==> f(k) in Overlay(h, params, order, f)
                                       && Overlay(h, params, order, f)[f(k)] == params[k]
    decreases |order|
  {
    if order != [] {
      var init := order[..|order| - 1];
      OverlayEffect(h, params, init, f);
      assert order == init + [order[|order| - 1]];
    }
  }

  /**
   * After the header loop, every header that no binding names is untouched, and the
   * headers are the old ones plus the canonical keys of the bindings. This holds even
   * when two bindings name the same header.
   */
  lemma {:induction false} SetHeadersKeys(h: Header, params: map<string, string>, order: seq<string>)
    requires forall k :: k in order ==> k in params
    ensures forall c :: c in h && c !in CanonicalKeys(Elems(order)) ==>
                         c in SetHeaders(h, params, order) && SetHeaders(h, params, order)[c] == h[c]
    ensures SetHeaders(h, params, order).Keys == h.Keys + CanonicalKeys(Elems(order))
  {
    SetHeadersOverlay(h, params, order);
    OverlayKeys(h, params, order, CanonicalKey);
  }

  /**
   * When no two bindings name the same header, every binding ends up under its
   * canonical key, whatever the visiting order.
   */
  lemma {:induction false} SetHeadersEffect(h: Header, params: map<string, string>, order: seq<string>)
    requires forall k :: k in order ==> k in params
    requires CanonicallyDistinct(params)
    ensures forall k :: k in order ==> CanonicalKey(k) in SetHeaders(h, params, order)
                                       && SetHeaders(h, params, order)[CanonicalKey(k)] == params[k]
  {
    SetHeadersOverlay(h, params, order);
    OverlayEffect(h, params, order, CanonicalKey);
  }

  /** What a request carries as its body; the encodings themselves are not modelled. */
  datatype Body =
    | NoBody
    | JsonBody(content: seq<byte>)                 // bytes produced by json.Marshal
    | FormBody(form: Values)                       // to be url-encoded
    | MultipartBody(fields: map<string, seq<byte>>) // to be written by a multipart.Writer

  /**
   * An assembled request. `rawQuery` is Some when the builder set req.URL.RawQuery,
   * None when it left it alone.
   */
  datatype Request = Request(verb: Verb, url: string, body: Body, header: Header, rawQuery: Option<Values>)

  /** The character canonicalisation puts at index i of `s`. */
  function CaseAt(s: string, i: nat, upper: bool): char
    requires i < |s|
  {
    if (if i == 0 then upper else s[i - 1] == '-') then ToUpper(s[i]) else ToLower(s[i])
  }

  /**
   * Canonical case, character by character: a letter is upper-cased when it opens the
   * key or follows a '-', and lower-cased otherwise.
   */
  lemma {:induction false} CanonicalCaseAt(s: string, upper: bool, i: nat)
    requires i < |s|
    ensures CanonicalCase(s, upper)[i] == CaseAt(s, i, upper)
    decreases i
  {
    if i > 0 {
      var c := if upper then ToUpper(s[0]) else ToLower(s[0]);
      CanonicalCaseAt(s[1..], c == '-', i - 1);
      assert CanonicalCase(s, upper)[i] == CanonicalCase(s[1..], c == '-')[i - 1];
    }
  }

  /** The canonical form of `s` is the string with CaseAt at every index. */
  lemma {:induction false} CanonicalCaseIs(s: string, upper: bool, t: string)
    requires |t| == |s| && forall i :: 0 <= i < |s| ==> t[i] == CaseAt(s, i, upper)
    ensures CanonicalCase(s, upper) == t
  {
    forall i | 0 <= i < |s|
      ensures CanonicalCase(s, upper)[i] == t[i]
    {
      CanonicalCaseAt(s, upper, i);
    }
  }

  /** A key made of token characters is brought into canonical case. */
  lemma {:induction false} TokenKey(s: string)
    requires forall i :: 0 <= i < |s| ==> IsTokenChar(s[i])
    ensures CanonicalKey(s) == CanonicalCase(s, true)
  {
  }

  /** A header binding for "accept" lands under the same key as the default Accept. */
  lemma {:induction false} CanonicalAccept()
    ensures CanonicalKey("accept") == "Accept"
  {
    var s := "accept";
    assert forall i :: 0 <= i < |s| ==> IsTokenChar(s[i]);
    TokenKey(s);
    assert CaseAt(s, 0, true) == 'A';
    assert CaseAt(s, 1, true) == 'c';
    assert CaseAt(s, 2, true) == 'c';
    assert CaseAt(s, 3, true) == 'e';
    assert CaseAt(s, 4, true) == 'p';
    assert CaseAt(s, 5, true) == 't';
    CanonicalCaseIs(s, true, "Accept");
  }

  lemma {:induction false} CanonicalAcceptFixed()
    ensures CanonicalKey("Accept") == "Accept"
  {
    var s := "Accept";
    assert forall i :: 0 <= i < |s| ==> IsTokenChar(s[i]);
    TokenKey(s);
    assert CaseAt(s, 0, true) == 'A';
    assert CaseAt(s, 1, true) == 'c';
    assert CaseAt(s, 2, true) == 'c';
    assert CaseAt(s, 3, true) == 'e';
    assert CaseAt(s, 4, true) == 'p';
    assert CaseAt(s, 5, true) == 't';
    CanonicalCaseIs(s, true, s);
  }

  lemma {:induction false} CanonicalContentType()
    ensures CanonicalKey("Content-Type") == "Content-Type"
  {
    ContentTypeTokens();
    TokenKey("Content-Type");
    ContentTypeCase();
  }

  lemma {:induction false} ContentTypeTokens()
    ensures forall i :: 0 <= i < |"Content-Type"| ==> IsTokenChar("Content-Type"[i])
  {
  }

  lemma {:induction false} ContentTypeCase()
    ensures CanonicalCase("Content-Type", true) == "Content-Type"
  {
    var s := "Content-Type";
    assert CaseAt(s, 0, true) == 'C';
    assert CaseAt(s, 1, true) == 'o';
    assert CaseAt(s, 2, true) == 'n';
    assert CaseAt(s, 3, true) == 't';
    assert CaseAt(s, 4, true) == 'e';
    assert CaseAt(s, 5, true) == 'n';
    assert CaseAt(s, 6, true) == 't';
    assert CaseAt(s, 7, true) == '-';
    assert CaseAt(s, 8, true) == 'T';
    assert CaseAt(s, 9, true) == 'y';
    assert CaseAt(s, 10, true) == 'p';
    assert CaseAt(s, 11, true) == 'e';
    CanonicalCaseIs(s, true, s);
  }

}
