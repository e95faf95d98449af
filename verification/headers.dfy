/** Transport message headers as the pattern layer sees them.

    A header value arrives in one of several shapes (a string, a byte buffer, a
    list, `null`, `undefined`, or some other scalar), and every component decodes
    it with its own rule. This module holds the shapes and the JavaScript
    coercions those rules are made of; the per-component decoders live with
    their components. Byte buffers are represented by their utf-8 decoding, so an
    empty buffer is `HBytes("")`. */
module Headers {
  import opened Wrappers

  /** One element of a list-valued header. */
  datatype Elem =
    | EStr(s: string)
    | EBytes(text: string)
    | ENull
    | EUndef
    | EOther(text: string, truthy: bool)  // any other value: its String() text and JS truthiness

  datatype HeaderValue =
    | HStr(s: string)
    | HBytes(text: string)
    | HList(items: seq<Elem>)
    | HNull
    | HUndef
    | HOther(text: string, truthy: bool)

  /** A header object: keys in insertion order, as `Object.keys` lists them. */
  type Headers = seq<(string, HeaderValue)>

  /** JavaScript truthiness of a header value: buffers and lists are objects, so
      they are truthy even when empty. */
  predicate Truthy(v: HeaderValue) {
    match v
    case HStr(s) => s != ""
    case HBytes(_) => true
    case HList(_) => true
    case HNull => false
    case HUndef => false
    case HOther(_, t) => t
  }

  predicate ElemTruthy(e: Elem) {
    match e
    case EStr(s) => s != ""
    case EBytes(_) => true
    case ENull => false
    case EUndef => false
    case EOther(_, t) => t
  }

  /** `value[0]`: the first element, `undefined` for an empty list. */
  function First(items: seq<Elem>): (e: Elem)
    ensures |items| == 0 ==> e == EUndef
    ensures |items| > 0 ==> e == items[0]
  {
    if |items| == 0 then EUndef else items[0]
  }

  /** `String(e)` for a list element. */
  function ElemString(e: Elem): string {
    match e
    case EStr(s) => s
    case EBytes(t) => t
    case ENull => "null"
    case EUndef => "undefined"
    case EOther(t, _) => t
  }

  /** How `Array.prototype.join` renders one element: `null` and `undefined` become "". */
  function ElemJoinText(e: Elem): string {
    if e.ENull? || e.EUndef? then "" else ElemString(e)
  }

  /** `String(list)`, which is `list.join(",")`. */
  function ListString(items: seq<Elem>): string
    decreases |items|
  {
    if |items| == 0 then ""
    else if |items| == 1 then ElemJoinText(items[0])
    else ListString(items[..|items| - 1]) + "," + ElemJoinText(items[|items| - 1])
  }

  /** `String(v)` for a header value. */
  function ValueString(v: HeaderValue): string {
    match v
    case HStr(s) => s
    case HBytes(t) => t
    case HList(items) => ListString(items)
    case HNull => "null"
    case HUndef => "undefined"
    case HOther(t, _) => t
  }

  /** `x || d` on a string: the default replaces the empty string. */
  function TextOr(x: string, d: string): (r: string)
    ensures r != "" <== x != "" || d != ""
    ensures r == x || r == d
  {
    if x != "" then x else d
  }

  /** `headers[k]`: the value stored under exactly `k`, `undefined` when absent. */
  function Lookup(h: Headers, k: string): (v: HeaderValue)
    ensures (forall i :: 0 <= i < |h| ==> h[i].0 != k) ==> v == HUndef
  {
    if |h| == 0 then HUndef else if h[0].0 == k then h[0].1 else Lookup(h[1..], k)
  }

  function KeySet(h: Headers): set<string> {
    set i | 0 <= i < |h| :: h[i].0
  }

  lemma KeySetCons(p: (string, HeaderValue), t: Headers)
    ensures KeySet([p] + t) == {p.0} + KeySet(t)
  {
    var l := [p] + t;
    assert l[0] == p;
    assert p.0 in KeySet(l);
    forall x | x in KeySet(l) ensures x in {p.0} + KeySet(t) {
      var i :| 0 <= i < |l| && l[i].0 == x;
      if i > 0 {
        assert t[i - 1] == l[i];
        assert x in KeySet(t);
      }
    }
    forall x | x in KeySet(t) ensures x in KeySet(l) {
      var i :| 0 <= i < |t| && t[i].0 == x;
      assert l[i + 1] == t[i];
      assert x == l[i + 1].0;
    }
  }

  /** A JavaScript object never holds the same key twice. */
  predicate DistinctKeys(h: Headers) {
    forall i, j :: 0 <= i < j < |h| ==> h[i].0 != h[j].0
  }

  /** `h[k] = v`: overwrite in place when `k` is present, otherwise append. */
  function Set(h: Headers, k: string, v: HeaderValue): Headers
    decreases |h|
  {
    if |h| == 0 then [(k, v)]
    else if h[0].0 == k then [(k, v)] + h[1..]
    else [h[0]] + Set(h[1..], k, v)
  }

  /** Assigning a key adds exactly that key. */
  lemma {:induction false} SetKeys(h: Headers, k: string, v: HeaderValue)
    ensures KeySet(Set(h, k, v)) == KeySet(h) + {k}
    decreases |h|
  {
    if |h| == 0 {
      KeySetCons((k, v), h);
      assert [(k, v)] + h == [(k, v)];
    } else if h[0].0 == k {
      KeySetCons(h[0], h[1..]);
      KeySetCons((k, v), h[1..]);
      assert h == [h[0]] + h[1..];
    } else {
      SetKeys(h[1..], k, v);
      KeySetCons(h[0], h[1..]);
      KeySetCons(h[0], Set(h[1..], k, v));
      assert h == [h[0]] + h[1..];
    }
  }

  /** `{...base, ...extra}`: every entry of `extra`, in order, written over `base`. */
  function Spread(base: Headers, extra: Headers): (r: Headers)
    decreases |extra|
  {
    if |extra| == 0 then base else Spread(Set(base, extra[0].0, extra[0].1), extra[1..])
  }

  /** ASCII lower-casing of one character. */
  function LowerChar(c: char): char {
    if 'A' <= c <= 'Z' then (c as int + 32) as char else c
  }

  /** ASCII lower-casing, as `toLowerCase` does on the header names used here. */
  function Lower(s: string): (r: string)
    ensures |r| == |s| && forall i :: 0 <= i < |s| ==> r[i] == LowerChar(s[i])
  {
    seq(|s|, i requires 0 <= i < |s| => LowerChar(s[i]))
  }

  /** Lower-casing a name without upper-case letters changes nothing. */
  lemma LowerOfLowercase(s: string)
    requires forall i :: 0 <= i < |s| ==> !('A' <= s[i] <= 'Z')
    ensures Lower(s) == s
  {
  }

  /** `Object.keys(h).find(key => key.toLowerCase() === target)`. */
  function FindKeyIgnoringCase(h: Headers, target: string): (r: Option<string>)
    ensures r.None? <==> forall i :: 0 <= i < |h| ==> Lower(h[i].0) != target
    ensures r.Some? ==> exists i :: 0 <= i < |h| && h[i].0 == r.value && Lower(h[i].0) == target
                                  && forall j :: 0 <= j < i ==> Lower(h[j].0) != target
    decreases |h|
  {
    if |h| == 0 then None
    else if Lower(h[0].0) == target then Some(h[0].0)
    else
      var r := FindKeyIgnoringCase(h[1..], target);
      if r.Some? then
        assert exists i :: 1 <= i < |h| && h[i].0 == r.value && Lower(h[i].0) == target
                            && forall j :: 0 <= j < i ==> Lower(h[j].0) != target by {
          var i' :| 0 <= i' < |h[1..]| && h[1..][i'].0 == r.value && Lower(h[1..][i'].0) == target
                    && forall j :: 0 <= j < i' ==> Lower(h[1..][j].0) != target;
          assert forall j :: 1 <= j < i' + 1 ==> Lower(h[j].0) != target by {
            forall j | 1 <= j < i' + 1 ensures Lower(h[j].0) != target {
              assert h[j] == h[1..][j - 1];
            }
          }
        }
        r
      else
        assert forall i :: 1 <= i < |h| ==> h[i] == h[1..][i - 1];
        r
  }

  /** The search returns the key of the first entry that matches. */
  lemma FindKeyAt(h: Headers, target: string, i: nat)
    requires i < |h| && Lower(h[i].0) == target
    requires forall j :: 0 <= j < i ==> Lower(h[j].0) != target
    ensures FindKeyIgnoringCase(h, target) == Some(h[i].0)
  {
    var r := FindKeyIgnoringCase(h, target);
    var i' :| 0 <= i' < |h| && h[i'].0 == r.value && Lower(h[i'].0) == target
              && forall j :: 0 <= j < i' ==> Lower(h[j].0) != target;
    if i' < i { assert false; }
    if i < i' { assert false; }
  }

  /** Assigning a key the object does not have appends it at the end. */
  lemma {:induction false} SetAbsent(h: Headers, k: string, v: HeaderValue)
    requires forall i :: 0 <= i < |h| ==> h[i].0 != k
    ensures Set(h, k, v) == h + [(k, v)]
    decreases |h|
  {
    if |h| > 0 {
      SetAbsent(h[1..], k, v);
      assert h == [h[0]] + h[1..];
    }
  }

  /** Writing a key and reading it back gives the written value. */
  lemma {:induction false} LookupSetSame(h: Headers, k: string, v: HeaderValue)
    ensures Lookup(Set(h, k, v), k) == v
    decreases |h|
  {
    if |h| > 0 && h[0].0 != k {
      LookupSetSame(h[1..], k, v);
    }
  }

  /** Writing a key leaves every other key's value alone. */
  lemma {:induction false} LookupSetOther(h: Headers, k: string, v: HeaderValue, k': string)
    requires k' != k
    ensures Lookup(Set(h, k, v), k') == Lookup(h, k')
    decreases |h|
  {
    if |h| > 0 && h[0].0 != k {
      LookupSetOther(h[1..], k, v, k');
    }
  }

  lemma {:induction false} SetKeepsDistinct(h: Headers, k: string, v: HeaderValue)
    requires DistinctKeys(h)
    ensures DistinctKeys(Set(h, k, v))
    decreases |h|
  {
    if |h| > 0 && h[0].0 != k {
      SetKeepsDistinct(h[1..], k, v);
      var r := Set(h, k, v);
      var rest := Set(h[1..], k, v);
      assert r == [h[0]] + rest;
      assert h[0].0 !in KeySet(h[1..]) by {
        forall i | 0 <= i < |h[1..]| ensures h[1..][i].0 != h[0].0 {
          assert h[1..][i] == h[i + 1];
        }
      }
      SetKeys(h[1..], k, v);
      forall i | 1 <= i < |r| ensures r[i].0 != h[0].0 {
        assert r[i].0 in KeySet(rest);
      }
    }
  }

  /** In a list with distinct keys, every entry is the one its key finds. */
  lemma {:induction false} LookupOfDistinct(h: Headers, i: nat)
    requires DistinctKeys(h) && i < |h|
    ensures Lookup(h, h[i].0) == h[i].1
    decreases i
  {
    if i > 0 {
      LookupOfDistinct(h[1..], i - 1);
    }
  }

  /** `Lookup` returns a stored value whenever it returns something defined. */
  lemma {:induction false} LookupFound(h: Headers, k: string)
    requires !Lookup(h, k).HUndef?
    ensures exists i :: 0 <= i < |h| && h[i].0 == k && h[i].1 == Lookup(h, k)
    decreases |h|
  {
    if h[0].0 != k {
      LookupFound(h[1..], k);
      var i :| 0 <= i < |h[1..]| && h[1..][i].0 == k && h[1..][i].1 == Lookup(h, k);
      assert h[i + 1] == h[1..][i];
    } else {
      assert h[0].0 == k && h[0].1 == Lookup(h, k);
    }
  }

  /** A spread reads from `extra` where `extra` has the key, and from `base` elsewhere. */
  lemma {:induction false} LookupSpread(base: Headers, extra: Headers, k: string)
    requires DistinctKeys(base) && DistinctKeys(extra)
    ensures Lookup(Spread(base, extra), k) == if k in KeySet(extra) then Lookup(extra, k) else Lookup(base, k)
    ensures DistinctKeys(Spread(base, extra))
    decreases |extra|
  {
    if |extra| > 0 {
      var (k0, v0) := extra[0];
      var base' := Set(base, k0, v0);
      SetKeepsDistinct(base, k0, v0);
      assert DistinctKeys(extra[1..]) by {
        forall i, j | 0 <= i < j < |extra[1..]| ensures extra[1..][i].0 != extra[1..][j].0 {
          assert extra[1..][i] == extra[i + 1] && extra[1..][j] == extra[j + 1];
        }
      }
      LookupSpread(base', extra[1..], k);
      assert KeySet(extra) == {k0} + KeySet(extra[1..]);
      assert k0 !in KeySet(extra[1..]) by {
        forall i | 0 <= i < |extra[1..]| ensures extra[1..][i].0 != k0 {
          assert extra[1..][i] == extra[i + 1];
        }
      }
      if k == k0 {
        LookupSetSame(base, k0, v0);
      } else {
        LookupSetOther(base, k0, v0, k);
        if k in KeySet(extra[1..]) {
          assert Lookup(extra, k) == Lookup(extra[1..], k);
        }
      }
    }
  }
}
