/**
 * The Python objects the core works on: values as `json.loads` produces them,
 * and the few builtins the core applies to them (truthiness, `or`, `dict.get`,
 * `in`, item assignment, `dict.update`, `str()`, `str.lower()`, substring `in`).
 */
module PyObjects {
  import opened Wrappers

  /**
   * A JSON value. An object keeps its items in insertion order, as a Python
   * dict does. An item list may repeat a key; what `json.loads` hands to the
   * code never does (see `Document`), and for such a list a lookup reads the
   * last occurrence.
   */
  datatype Json =
    | JNull
    | JBool(b: bool)
    | JNum(n: int)
    | JStr(s: string)
    | JArr(items: seq<Json>)
    | JObj(fields: seq<(string, Json)>)

  /** The items of a dict, in insertion order. */
  type Fields = seq<(string, Json)>

  /** Every object in `j`, at any depth, holds each key once, as a Python dict does. */
  predicate WellFormed(j: Json)
  {
    match j
    case JArr(a) => forall i :: 0 <= i < |a| ==> WellFormed(a[i])
    case JObj(f) => DistinctKeys(f) && forall i :: 0 <= i < |f| ==> WellFormed(f[i].1)
    case _ => true
  }

  /** What `json.loads` returns: decoded values whose dicts never repeat a key. */
  type Document = j: Json | WellFormed(j) witness JNull

  // ---------------------------------------------------------------------------
  // Truthiness and `or`
  // ---------------------------------------------------------------------------

  /** `bool(x)`: None, False, 0, "", [] and {} are falsy, everything else truthy. */
  predicate Truthy(j: Json)
  {
    match j
    case JNull => false
    case JBool(b) => b
    case JNum(n) => n != 0
    case JStr(s) => s != ""
    case JArr(a) => a != []
    case JObj(f) => f != []
  }

  /** Python's `x or y`: `x` when it is truthy, otherwise `y`. */
  function Or(x: Json, y: Json): (r: Json)
    ensures Truthy(r) <==> Truthy(x) || Truthy(y)
    ensures Truthy(x) ==> r == x
    ensures !Truthy(x) ==> r == y
  {
    if Truthy(x) then x else y
  }

  /** `isinstance(x, Iterable)` for a decoded value: strings, lists and dicts. */
  predicate IsIterable(j: Json)
  {
    j.JStr? || j.JArr? || j.JObj?
  }

  /**
   * What `for x in j` visits: the one-character strings of a string, the
   * elements of a list, the keys of a dict.
   */
  function Elements(j: Json): (r: seq<Json>)
    requires IsIterable(j)
    ensures j.JArr? ==> r == j.items
    ensures j.JStr? ==> |r| == |j.s| && forall i :: 0 <= i < |r| ==> r[i] == JStr([j.s[i]])
    ensures j.JObj? ==> |r| == |j.fields| && forall i :: 0 <= i < |r| ==> r[i] == JStr(j.fields[i].0)
  {
    match j
    case JStr(s) => seq(|s|, i requires 0 <= i < |s| => JStr([s[i]]))
    case JArr(a) => a
    case JObj(f) => seq(|f|, i requires 0 <= i < |f| => JStr(f[i].0))
  }

  // ---------------------------------------------------------------------------
  // Dicts as item lists
  // ---------------------------------------------------------------------------

  /** The keys of a dict. */
  function Keys(f: Fields): set<string>
  {
    set i | 0 <= i < |f| :: f[i].0
  }

  lemma KeysSnoc(f: Fields, x: (string, Json))
    ensures Keys(f + [x]) == Keys(f) + {x.0}
  {
    var g := f + [x];
    forall k | k in Keys(g) ensures k in Keys(f) + {x.0} {
      var i :| 0 <= i < |g| && g[i].0 == k;
      if i < |f| { assert f[i] == g[i]; }
    }
    forall k | k in Keys(f) + {x.0} ensures k in Keys(g) {
      if k in Keys(f) {
        var i :| 0 <= i < |f| && f[i].0 == k;
        assert g[i] == f[i];
      } else {
        assert g[|f|].0 == k;
      }
    }
  }

  /** No key occurs twice: what every Python dict satisfies. */
  predicate DistinctKeys(f: Fields)
  {
    forall i, j :: 0 <= i < j < |f| ==> f[i].0 != f[j].0
  }

  /** Item `i` is the last one of `f` with the key `k`. */
  predicate LastOccurrence(f: Fields, k: string, i: int)
  {
    0 <= i < |f| && f[i].0 == k && forall j :: i < j < |f| ==> f[j].0 != k
  }

  /** `d[k]` when `k in d`; None otherwise. The last occurrence of `k` decides. */
  function Lookup(f: Fields, k: string): (r: Option<Json>)
    ensures r.None? <==> k !in Keys(f)
  {
    if f == [] then None
    else if f[|f| - 1].0 == k then Some(f[|f| - 1].1)
    else
      var r := Lookup(f[..|f| - 1], k);
      assert Keys(f) == Keys(f[..|f| - 1]) + {f[|f| - 1].0} by {
        assert f == f[..|f| - 1] + [f[|f| - 1]];
        KeysSnoc(f[..|f| - 1], f[|f| - 1]);
      }
      r
  }

  /** The value found is that of the last item with the key. */
  lemma {:induction false} LookupIsLast(f: Fields, k: string)
    requires k in Keys(f)
    ensures exists i :: LastOccurrence(f, k, i) && Lookup(f, k) == Some(f[i].1)
    decreases |f|
  {
    if f[|f| - 1].0 == k {
      assert LastOccurrence(f, k, |f| - 1);
    } else {
      var init := f[..|f| - 1];
      assert Keys(f) == Keys(init) + {f[|f| - 1].0} by {
        assert f == init + [f[|f| - 1]];
        KeysSnoc(init, f[|f| - 1]);
      }
      LookupIsLast(init, k);
      var i :| LastOccurrence(init, k, i) && Lookup(init, k) == Some(init[i].1);
      assert LastOccurrence(f, k, i);
    }
  }

  /** In a dict with distinct keys, every item is what its key looks up. */
  lemma DistinctLookup(f: Fields, i: int)
    requires DistinctKeys(f) && 0 <= i < |f|
    ensures Lookup(f, f[i].0) == Some(f[i].1)
  {
    assert f[i].0 in Keys(f);
    LookupIsLast(f, f[i].0);
  }

  /** `d.get(k, default)`. */
  function GetOr(f: Fields, k: string, default: Json): (r: Json)
    ensures k !in Keys(f) ==> r == default
    ensures k in Keys(f) ==> Lookup(f, k) == Some(r)
  {
    Lookup(f, k).GetOr(default)
  }

  /** `d.get(k)`: a missing key reads as None. */
  function Get(f: Fields, k: string): Json
  {
    GetOr(f, k, JNull)
  }

  /** Every item whose key is `k` gets the value `v`, in place. */
  function Replace(f: Fields, k: string, v: Json): (r: Fields)
    ensures |r| == |f|
    ensures Keys(r) == Keys(f)
  {
    if f == [] then []
    else
      var init := Replace(f[..|f| - 1], k, v);
      var last := if f[|f| - 1].0 == k then (k, v) else f[|f| - 1];
      assert Keys(f) == Keys(f[..|f| - 1]) + {f[|f| - 1].0} by {
        assert f == f[..|f| - 1] + [f[|f| - 1]];
        KeysSnoc(f[..|f| - 1], f[|f| - 1]);
      }
      KeysSnoc(init, last);
      init + [last]
  }

  lemma {:induction false} ReplaceLookup(f: Fields, k: string, v: Json, k': string)
    ensures Lookup(Replace(f, k, v), k') == if k' == k && k in Keys(f) then Some(v) else Lookup(f, k')
    decreases |f|
  {
    if f != [] {
      var init := f[..|f| - 1];
      var r := Replace(f, k, v);
      assert r[..|r| - 1] == Replace(init, k, v);
      assert Keys(f) == Keys(init) + {f[|f| - 1].0} by {
        assert f == init + [f[|f| - 1]];
        KeysSnoc(init, f[|f| - 1]);
      }
      ReplaceLookup(init, k, v, k');
    }
  }

  /**
   * Item assignment `d[k] = v`: an existing key keeps its position and takes
   * the new value, a new key is appended.
   */
  function SetField(f: Fields, k: string, v: Json): (r: Fields)
    ensures Keys(r) == Keys(f) + {k}
    ensures Lookup(r, k) == Some(v)
    ensures forall k' :: k' != k ==> Lookup(r, k') == Lookup(f, k')
  {
    if k in Keys(f) then
      var r := Replace(f, k, v);
      assert forall k' :: Lookup(r, k') == if k' == k then Some(v) else Lookup(f, k') by {
        forall k' ensures Lookup(r, k') == if k' == k then Some(v) else Lookup(f, k') {
          ReplaceLookup(f, k, v, k');
        }
      }
      r
    else
      var r := f + [(k, v)];
      assert r[..|f|] == f;
      KeysSnoc(f, (k, v));
      r
  }

  /** Assigning the value a dict already holds under `k` leaves the dict as it is. */
  lemma {:induction false} SetFieldUnchanged(f: Fields, k: string, v: Json)
    requires k in Keys(f)
    requires forall i :: 0 <= i < |f| && f[i].0 == k ==> f[i].1 == v
    ensures SetField(f, k, v) == f
  {
    ReplaceSame(f, k, v);
  }

  lemma {:induction false} ReplaceSame(f: Fields, k: string, v: Json)
    requires forall i :: 0 <= i < |f| && f[i].0 == k ==> f[i].1 == v
    ensures Replace(f, k, v) == f
    decreases |f|
  {
    if f != [] {
      ReplaceSame(f[..|f| - 1], k, v);
      assert f == f[..|f| - 1] + [f[|f| - 1]];
    }
  }

  /**
   * `{**a, **b}`, equally `a.update(b)`: the items of `b` assigned one by one,
   * in order, onto `a`.
   */
  function Overlay(a: Fields, b: Fields): (r: Fields)
    ensures Keys(r) == Keys(a) + Keys(b)
    decreases |b|
  {
    if b == [] then a
    else
      var init := b[..|b| - 1];
      var last := b[|b| - 1];
      assert Keys(b) == Keys(init) + {last.0} by {
        assert b == init + [last];
        KeysSnoc(init, last);
      }
      SetField(Overlay(a, init), last.0, last.1)
  }

  /** A key of `b` reads its value from `b`; any other key reads it from `a`. */
  lemma {:induction false} OverlayLookup(a: Fields, b: Fields, k: string)
    ensures Lookup(Overlay(a, b), k) == if k in Keys(b) then Lookup(b, k) else Lookup(a, k)
    decreases |b|
  {
    if b != [] {
      var init := b[..|b| - 1];
      var last := b[|b| - 1];
      OverlayLookup(a, init, k);
      assert Keys(b) == Keys(init) + {last.0} by {
        assert b == init + [last];
        KeysSnoc(init, last);
      }
      if k != last.0 {
        assert Lookup(b, k) == Lookup(init, k);
      }
    }
  }

  /** A dict updated with itself is unchanged: `{**d, **d} == d`. */
  lemma {:induction false} OverlaySelf(a: Fields)
    requires DistinctKeys(a)
    ensures Overlay(a, a) == a
  {
    OverlayPrefixOfSelf(a, |a|);
    assert a[..|a|] == a;
  }

  lemma {:induction false} OverlayPrefixOfSelf(a: Fields, n: nat)
    requires DistinctKeys(a)
    requires n <= |a|
    ensures Overlay(a, a[..n]) == a
  {
    if n > 0 {
      OverlayPrefixOfSelf(a, n - 1);
      assert a[..n][..n - 1] == a[..n - 1];
      var (k, v) := a[n - 1];
      assert k in Keys(a);
      SetFieldUnchanged(a, k, v);
    }
  }

  // ---------------------------------------------------------------------------
  // Characters and strings
  // ---------------------------------------------------------------------------

  /** `str.lower()` on one character, restricted to ASCII letters. */
  function LowerChar(c: char): char
  {
    if 'A' <= c <= 'Z' then (c as int - 'A' as int + 'a' as int) as char else c
  }

  /** `str.lower()` with ASCII case folding. */
  function Lower(s: string): string
  {
    seq(|s|, i requires 0 <= i < |s| => LowerChar(s[i]))
  }

  /** Lowercasing twice is lowercasing once. */
  lemma LowerIdempotent(s: string)
    ensures Lower(Lower(s)) == Lower(s)
  {
  }

  predicate IsDigit(c: char)
  {
    '0' <= c <= '9'
  }

  predicate IsDigits(s: string)
  {
    forall i :: 0 <= i < |s| ==> IsDigit(s[i])
  }

  function DigitChar(d: nat): char
    requires d < 10
  {
    ('0' as int + d) as char
  }

  /** `str(n)` for a non-negative int: its decimal digits, with no leading zero. */
  function Decimal(n: nat): (r: string)
    ensures |r| >= 1 && IsDigits(r)
    ensures |r| > 1 ==> r[0] != '0'
    ensures n == 0 <==> r == "0"
    decreases n
  {
    if n < 10 then [DigitChar(n)] else Decimal(n / 10) + [DigitChar(n % 10)]
  }

  /** The number a string of decimal digits denotes. */
  function DigitsValue(s: string): nat
    requires IsDigits(s)
  {
    if s == [] then 0 else DigitsValue(s[..|s| - 1]) * 10 + (s[|s| - 1] as int - '0' as int)
  }

  lemma {:induction false} DecimalValue(n: nat)
    ensures DigitsValue(Decimal(n)) == n
    decreases n
  {
    if n >= 10 {
      DecimalValue(n / 10);
      var r := Decimal(n);
      assert r[..|r| - 1] == Decimal(n / 10);
    }
  }

  /** `str(n)` for any int. */
  function IntToString(n: int): string
  {
    if n < 0 then "-" + Decimal(-n) else Decimal(n)
  }

  /** `int(s)` for a plain decimal literal with an optional minus sign. */
  function ParseInt(s: string): Option<int>
  {
    if |s| >= 2 && s[0] == '-' && IsDigits(s[1..]) then Some(-(DigitsValue(s[1..]) as int))
    else if |s| >= 1 && IsDigits(s) then Some(DigitsValue(s))
    else None
  }

  /** `int(str(n)) == n`. */
  lemma IntToStringRoundTrip(n: int)
    ensures ParseInt(IntToString(n)) == Some(n)
  {
    if n < 0 {
      DecimalValue(-n);
      assert ("-" + Decimal(-n))[1..] == Decimal(-n);
    } else {
      DecimalValue(n);
    }
  }

  /** `needle` occurs in `hay` starting at offset `i`. */
  predicate OccursAt(hay: string, needle: string, i: int)
  {
    0 <= i <= |hay| - |needle| && hay[i..i + |needle|] == needle
  }

  /** `needle in hay` for strings. */
  predicate ContainsSubstring(hay: string, needle: string)
    decreases |hay|
  {
    if |hay| < |needle| then false
    else if hay[..|needle|] == needle then true
    else ContainsSubstring(hay[1..], needle)
  }

  /** The substring test holds exactly when `needle` occurs at some offset of `hay`. */
  lemma {:induction false} ContainsSubstringIff(hay: string, needle: string)
    ensures ContainsSubstring(hay, needle) <==> exists i :: OccursAt(hay, needle, i)
    decreases |hay|
  {
    if |hay| >= |needle| {
      if hay[..|needle|] == needle {
        assert OccursAt(hay, needle, 0);
      } else {
        ContainsSubstringIff(hay[1..], needle);
        if ContainsSubstring(hay, needle) {
          var i :| OccursAt(hay[1..], needle, i);
          assert hay[1..][i..i + |needle|] == hay[i + 1..i + 1 + |needle|];
          assert OccursAt(hay, needle, i + 1);
        }
        if exists i :: OccursAt(hay, needle, i) {
          var i :| OccursAt(hay, needle, i);
          assert i != 0;
          assert hay[1..][i - 1..i - 1 + |needle|] == hay[i..i + |needle|];
          assert OccursAt(hay[1..], needle, i - 1);
        }
      }
    }
  }

  // ---------------------------------------------------------------------------
  // str() and repr()
  // ---------------------------------------------------------------------------

  /** The backslash escape `repr` writes for one character of a string quoted with `quote`. */
  function EscapeChar(c: char, quote: char): string
  {
    if c == '\\' then "\\\\"
    else if c == quote then ['\\', quote]
    else if c == '\n' then "\\n"
    else if c == '\r' then "\\r"
    else if c == '\t' then "\\t"
    else [c]
  }

  function EscapeString(s: string, quote: char): string
    decreases |s|
  {
    if s == [] then "" else EscapeChar(s[0], quote) + EscapeString(s[1..], quote)
  }

  /**
   * `repr(s)` for a string: single quotes, unless the string holds a single
   * quote and no double quote.
   */
  function QuoteString(s: string): string
  {
    var quote := if '\'' in s && '"' !in s then '"' else '\'';
    [quote] + EscapeString(s, quote) + [quote]
  }

  /** `str(j)`: a string is itself, everything else its `repr`. */
  function PyStr(j: Json): string
    decreases j
  {
    match j
    case JNull => "None"
    case JBool(b) => if b then "True" else "False"
    case JNum(n) => IntToString(n)
    case JStr(s) => s
    case JArr(a) => "[" + ReprItems(a) + "]"
    case JObj(f) => "{" + ReprFields(f, j) + "}"
  }

  /** The elements of a list, each by its `repr`, separated by ", ". */
  function ReprItems(a: seq<Json>): string
    decreases a
  {
    if a == [] then ""
    else
      var head := if a[0].JStr? then QuoteString(a[0].s) else PyStr(a[0]);
      if |a| == 1 then head else head + ", " + ReprItems(a[1..])
  }

  /** The items of a dict as `'key': value`, separated by ", ". */
  function ReprFields(f: Fields, ghost parent: Json): string
    requires forall i :: 0 <= i < |f| ==> f[i].1 < parent
    decreases parent, |f|
  {
    if f == [] then ""
    else
      var v := f[0].1;
      var head := QuoteString(f[0].0) + ": " + (if v.JStr? then QuoteString(v.s) else PyStr(v));
      if |f| == 1 then head else head + ", " + ReprFields(f[1..], parent)
  }
}
