/**
  The slice of JavaScript's value model that the PKI core touches: primitive
  values, string arrays, and plain objects with JavaScript's own enumeration
  order (array-index keys first in ascending numeric order, then every other
  key in insertion order).

  An object is represented by its entries in enumeration order, so assignment
  (`obj[k] = v`) is `Set`, which replaces a present key in place, inserts a new
  array-index key at its numeric position and appends any other new key.
*/
module JsObject {
  import opened Wrappers

  /** A byte of a Node `Buffer`. */
  type byte = x: int | 0 <= x < 256

  type Bytes = seq<byte>

  /** JavaScript primitives (integers only for numbers) and arrays of strings. */
  datatype Value =
    | Undefined
    | Null
    | Bool(b: bool)
    | Num(n: int)
    | Str(s: string)
    | Arr(items: seq<string>)

  /** An object: its entries in enumeration order. */
  type Dict<V> = seq<(string, V)>

  /** A nested value as found in a serialized record or an argument object. */
  datatype Json = Leaf(v: Value) | Obj(fields: Dict<Json>)

  /** JavaScript truthiness. */
  predicate Truthy(v: Value) {
    match v
    case Undefined => false
    case Null => false
    case Bool(b) => b
    case Num(n) => n != 0
    case Str(s) => s != ""
    case Arr(_) => true
  }

  predicate JsonTruthy(j: Json) {
    match j
    case Leaf(v) => Truthy(v)
    case Obj(_) => true
  }

  /** `null` or `undefined`: the values `??` replaces. */
  predicate Nullish(v: Value) {
    v.Undefined? || v.Null?
  }

  /** `a ?? b`. */
  function Coalesce(a: Value, b: Value): (r: Value)
    ensures !Nullish(a) ==> r == a
    ensures Nullish(a) ==> r == b
  {
    if Nullish(a) then b else a
  }

  /** Strict equality `===` on values; two arrays are never the same object here. */
  predicate StrictEq(a: Value, b: Value) {
    a == b && !a.Arr?
  }

  predicate JsonStrictEq(a: Json, b: Json) {
    a.Leaf? && b.Leaf? && StrictEq(a.v, b.v)
  }

  /** The property names every plain object inherits from `Object.prototype`. */
  predicate ObjectPrototypeKey(k: string) {
    k in ["constructor", "__proto__", "toString", "toLocaleString", "valueOf", "hasOwnProperty",
          "isPrototypeOf", "propertyIsEnumerable", "__defineGetter__", "__defineSetter__",
          "__lookupGetter__", "__lookupSetter__"]
  }

  // ---------------------------------------------------------------------------
  // Decimal digits and number-to-string conversion
  // ---------------------------------------------------------------------------

  predicate IsDigit(c: char) {
    '0' <= c <= '9'
  }

  function DigitValue(c: char): nat
    requires IsDigit(c)
  {
    c as int - '0' as int
  }

  function DigitChar(d: nat): (c: char)
    requires d < 10
    ensures IsDigit(c) && DigitValue(c) == d
  {
    ('0' as int + d) as char
  }

  predicate AllDigits(s: string) {
    forall i :: 0 <= i < |s| ==> IsDigit(s[i])
  }

  /** The number a string of decimal digits denotes. */
  function DecimalValue(s: string): nat
    requires AllDigits(s)
    decreases |s|
  {
    if |s| == 0 then 0 else DecimalValue(s[..|s| - 1]) * 10 + DigitValue(s[|s| - 1])
  }

  /** Shortest decimal spelling of a natural number. */
  function NatToDecimal(n: nat): (s: string)
    ensures |s| > 0 && AllDigits(s)
    ensures DecimalValue(s) == n
    decreases n
  {
    if n < 10 then [DigitChar(n)]
    else
      var p := NatToDecimal(n / 10);
      var s := p + [DigitChar(n % 10)];
      assert s[..|s| - 1] == p;
      s
  }

  /** `String(n)` for an integer. */
  function IntToString(n: int): string {
    if n < 0 then "-" + NatToDecimal(-n) else NatToDecimal(n)
  }

  function JoinComma(items: seq<string>): string {
    if |items| == 0 then ""
    else if |items| == 1 then items[0]
    else items[0] + "," + JoinComma(items[1..])
  }

  /** `String(v)`, which is also what a template literal `${v}` produces. */
  function ToStr(v: Value): string {
    match v
    case Undefined => "undefined"
    case Null => "null"
    case Bool(b) => if b then "true" else "false"
    case Num(n) => IntToString(n)
    case Str(s) => s
    case Arr(items) => JoinComma(items)
  }

  // ---------------------------------------------------------------------------
  // Array-index keys
  // ---------------------------------------------------------------------------

  const MaxArrayIndex: nat := 4294967294

  /** A canonical array index ("0", "17", not "017"), enumerated before other keys. */
  predicate IsIndexKey(k: string) {
    && |k| > 0
    && AllDigits(k)
    && (k[0] == '0' ==> |k| == 1)
    && DecimalValue(k) <= MaxArrayIndex
  }

  /** `a` is an array index enumerated no later than the array index `k`. */
  predicate IndexAtMost(a: string, k: string) {
    IsIndexKey(a) && IsIndexKey(k) && DecimalValue(a) <= DecimalValue(k)
  }

  // ---------------------------------------------------------------------------
  // Objects
  // ---------------------------------------------------------------------------

  predicate HasKey<V>(d: Dict<V>, k: string) {
    exists i :: 0 <= i < |d| && d[i].0 == k
  }

  function KeyList<V>(d: Dict<V>): (ks: seq<string>)
    ensures |ks| == |d|
    ensures forall i :: 0 <= i < |d| ==> ks[i] == d[i].0
  {
    if |d| == 0 then [] else [d[0].0] + KeyList(d[1..])
  }

  /** Distinct keys, and array-index keys form an ascending prefix. */
  predicate WellFormed<V>(d: Dict<V>) {
    && (forall i, j :: 0 <= i < j < |d| ==> d[i].0 != d[j].0)
    && (forall i, j :: 0 <= i < j < |d| && IsIndexKey(d[j].0) ==> IndexAtMost(d[i].0, d[j].0))
  }

  /** Own-property read; `None` when the key is absent. */
  function Lookup<V>(d: Dict<V>, k: string): (r: Option<V>)
    ensures r.Some? <==> HasKey(d, k)
    ensures r.Some? ==> exists i :: 0 <= i < |d| && d[i] == (k, r.value)
  {
    if |d| == 0 then None
    else if d[0].0 == k then Some(d[0].1)
    else
      var t := d[1..];
      assert forall i :: 0 < i < |d| ==> d[i] == t[i - 1];
      assert forall i :: 0 <= i < |t| ==> t[i] == d[i + 1];
      Lookup(t, k)
  }

  /** Property read of an options object: an absent key reads as `undefined`. */
  function Get(d: Dict<Value>, k: string): (v: Value)
    ensures !HasKey(d, k) ==> v == Undefined
  {
    match Lookup(d, k)
    case Some(x) => x
    case None => Undefined
  }

  function JsonGet(d: Dict<Json>, k: string): (v: Json)
    ensures !HasKey(d, k) ==> v == Leaf(Undefined)
  {
    match Lookup(d, k)
    case Some(x) => x
    case None => Leaf(Undefined)
  }

  function Replace<V>(d: Dict<V>, k: string, v: V): (r: Dict<V>)
    ensures |r| == |d|
    ensures forall i :: 0 <= i < |d| ==> r[i].0 == d[i].0
  {
    if |d| == 0 then []
    else if d[0].0 == k then [(k, v)] + d[1..]
    else [d[0]] + Replace(d[1..], k, v)
  }

  function Insert<V>(d: Dict<V>, k: string, v: V): (r: Dict<V>)
    ensures |r| == |d| + 1
  {
    if |d| == 0 then [(k, v)]
    else if IsIndexKey(k) && !IndexAtMost(d[0].0, k) then [(k, v)] + d
    else [d[0]] + Insert(d[1..], k, v)
  }

  /** Assignment `obj[k] = v`. */
  function Set<V>(d: Dict<V>, k: string, v: V): Dict<V> {
    if HasKey(d, k) then Replace(d, k, v) else Insert(d, k, v)
  }

  /** `Object.fromEntries(es)`: assignments in order, a later duplicate wins. */
  function FromEntries<V>(es: seq<(string, V)>): Dict<V>
    decreases |es|
  {
    if |es| == 0 then [] else Set(FromEntries(es[..|es| - 1]), es[|es| - 1].0, es[|es| - 1].1)
  }

  /** `{...a, ...b}` and `Object.assign({}, a, b)` for plain objects. */
  function Merge<V>(a: Dict<V>, b: Dict<V>): Dict<V>
    decreases |b|
  {
    if |b| == 0 then a else Merge(Set(a, b[0].0, b[0].1), b[1..])
  }

  // ---------------------------------------------------------------------------
  // Lemmas about assignment
  // ---------------------------------------------------------------------------

  lemma ReplaceSpec<V>(d: Dict<V>, k: string, v: V)
    requires WellFormed(d)
    requires HasKey(d, k)
    ensures forall i :: 0 <= i < |d| ==> Replace(d, k, v)[i] == (if d[i].0 == k then (k, v) else d[i])
  {
    var n :| 0 <= n < |d| && d[n].0 == k;
    assert forall i :: 0 <= i < |d| && i != n ==> d[i].0 != d[n].0;
    ReplaceAt(d, k, v, n);
  }

  /** Replacing the key first found at `n` rewrites that entry alone. */
  lemma {:induction false} ReplaceAt<V>(d: Dict<V>, k: string, v: V, n: nat)
    requires n < |d| && d[n].0 == k
    requires forall i :: 0 <= i < n ==> d[i].0 != k
    ensures forall i :: 0 <= i < |d| ==> Replace(d, k, v)[i] == (if i == n then (k, v) else d[i])
    decreases n
  {
    var r := Replace(d, k, v);
    if n == 0 {
      assert r == [(k, v)] + d[1..];
    } else {
      var t := d[1..];
      ReplaceAt(t, k, v, n - 1);
      assert r == [d[0]] + Replace(t, k, v);
      forall i | 0 < i < |d| ensures r[i] == (if i == n then (k, v) else d[i]) {
        assert r[i] == Replace(t, k, v)[i - 1] && d[i] == t[i - 1];
      }
    }
  }

  lemma {:induction false} InsertElements<V>(d: Dict<V>, k: string, v: V)
    ensures forall x :: x in Insert(d, k, v) <==> x in d || x == (k, v)
    ensures forall i :: 0 <= i < |d| + 1 ==> Insert(d, k, v)[i] == (k, v) || Insert(d, k, v)[i] in d
    decreases |d|
  {
    if |d| > 0 && !(IsIndexKey(k) && !IndexAtMost(d[0].0, k)) {
      InsertElements(d[1..], k, v);
      assert d == [d[0]] + d[1..];
    }
  }

  /** Every entry after an assignment is an entry from before it or the assigned one. */
  lemma {:induction false} SetElements<V>(d: Dict<V>, k: string, v: V)
    ensures forall x :: x in Set(d, k, v) ==> x in d || x == (k, v)
  {
    if HasKey(d, k) { ReplaceElements(d, k, v); } else { InsertElements(d, k, v); }
  }

  lemma {:induction false} ReplaceElements<V>(d: Dict<V>, k: string, v: V)
    ensures forall x :: x in Replace(d, k, v) ==> x in d || x == (k, v)
    decreases |d|
  {
    if |d| > 0 && d[0].0 != k {
      ReplaceElements(d[1..], k, v);
      assert forall x :: x in d[1..] ==> x in d;
    }
  }

  lemma TailWellFormed<V>(d: Dict<V>)
    requires WellFormed(d) && |d| > 0
    ensures WellFormed(d[1..])
  {
    var t := d[1..];
    forall i, j | 0 <= i < j < |t| ensures t[i].0 != t[j].0 {
      assert t[i] == d[i + 1] && t[j] == d[j + 1];
    }
    forall i, j | 0 <= i < j < |t| && IsIndexKey(t[j].0) ensures IndexAtMost(t[i].0, t[j].0) {
      assert t[i] == d[i + 1] && t[j] == d[j + 1];
    }
  }

  lemma ConsWellFormed<V>(e: (string, V), t: Dict<V>)
    requires WellFormed(t)
    requires forall j :: 0 <= j < |t| ==> t[j].0 != e.0
    requires forall j :: 0 <= j < |t| && IsIndexKey(t[j].0) ==> IndexAtMost(e.0, t[j].0)
    ensures WellFormed([e] + t)
  {
    var r := [e] + t;
    forall i, j | 0 <= i < j < |r| ensures r[i].0 != r[j].0 {
      assert r[j] == t[j - 1];
      if i > 0 { assert r[i] == t[i - 1]; }
    }
    forall i, j | 0 <= i < j < |r| && IsIndexKey(r[j].0) ensures IndexAtMost(r[i].0, r[j].0) {
      assert r[j] == t[j - 1];
      if i > 0 { assert r[i] == t[i - 1]; }
    }
  }

  lemma {:induction false} InsertWellFormed<V>(d: Dict<V>, k: string, v: V)
    requires WellFormed(d)
    requires !HasKey(d, k)
    ensures WellFormed(Insert(d, k, v))
    decreases |d|
  {
    if |d| == 0 {
    } else if IsIndexKey(k) && !IndexAtMost(d[0].0, k) {
      forall j | 0 <= j < |d| && IsIndexKey(d[j].0) ensures IndexAtMost(k, d[j].0) {
        if j > 0 { assert IndexAtMost(d[0].0, d[j].0); }
      }
      ConsWellFormed((k, v), d);
    } else {
      var t := d[1..];
      TailWellFormed(d);
      forall i | 0 <= i < |t| ensures t[i].0 != k { assert t[i] == d[i + 1]; }
      InsertWellFormed(t, k, v);
      InsertElements(t, k, v);
      var rt := Insert(t, k, v);
      forall j | 0 <= j < |rt| ensures rt[j].0 != d[0].0 && (IsIndexKey(rt[j].0) ==> IndexAtMost(d[0].0, rt[j].0)) {
        if rt[j] != (k, v) {
          var m :| 0 <= m < |t| && t[m] == rt[j];
          assert d[m + 1] == t[m];
        }
      }
      ConsWellFormed(d[0], rt);
    }
  }

  lemma {:induction false} ReplaceWellFormed<V>(d: Dict<V>, k: string, v: V)
    requires WellFormed(d)
    ensures WellFormed(Replace(d, k, v))
  {
    var r := Replace(d, k, v);
    forall i, j | 0 <= i < j < |r| ensures r[i].0 != r[j].0 {
      assert r[i].0 == d[i].0 && r[j].0 == d[j].0;
    }
    forall i, j | 0 <= i < j < |r| && IsIndexKey(r[j].0) ensures IndexAtMost(r[i].0, r[j].0) {
      assert r[i].0 == d[i].0 && r[j].0 == d[j].0;
    }
  }

  /** Assignment keeps an object well formed. */
  lemma SetWellFormed<V>(d: Dict<V>, k: string, v: V)
    requires WellFormed(d)
    ensures WellFormed(Set(d, k, v))
  {
    if HasKey(d, k) { ReplaceWellFormed(d, k, v); } else { InsertWellFormed(d, k, v); }
  }

  /** After `obj[k] = v`, every key but `k` reads as before. */
  lemma SetKeepsOthers<V>(d: Dict<V>, k: string, v: V)
    requires WellFormed(d)
    ensures forall k' :: k' != k ==> Lookup(Set(d, k, v), k') == Lookup(d, k')
  {
    forall k' | k' != k
      ensures Lookup(Set(d, k, v), k') == Lookup(d, k')
    {
      SetLookup(d, k, v, k');
    }
  }

  /** After `obj[k] = v`, reading `k` gives `v` and every other key reads as before. */
  lemma {:induction false} SetLookup<V>(d: Dict<V>, k: string, v: V, k': string)
    requires WellFormed(d)
    ensures Lookup(Set(d, k, v), k) == Some(v)
    ensures k' != k ==> Lookup(Set(d, k, v), k') == Lookup(d, k')
  {
    SetWellFormed(d, k, v);
    var r := Set(d, k, v);
    if HasKey(d, k) {
      ReplaceSpec(d, k, v);
      LookupUnique(r, k, v);
      if k' != k && HasKey(d, k') {
        var x := Lookup(d, k').value;
        LookupUnique(d, k', x);
        var i :| 0 <= i < |d| && d[i] == (k', x);
        assert r[i] == d[i];
        LookupUnique(r, k', x);
      }
      if k' != k && !HasKey(d, k') {
        forall i | 0 <= i < |r| ensures r[i].0 != k' { assert r[i].0 == d[i].0; }
      }
    } else {
      InsertElements(d, k, v);
      assert (k, v) in r;
      var i :| 0 <= i < |r| && r[i] == (k, v);
      LookupUnique(r, k, v);
      if k' != k && HasKey(d, k') {
        var x := Lookup(d, k').value;
        var m :| 0 <= m < |d| && d[m] == (k', x);
        assert d[m] in d;
        assert (k', x) in r;
        var n :| 0 <= n < |r| && r[n] == (k', x);
        LookupUnique(r, k', x);
      }
      if k' != k && !HasKey(d, k') {
        forall n | 0 <= n < |r| ensures r[n].0 != k' {
          assert r[n] in r;
          if r[n] != (k, v) {
            assert r[n] in d;
            var m :| 0 <= m < |d| && d[m] == r[n];
          }
        }
      }
    }
  }

  /** `Lookup` finds the first entry with the key. */
  lemma {:induction false} LookupFirst<V>(d: Dict<V>, i: nat)
    requires i < |d|
    requires forall j :: 0 <= j < i ==> d[j].0 != d[i].0
    ensures Lookup(d, d[i].0) == Some(d[i].1)
    decreases i
  {
    if i > 0 {
      LookupFirst(d[1..], i - 1);
    }
  }

  /** In a well-formed object, any entry for `k` is the one `Lookup` finds. */
  lemma {:induction false} LookupUnique<V>(d: Dict<V>, k: string, v: V)
    requires WellFormed(d)
    requires exists i :: 0 <= i < |d| && d[i] == (k, v)
    ensures Lookup(d, k) == Some(v)
  {
    var i :| 0 <= i < |d| && d[i] == (k, v);
    var r := Lookup(d, k);
    var j :| 0 <= j < |d| && d[j] == (k, r.value);
    if i != j {
      assert d[i].0 == d[j].0;
    }
  }

  lemma {:induction false} SetHasKey<V>(d: Dict<V>, k: string, v: V, x: string)
    ensures HasKey(Set(d, k, v), x) <==> HasKey(d, x) || x == k
  {
    var r := Set(d, k, v);
    if HasKey(d, k) {
      if HasKey(r, x) { var i :| 0 <= i < |r| && r[i].0 == x; assert d[i].0 == x; }
      if HasKey(d, x) { var i :| 0 <= i < |d| && d[i].0 == x; assert r[i].0 == x; }
    } else {
      InsertElements(d, k, v);
      if HasKey(r, x) {
        var i :| 0 <= i < |r| && r[i].0 == x;
        assert r[i] in r;
        if r[i] != (k, v) { var m :| 0 <= m < |d| && d[m] == r[i]; }
      }
      if HasKey(d, x) {
        var i :| 0 <= i < |d| && d[i].0 == x;
        assert d[i] in d;
        var m :| 0 <= m < |r| && r[m] == d[i];
      }
      assert (k, v) in r;
      var m :| 0 <= m < |r| && r[m] == (k, v);
    }
  }

  /** Inserting a key that comes after every present key appends it. */
  lemma {:induction false} InsertAtEnd<V>(d: Dict<V>, k: string, v: V)
    requires forall i :: 0 <= i < |d| ==> !IsIndexKey(k) || IndexAtMost(d[i].0, k)
    ensures Insert(d, k, v) == d + [(k, v)]
    decreases |d|
  {
    if |d| > 0 {
      InsertAtEnd(d[1..], k, v);
      assert d == [d[0]] + d[1..];
    }
  }

  /** Rebuilding a well-formed object from its own entries gives it back. */
  lemma {:induction false} FromEntriesOfWellFormed<V>(d: Dict<V>)
    requires WellFormed(d)
    ensures FromEntries(d) == d
    decreases |d|
  {
    if |d| > 0 {
      var n := |d| - 1;
      var p := d[..n];
      assert WellFormed(p) by {
        forall i, j | 0 <= i < j < |p| ensures p[i].0 != p[j].0 { assert p[i] == d[i] && p[j] == d[j]; }
        forall i, j | 0 <= i < j < |p| && IsIndexKey(p[j].0) ensures IndexAtMost(p[i].0, p[j].0) {
          assert p[i] == d[i] && p[j] == d[j];
        }
      }
      FromEntriesOfWellFormed(p);
      forall i | 0 <= i < |p| ensures p[i].0 != d[n].0 { assert p[i] == d[i]; }
      forall i | 0 <= i < |p| ensures !IsIndexKey(d[n].0) || IndexAtMost(p[i].0, d[n].0) {
        assert p[i] == d[i];
      }
      InsertAtEnd(p, d[n].0, d[n].1);
      assert p + [d[n]] == d;
    }
  }

  /** Assigning into a well-formed object keeps it well formed. */
  lemma {:induction false} MergeWellFormed<V>(a: Dict<V>, b: Dict<V>)
    requires WellFormed(a)
    ensures WellFormed(Merge(a, b))
    decreases |b|
  {
    if |b| > 0 {
      SetWellFormed(a, b[0].0, b[0].1);
      MergeWellFormed(Set(a, b[0].0, b[0].1), b[1..]);
    }
  }

  /** Reading `{...a, ...b}`: a key of `b` reads as in `b`, any other as in `a`. */
  lemma {:induction false} MergeLookup<V>(a: Dict<V>, b: Dict<V>, k: string)
    requires WellFormed(a) && WellFormed(b)
    ensures WellFormed(Merge(a, b))
    ensures Lookup(Merge(a, b), k) == if HasKey(b, k) then Lookup(b, k) else Lookup(a, k)
    decreases |b|
  {
    if |b| > 0 {
      var a' := Set(a, b[0].0, b[0].1);
      SetWellFormed(a, b[0].0, b[0].1);
      TailWellFormed(b);
      MergeLookup(a', b[1..], k);
      SetLookup(a, b[0].0, b[0].1, k);
      if k == b[0].0 {
        assert !HasKey(b[1..], k) by {
          forall i | 0 <= i < |b[1..]| ensures b[1..][i].0 != k {
            assert b[1..][i] == b[i + 1];
          }
        }
      } else {
        assert HasKey(b, k) <==> HasKey(b[1..], k) by {
          if HasKey(b, k) {
            var i :| 0 <= i < |b| && b[i].0 == k;
            assert b[1..][i - 1] == b[i];
          }
          if HasKey(b[1..], k) {
            var i :| 0 <= i < |b[1..]| && b[1..][i].0 == k;
            assert b[i + 1] == b[1..][i];
          }
        }
      }
    }
  }
}
