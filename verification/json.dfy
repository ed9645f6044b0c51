/**
 * JSON values as the replication core sees them after `JSON.parse`, and the
 * deep merge that folds a patch into an entity.
 *
 * `deepMerge` comes from the `spacebox-common` package, which is not part of
 * this model. `DeepMerge` below is the semantics the model ASSUMES for it: every
 * field of the source overwrites the target's field, except that two nested
 * objects are merged recursively; arrays and scalars are replaced wholesale.
 */
module Json {

  /** A parsed JSON value. Numbers are modelled as integers. */
  datatype Value =
    | Null
    | Bool(b: bool)
    | Num(n: int)
    | Str(s: string)
    | Arr(items: seq<Value>)
    | Obj(fields: Fields)

  /** The fields of a JSON object. */
  type Fields = map<string, Value>

  /** True when both sides of a merge at one field are objects, so the merge recurses. */
  predicate BothObjects(src: Fields, dst: Fields, k: string) {
    k in src && k in dst && src[k].Obj? && dst[k].Obj?
  }

  /** `deepMerge(src, dst)`: the value `dst` holds after `src` is merged into it. */
  function DeepMerge(src: Fields, dst: Fields): (r: Fields)
    ensures r.Keys == src.Keys + dst.Keys
    ensures forall k :: k in dst && k !in src ==> r[k] == dst[k]
    ensures forall k :: k in src && !BothObjects(src, dst, k) ==> r[k] == src[k]
    ensures forall k :: BothObjects(src, dst, k) ==>
      r[k].Obj? && r[k].fields.Keys == src[k].fields.Keys + dst[k].fields.Keys
    decreases Obj(src)
  {
    map k | k in src.Keys + dst.Keys ::
      if k !in src then dst[k]
      else if BothObjects(src, dst, k) then Obj(DeepMerge(src[k].fields, dst[k].fields))
      else src[k]
  }

  /** Merging an object into itself changes nothing. */
  lemma {:induction false} DeepMergeSelf(f: Fields)
    ensures DeepMerge(f, f) == f
    decreases Obj(f)
  {
    forall k | k in f ensures DeepMerge(f, f)[k] == f[k] {
      if f[k].Obj? {
        DeepMergeSelf(f[k].fields);
      }
    }
  }

  /** Merging the same patch twice has the effect of merging it once. */
  lemma {:induction false} DeepMergeIdempotent(p: Fields, d: Fields)
    ensures DeepMerge(p, DeepMerge(p, d)) == DeepMerge(p, d)
    decreases Obj(p)
  {
    var once := DeepMerge(p, d);
    forall k | k in once ensures DeepMerge(p, once)[k] == once[k] {
      if BothObjects(p, d, k) {
        DeepMergeIdempotent(p[k].fields, d[k].fields);
      } else if k in p && p[k].Obj? {
        DeepMergeSelf(p[k].fields);
      }
    }
  }

  /** Two patches that set disjoint fields may be merged in either order. */
  lemma DeepMergeDisjointCommute(p: Fields, q: Fields, d: Fields)
    requires p.Keys !! q.Keys
    ensures DeepMerge(q, DeepMerge(p, d)) == DeepMerge(p, DeepMerge(q, d))
  {
    var left := DeepMerge(q, DeepMerge(p, d));
    var right := DeepMerge(p, DeepMerge(q, d));
    forall k | k in left ensures k in right && left[k] == right[k] {
      if k in p {
        assert BothObjects(p, d, k) <==> BothObjects(p, DeepMerge(q, d), k);
      } else if k in q {
        assert BothObjects(q, d, k) <==> BothObjects(q, DeepMerge(p, d), k);
      }
    }
  }

  /** True when every character of `s` is a decimal digit. */
  predicate AllDigits(s: string) {
    forall i :: 0 <= i < |s| ==> '0' <= s[i] <= '9'
  }

  /** Decimal digits of a natural number, most significant first. */
  function NatToString(n: nat): (s: string)
    ensures |s| > 0 && AllDigits(s)
    ensures (n < 10) == (|s| == 1)
  {
    var d := (48 + n % 10) as char;
    if n < 10 then [d] else NatToString(n / 10) + [d]
  }

  /** The number a string of decimal digits denotes. */
  function DecimalValue(s: string): nat
    requires AllDigits(s)
    decreases |s|
  {
    if s == [] then 0
    else DecimalValue(s[..|s| - 1]) * 10 + (s[|s| - 1] as int - 48)
  }

  /** Reading back the decimal form of `n` gives `n`. */
  lemma {:induction false} NatToStringRoundTrip(n: nat)
    ensures DecimalValue(NatToString(n)) == n
  {
    var s := NatToString(n);
    if n >= 10 {
      NatToStringRoundTrip(n / 10);
      assert s[..|s| - 1] == NatToString(n / 10);
    }
  }

  /** Distinct natural numbers have distinct decimal forms. */
  lemma NatToStringInjective(a: nat, b: nat)
    requires NatToString(a) == NatToString(b)
    ensures a == b
  {
    NatToStringRoundTrip(a);
    NatToStringRoundTrip(b);
  }

  /** The key of an integer starts with `-` exactly when it is negative, followed by its magnitude. */
  lemma SignedDecimal(n: int)
    ensures var k := ToPropertyKey(Num(n));
      && |k| > 0
      && (k[0] == '-' <==> n < 0)
      && (n < 0 ==> k[1..] == NatToString(-n))
      && (n >= 0 ==> k == NatToString(n))
  {
    if n < 0 {
      assert ToPropertyKey(Num(n)) == "-" + NatToString(-n);
    } else {
      var s := NatToString(n);
      assert ToPropertyKey(Num(n)) == s;
      assert '0' <= s[0] <= '9';
    }
  }

  /**
   * Distinct integers index distinct properties: `String(a) === String(b)`
   * only when `a == b`, so numeric `uuid` fields never collide as keys.
   */
  lemma NumKeysDistinct(a: int, b: int)
    requires ToPropertyKey(Num(a)) == ToPropertyKey(Num(b))
    ensures a == b
  {
    SignedDecimal(a);
    SignedDecimal(b);
    if a < 0 {
      NatToStringInjective(-a, -b);
    } else {
      NatToStringInjective(a, b);
    }
  }

  /**
   * The property key JavaScript uses when a value indexes an object
   * (`storage[obj.uuid]`): `String(v)`, with `undefined` written as `None`.
   */
  function ToPropertyKey(v: Value): string
    decreases v
  {
    match v
    case Null => "null"
    case Bool(b) => if b then "true" else "false"
    case Num(n) => if n < 0 then "-" + NatToString(-n) else NatToString(n)
    case Str(s) => s
    case Arr(items) => JoinElements(items)
    case Obj(_) => "[object Object]"
  }

  /** `Array.prototype.join(",")`, which writes `null` elements as the empty string. */
  function JoinElements(items: seq<Value>): string
    decreases items
  {
    if |items| == 0 then ""
    else
      var head := if items[0].Null? then "" else ToPropertyKey(items[0]);
      if |items| == 1 then head else head + "," + JoinElements(items[1..])
  }
}
