/**
 * JSON values as the storefront's handlers receive them (numbers are integers here),
 * with the JavaScript operations the handlers apply to them: truthiness, member access,
 * `??`, `String(v)` and `Number(v)`.
 */
module Json {
  import opened Wrappers
  import Text

  datatype Json =
    | JNull
    | JBool(b: bool)
    | JNum(n: int)
    | JStr(s: string)
    | JArr(elems: seq<Json>)
    | JObj(fields: map<string, Json>)

  /** JavaScript truthiness: objects and arrays are always truthy. */
  predicate Truthy(j: Json) {
    match j
    case JNull => false
    case JBool(b) => b
    case JNum(n) => n != 0
    case JStr(s) => s != ""
    case _ => true
  }

  /** Truthiness of a value that may be `undefined` (`None`). */
  predicate OptTruthy(o: Option<Json>) { o.Some? && Truthy(o.value) }

  /** `null` or `undefined` */
  predicate Nullish(o: Option<Json>) { o.None? || o.value == JNull }

  /** `j.key` on a value that is not null: the member of an object, `undefined` otherwise. */
  function Member(j: Json, key: string): Option<Json> {
    if j.JObj? && key in j.fields then Some(j.fields[key]) else None
  }

  /** `o?.key` */
  function OptMember(o: Option<Json>, key: string): Option<Json> {
    if o.Some? then Member(o.value, key) else None
  }

  /** `a ?? b` */
  function Coalesce(a: Option<Json>, b: Option<Json>): Option<Json> {
    if Nullish(a) then b else a
  }

  /** The name under which spreading puts index `i`: its decimal digits. */
  function IndexKey(i: nat): string {
    Text.NatToString(i)
  }

  /** The name of index `n` is none of the names of the indices before it. */
  lemma LastIndexKeyIsNew(n: nat)
    ensures forall i :: 0 <= i < n ==> IndexKey(i) != IndexKey(n)
  {
    forall i | 0 <= i < n
      ensures IndexKey(i) != IndexKey(n)
    {
      Text.DigitsValueOfNat(i);
      Text.DigitsValueOfNat(n);
    }
  }

  /** The members `"0"`, `"1"`, … that spreading a sequence copies: each element under its index. */
  function IndexMap(xs: seq<Json>): (m: map<string, Json>)
    ensures forall i :: 0 <= i < |xs| ==> IndexKey(i) in m && m[IndexKey(i)] == xs[i]
    decreases |xs|
  {
    if xs == [] then map[]
    else
      var n := |xs| - 1;
      LastIndexKeyIsNew(n);
      IndexMap(xs[..n])[IndexKey(n) := xs[n]]
  }

  /** Spreading a sequence adds no member besides its indices. */
  lemma {:induction false} IndexMapKeys(xs: seq<Json>)
    ensures forall k :: k in IndexMap(xs) ==> exists i :: 0 <= i < |xs| && k == IndexKey(i)
    decreases |xs|
  {
    if xs != [] {
      var n := |xs| - 1;
      IndexMapKeys(xs[..n]);
      forall k | k in IndexMap(xs)
        ensures exists i :: 0 <= i < |xs| && k == IndexKey(i)
      {
        if k != IndexKey(n) {
          assert k in IndexMap(xs[..n]);
          var i :| 0 <= i < n && k == IndexKey(i);
        }
      }
    }
  }

  /** A string's characters as the one-character strings spreading it copies. */
  function Chars(s: string): (r: seq<Json>)
    ensures |r| == |s| && forall i :: 0 <= i < |s| ==> r[i] == JStr([s[i]])
  {
    seq(|s|, i requires 0 <= i < |s| => JStr([s[i]]))
  }

  /**
   * The members `{...v}` copies out of `v`: an object's own members; an array's elements and
   * a string's characters under their decimal indices `"0"`, `"1"`, …; nothing from `null`,
   * a boolean or a number.
   */
  function Spread(v: Json): (m: map<string, Json>)
    ensures v.JObj? ==> m == v.fields
    ensures v.JArr? ==> forall i :: 0 <= i < |v.elems| ==>
      IndexKey(i) in m && m[IndexKey(i)] == v.elems[i]
    ensures v.JArr? ==> forall k :: k in m ==> exists i :: 0 <= i < |v.elems| && k == IndexKey(i)
    ensures v.JStr? ==> forall i :: 0 <= i < |v.s| ==>
      IndexKey(i) in m && m[IndexKey(i)] == JStr([v.s[i]])
    ensures v.JStr? ==> forall k :: k in m ==> exists i :: 0 <= i < |v.s| && k == IndexKey(i)
    ensures v.JNull? || v.JBool? || v.JNum? ==> m == map[]
  {
    match v
    case JObj(fields) => fields
    case JArr(elems) => IndexMapKeys(elems); IndexMap(elems)
    case JStr(s) => IndexMapKeys(Chars(s)); IndexMap(Chars(s))
    case _ => map[]
  }

  /** `{...(v || {})}` copies the same members as `{...v}`: a falsy value spreads nothing either way. */
  lemma SpreadOfFalsy(v: Json)
    ensures Spread(if Truthy(v) then v else JObj(map[])) == Spread(v)
  {
    if v.JStr? && v.s == "" {
      assert forall k :: k !in Spread(v);
    }
  }

  /** `String(v)`; an array prints its elements joined by commas, `null` elements as "". */
  function ToJsString(j: Json): string {
    match j
    case JNull => "null"
    case JBool(b) => if b then "true" else "false"
    case JNum(n) => Text.IntToString(n)
    case JStr(s) => s
    case JArr(xs) => JoinElems(xs, 0, j)
    case JObj(_) => "[object Object]"
  }

  function JoinElems(xs: seq<Json>, from: nat, ghost parent: Json): string
    requires parent.JArr? && xs == parent.elems
    decreases parent, |xs| - from
  {
    if from >= |xs| then ""
    else
      var e := if xs[from] == JNull then "" else ToJsString(xs[from]);
      (if from == 0 then "" else ",") + e + JoinElems(xs, from + 1, parent)
  }

  /** `String(v)` of a value that may be `undefined`. */
  function OptToJsString(o: Option<Json>): string {
    if o.Some? then ToJsString(o.value) else "undefined"
  }

  /**
   * `Number(v)`: `None` is NaN. Arrays and objects are taken as NaN (an array of one
   * number would convert to that number; the shop never sends one).
   */
  function ToNumber(o: Option<Json>): Option<int> {
    match o
    case None => None
    case Some(JNull) => Some(0)
    case Some(JBool(b)) => Some(if b then 1 else 0)
    case Some(JNum(n)) => Some(n)
    case Some(JStr(s)) => Text.NumberOf(s)
    case Some(_) => None
  }

  /** `Number(v) || d`: NaN and zero both fall back to `d`. */
  function NumberOr(o: Option<Json>, d: int): (r: int)
    ensures ToNumber(o).Some? && ToNumber(o).value != 0 ==> r == ToNumber(o).value
    ensures ToNumber(o).None? || ToNumber(o).value == 0 ==> r == d
  {
    var v := ToNumber(o);
    if v.Some? && v.value != 0 then v.value else d
  }

  /** A string survives `String(...)` unchanged and a number prints as its digits. */
  lemma ToJsStringOfScalars(s: string, n: int)
    ensures ToJsString(JStr(s)) == s
    ensures Text.NumberOf(ToJsString(JNum(n))) == Some(n)
  {
    Text.NumberOfIntToString(n);
  }
}
