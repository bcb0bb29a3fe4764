/**
The values that records hold, Python's equality on them, and `_deep_safe`, which turns them
into JSON.
*/
module JsonValues {

  datatype Value =
    | Nil
    | Bool(b: bool)
    | Int(n: int)
    | Float(r: real)
    | Text(s: string)
    | Moment(iso: string)    // a date or a datetime, by its ISO text
    | Decimal(d: real)
    | Uuid(hex: string)
    | Tuple(elements: seq<Value>)
    | List(items: seq<Value>)
    | Dict(entries: map<string, Value>)

  // ----- JSON -----

  /** `_deep_safe`. */
  function DeepSafe(v: Value): (r: Value)
    ensures IsJson(r)
  {
    match v
    case Moment(iso) => Text(iso)
    case Decimal(d) => Float(d)
    case Uuid(hex) => Text(hex)
    case Tuple(elements) => List(seq(|elements|, i requires 0 <= i < |elements| => DeepSafe(elements[i])))
    case List(items) => List(seq(|items|, i requires 0 <= i < |items| => DeepSafe(items[i])))
    case Dict(entries) => Dict(map k | k in entries :: DeepSafe(entries[k]))
    case _ => v
  }

  /** What a JSON document can hold. */
  predicate IsJson(v: Value) {
    match v
    case Moment(_) => false
    case Decimal(_) => false
    case Uuid(_) => false
    case Tuple(_) => false
    case List(items) => forall i | 0 <= i < |items| :: IsJson(items[i])
    case Dict(entries) => forall k | k in entries :: IsJson(entries[k])
    case _ => true
  }

  /** `_deep_safe` leaves exactly the JSON values as they are; so it is idempotent. */
  lemma {:induction false} DeepSafeFixesJson(v: Value)
    ensures DeepSafe(v) == v <==> IsJson(v)
    ensures DeepSafe(DeepSafe(v)) == DeepSafe(v)
  {
    if IsJson(v) {
      JsonIsSafe(v);
    }
    JsonIsSafe(DeepSafe(v));
  }

  lemma {:induction false} JsonIsSafe(v: Value)
    requires IsJson(v)
    ensures DeepSafe(v) == v
  {
    match v
    case List(items) =>
      forall i | 0 <= i < |items|
        ensures DeepSafe(items[i]) == items[i]
      {
        JsonIsSafe(items[i]);
      }
    case Dict(entries) =>
      forall k | k in entries
        ensures DeepSafe(entries[k]) == entries[k]
      {
        JsonIsSafe(entries[k]);
      }
    case _ =>
  }

  // ----- Python's equality -----

  predicate IsNumber(v: Value) {
    v.Bool? || v.Int? || v.Float? || v.Decimal?
  }

  function Number(v: Value): real
    requires IsNumber(v)
  {
    match v
    case Bool(b) => if b then 1.0 else 0.0
    case Int(n) => n as real
    case Float(r) => r
    case Decimal(d) => d
  }

  /** `==`: numbers of all kinds, booleans among them, compare by value. */
  predicate PyEq(a: Value, b: Value) {
    match (a, b)
    case (List(x), List(y)) => |x| == |y| && forall i | 0 <= i < |x| :: PyEq(x[i], y[i])
    case (Tuple(x), Tuple(y)) => |x| == |y| && forall i | 0 <= i < |x| :: PyEq(x[i], y[i])
    case (Dict(m), Dict(n)) => m.Keys == n.Keys && forall k | k in m :: PyEq(m[k], n[k])
    case _ => a == b || (IsNumber(a) && IsNumber(b) && Number(a) == Number(b))
  }

  lemma {:induction false} PyEqReflexive(a: Value)
    ensures PyEq(a, a)
  {
    match a
    case List(x) => forall i | 0 <= i < |x| ensures PyEq(x[i], x[i]) { PyEqReflexive(x[i]); }
    case Tuple(x) => forall i | 0 <= i < |x| ensures PyEq(x[i], x[i]) { PyEqReflexive(x[i]); }
    case Dict(m) => forall k | k in m ensures PyEq(m[k], m[k]) { PyEqReflexive(m[k]); }
    case _ =>
  }

  lemma {:induction false} PyEqTransitive(a: Value, b: Value, c: Value)
    requires PyEq(a, b) && PyEq(b, c)
    ensures PyEq(a, c)
  {
    match a
    case List(x) => forall i | 0 <= i < |x| ensures PyEq(x[i], c.items[i]) { PyEqTransitive(x[i], b.items[i], c.items[i]); }
    case Tuple(x) => forall i | 0 <= i < |x| ensures PyEq(x[i], c.elements[i]) { PyEqTransitive(x[i], b.elements[i], c.elements[i]); }
    case Dict(m) => forall k | k in m ensures PyEq(m[k], c.entries[k]) { PyEqTransitive(m[k], b.entries[k], c.entries[k]); }
    case _ =>
  }

  /** Equal values have equal JSON. */
  lemma {:induction false} DeepSafeRespectsEquality(a: Value, b: Value)
    requires PyEq(a, b)
    ensures PyEq(DeepSafe(a), DeepSafe(b))
  {
    match a
    case List(x) =>
      forall i | 0 <= i < |x| ensures PyEq(DeepSafe(x[i]), DeepSafe(b.items[i])) { DeepSafeRespectsEquality(x[i], b.items[i]); }
    case Tuple(x) =>
      forall i | 0 <= i < |x| ensures PyEq(DeepSafe(x[i]), DeepSafe(b.elements[i])) { DeepSafeRespectsEquality(x[i], b.elements[i]); }
    case Dict(m) =>
      forall k | k in m ensures PyEq(DeepSafe(m[k]), DeepSafe(b.entries[k])) { DeepSafeRespectsEquality(m[k], b.entries[k]); }
    case _ =>
  }

  /** Values without booleans, floats or decimals anywhere. */
  predicate IsPlain(v: Value) {
    match v
    case Bool(_) => false
    case Float(_) => false
    case Decimal(_) => false
    case Tuple(elements) => forall i | 0 <= i < |elements| :: IsPlain(elements[i])
    case List(items) => forall i | 0 <= i < |items| :: IsPlain(items[i])
    case Dict(entries) => forall k | k in entries :: IsPlain(entries[k])
    case _ => true
  }

  /** On plain values Python's equality is equality. */
  lemma {:induction false} PlainEquality(a: Value, b: Value)
    requires IsPlain(a) && IsPlain(b)
    ensures PyEq(a, b) <==> a == b
  {
    if a == b {
      PyEqReflexive(a);
    }
    if PyEq(a, b) {
      match a
      case List(x) => forall i | 0 <= i < |x| ensures x[i] == b.items[i] { PlainEquality(x[i], b.items[i]); }
      case Tuple(x) => forall i | 0 <= i < |x| ensures x[i] == b.elements[i] { PlainEquality(x[i], b.elements[i]); }
      case Dict(m) => forall k | k in m ensures m[k] == b.entries[k] { PlainEquality(m[k], b.entries[k]); }
      case _ =>
    }
  }

  // ----- The conversion in plain terms -----

  /**
  What a value's JSON is: a date or a datetime becomes its ISO text, a uuid its text, a
  decimal the float of the same value; a tuple becomes a list, a list keeps its length and
  order, a dict keeps its keys; anything else stays.
  */
  predicate IsJsonOf(j: Value, v: Value) {
    match v
    case Moment(iso) => j == Text(iso)
    case Uuid(hex) => j == Text(hex)
    case Decimal(d) => j == Float(d)
    case Tuple(elements) =>
      j.List? && |j.items| == |elements| && forall i | 0 <= i < |elements| :: IsJsonOf(j.items[i], elements[i])
    case List(items) =>
      j.List? && |j.items| == |items| && forall i | 0 <= i < |items| :: IsJsonOf(j.items[i], items[i])
    case Dict(entries) =>
      j.Dict? && j.entries.Keys == entries.Keys && forall k | k in entries :: IsJsonOf(j.entries[k], entries[k])
    case Nil => j == Nil
    case Bool(b) => j == Bool(b)
    case Int(n) => j == Int(n)
    case Float(r) => j == Float(r)
    case Text(s) => j == Text(s)
  }

  /** `_deep_safe` gives exactly that. */
  lemma {:induction false} DeepSafeExactly(v: Value, j: Value)
    ensures j == DeepSafe(v) <==> IsJsonOf(j, v)
  {
    match v
    case Tuple(elements) =>
      if j.List? && |j.items| == |elements| {
        forall i | 0 <= i < |elements| ensures j.items[i] == DeepSafe(elements[i]) <==> IsJsonOf(j.items[i], elements[i]) {
          DeepSafeExactly(elements[i], j.items[i]);
        }
      }
    case List(items) =>
      if j.List? && |j.items| == |items| {
        forall i | 0 <= i < |items| ensures j.items[i] == DeepSafe(items[i]) <==> IsJsonOf(j.items[i], items[i]) {
          DeepSafeExactly(items[i], j.items[i]);
        }
      }
    case Dict(entries) =>
      if j.Dict? && j.entries.Keys == entries.Keys {
        forall k | k in entries ensures j.entries[k] == DeepSafe(entries[k]) <==> IsJsonOf(j.entries[k], entries[k]) {
          DeepSafeExactly(entries[k], j.entries[k]);
        }
      }
    case _ =>
  }

  /** Numbers of all kinds compare by value, true as one and false as zero; nothing else equals a number. */
  lemma NumbersCompareByValue(n: int, r: real, b: bool, v: Value)
    ensures PyEq(Int(n), Bool(b)) <==> n == if b then 1 else 0
    ensures PyEq(Float(r), Bool(b)) <==> r == if b then 1.0 else 0.0
    ensures PyEq(Int(n), Float(r)) <==> n as real == r
    ensures PyEq(Decimal(r), Float(r)) && (PyEq(Int(n), Decimal(r)) <==> n as real == r)
    ensures PyEq(Int(n), v) ==> v.Bool? || v.Int? || v.Float? || v.Decimal?
  {
  }
}
