/** Document values as the server receives them from MongoDB, and the order
    in which MongoDB compares them when it sorts a query result. */
module Values {

  datatype Option<T> = None | Some(value: T)

  /** A field value of a stored reading. Numbers are kept as reals: the server
      passes them through and never computes with them. */
  datatype Value =
    | Null
    | Num(x: real)
    | Str(s: string)
    | Bool(b: bool)
    | Date(millis: int)

  /** A stored document: field name to value. */
  type Doc = map<string, Value>

  /** Position of a value's type in MongoDB's cross-type comparison order
      (MinKey, Null, numbers, strings, objects, arrays, binary data, ObjectId,
      booleans, dates, ...). Only the relative order of the ranks matters. */
  function TypeRank(v: Value): nat
  {
    match v
    case Null => 2
    case Num(_) => 3
    case Str(_) => 4
    case Bool(_) => 9
    case Date(_) => 10
  }

  /** String order used by a sort without collation: by code point. */
  predicate StrLe(s: string, t: string)
    decreases |s|
  {
    s == [] || (t != [] && (s[0] < t[0] || (s[0] == t[0] && StrLe(s[1..], t[1..]))))
  }

  /** `a` sorts no later than `b` in ascending order. */
  predicate ValueLe(a: Value, b: Value)
  {
    if TypeRank(a) != TypeRank(b) then TypeRank(a) < TypeRank(b)
    else match (a, b)
      case (Num(x), Num(y)) => x <= y
      case (Str(s), Str(t)) => StrLe(s, t)
      case (Bool(p), Bool(q)) => !p || q
      case (Date(m), Date(n)) => m <= n
      case _ => true
  }

  lemma {:induction false} StrLeReflexive(s: string)
    ensures StrLe(s, s)
    decreases |s|
  {
    if s != [] {
      StrLeReflexive(s[1..]);
    }
  }

  lemma {:induction false} StrLeTotal(s: string, t: string)
    ensures StrLe(s, t) || StrLe(t, s)
    decreases |s|
  {
    if s != [] && t != [] && s[0] == t[0] {
      StrLeTotal(s[1..], t[1..]);
    }
  }

  lemma {:induction false} StrLeTransitive(s: string, t: string, u: string)
    requires StrLe(s, t) && StrLe(t, u)
    ensures StrLe(s, u)
    decreases |s|
  {
    if s != [] && s[0] == t[0] && t[0] == u[0] {
      StrLeTransitive(s[1..], t[1..], u[1..]);
    }
  }

  /** The value order is a total preorder, so sorting by it is well defined. */
  lemma ValueLeReflexive(a: Value)
    ensures ValueLe(a, a)
  {
    if a.Str? {
      StrLeReflexive(a.s);
    }
  }

  lemma ValueLeTotal(a: Value, b: Value)
    ensures ValueLe(a, b) || ValueLe(b, a)
  {
    if a.Str? && b.Str? {
      StrLeTotal(a.s, b.s);
    }
  }

  lemma ValueLeTransitive(a: Value, b: Value, c: Value)
    requires ValueLe(a, b) && ValueLe(b, c)
    ensures ValueLe(a, c)
  {
    if a.Str? && b.Str? && c.Str? {
      StrLeTransitive(a.s, b.s, c.s);
    }
  }
}
