/** Java values as the generator sees them: nullable strings, the untyped
    objects of a parsed vendor-extension block, and reads that can throw. */
module Values {

  /** A nullable Java reference: `None` stands for `null`. */
  datatype Option<+T> = None | Some(value: T)

  /** An object stored in an `x-ambassador` block (a `Map<Object, String>`
      that YAML parsing may fill with any object). */
  datatype Value =
    | Str(s: string)   // a java.lang.String
    | Bool(b: bool)    // a java.lang.Boolean
    | Null             // a key mapped to null
    | Other            // any other object (a number, a nested map, ...)

  /** An entry of a vendor-extension map (`Map<String, Object>`): either a
      nested map, or a non-map object (`Scalar(Null)` is a null entry). */
  datatype Extension = Block(entries: map<string, Value>) | Scalar(v: Value)

  /** The outcome of Java code that may throw an unchecked exception
      (a ClassCastException from a cast, or a NullPointerException). */
  datatype Read<+T> = Ok(value: T) | Throws {
    predicate IsFailure() { Throws? }

    function PropagateFailure<U>(): Read<U>
      requires Throws?
    {
      Throws
    }

    function Extract(): T
      requires Ok?
    {
      value
    }
  }

  /** The value a Java `String` variable holds after the implicit cast of a
      map lookup: a string, null, or a ClassCastException. */
  function AsString(v: Value): (r: Read<Option<string>>)
    ensures r == Throws <==> v.Bool? || v.Other?
    ensures r == Ok(None) <==> v == Null
    ensures forall s :: r == Ok(Some(s)) <==> v == Str(s)
  {
    match v
    case Str(s) => Ok(Some(s))
    case Null => Ok(None)
    case _ => Throws
  }

  /** Stores a nullable Java string as a map value. */
  function FromString(o: Option<string>): (v: Value)
    ensures AsString(v) == Ok(o)
  {
    match o
    case Some(s) => Str(s)
    case None => Null
  }

  /** `m.get(k)` on a Java map: null for an absent key. */
  function Get(m: map<string, Value>, k: string): (r: Value) {
    if k in m then m[k] else Null
  }
}
