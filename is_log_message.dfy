/**
 * Run-time recognisers for log records arriving as untyped values.
 */
module LogMessageGuards {
  import opened Json

  /** A non-null object that has `level`, `message` and `timestamp` properties. */
  predicate IsLogMessage(v: Value) {
    IsObjectType(v) && !v.Null? && HasKey(v, "level") && HasKey(v, "message") && HasKey(v, "timestamp")
  }

  /** A log message whose `source` property is the string `'client'`. */
  predicate IsClientLogMessage(v: Value) {
    IsLogMessage(v) && HasKey(v, "source") && Get(v, "source") == Some(Str("client"))
  }

  /** A log message whose `source` property is the string `'server'`. */
  predicate IsServerLogMessage(v: Value) {
    IsLogMessage(v) && HasKey(v, "source") && Get(v, "source") == Some(Str("server"))
  }

  /** Exactly the objects carrying the three record properties are log messages. */
  lemma IsLogMessageExactly(v: Value)
    ensures IsLogMessage(v) <==>
      v.Obj? && (exists i :: 0 <= i < |v.fields| && v.fields[i].0 == "level")
             && (exists i :: 0 <= i < |v.fields| && v.fields[i].0 == "message")
             && (exists i :: 0 <= i < |v.fields| && v.fields[i].0 == "timestamp")
  {
  }

  /** Each side's recogniser refines the general one and pins the source. */
  lemma SideImpliesLogMessage(v: Value)
    ensures IsClientLogMessage(v) ==> IsLogMessage(v) && GetString(v, "source") == Some("client")
    ensures IsServerLogMessage(v) ==> IsLogMessage(v) && GetString(v, "source") == Some("server")
  {
  }

  /** No value is recognised as both a client and a server record. */
  lemma ClientAndServerExclusive(v: Value)
    ensures !(IsClientLogMessage(v) && IsServerLogMessage(v))
  {
  }

  /** Null, undefined, booleans, numbers, strings and arrays are never log messages. */
  lemma NonObjectsAreNotLogMessages(v: Value)
    requires !v.Obj?
    ensures !IsLogMessage(v) && !IsClientLogMessage(v) && !IsServerLogMessage(v)
  {
  }
}
