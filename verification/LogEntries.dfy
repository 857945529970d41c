/** The log entry as it travels through the pipeline. */
module LogEntries {
  import opened Prelude

  datatype Float = Float(mantissa: int, exponent: int)

  /** A finite double other than the negative zero: `mantissa` times two to the power `exponent`, in its
      only form with an odd mantissa, or zero. */
  type Double = f: Float | IsDouble(f) witness Float(0, 0)

  predicate IsDouble(f: Float) {
    f == Float(0, 0) ||
    (f.mantissa % 2 == 1 && -1074 <= f.exponent <= 1023
     && var bound: int := Pow2(Min(53, 1024 - f.exponent)); -bound < f.mantissa < bound)
  }

  /** A dictionary with text keys, in the order of insertion. */
  type Assoc<T> = fields: seq<(string, T)> | DistinctKeys(fields) witness []

  predicate DistinctKeys<T>(fields: seq<(string, T)>) {
    forall i, j :: 0 <= i < j < |fields| ==> fields[i].0 != fields[j].0
  }

  /** A Python value as far as JSON goes; anything that JSON has no form for is foreign. */
  datatype Json =
    | Null
    | Bool(b: bool)
    | Int(i: int)
    | Number(n: Double)
    | Text(s: string)
    | Arr(items: seq<Json>)
    | Obj(fields: Assoc<Json>)
    | Foreign(token: int)

  type JsonObject = Assoc<Json>

  /** `C` is how the context is represented: an object graph before filtering, a dictionary after. */
  datatype LogEntry<+C> = LogEntry(
    id: string,
    timestamp: string,
    level: string,
    message: string,
    context: Option<C>,
    traceId: Option<string>,
    spanId: Option<string>,
    requestId: Option<string>,
    labels: Option<Assoc<string>>,
    metadata: Option<JsonObject>)

  type Entry = LogEntry<JsonObject>
}
