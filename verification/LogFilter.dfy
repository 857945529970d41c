/** The filter step: truncate the message, redact it and the context when configured to. */
module LogFilters {
  import opened Prelude
  import opened LogEntries
  import opened Sanitizers
  import opened SanitizerReach

  /** `maxMessageLength` and the switch; the patterns are those of the sanitiser. */
  datatype FilterConfig = FilterConfig(maxMessageLength: nat, sanitize: bool, patterns: Patterns)

  /** The context of a filtered entry: the caller's own dictionary, or a new one. */
  datatype Context = Untouched(dict: nat) | Sanitized(fields: TreeFields)

  const TRUNCATED := "...[truncated]"

  function Truncate(c: FilterConfig, message: string): string {
    if |message| > c.maxMessageLength then message[..c.maxMessageLength] + TRUNCATED else message
  }

  /** A message over the limit keeps just that many characters and gets a mark; any other is left alone. */
  lemma TruncateLaw(c: FilterConfig, message: string)
    ensures |message| <= c.maxMessageLength ==> Truncate(c, message) == message
    ensures |message| > c.maxMessageLength ==>
              && |Truncate(c, message)| == c.maxMessageLength + 14
              && (forall i :: 0 <= i < c.maxMessageLength ==> Truncate(c, message)[i] == message[i])
              && Truncate(c, message)[c.maxMessageLength..] == "...[truncated]"
  {
  }

  function FilterMessage(c: FilterConfig, message: string): string {
    if c.sanitize && c.patterns.Detects(Truncate(c, message)) then REDACTED else Truncate(c, message)
  }

  function FilterContext(c: FilterConfig, h: Heap, context: Option<nat>): Option<Context>
    requires Closed(h) && (context.Some? ==> context.value in h.dicts)
  {
    match context
    case None => None
    case Some(d) => Some(if c.sanitize then Sanitized(SanitizeDict(c.patterns, h, d, {}).0) else Untouched(d))
  }

  function Filter(c: FilterConfig, h: Heap, e: LogEntry<nat>): (r: LogEntry<Context>)
    requires Closed(h) && (e.context.Some? ==> e.context.value in h.dicts)
    ensures c.sanitize ==> CleanString(c.patterns, r.message)
    ensures |r.message| <= Max(c.maxMessageLength + |TRUNCATED|, |REDACTED|)
    ensures |e.message| <= c.maxMessageLength && !c.sanitize ==> r.message == e.message
  {
    LogEntry(e.id, e.timestamp, e.level, FilterMessage(c, e.message), FilterContext(c, h, e.context),
             e.traceId, e.spanId, e.requestId, e.labels, e.metadata)
  }

  /** Filtering changes the message and the context, and nothing else; without sanitising, only the length of
      the message; and a message is redacted exactly if a pattern matches what is left of it. */
  lemma FilterLaw(c: FilterConfig, h: Heap, e: LogEntry<nat>)
    requires Closed(h) && (e.context.Some? ==> e.context.value in h.dicts)
    ensures var r := Filter(c, h, e);
            && r.id == e.id && r.timestamp == e.timestamp && r.level == e.level && r.traceId == e.traceId
            && r.spanId == e.spanId && r.requestId == e.requestId && r.labels == e.labels && r.metadata == e.metadata
    ensures var left := Truncate(c, e.message);
            Filter(c, h, e).message ==
            if c.sanitize && (c.patterns.configured(left) || c.patterns.common(left)) then "[REDACTED]" else left
    ensures e.context.None? <==> Filter(c, h, e).context.None?
    ensures e.context.Some? && !c.sanitize ==> Filter(c, h, e).context == Some(Untouched(e.context.value))
    ensures e.context.Some? && c.sanitize ==>
              Filter(c, h, e).context == Some(Sanitized(SanitizeDict(c.patterns, h, e.context.value, {}).0))
  {
  }

  /** With sanitising on, the message of a filtered entry is redacted or undetected, and so is its context
      as far as the traversal reads it. */
  lemma FilteredIsClean(c: FilterConfig, h: Heap, e: LogEntry<nat>)
    requires Closed(h) && (e.context.Some? ==> e.context.value in h.dicts) && c.sanitize
    ensures CleanString(c.patterns, Filter(c, h, e).message)
    ensures e.context.Some? ==> Filter(c, h, e).context.Some? && Filter(c, h, e).context.value.Sanitized?
                                && CleanFields(c.patterns, Filter(c, h, e).context.value.fields)
  {
    if e.context.Some? {
      DictIsClean(c.patterns, h, e.context.value, {});
    }
  }

  /** Can a text be read off the message or the context of a filtered entry? */
  ghost predicate EntryReads(h: Heap, e: LogEntry<Context>, s: string) {
    e.message == s ||
    (e.context.Some? &&
     match e.context.value
     case Untouched(d) => Reads(h, DictRef(d), s)
     case Sanitized(fields) => FieldsRead(h, fields, s))
  }

  /** With sanitising on, a secret can be read off a filtered entry exactly if its context has one below a
      list inside a list that the traversal gets to. */
  lemma SecretPassesIff(c: FilterConfig, h: Heap, e: LogEntry<nat>, s: string)
    requires Closed(h) && (e.context.Some? ==> e.context.value in h.dicts) && c.sanitize && Secret(c.patterns, s)
    ensures EntryReads(h, Filter(c, h, e), s) <==>
            e.context.Some? &&
            exists d, m :: Reaches(c.patterns, h, e.context.value, d) && m in DictWays(c.patterns, h, d).lists
                           && Reads(h, ListRef(m), s)
  {
    hide Reads, Reaches, DictWays, FieldsRead, SanitizeDict;
    if e.context.Some? {
      SecretRemainsIff(c.patterns, h, e.context.value, s);
    }
  }

  /** Whether a message is left alone by a second filtering. */
  predicate SettlesAtOnce(c: FilterConfig, message: string) {
    || !(c.sanitize && c.patterns.Detects(Truncate(c, message)))
    || c.maxMessageLength >= |REDACTED|
    || c.patterns.Detects(Truncate(c, REDACTED))
  }

  /** Truncating again changes nothing, although a truncated text is longer than the limit. */
  lemma TruncateIsIdempotent(c: FilterConfig, message: string)
    ensures Truncate(c, Truncate(c, message)) == Truncate(c, message)
  {
    var n := c.maxMessageLength;
    if |message| > n {
      assert (message[..n] + TRUNCATED)[..n] == message[..n];
    }
  }

  lemma MessageIsIdempotentIff(c: FilterConfig, message: string)
    ensures FilterMessage(c, FilterMessage(c, message)) == FilterMessage(c, message) <==> SettlesAtOnce(c, message)
  {
    TruncateIsIdempotent(c, message);
    if |REDACTED| > c.maxMessageLength {
      assert |Truncate(c, REDACTED)| == c.maxMessageLength + |TRUNCATED|;
      assert |Truncate(c, REDACTED)| > |REDACTED|;
    }
  }

  /** The entry `e` of heap `h` is the filtered entry `r`, its new dictionaries objects of the heap. */
  predicate Holds(h: Heap, e: LogEntry<nat>, r: LogEntry<Context>) {
    && e.(context := None) == LogEntry(r.id, r.timestamp, r.level, r.message, None, r.traceId, r.spanId,
                                       r.requestId, r.labels, r.metadata)
    && match r.context
       case None => e.context.None?
       case Some(Untouched(d)) => e.context == Some(d)
       case Some(Sanitized(fields)) => e.context.Some? && Stored(h, DictRef(e.context.value), Dict(fields))
  }

  /** Filtering twice is filtering once exactly when the message settles; the context always does. */
  lemma FilterIsIdempotentIff(c: FilterConfig, h: Heap, e: LogEntry<nat>, h': Heap, e': LogEntry<nat>)
    requires Closed(h) && (e.context.Some? ==> e.context.value in h.dicts)
    requires Closed(h') && (e'.context.Some? ==> e'.context.value in h'.dicts)
    requires Holds(h', e', Filter(c, h, e))
    ensures Filter(c, h', e') == Filter(c, h, e) <==> SettlesAtOnce(c, e.message)
  {
    MessageIsIdempotentIff(c, e.message);
    if e.context.Some? && c.sanitize {
      SanitizeIsIdempotent(c.patterns, h, e.context.value, h', e'.context.value);
    }
    assert Filter(c, h', e').context == Filter(c, h, e).context;
  }

  /** Such a second input always exists, so the premise above is never empty. */
  lemma FilteredCanBeHeld(c: FilterConfig, h: Heap, e: LogEntry<nat>) returns (h': Heap, e': LogEntry<nat>)
    requires Closed(h) && (e.context.Some? ==> e.context.value in h.dicts)
    ensures Closed(h') && Extends(h, h') && (e'.context.Some? ==> e'.context.value in h'.dicts)
    ensures Holds(h', e', Filter(c, h, e))
  {
    h', e' := h, e.(message := FilterMessage(c, e.message));
    if e.context.Some? && c.sanitize {
      var v;
      h', v := Store(h, Dict(SanitizeDict(c.patterns, h, e.context.value, {}).0));
      e' := e'.(context := Some(v.dict));
    }
  }

  /** With a limit below ten the law fails: a redacted message is cut again. */
  lemma ShortLimitRedactsTwice()
    ensures var c := FilterConfig(3, true, Patterns(_ => false, (s: string) => s == "pwd"));
            !SettlesAtOnce(c, "pwd") && FilterMessage(c, FilterMessage(c, "pwd")) == "[RE...[truncated]"
  {
    var c := FilterConfig(3, true, Patterns(_ => false, (s: string) => s == "pwd"));
    assert Truncate(c, "pwd") == "pwd";
    assert REDACTED[..3] == "[RE";
    assert |Truncate(c, REDACTED)| == 17;
  }
}
