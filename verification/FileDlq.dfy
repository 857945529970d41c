/** Entries as dictionaries, the form in which they are written and read. */
module EntryDicts {
  import opened Prelude
  import opened LogEntries

  datatype Key =
    | IdKey | TimestampKey | LevelKey | MessageKey | ContextKey
    | TraceIdKey | SpanIdKey | RequestIdKey | LabelsKey | MetadataKey

  type Dict = map<Key, Json>

  function LabelFields(labels: Assoc<string>): JsonObject {
    seq(|labels|, i requires 0 <= i < |labels| => (labels[i].0, Text(labels[i].1)))
  }

  function TextIf(value: Option<string>): Option<Json> {
    if value.Some? && value.value != "" then Some(Text(value.value)) else None
  }

  function ObjectIf(value: Option<JsonObject>): Option<Json> {
    if value.Some? && value.value != [] then Some(Obj(value.value)) else None
  }

  /** What `LogEntryEntity.to_dict` puts under a key: identifiers, labels and metadata only when they
      are not empty. */
  function Field(e: Entry, key: Key): Option<Json> {
    match key
    case IdKey => Some(Text(e.id))
    case TimestampKey => Some(Text(e.timestamp))
    case LevelKey => Some(Text(e.level))
    case MessageKey => Some(Text(e.message))
    case ContextKey => if e.context.Some? then Some(Obj(e.context.value)) else None
    case TraceIdKey => TextIf(e.traceId)
    case SpanIdKey => TextIf(e.spanId)
    case RequestIdKey => TextIf(e.requestId)
    case LabelsKey => ObjectIf(if e.labels.Some? then Some(LabelFields(e.labels.value)) else None)
    case MetadataKey => ObjectIf(e.metadata)
  }

  function ToDict(e: Entry): Dict {
    map key: Key | Field(e, key).Some? :: Field(e, key).value
  }

  /** Each key holds its own field, and the optional ones are there if and only if they are not empty. */
  lemma DictLaw(e: Entry)
    ensures var d := ToDict(e);
            && IdKey in d && d[IdKey] == Text(e.id) && TimestampKey in d && d[TimestampKey] == Text(e.timestamp)
            && LevelKey in d && d[LevelKey] == Text(e.level) && MessageKey in d && d[MessageKey] == Text(e.message)
    ensures ContextKey in ToDict(e) <==> e.context.Some?
    ensures ContextKey in ToDict(e) ==> ToDict(e)[ContextKey] == Obj(e.context.value)
    ensures TraceIdKey in ToDict(e) <==> e.traceId.Some? && e.traceId.value != ""
    ensures TraceIdKey in ToDict(e) ==> ToDict(e)[TraceIdKey] == Text(e.traceId.value)
    ensures SpanIdKey in ToDict(e) <==> e.spanId.Some? && e.spanId.value != ""
    ensures SpanIdKey in ToDict(e) ==> ToDict(e)[SpanIdKey] == Text(e.spanId.value)
    ensures RequestIdKey in ToDict(e) <==> e.requestId.Some? && e.requestId.value != ""
    ensures RequestIdKey in ToDict(e) ==> ToDict(e)[RequestIdKey] == Text(e.requestId.value)
    ensures LabelsKey in ToDict(e) <==> e.labels.Some? && e.labels.value != []
    ensures LabelsKey in ToDict(e) ==>
              && ToDict(e)[LabelsKey].Obj? && |ToDict(e)[LabelsKey].fields| == |e.labels.value|
              && forall i :: 0 <= i < |e.labels.value| ==>
                   ToDict(e)[LabelsKey].fields[i] == (e.labels.value[i].0, Text(e.labels.value[i].1))
    ensures MetadataKey in ToDict(e) <==> e.metadata.Some? && e.metadata.value != []
    ensures MetadataKey in ToDict(e) ==> ToDict(e)[MetadataKey] == Obj(e.metadata.value)
  {
  }

  function GetText(d: Dict, key: Key, default: string): string {
    if key in d && d[key].Text? then d[key].s else default
  }

  function GetOptionalText(d: Dict, key: Key): Option<string> {
    if key in d && d[key].Text? then Some(d[key].s) else None
  }

  function GetObject(d: Dict, key: Key): Option<JsonObject> {
    if key in d && d[key].Obj? then Some(d[key].fields) else None
  }

  function LabelsOf(fields: JsonObject): Assoc<string> {
    seq(|fields|, i requires 0 <= i < |fields| => (fields[i].0, if fields[i].1.Text? then fields[i].1.s else ""))
  }

  /** The entry `load_from_disk` builds from a dictionary. */
  function FromDict(d: Dict): Entry {
    LogEntry(
      GetText(d, IdKey, ""), GetText(d, TimestampKey, ""), GetText(d, LevelKey, "info"), GetText(d, MessageKey, ""),
      GetObject(d, ContextKey),
      GetOptionalText(d, TraceIdKey), GetOptionalText(d, SpanIdKey), GetOptionalText(d, RequestIdKey),
      (var labels := GetObject(d, LabelsKey); if labels.Some? then Some(LabelsOf(labels.value)) else None),
      GetObject(d, MetadataKey))
  }

  /** What is missing is read as an empty text, the level as "info", and the rest as none. */
  lemma MissingKeysLaw()
    ensures FromDict(map[]) == LogEntry("", "", "info", "", None, None, None, None, None, None)
  {
  }

  /** No identifier, label set or metadata that is present but empty. */
  predicate Normalised(e: Entry) {
    e.traceId != Some("") && e.spanId != Some("") && e.requestId != Some("") &&
    e.labels != Some([]) && e.metadata != Some([])
  }

  function Normal(e: Entry): Entry {
    e.(traceId := NonEmpty(e.traceId), spanId := NonEmpty(e.spanId), requestId := NonEmpty(e.requestId),
       labels := NonEmpty(e.labels), metadata := NonEmpty(e.metadata))
  }

  lemma LabelsRoundTrip(labels: Assoc<string>)
    ensures LabelsOf(LabelFields(labels)) == labels
  {
  }

  /** Writing an entry and reading it back normalises it, and changes nothing else. */
  lemma DictRoundTrip(e: Entry)
    ensures FromDict(ToDict(e)) == Normal(e)
    ensures FromDict(ToDict(e)) == e <==> Normalised(e)
  {
    var d := ToDict(e);
    OptionalsRoundTrip(e);
    assert forall key :: Field(e, key).Some? ==> key in d && d[key] == Field(e, key).value;
    hide ToDict;
    assert Field(e, IdKey).Some? && Field(e, TimestampKey).Some?;
    assert Field(e, LevelKey).Some? && Field(e, MessageKey).Some?;
    assert FromDict(d) == Normal(e);
  }

  lemma OptionalsRoundTrip(e: Entry)
    ensures GetObject(ToDict(e), ContextKey) == e.context
    ensures GetOptionalText(ToDict(e), TraceIdKey) == NonEmpty(e.traceId)
    ensures GetOptionalText(ToDict(e), SpanIdKey) == NonEmpty(e.spanId)
    ensures GetOptionalText(ToDict(e), RequestIdKey) == NonEmpty(e.requestId)
    ensures var labels := GetObject(ToDict(e), LabelsKey);
            (if labels.Some? then Some(LabelsOf(labels.value)) else None) == NonEmpty(e.labels)
    ensures GetObject(ToDict(e), MetadataKey) == NonEmpty(e.metadata)
  {
    if e.labels.Some? {
      LabelsRoundTrip(e.labels.value);
    }
  }
}

/** The text of a dead letter file: lines, their bytes, and how Python splits them again. */
module LineFiles {

  function CharBytes(c: char): nat {
    var code := c as int;
    if code < 0x80 then 1 else if code < 0x800 then 2 else if code < 0x1_0000 then 3 else 4
  }

  /** UTF-8 takes more bytes from U+0080, U+0800 and U+10000 on. */
  lemma CharBytesLaw(c: char, d: char)
    ensures CharBytes('\U{7F}') == 1 && CharBytes('\U{80}') == 2 && CharBytes('\U{7FF}') == 2
    ensures CharBytes('\U{800}') == 3 && CharBytes('\U{FFFF}') == 3 && CharBytes('\U{10000}') == 4
    ensures c <= d ==> 1 <= CharBytes(c) <= CharBytes(d) <= 4
  {
  }

  /** The length of the UTF-8 encoding. */
  function Utf8Length(s: string): nat {
    if s == [] then 0 else Utf8Length(s[..|s| - 1]) + CharBytes(s[|s| - 1])
  }

  function CharsFrom(s: string, code: int): nat {
    if s == [] then 0 else CharsFrom(s[1..], code) + if s[0] as int >= code then 1 else 0
  }

  lemma {:induction false} CharsFromSnoc(s: string, c: char, code: int)
    ensures CharsFrom(s + [c], code) == CharsFrom(s, code) + if c as int >= code then 1 else 0
  {
    if s == [] {
    } else {
      CharsFromSnoc(s[1..], c, code);
      assert (s + [c])[1..] == s[1..] + [c];
    }
  }

  /** Each character takes a byte, and one more for each of the three bounds it reaches. */
  lemma {:induction false} Utf8Law(s: string)
    ensures Utf8Length(s) == |s| + CharsFrom(s, 0x80) + CharsFrom(s, 0x800) + CharsFrom(s, 0x1_0000)
  {
    if s == [] {
    } else {
      var before, last := s[..|s| - 1], s[|s| - 1];
      Utf8Law(before);
      assert s == before + [last];
      CharsFromSnoc(before, last, 0x80);
      CharsFromSnoc(before, last, 0x800);
      CharsFromSnoc(before, last, 0x1_0000);
    }
  }

  /** The characters `str.splitlines` takes as line boundaries. */
  predicate IsBreak(c: char) {
    c in {'\n', '\r', '\U{0B}', '\U{0C}', '\U{1C}', '\U{1D}', '\U{1E}', '\U{85}', '\U{2028}', '\U{2029}'}
  }

  /** By their code points. */
  lemma BreakLaw(c: char)
    ensures IsBreak(c) <==>
            10 <= c as int <= 13 || 28 <= c as int <= 30 || c as int == 0x85 || 0x2028 <= c as int <= 0x2029
  {
  }

  predicate Unbroken(s: string) {
    forall i :: 0 <= i < |s| ==> !IsBreak(s[i])
  }

  /** `splitlines`, `line` being the current line so far; `\r\n` is one boundary. */
  function SplitFrom(s: string, line: string): seq<string>
    decreases |s|
  {
    if s == [] then if line == [] then [] else [line]
    else if IsBreak(s[0]) then
      [line] + SplitFrom(if s[0] == '\r' && |s| > 1 && s[1] == '\n' then s[2..] else s[1..], [])
    else SplitFrom(s[1..], line + [s[0]])
  }

  function SplitLines(s: string): seq<string> {
    SplitFrom(s, [])
  }

  /** `"\n".join(lines)` */
  function Join(lines: seq<string>): string {
    if lines == [] then []
    else if |lines| == 1 then lines[0]
    else lines[0] + ['\n'] + Join(lines[1..])
  }

  /** What is written: the joined lines, and a final newline unless that is nothing. */
  function Content(lines: seq<string>): string {
    if Join(lines) == [] then [] else Join(lines) + ['\n']
  }

  predicate NonEmptyLines(lines: seq<string>) {
    forall i :: 0 <= i < |lines| ==> lines[i] != []
  }

  lemma {:induction false} ContentCons(lines: seq<string>)
    requires lines != [] && NonEmptyLines(lines)
    ensures Content(lines) == lines[0] + ['\n'] + Content(lines[1..])
  {
    if |lines| == 1 {
      assert Content(lines[1..]) == [];
    } else {
      assert lines[1..][0] == lines[1];
      ContentCons(lines[1..]);
      assert lines[0] + ['\n'] + Join(lines[1..]) + ['\n'] == lines[0] + ['\n'] + (Join(lines[1..]) + ['\n']);
    }
  }

  lemma {:induction false} Utf8Concat(s: string, t: string)
    ensures Utf8Length(s + t) == Utf8Length(s) + Utf8Length(t)
  {
    if t == [] {
      assert s + t == s;
    } else {
      Utf8Concat(s, t[..|t| - 1]);
      assert (s + t)[..|s + t| - 1] == s + t[..|t| - 1];
    }
  }

  /** Fewer of the newest lines take no more bytes. */
  lemma {:induction false} SuffixIsShorter(lines: seq<string>, k: nat)
    requires NonEmptyLines(lines) && k <= |lines|
    ensures Utf8Length(Content(lines[k..])) <= Utf8Length(Content(lines))
  {
    if k == 0 {
      assert lines[0..] == lines;
    } else {
      ContentCons(lines);
      Utf8Concat(lines[0] + ['\n'], Content(lines[1..]));
      SuffixIsShorter(lines[1..], k - 1);
      assert lines[1..][k - 1..] == lines[k..];
    }
  }

  // -------------------------------------------------------------------------------------------
  // Lines survive

  /** An unbroken stretch runs up to the next boundary. */
  lemma {:induction false} SplitStretch(s: string, rest: string, line: string)
    requires Unbroken(s)
    ensures SplitFrom(s + ['\n'] + rest, line) == [line + s] + SplitFrom(rest, [])
    decreases |s|
  {
    var all := s + ['\n'] + rest;
    if s == [] {
      assert all[1..] == rest && line + s == line;
    } else {
      assert all[0] == s[0] && !IsBreak(s[0]);
      assert all[1..] == s[1..] + ['\n'] + rest;
      SplitStretch(s[1..], rest, line + [s[0]]);
      assert line + [s[0]] + s[1..] == line + s;
    }
  }

  lemma {:induction false} PiecesAreUnbroken(s: string, line: string)
    requires Unbroken(line)
    ensures forall i :: 0 <= i < |SplitFrom(s, line)| ==> Unbroken(SplitFrom(s, line)[i])
    decreases |s|
  {
    if s == [] {
    } else {
      if IsBreak(s[0]) {
        PiecesAreUnbroken(if s[0] == '\r' && |s| > 1 && s[1] == '\n' then s[2..] else s[1..], []);
      } else {
        PiecesAreUnbroken(s[1..], line + [s[0]]);
      }
    }
  }

  lemma {:induction false} UnbrokenLinesSurvive(lines: seq<string>)
    requires NonEmptyLines(lines) && forall i :: 0 <= i < |lines| ==> Unbroken(lines[i])
    ensures SplitLines(Content(lines)) == lines
    decreases |lines|
  {
    if lines == [] {
    } else {
      ContentCons(lines);
      SplitStretch(lines[0], Content(lines[1..]), []);
      UnbrokenLinesSurvive(lines[1..]);
      assert [] + lines[0] == lines[0] && [lines[0]] + lines[1..] == lines;
    }
  }

  /** The lines read back are the lines written exactly when none of them holds a line boundary. */
  lemma LinesSurviveIff(lines: seq<string>)
    requires NonEmptyLines(lines)
    ensures SplitLines(Content(lines)) == lines <==> forall i :: 0 <= i < |lines| ==> Unbroken(lines[i])
  {
    if forall i :: 0 <= i < |lines| ==> Unbroken(lines[i]) {
      UnbrokenLinesSurvive(lines);
    } else {
      PiecesAreUnbroken(Content(lines), []);
    }
  }
}

/** The lines of a dead letter file as JSON, and what is assumed of the library that writes and reads it. */
module JsonLines {
  import opened Prelude
  import opened LogEntries
  import opened Numerals
  import opened EntryDicts
  import opened LineFiles

  /** The JSON object a line holds. */
  datatype Record = Record(entry: Dict, reason: string, timestamp: Double, retryCount: int)

  /** `json.dumps` without ASCII escaping, or none where it raises, and `json.loads` where it succeeds. It
      certainly manages values nested no deeper than `maxDepth`. */
  datatype Codec = Codec(encode: Record -> Option<string>, decode: string -> Option<Record>, maxDepth: nat)

  // -------------------------------------------------------------------------------------------
  // What the library can and cannot write

  /** Python refuses to convert integers with more digits than this. */
  const MAX_DIGITS := 4300

  predicate Printable(i: int) {
    |Decimal(if i < 0 then -i else i)| <= MAX_DIGITS
  }

  predicate Plain(j: Json, depth: nat) {
    match j
    case Int(i) => Printable(i)
    case Arr(items) => depth > 0 && forall i :: 0 <= i < |items| ==> Plain(items[i], depth - 1)
    case Obj(fields) => depth > 0 && forall i :: 0 <= i < |fields| ==> Plain(fields[i].1, depth - 1)
    case Foreign(_) => false
    case _ => true
  }

  predicate HasForeign(j: Json) {
    match j
    case Arr(items) => exists i :: 0 <= i < |items| && HasForeign(items[i])
    case Obj(fields) => exists i :: 0 <= i < |fields| && HasForeign(fields[i].1)
    case Foreign(_) => true
    case _ => false
  }

  ghost predicate RecordPlain(codec: Codec, r: Record) {
    Printable(r.retryCount) && forall key :: key in r.entry ==> Plain(r.entry[key], codec.maxDepth)
  }

  ghost predicate RecordHasForeign(r: Record) {
    exists key :: key in r.entry && HasForeign(r.entry[key])
  }

  // -------------------------------------------------------------------------------------------
  // Text

  predicate Separator(c: char) {
    c == '\U{85}' || c == '\U{2028}' || c == '\U{2029}'
  }

  /** They are the line boundaries that are not control characters of ASCII, which JSON escapes. */
  lemma SeparatorLaw(c: char)
    ensures Separator(c) <==> IsBreak(c) && c as int >= 0x20
  {
  }

  predicate TextHasSeparator(s: string) {
    exists i :: 0 <= i < |s| && Separator(s[i])
  }

  predicate JsonHasSeparator(j: Json) {
    match j
    case Text(s) => TextHasSeparator(s)
    case Arr(items) => exists i :: 0 <= i < |items| && JsonHasSeparator(items[i])
    case Obj(fields) =>
      exists i :: 0 <= i < |fields| && (TextHasSeparator(fields[i].0) || JsonHasSeparator(fields[i].1))
    case _ => false
  }

  ghost predicate RecordHasSeparator(r: Record) {
    TextHasSeparator(r.reason) || exists key :: key in r.entry && JsonHasSeparator(r.entry[key])
  }

  /** The characters `str.strip` removes. */
  predicate IsSpace(c: char) {
    IsBreak(c) || c == ' ' || c == '\t' || '\U{1C}' <= c <= '\U{1F}' || c == '\U{A0}' || c == '\U{1680}'
    || '\U{2000}' <= c <= '\U{200A}' || c == '\U{202F}' || c == '\U{205F}' || c == '\U{3000}'
  }

  lemma SpaceLaw(c: char)
    ensures IsSpace(c) <==>
            || 9 <= c as int <= 13 || 28 <= c as int <= 32 || c as int == 0x85 || c as int == 0xA0
            || c as int == 0x1680 || 0x2000 <= c as int <= 0x200A || 0x2028 <= c as int <= 0x2029
            || c as int == 0x202F || c as int == 0x205F || c as int == 0x3000
  {
  }

  predicate Blank(s: string) {
    forall i :: 0 <= i < |s| ==> IsSpace(s[i])
  }

  // -------------------------------------------------------------------------------------------
  // The assumption

  /** Decoding undoes encoding; a line is never blank, never shorter than the message it holds, and the
      only line boundaries left unescaped are the separators of the text itself. */
  ghost predicate Encodes(codec: Codec, r: Record, line: string) {
    && codec.decode(line) == Some(r)
    && !Blank(line)
    && (Unbroken(line) <==> !RecordHasSeparator(r))
    && |line| >= |GetText(r.entry, MessageKey, "")|
  }

  /** That of every line written; what is plain can be written, and what is foreign cannot. */
  ghost predicate Faithful(codec: Codec) {
    forall r: Record ::
      && (RecordPlain(codec, r) ==> codec.encode(r).Some?)
      && (RecordHasForeign(r) ==> codec.encode(r).None?)
      && (codec.encode(r).Some? ==> Encodes(codec, r, codec.encode(r).value))
  }
}

/** The file-backed dead letter queue: what is kept, what is written, and what is read back. */
module FileDlqRules {
  import opened Prelude
  import opened LogEntries
  import opened EntryDicts
  import opened LineFiles
  import opened JsonLines
  import opened MemoryDlqs

  function ToRecord(l: Letter): Record {
    Record(ToDict(l.entry), l.reason, l.timestamp, l.retryCount)
  }

  function FromRecord(r: Record): Letter {
    Letter(FromDict(r.entry), r.reason, r.timestamp, r.retryCount)
  }

  /** A letter that the JSON library can write. */
  predicate Writable(codec: Codec, l: Letter) {
    codec.encode(ToRecord(l)).Some?
  }

  predicate AllWritable(codec: Codec, queue: seq<Letter>) {
    forall i :: 0 <= i < |queue| ==> Writable(codec, queue[i])
  }

  /** The line of a letter that can be written. */
  function LineOf(codec: Codec, l: Letter): string {
    if Writable(codec, l) then codec.encode(ToRecord(l)).value else ""
  }

  lemma LineEncodes(codec: Codec, l: Letter)
    requires Faithful(codec) && Writable(codec, l)
    ensures Encodes(codec, ToRecord(l), LineOf(codec, l))
  {
  }

  function Lines(codec: Codec, queue: seq<Letter>): seq<string> {
    seq(|queue|, i requires 0 <= i < |queue| => LineOf(codec, queue[i]))
  }

  function FileOf(codec: Codec, queue: seq<Letter>): string {
    Content(Lines(codec, queue))
  }

  // -------------------------------------------------------------------------------------------
  // Reading

  /** The letter a line yields, if any. */
  function ReadLine(codec: Codec, maxRetries: int, line: string): Option<Letter> {
    if Blank(line) then None
    else
      var r := codec.decode(line);
      if r.None? || r.value.retryCount > maxRetries then None else Some(FromRecord(r.value))
  }

  function ReadAll(codec: Codec, maxRetries: int, lines: seq<string>): seq<Letter> {
    if lines == [] then []
    else
      var before := ReadAll(codec, maxRetries, lines[..|lines| - 1]);
      var last := ReadLine(codec, maxRetries, lines[|lines| - 1]);
      if last.Some? then before + [last.value] else before
  }

  /** A line gives a letter exactly if it is not all spaces, decodes, and was not retried too often; and then
      the letter is what it says. */
  lemma ReadLineLaw(codec: Codec, maxRetries: int, line: string)
    ensures ReadLine(codec, maxRetries, line).Some? <==>
            && (exists i :: 0 <= i < |line| && !IsSpace(line[i]))
            && codec.decode(line).Some? && codec.decode(line).value.retryCount <= maxRetries
    ensures ReadLine(codec, maxRetries, line).Some? ==>
              var l, r := ReadLine(codec, maxRetries, line).value, codec.decode(line).value;
              && l.entry == FromDict(r.entry) && l.reason == r.reason
              && l.timestamp == r.timestamp && l.retryCount == r.retryCount
  {
  }

  /** Lines are read one by one, in order. */
  lemma ReadAllOne(codec: Codec, maxRetries: int, line: string)
    ensures ReadAll(codec, maxRetries, [line]) ==
            if ReadLine(codec, maxRetries, line).Some? then [ReadLine(codec, maxRetries, line).value] else []
  {
    hide ReadLine;
    assert [line][..0] == [];
  }

  lemma {:induction false} ReadAllConcat(codec: Codec, maxRetries: int, first: seq<string>, second: seq<string>)
    ensures ReadAll(codec, maxRetries, first + second) ==
            ReadAll(codec, maxRetries, first) + ReadAll(codec, maxRetries, second)
    decreases |second|
  {
    hide ReadLine;
    if second == [] {
      assert first + second == first;
    } else {
      var n := |second| - 1;
      ReadAllConcat(codec, maxRetries, first, second[..n]);
      assert (first + second)[..|first| + n] == first + second[..n];
    }
  }

  /** What is left of a queue when its lines are read one by one. */
  function Reread(maxRetries: int, queue: seq<Letter>): seq<Letter> {
    if queue == [] then []
    else
      var before, last := Reread(maxRetries, queue[..|queue| - 1]), queue[|queue| - 1];
      if last.retryCount > maxRetries then before else before + [last.(entry := Normal(last.entry))]
  }

  lemma {:induction false} ReadBack(codec: Codec, maxRetries: int, queue: seq<Letter>)
    requires Faithful(codec) && AllWritable(codec, queue)
    ensures ReadAll(codec, maxRetries, Lines(codec, queue)) == Reread(maxRetries, queue)
    decreases |queue|
  {
    if queue == [] {
    } else {
      var before, last := queue[..|queue| - 1], queue[|queue| - 1];
      assert Lines(codec, queue)[..|before|] == Lines(codec, before);
      ReadBack(codec, maxRetries, before);
      DictRoundTrip(last.entry);
      assert Writable(codec, last);
      LineEncodes(codec, last);
    }
  }

  lemma {:induction false} RereadIsWholeIff(maxRetries: int, queue: seq<Letter>)
    ensures |Reread(maxRetries, queue)| <= |queue|
    ensures Reread(maxRetries, queue) == queue <==>
            forall i :: 0 <= i < |queue| ==> Normalised(queue[i].entry) && queue[i].retryCount <= maxRetries
  {
    hide ToDict, FromDict, Normal, Normalised;
    if queue == [] {
    } else {
      var before, last := queue[..|queue| - 1], queue[|queue| - 1];
      RereadIsWholeIff(maxRetries, before);
      DictRoundTrip(last.entry);
      assert queue == before + [last];
      if last.retryCount <= maxRetries {
        var read := last.(entry := Normal(last.entry));
        assert Reread(maxRetries, before) + [read] == before + [last] <==>
               Reread(maxRetries, before) == before && read == last;
      }
    }
  }

  lemma LinesAreNonEmpty(codec: Codec, queue: seq<Letter>)
    requires Faithful(codec) && AllWritable(codec, queue)
    ensures NonEmptyLines(Lines(codec, queue))
  {
    forall i | 0 <= i < |queue|
      ensures Lines(codec, queue)[i] != []
    {
      LineEncodes(codec, queue[i]);
    }
  }

  /** Text free of the separators is what it takes for the lines of a file to be read as written. */
  lemma LinesReadIffNoSeparator(codec: Codec, queue: seq<Letter>)
    requires Faithful(codec) && AllWritable(codec, queue)
    ensures SplitLines(FileOf(codec, queue)) == Lines(codec, queue) <==>
            forall i :: 0 <= i < |queue| ==> !RecordHasSeparator(ToRecord(queue[i]))
  {
    LinesAreNonEmpty(codec, queue);
    LinesSurviveIff(Lines(codec, queue));
    forall i | 0 <= i < |queue|
      ensures Unbroken(Lines(codec, queue)[i]) <==> !RecordHasSeparator(ToRecord(queue[i]))
    {
      LineEncodes(codec, queue[i]);
    }
  }

  /** The queue that `load_from_disk` makes of a file. */
  function Loaded(codec: Codec, maxRetries: int, maxSize: nat, file: string): seq<Letter> {
    LastN(ReadAll(codec, maxRetries, SplitLines(file)), maxSize)
  }

  /** Of the letters in a file that holds more than the queue may, the newest are kept. */
  lemma LoadedIsNewest(codec: Codec, maxRetries: int, maxSize: nat, file: string) returns (gone: nat)
    ensures var all := ReadAll(codec, maxRetries, SplitLines(file));
            && gone <= |all| && Loaded(codec, maxRetries, maxSize, file) == all[gone..]
            && |Loaded(codec, maxRetries, maxSize, file)| == Min(|all|, maxSize)
  {
    gone := LastNLaw(ReadAll(codec, maxRetries, SplitLines(file)), maxSize);
  }

  /** A written queue without separators is read back as it was exactly when every entry is normalised
      and no letter has been retried too often. */
  lemma RoundTripIff(codec: Codec, maxRetries: int, maxSize: nat, queue: seq<Letter>)
    requires Faithful(codec) && AllWritable(codec, queue) && |queue| <= maxSize
    requires forall i :: 0 <= i < |queue| ==> !RecordHasSeparator(ToRecord(queue[i]))
    ensures Loaded(codec, maxRetries, maxSize, FileOf(codec, queue)) == queue <==>
            forall i :: 0 <= i < |queue| ==> Normalised(queue[i].entry) && queue[i].retryCount <= maxRetries
  {
    LinesReadIffNoSeparator(codec, queue);
    ReadBack(codec, maxRetries, queue);
    RereadIsWholeIff(maxRetries, queue);
  }

  lemma NewestAreWritable(codec: Codec, queue: seq<Letter>, n: nat)
    requires AllWritable(codec, queue)
    ensures AllWritable(codec, LastN(queue, n))
  {
    hide Writable;
  }

  // -------------------------------------------------------------------------------------------
  // Trimming

  predicate Fits(codec: Codec, maxBytes: nat, queue: seq<Letter>) {
    Utf8Length(FileOf(codec, queue)) <= maxBytes
  }

  /** What one level of `_persist_queue_to_disk` makes of a queue whose file is too big. */
  function Halve(queue: seq<Letter>): seq<Letter> {
    LastN(queue, Max(1, |queue| / 2))
  }

  function HalveTimes(queue: seq<Letter>, k: nat): seq<Letter> {
    if k == 0 then queue else HalveTimes(Halve(queue), k - 1)
  }

  /** The queue that ends up written, or none when a letter cannot be written or the levels never end: a
      single letter whose line is too big halves to itself. */
  function Persisted(codec: Codec, maxBytes: nat, queue: seq<Letter>): Option<seq<Letter>>
    decreases |queue|
  {
    if !AllWritable(codec, queue) then None
    else if Fits(codec, maxBytes, queue) || queue == [] then Some(queue)
    else if |queue| == 1 then None
    else Persisted(codec, maxBytes, Halve(queue))
  }

  /** What the queue holds afterwards in any case. */
  function Kept(codec: Codec, maxBytes: nat, queue: seq<Letter>): seq<Letter> {
    var written := Persisted(codec, maxBytes, queue);
    if written.Some? then written.value
    else if AllWritable(codec, queue) then LastN(queue, 1)
    else queue
  }

  predicate NewestFits(codec: Codec, maxBytes: nat, queue: seq<Letter>) {
    queue == [] || Fits(codec, maxBytes, queue[|queue| - 1..])
  }

  lemma FewerFit(codec: Codec, maxBytes: nat, queue: seq<Letter>, k: nat)
    requires Faithful(codec) && AllWritable(codec, queue) && k <= |queue| && Fits(codec, maxBytes, queue)
    ensures Fits(codec, maxBytes, queue[k..])
  {
    LinesAreNonEmpty(codec, queue);
    SuffixIsShorter(Lines(codec, queue), k);
    assert Lines(codec, queue)[k..] == Lines(codec, queue[k..]);
  }

  lemma NothingFits(codec: Codec, maxBytes: nat)
    ensures Fits(codec, maxBytes, [])
  {
  }

  lemma HalveKeepsNewest(queue: seq<Letter>)
    requires queue != []
    ensures 1 <= |Halve(queue)| <= |queue| && Halve(queue)[|Halve(queue)| - 1..] == queue[|queue| - 1..]
  {
  }

  lemma HalveKeepsWritable(codec: Codec, queue: seq<Letter>)
    requires AllWritable(codec, queue)
    ensures AllWritable(codec, Halve(queue))
  {
    NewestAreWritable(codec, queue, Max(1, |queue| / 2));
  }

  /** A file gets written exactly when every letter can be and the newest one alone fits. */
  lemma {:induction false} PersistEndsIff(codec: Codec, maxBytes: nat, queue: seq<Letter>)
    requires Faithful(codec)
    ensures Persisted(codec, maxBytes, queue).Some? <==>
            AllWritable(codec, queue) && NewestFits(codec, maxBytes, queue)
    decreases |queue|
  {
    hide Faithful, Fits, AllWritable;
    if queue == [] {
      NothingIsWritable(codec);
    } else if !AllWritable(codec, queue) {
    } else if Fits(codec, maxBytes, queue) {
      FewerFit(codec, maxBytes, queue, |queue| - 1);
    } else if |queue| == 1 {
      assert queue[0..] == queue;
    } else {
      HalveKeepsNewest(queue);
      HalveKeepsWritable(codec, queue);
      PersistEndsIff(codec, maxBytes, Halve(queue));
    }
  }

  lemma NothingIsWritable(codec: Codec)
    ensures AllWritable(codec, [])
  {
  }

  ghost predicate SomeHalvingFits(codec: Codec, maxBytes: nat, queue: seq<Letter>) {
    exists k: nat :: Fits(codec, maxBytes, HalveTimes(queue, k))
  }

  /** A queue too big either has nothing to halve, or is no better off than its half. */
  lemma HalvingFitsStep(codec: Codec, maxBytes: nat, queue: seq<Letter>)
    ensures Fits(codec, maxBytes, queue) ==> SomeHalvingFits(codec, maxBytes, queue)
    ensures !Fits(codec, maxBytes, queue) ==>
              (SomeHalvingFits(codec, maxBytes, queue) <==> SomeHalvingFits(codec, maxBytes, Halve(queue)))
  {
    hide Fits, Halve;
    assert HalveTimes(queue, 0) == queue;
    if SomeHalvingFits(codec, maxBytes, queue) && !Fits(codec, maxBytes, queue) {
      var k: nat :| Fits(codec, maxBytes, HalveTimes(queue, k));
      assert HalveTimes(queue, k) == HalveTimes(Halve(queue), k - 1);
    }
    if SomeHalvingFits(codec, maxBytes, Halve(queue)) {
      var k: nat :| Fits(codec, maxBytes, HalveTimes(Halve(queue), k));
      assert HalveTimes(queue, k + 1) == HalveTimes(Halve(queue), k);
    }
  }

  /** The newest fits exactly when halving the queue often enough makes it fit. */
  lemma {:induction false} SomeHalvingFitsIff(codec: Codec, maxBytes: nat, queue: seq<Letter>)
    requires Faithful(codec) && AllWritable(codec, queue) && queue != []
    ensures SomeHalvingFits(codec, maxBytes, queue) <==> NewestFits(codec, maxBytes, queue)
    decreases |queue|
  {
    hide Faithful, Fits, AllWritable, SomeHalvingFits, Halve;
    HalvingFitsStep(codec, maxBytes, queue);
    if |queue| == 1 {
      assert queue[0..] == queue;
      SingletonHalvingFits(codec, maxBytes, queue);
    } else if Fits(codec, maxBytes, queue) {
      FewerFit(codec, maxBytes, queue, |queue| - 1);
    } else {
      HalveKeepsNewest(queue);
      HalveKeepsWritable(codec, queue);
      HalveShrinks(queue);
      SomeHalvingFitsIff(codec, maxBytes, Halve(queue));
    }
  }

  lemma SingletonHalvingFits(codec: Codec, maxBytes: nat, queue: seq<Letter>)
    requires |queue| == 1
    ensures SomeHalvingFits(codec, maxBytes, queue) ==> Fits(codec, maxBytes, queue)
  {
    if SomeHalvingFits(codec, maxBytes, queue) {
      var k: nat :| Fits(codec, maxBytes, HalveTimes(queue, k));
      SingletonHalves(queue, k);
    }
  }

  lemma HalveShrinks(queue: seq<Letter>)
    requires |queue| >= 2
    ensures |Halve(queue)| < |queue|
  {
  }

  lemma {:induction false} SingletonHalves(queue: seq<Letter>, k: nat)
    requires |queue| == 1
    ensures HalveTimes(queue, k) == queue
  {
    if k == 0 {
    } else {
      assert Halve(queue) == queue;
      SingletonHalves(queue, k - 1);
    }
  }

  /** Nothing is trimmed exactly when the whole queue fits. */
  lemma {:induction false} PersistedIsWholeIff(codec: Codec, maxBytes: nat, queue: seq<Letter>)
    requires Persisted(codec, maxBytes, queue).Some? && queue != []
    ensures |Persisted(codec, maxBytes, queue).value| <= |queue|
    ensures |Persisted(codec, maxBytes, queue).value| == |queue| <==> Fits(codec, maxBytes, queue)
    decreases |queue|
  {
    hide Fits, AllWritable;
    if Fits(codec, maxBytes, queue) {
    } else {
      HalveKeepsNewest(queue);
      PersistedIsWholeIff(codec, maxBytes, Halve(queue));
    }
  }

  lemma {:induction false} Utf8AtLeast(s: string)
    ensures Utf8Length(s) >= |s|
  {
    if s == [] {
    } else {
      Utf8AtLeast(s[..|s| - 1]);
    }
  }

  lemma LongMessageIsTooBig(codec: Codec, maxBytes: nat, e: Entry, reason: string, timestamp: Double)
    requires Faithful(codec) && |e.message| > maxBytes
    requires e == LogEntry("", "", "info", e.message, None, None, None, None, None, None)
    ensures AllWritable(codec, Letters([e], reason, timestamp))
    ensures !Fits(codec, maxBytes, Letters([e], reason, timestamp))
  {
    var letters := Letters([e], reason, timestamp);
    var r := ToRecord(letters[0]);
    assert Printable(0);
    assert RecordPlain(codec, r);
    LineEncodes(codec, letters[0]);
    assert Field(e, MessageKey) == Some(Text(e.message));
    assert FileOf(codec, letters) == LineOf(codec, letters[0]) + ['\n'];
    Utf8AtLeast(FileOf(codec, letters));
  }

  /** Whatever the limit, an entry with a long message can be written but is too big: added to any queue,
      it keeps the levels from ever ending. */
  lemma OversizedEntry(codec: Codec, maxBytes: nat) returns (e: Entry)
    requires Faithful(codec)
    ensures forall reason, timestamp: Double :: AllWritable(codec, Letters([e], reason, timestamp))
    ensures forall queue, reason, timestamp: Double, n: nat :: n >= 1 ==>
              !NewestFits(codec, maxBytes, LastN(queue + Letters([e], reason, timestamp), n))
  {
    var message := seq(maxBytes, (_: int) => 'x') + "x";
    e := LogEntry("", "", "info", message, None, None, None, None, None, None);
    forall reason, timestamp: Double
      ensures AllWritable(codec, Letters([e], reason, timestamp))
      ensures !Fits(codec, maxBytes, Letters([e], reason, timestamp))
    {
      LongMessageIsTooBig(codec, maxBytes, e, reason, timestamp);
    }
    forall queue: seq<Letter>, reason, timestamp: Double, n: nat | n >= 1
      ensures !NewestFits(codec, maxBytes, LastN(queue + Letters([e], reason, timestamp), n))
    {
      var kept := LastN(queue + Letters([e], reason, timestamp), n);
      assert kept[|kept| - 1..] == Letters([e], reason, timestamp);
    }
  }

  lemma DivideTwice(n: nat, a: nat)
    requires a >= 1
    ensures (n / 2) / a == n / (2 * a)
  {
    var h, q, r := n / 2, (n / 2) / a, (n / 2) % a;
    assert h == a * q + r && n == 2 * h + n % 2;
    assert n == (2 * a) * q + (2 * r + n % 2);
    assert 0 <= 2 * r + n % 2 < 2 * a;
    DivideUnique(n, 2 * a, q, 2 * r + n % 2);
  }

  /** The newest n div 2^k of n letters. */
  function Newest(queue: seq<Letter>, k: nat): seq<Letter> {
    LastN(queue, Quotient(|queue|, Pow2(k)))
  }

  /** What is kept are the newest n div 2^k letters, for the least k whose file fits. */
  lemma {:induction false} PersistKeepsLeastHalving(codec: Codec, maxBytes: nat, queue: seq<Letter>) returns (k: nat)
    requires Faithful(codec) && AllWritable(codec, queue) && queue != [] && NewestFits(codec, maxBytes, queue)
    ensures Persisted(codec, maxBytes, queue) == Some(Newest(queue, k))
    ensures Newest(queue, k) != [] && Fits(codec, maxBytes, Newest(queue, k))
    ensures forall j :: 0 <= j < k ==> !Fits(codec, maxBytes, Newest(queue, j))
    decreases |queue|
  {
    hide Faithful, AllWritable, Fits, Newest, Halve;
    assert Newest(queue, 0) == queue by {
      WholeQueue(queue);
    }
    if Fits(codec, maxBytes, queue) {
      return 0;
    }
    assert queue[0..] == queue;
    HalveKeepsNewest(queue);
    HalveKeepsWritable(codec, queue);
    HalvesAlign(queue, 0);
    var k1 := PersistKeepsLeastHalving(codec, maxBytes, Halve(queue));
    k := k1 + 1;
    HalvesAlign(queue, k1);
    forall j | 0 <= j < k
      ensures !Fits(codec, maxBytes, Newest(queue, j))
    {
      if j > 0 {
        HalvesAlign(queue, j - 1);
      }
    }
  }

  lemma WholeQueue(queue: seq<Letter>)
    ensures Newest(queue, 0) == queue
  {
  }

  /** Halving the length j times after a first half is halving it j + 1 times. */
  lemma HalvesAlign(queue: seq<Letter>, j: nat)
    requires |queue| >= 2
    ensures Newest(Halve(queue), j) == Newest(queue, j + 1)
    ensures |Halve(queue)| < |queue|
  {
    DivideTwice(|queue|, Pow2(j));
    DivideShrinks(|Halve(queue)|, Pow2(j));
    LastNOfHalf(queue, |Halve(queue)| / Pow2(j));
  }

  lemma DivideShrinks(n: nat, d: nat)
    requires d >= 1
    ensures n / d <= n
  {
    MultipleIsFar(n / d, d);
    assert n == d * (n / d) + n % d;
  }

  lemma LastNOfHalf(queue: seq<Letter>, m: nat)
    requires |queue| >= 2
    ensures LastN(Halve(queue), m) == LastN(queue, Min(m, |Halve(queue)|))
    ensures |Halve(queue)| == |queue| / 2
  {
  }
}

/** What one letter that cannot be written does to the queue, and for how long. */
module UnwritableLetters {
  import opened Prelude
  import opened LogEntries
  import opened EntryDicts
  import opened JsonLines
  import opened MemoryDlqs
  import opened FileDlqRules

  /** A foreign value anywhere in its context or metadata makes an entry unwritable. */
  lemma ForeignIsUnwritable(codec: Codec, l: Letter)
    requires Faithful(codec)
    requires (l.entry.context.Some? && HasForeign(Obj(l.entry.context.value))) ||
             (l.entry.metadata.Some? && HasForeign(Obj(l.entry.metadata.value)))
    ensures !Writable(codec, l)
  {
    var d := ToDict(l.entry);
    if l.entry.context.Some? && HasForeign(Obj(l.entry.context.value)) {
      assert Field(l.entry, ContextKey) == Some(Obj(l.entry.context.value));
      assert HasForeign(d[ContextKey]);
    } else {
      assert Field(l.entry, MetadataKey) == Some(Obj(l.entry.metadata.value));
      assert HasForeign(d[MetadataKey]);
    }
    assert RecordHasForeign(ToRecord(l));
  }

  /** Letter `i` is the newest that cannot be written. */
  predicate NewestUnwritable(codec: Codec, queue: seq<Letter>, i: nat) {
    i < |queue| && !Writable(codec, queue[i]) && AllWritable(codec, queue[i + 1..])
  }

  lemma WritableConcat(codec: Codec, xs: seq<Letter>, ys: seq<Letter>)
    ensures AllWritable(codec, xs + ys) <==> AllWritable(codec, xs) && AllWritable(codec, ys)
  {
    hide Writable;
    assert forall k :: 0 <= k < |xs| ==> (xs + ys)[k] == xs[k];
    assert forall k :: 0 <= k < |ys| ==> (xs + ys)[|xs| + k] == ys[k];
  }

  lemma LastNOfConcat(xs: seq<Letter>, ys: seq<Letter>, n: nat)
    ensures |ys| >= n ==> LastN(xs + ys, n) == LastN(ys, n)
    ensures |ys| < n ==> LastN(xs + ys, n) == LastN(xs, n - |ys|) + ys
  {
  }

  /** It is in the way until more letters than there is room for have come after it. */
  lemma BlockedIff(codec: Codec, n: nat, queue: seq<Letter>, i: nat, more: seq<Letter>)
    requires NewestUnwritable(codec, queue, i) && AllWritable(codec, more)
    ensures !AllWritable(codec, LastN(queue + more, n)) <==> |queue| - i + |more| <= n
  {
    hide Writable, AllWritable;
    var later := queue[i + 1..] + more;
    assert queue + more == queue[..i + 1] + later;
    WritableConcat(codec, queue[i + 1..], more);
    LastNOfConcat(queue[..i + 1], later, n);
    if |later| >= n {
      NewestAreWritable(codec, later, n);
    } else {
      var earlier := LastN(queue[..i + 1], n - |later|);
      WritableConcat(codec, earlier, later);
      assert !AllWritable(codec, earlier) by {
        UnwritableIsThere(codec, earlier, |earlier| - 1);
      }
    }
  }

  lemma UnwritableIsThere(codec: Codec, queue: seq<Letter>, i: nat)
    requires i < |queue| && !Writable(codec, queue[i])
    ensures !AllWritable(codec, queue)
  {
  }

  type Batch = seq<Letter>

  /** The queue of at most `n` letters after one `add_batch` for each of the batches. */
  function AfterBatches(codec: Codec, maxBytes: nat, n: nat, queue: Batch, batches: seq<Batch>): Batch {
    if batches == [] then queue
    else
      var before := AfterBatches(codec, maxBytes, n, queue, batches[..|batches| - 1]);
      Kept(codec, maxBytes, LastN(before + batches[|batches| - 1], n))
  }

  function Flatten(batches: seq<Batch>): Batch {
    if batches == [] then [] else Flatten(batches[..|batches| - 1]) + batches[|batches| - 1]
  }

  predicate AllBatchesWritable(codec: Codec, batches: seq<Batch>) {
    forall b :: 0 <= b < |batches| ==> AllWritable(codec, batches[b])
  }

  lemma {:induction false} FlattenIsWritable(codec: Codec, batches: seq<Batch>)
    requires AllBatchesWritable(codec, batches)
    ensures AllWritable(codec, Flatten(batches))
  {
    hide Writable;
    if batches == [] {
    } else {
      FlattenIsWritable(codec, batches[..|batches| - 1]);
      assert AllWritable(codec, batches[|batches| - 1]);
    }
  }

  /** Until then nothing is trimmed and nothing gets written, however many batches come. */
  lemma {:induction false} BlockedRun(codec: Codec, maxBytes: nat, n: nat, queue: Batch, i: nat, batches: seq<Batch>)
    requires NewestUnwritable(codec, queue, i) && |queue| <= n && AllBatchesWritable(codec, batches)
    requires |queue| - i + |Flatten(batches)| <= n
    ensures AfterBatches(codec, maxBytes, n, queue, batches) == LastN(queue + Flatten(batches), n)
    ensures Persisted(codec, maxBytes, AfterBatches(codec, maxBytes, n, queue, batches)).None?
  {
    hide AllWritable, Persisted, Kept, LastN;
    FlattenIsWritable(codec, batches);
    BlockedIff(codec, n, queue, i, Flatten(batches));
    UnwritableStays(codec, maxBytes, LastN(queue + Flatten(batches), n));
    if batches == [] {
      assert queue + [] == queue;
      LastNOfFew(queue, n);
    } else {
      var before, last := batches[..|batches| - 1], batches[|batches| - 1];
      assert AllBatchesWritable(codec, before);
      BlockedRun(codec, maxBytes, n, queue, i, before);
      LastNTwice(queue + Flatten(before), last, n);
      assert queue + Flatten(before) + last == queue + Flatten(batches);
    }
  }

  /** One letter that cannot be written keeps the queue as it is and the file as it was. */
  lemma UnwritableStays(codec: Codec, maxBytes: nat, queue: seq<Letter>)
    requires !AllWritable(codec, queue)
    ensures Persisted(codec, maxBytes, queue).None? && Kept(codec, maxBytes, queue) == queue
  {
  }

  lemma LastNOfFew(xs: seq<Letter>, n: nat)
    requires |xs| <= n
    ensures LastN(xs, n) == xs
  {
  }

  lemma LastNTwice(xs: seq<Letter>, ys: seq<Letter>, n: nat)
    ensures LastN(LastN(xs, n) + ys, n) == LastN(xs + ys, n)
  {
  }
}

/** The queue object. The file system is a single file that exists or not. */
module FileDlqs {
  import opened Prelude
  import opened LogEntries
  import opened LineFiles
  import opened JsonLines
  import opened MemoryDlqs
  import opened FileDlqRules

  class FileDeadLetterQueue {
    const codec: Codec
    const maxSize: nat
    const maxFileSizeMb: nat
    const maxRetries: int
    var file: Option<string>
    var queue: seq<Letter>
    var droppedEntries: nat

    ghost predicate Valid()
      reads this
    {
      Faithful(codec) && maxSize >= 1 && |queue| <= maxSize
    }

    ghost function MaxBytes(): nat {
      maxFileSizeMb * 1024 * 1024
    }

    constructor (codec: Codec, maxSize: nat, maxFileSizeMb: nat, maxRetries: int, file: Option<string>)
      requires Faithful(codec) && maxSize >= 1
      ensures Valid()
      ensures this.codec == codec && this.maxSize == maxSize
      ensures this.maxFileSizeMb == maxFileSizeMb && this.maxRetries == maxRetries && this.file == file
      ensures queue == if file.Some? then Loaded(codec, maxRetries, maxSize, file.value) else []
    {
      this.codec, this.maxSize, this.maxFileSizeMb, this.maxRetries := codec, maxSize, maxFileSizeMb, maxRetries;
      this.file, queue, droppedEntries := file, [], 0;
      new;
      var count := LoadFromDisk();
    }

    /** The result is what `add_batch` returns, or none when it raises: because a letter cannot be written,
        or because the levels of trimming never end. Its count of dropped entries leaves out those that
        trimming drops. */
    method AddBatch(entries: seq<Entry>, reason: string, timestamp: Double) returns (r: Option<(nat, nat)>)
      requires Valid()
      modifies this
      ensures Valid()
      ensures entries == [] ==> r == Some((0, 0)) && queue == old(queue) && file == old(file)
                                && droppedEntries == old(droppedEntries)
      ensures entries != [] ==>
                var full := LastN(old(queue) + Letters(entries, reason, timestamp), maxSize);
                var overflow := old(|queue|) + |entries| - |full|;
                && (r.Some? <==> AllWritable(codec, full) && NewestFits(codec, MaxBytes(), full))
                && queue == Kept(codec, MaxBytes(), full)
                && (r.Some? ==>
                      && r.value == (|entries|, overflow)
                      && file == Some(FileOf(codec, queue)) && Utf8Length(file.value) <= MaxBytes())
                && (r.None? ==> file == old(file))
                && droppedEntries == old(droppedEntries) + overflow + (|full| - |queue|)
                && (r.Some? ==> (r.value.1 == droppedEntries - old(droppedEntries) <==> Fits(codec, MaxBytes(), full)))
    {
      hide Faithful, FileOf, Utf8Length, NewestFits, AllWritable, Fits;
      if entries == [] {
        return Some((0, 0));
      }
      ghost var full := LastN(queue + Letters(entries, reason, timestamp), maxSize);
      var dropped := PushBatch(entries, reason, timestamp);
      var ended := PersistQueueToDisk();
      if ended {
        PersistEndsIff(codec, MaxBytes(), full);
        PersistedIsWholeIff(codec, MaxBytes(), full);
      }
      return if ended then Some((|entries|, dropped)) else None;
    }

    method PushBatch(entries: seq<Entry>, reason: string, timestamp: Double) returns (dropped: nat)
      requires |queue| <= maxSize && maxSize >= 1
      modifies `queue, `droppedEntries
      ensures |queue| <= maxSize
      ensures queue == LastN(old(queue) + Letters(entries, reason, timestamp), maxSize)
      ensures dropped == old(|queue|) + |entries| - |queue|
      ensures droppedEntries == old(droppedEntries) + dropped
    {
      dropped := 0;
      ghost var letters := Letters(entries, reason, timestamp);
      for i := 0 to |entries|
        invariant |queue| <= maxSize && queue == PushAll(old(queue), letters[..i], maxSize)
        invariant dropped == old(|queue|) + i - |queue|
        invariant droppedEntries == old(droppedEntries) + dropped
      {
        assert letters[..i + 1][..i] == letters[..i];
        if |queue| >= maxSize {
          queue := queue[1..];
          droppedEntries := droppedEntries + 1;
          dropped := dropped + 1;
        }
        queue := queue + [Letter(entries[i], reason, timestamp, 0)];
      }
      assert letters[..|entries|] == letters;
      PushAllKeepsNewest(old(queue), letters, maxSize);
    }

    /** False when an error is raised: at once, when a letter cannot be written, or when the recursion
        never ends, as a level that leaves the queue as it found it is repeated until Python gives up. */
    method PersistQueueToDisk() returns (ended: bool)
      requires Valid()
      modifies this
      ensures Valid()
      ensures ended <==> AllWritable(codec, old(queue)) && NewestFits(codec, MaxBytes(), old(queue))
      ensures queue == Kept(codec, MaxBytes(), old(queue))
      ensures ended ==> file == Some(FileOf(codec, queue)) && Utf8Length(file.value) <= MaxBytes()
      ensures ended ==> Utf8Length(file.value) <= maxFileSizeMb * 1_048_576
      ensures !ended ==> file == old(file)
      ensures droppedEntries == old(droppedEntries) + old(|queue|) - |queue|
      decreases |queue|
    {
      hide Faithful, FileOf, Utf8Length, AllWritable;
      var maxBytes := maxFileSizeMb * 1024 * 1024;
      PersistEndsIff(codec, maxBytes, queue);
      NothingFits(codec, maxBytes);
      if !AllWritable(codec, queue) {
        return false;
      }
      var content := FileOf(codec, queue);
      if Utf8Length(content) > maxBytes && queue != [] {
        var half := Max(1, |queue| / 2);
        var dropped := |queue| - half;
        if dropped == 0 {
          return false;
        }
        HalveKeepsNewest(queue);
        HalveKeepsWritable(codec, queue);
        queue := queue[|queue| - half..];
        droppedEntries := droppedEntries + dropped;
        ended := PersistQueueToDisk();
      } else {
        file := Some(content);
        ended := true;
      }
    }

    method LoadFromDisk() returns (count: nat)
      requires Valid()
      modifies `queue, `droppedEntries
      ensures Valid()
      ensures file.None? ==> count == 0 && queue == old(queue) && droppedEntries == old(droppedEntries)
      ensures file.Some? ==>
                && queue == Loaded(codec, maxRetries, maxSize, file.value) && count == |queue|
                && droppedEntries == old(droppedEntries)
                   + |ReadAll(codec, maxRetries, SplitLines(file.value))| - |queue|
    {
      if file.None? {
        return 0;
      }
      var lines := SplitLines(file.value);
      var loaded: seq<Letter> := [];
      for i := 0 to |lines|
        invariant loaded == ReadAll(codec, maxRetries, lines[..i])
      {
        assert lines[..i + 1][..i] == lines[..i];
        if !Blank(lines[i]) {
          var r := codec.decode(lines[i]);
          if r.Some? && r.value.retryCount <= maxRetries {
            loaded := loaded + [FromRecord(r.value)];
          }
        }
      }
      assert lines[..|lines|] == lines;
      if |loaded| > maxSize {
        droppedEntries := droppedEntries + |loaded| - maxSize;
      }
      queue := LastN(loaded, maxSize);
      count := |queue|;
    }
  }
}
