/** Decimal numerals compared as strings. */
module Numerals {

  function Digit(d: nat): char
    requires d < 10
  {
    (('0' as int) + d) as char
  }

  function Decimal(n: nat): string {
    if n < 10 then [Digit(n)] else Decimal(n / 10) + [Digit(n % 10)]
  }

  /** What a numeral says, read digit by digit. */
  function ValueOf(s: string): int {
    if s == [] then 0 else 10 * ValueOf(s[..|s| - 1]) + (s[|s| - 1] as int - '0' as int)
  }

  /** `str` writes the number, without sign or with a minus, and without a leading zero. */
  lemma {:induction false} StrLaw(n: nat)
    ensures ValueOf(Decimal(n)) == n && Str(n) == Decimal(n) && (n > 0 ==> Str(0 - n) == "-" + Decimal(n))
    ensures Decimal(n) != [] && (n > 0 ==> Decimal(n)[0] != '0')
  {
    if n < 10 {
      assert Decimal(n)[..0] == [];
    } else {
      StrLaw(n / 10);
    }
  }

  /** `str` of an integer. */
  function Str(n: int): string {
    if n < 0 then ['-'] + Decimal(-n) else Decimal(n)
  }

  /** `<` on strings. */
  predicate Less(s: string, t: string) {
    t != [] && (s == [] || s[0] < t[0] || (s[0] == t[0] && Less(s[1..], t[1..])))
  }

  lemma {:induction false} LessIsIrreflexive(s: string)
    ensures !Less(s, s)
  {
    if s == [] {
    } else {
      LessIsIrreflexive(s[1..]);
    }
  }

  lemma {:induction false} LessIsTotal(s: string, t: string)
    ensures Less(s, t) || Less(t, s) || s == t
    ensures !(Less(s, t) && Less(t, s)) && !Less(s, s)
    decreases |s|
  {
    LessIsIrreflexive(s);
    if s == [] || t == [] {
    } else {
      LessIsTotal(s[1..], t[1..]);
      assert s == [s[0]] + s[1..] && t == [t[0]] + t[1..];
    }
  }

  lemma {:induction false} LessIsTransitive(s: string, t: string, u: string)
    requires !Less(t, s) && !Less(u, t)
    ensures !Less(u, s)
    decreases |s| + |t|
  {
    LessIsTotal(s, t);
    LessIsTotal(t, u);
    if s == [] || t == [] || u == [] {
    } else if s[0] == t[0] == u[0] {
      LessIsTransitive(s[1..], t[1..], u[1..]);
    }
  }

  /** What comes after equally long parts matters only if those agree. */
  lemma {:induction false} LessConcat(s: string, s': string, t: string, t': string)
    requires |s| == |t|
    ensures Less(s + s', t + t') <==> Less(s, t) || (s == t && Less(s', t'))
  {
    if s == [] {
      assert s + s' == s' && t + t' == t';
    } else {
      assert (s + s')[1..] == s[1..] + s' && (t + t')[1..] == t[1..] + t';
      LessConcat(s[1..], s', t[1..], t');
      assert s == [s[0]] + s[1..] && t == [t[0]] + t[1..];
    }
  }

  lemma {:induction false} DecimalIsInjective(m: nat, n: nat)
    requires Decimal(m) == Decimal(n)
    ensures m == n
  {
    if m >= 10 && n >= 10 {
      var sm, sn := Decimal(m), Decimal(n);
      assert sm[..|sm| - 1] == Decimal(m / 10) && sn[..|sn| - 1] == Decimal(n / 10);
      assert sm[|sm| - 1] == Digit(m % 10) && sn[|sn| - 1] == Digit(n % 10);
      DecimalIsInjective(m / 10, n / 10);
    } else {
      assert |Decimal(m)| >= 2 || m < 10;
      assert |Decimal(n)| >= 2 || n < 10;
    }
  }

  /** Numerals of the same length compare as the numbers do. */
  lemma {:induction false} SameLengthOrder(m: nat, n: nat)
    requires |Decimal(m)| == |Decimal(n)|
    ensures Less(Decimal(m), Decimal(n)) <==> m < n
  {
    if m >= 10 && n >= 10 {
      SameLengthOrder(m / 10, n / 10);
      LessConcat(Decimal(m / 10), [Digit(m % 10)], Decimal(n / 10), [Digit(n % 10)]);
      if Decimal(m / 10) == Decimal(n / 10) {
        DecimalIsInjective(m / 10, n / 10);
      }
    } else {
      assert |Decimal(m)| >= 2 || m < 10;
      assert |Decimal(n)| >= 2 || n < 10;
    }
  }

  /** A number without its last k digits. */
  function DropDigits(n: nat, k: nat): nat {
    if k == 0 then n else DropDigits(n / 10, k - 1)
  }

  lemma {:induction false} DropDigitsIsPrefix(n: nat, k: nat) returns (tail: string)
    requires k < |Decimal(n)|
    ensures Decimal(n) == Decimal(DropDigits(n, k)) + tail && |tail| == k
  {
    if k == 0 {
      tail := [];
    } else {
      var t := DropDigitsIsPrefix(n / 10, k - 1);
      tail := t + [Digit(n % 10)];
    }
  }

  /** A shorter numeral comes first when it is at most the digits it shares places with. */
  lemma ShorterOrder(m: nat, n: nat)
    requires |Decimal(m)| < |Decimal(n)|
    ensures var k := |Decimal(n)| - |Decimal(m)|;
            && (Less(Decimal(m), Decimal(n)) <==> m <= DropDigits(n, k))
            && (Less(Decimal(n), Decimal(m)) <==> DropDigits(n, k) < m)
  {
    var k := |Decimal(n)| - |Decimal(m)|;
    var tail := DropDigitsIsPrefix(n, k);
    var head := DropDigits(n, k);
    hide Decimal, DropDigits;
    SameLengthOrder(m, head);
    SameLengthOrder(head, m);
    LessConcat(Decimal(m), [], Decimal(head), tail);
    LessConcat(Decimal(head), tail, Decimal(m), []);
    assert Decimal(m) + [] == Decimal(m);
    if Decimal(m) == Decimal(head) {
      DecimalIsInjective(m, head);
    }
  }

  /** String order on numerals: the longer one counts only with the digits it shares places with, and
      the shorter one wins a tie. */
  predicate NumeralFirst(m: nat, n: nat) {
    var (lm, ln) := (|Decimal(m)|, |Decimal(n)|);
    if lm == ln then m < n
    else if lm < ln then m <= DropDigits(n, ln - lm)
    else DropDigits(m, lm - ln) < n
  }

  lemma NumeralOrderIff(m: nat, n: nat)
    ensures Less(Decimal(m), Decimal(n)) <==> NumeralFirst(m, n)
  {
    hide Decimal, DropDigits, Less;
    if |Decimal(m)| == |Decimal(n)| {
      SameLengthOrder(m, n);
    } else if |Decimal(m)| < |Decimal(n)| {
      ShorterOrder(m, n);
    } else {
      ShorterOrder(n, m);
    }
  }

  lemma {:induction false} FirstIsDigit(n: nat)
    ensures |Decimal(n)| >= 1 && '0' <= Decimal(n)[0] <= '9'
  {
    if n < 10 {
    } else {
      FirstIsDigit(n / 10);
    }
  }

  /** The same for integers: negative ones come first, among themselves by their digits, that is, backwards. */
  predicate StringFirst(m: int, n: int) {
    if m < 0 then n >= 0 || NumeralFirst(-m, -n) else n >= 0 && NumeralFirst(m, n)
  }

  /** Exactly when string order puts one integer before another. */
  lemma StringOrderIff(m: int, n: int)
    ensures Less(Str(m), Str(n)) <==> StringFirst(m, n)
  {
    FirstIsDigit(if m < 0 then -m else m);
    FirstIsDigit(if n < 0 then -n else n);
    if m < 0 && n < 0 {
      NumeralOrderIff(-m, -n);
      LessConcat(['-'], Decimal(-m), ['-'], Decimal(-n));
    } else if m >= 0 && n >= 0 {
      NumeralOrderIff(m, n);
    }
  }

  function Pow10(k: nat): nat {
    if k == 0 then 1 else 10 * Pow10(k - 1)
  }

  lemma {:induction false} NumeralLength(n: nat, d: nat)
    requires d >= 1 && n < Pow10(d) && (d == 1 || n >= Pow10(d - 1))
    ensures |Decimal(n)| == d
  {
    if d == 1 {
    } else {
      assert Pow10(d - 1) == 10 * Pow10(d - 2);
      assert Pow10(d) == 10 * Pow10(d - 1);
      NumeralLength(n / 10, d - 1);
    }
  }

  const FIRST_19_DIGITS: nat := 1_000_000_000_000_000_000
  const LAST_19_DIGITS: nat := 9_999_999_999_999_999_999

  /** Nanosecond timestamps from September 2001 to November 2286 have nineteen digits each. */
  lemma NineteenDigits(n: nat)
    requires FIRST_19_DIGITS <= n <= LAST_19_DIGITS
    ensures |Decimal(n)| == 19
  {
    assert Pow10(6) == 1_000_000;
    assert Pow10(12) == 1_000_000_000_000;
    assert Pow10(18) == 1_000_000_000_000_000_000;
    NumeralLength(n, 19);
  }
}

/** The batch that is pushed to Loki: one stream for each label set, each in timestamp order. */
module LokiFormat {
  import opened Prelude
  import opened LogEntries
  import opened Numerals

  type Labels = map<string, string>

  datatype Payload = Payload(
    id: string,
    level: string,
    message: string,
    context: Option<JsonObject>,
    traceId: Option<string>,
    spanId: Option<string>,
    requestId: Option<string>,
    metadata: Option<JsonObject>)

  /** A value of a stream; its timestamp is written, and sorted, as a decimal string. */
  datatype Line = Line(ns: int, payload: Payload)

  datatype Stream = Stream(labels: Labels, values: seq<Line>)

  /** An entry with its timestamp in microseconds since the epoch, when it parses, and the clock reading
      in nanoseconds that stands in when it does not. */
  datatype Timed = Timed(entry: Entry, micros: Option<int>, clock: nat)

  // -------------------------------------------------------------------------------------------
  // Timestamps

  const MICROS := 1_000_000

  /** The largest power of two that is at most `n` seconds, as its exponent; zero below one second, where
      doubles lie closer still. */
  function Log2(n: nat): nat {
    if n < 2 then 0 else 1 + Log2(n / 2)
  }

  /** The doubles between two whole seconds near `n` seconds: one every 1/`Steps(n)` of a second. */
  function Steps(n: nat): (p: nat)
    ensures p >= 1
  {
    Pow2(if Log2(n) <= 52 then 52 - Log2(n) else 0)
  }

  /** The nearest integer. */
  function RoundDiv(n: nat, d: nat): nat
    requires d >= 1
  {
    (2 * n + d) / (2 * d)
  }

  /** It is at least as near as any other integer, being within half of one. */
  lemma RoundDivLaw(n: nat, d: nat)
    requires d >= 1
    ensures 0 - d <= 2 * (d * RoundDiv(n, d) - n) <= d
  {
    var k := RoundDiv(n, d);
    assert 2 * n + d == (2 * d) * k + (2 * n + d) % (2 * d);
    assert (2 * d) * k == 2 * (d * k);
  }

  /** Doubles from 2^e up to the next power of two are 2^(e - 52) apart. */
  lemma {:induction false} StepsLaw(n: nat, e: nat)
    requires e <= 52 && Pow2(e) <= n < Pow2(e + 1)
    ensures Log2(n) == e && Steps(n) == Pow2(52 - e)
  {
    Log2IsLarge(n, e);
    Log2IsSmall(n, e + 1);
  }

  /** `int(timestamp())` for `micros` microseconds since the epoch: their number is divided by a million,
      which gives the nearest double, and the fraction is cut off. */
  function WholeSeconds(micros: nat): nat {
    var p := Steps(micros / MICROS);
    Quotient(RoundDiv(micros * p, MICROS), p)
  }

  /** So close to the next second that the nearest double is that second. */
  predicate RoundsUp(micros: nat) {
    2 * (MICROS - micros % MICROS) * Steps(micros / MICROS) <= MICROS
  }

  lemma WholeSecondsIff(micros: nat)
    ensures WholeSeconds(micros) == micros / MICROS + if RoundsUp(micros) then 1 else 0
  {
    hide Steps;
    var q, r, p := micros / MICROS, micros % MICROS, Steps(micros / MICROS);
    assert micros * p == MICROS * (q * p) + r * p by {
      assert micros == MICROS * q + r;
      MultiplyOut(MICROS, q, r, p);
    }
    RoundShift(q * p, r * p, MICROS);
    RoundBelow(r, p);
    DivideShift(q, RoundDiv(r * p, MICROS), p);
  }

  lemma MultiplyOut(a: nat, q: nat, r: nat, p: nat)
    ensures (a * q + r) * p == a * (q * p) + r * p
  {
  }

  lemma RoundShift(a: nat, b: nat, d: nat)
    requires d >= 1
    ensures RoundDiv(d * a + b, d) == a + RoundDiv(b, d)
  {
    var n, e := 2 * b + d, 2 * d;
    assert 2 * (d * a + b) + d == e * a + n;
    DivideByFactor(a, n, e);
  }

  lemma DivideByFactor(a: nat, n: nat, e: nat)
    requires e >= 1
    ensures (e * a + n) / e == a + n / e
  {
    var q, r := n / e, n % e;
    assert n == e * q + r;
    assert e * a + n == e * (a + q) + r;
    DivideUnique(e * a + n, e, a + q, r);
  }

  /** A fraction rounds to at most the whole, and to it exactly when it is that close. */
  lemma RoundBelow(r: nat, p: nat)
    requires r < MICROS && p >= 1
    ensures RoundDiv(r * p, MICROS) <= p
    ensures RoundDiv(r * p, MICROS) == p <==> 2 * (MICROS - r) * p <= MICROS
  {
    var k := RoundDiv(r * p, MICROS);
    assert 2 * (MICROS - r) * p == 2 * MICROS * p - 2 * (r * p);
    assert (MICROS - r) * p >= 1 * p;
  }

  lemma DivideShift(q: nat, k: nat, p: nat)
    requires p >= 1 && k <= p
    ensures (q * p + k) / p == q + if k == p then 1 else 0
  {
    DivideByFactor(q, k, p);
  }

  function TimestampToNs(t: Timed): int {
    if t.micros.None? then t.clock
    else
      var m := t.micros.value;
      var seconds: int := WholeSeconds(if m >= 0 then m else -m);
      (if m >= 0 then seconds else -seconds) * 1_000_000_000 + (m % MICROS) * 1000
  }

  /** The conversion is exact except where cutting off goes wrong: after the epoch, for times so late and so
      close to the next second that they round up to it; before it, for all fractions of a second but those. */
  lemma TimestampExactIff(t: Timed)
    requires t.micros.Some?
    ensures var m := t.micros.value;
            TimestampToNs(t) == m * 1000 <==>
            if m >= 0 || m % MICROS == 0 then !RoundsUp(if m >= 0 then m else -m) else RoundsUp(-m)
  {
    hide WholeSeconds, RoundsUp;
    var m := t.micros.value;
    var n := if m >= 0 then m else -m;
    WholeSecondsIff(n);
    assert n == MICROS * (n / MICROS) + n % MICROS;
    assert m == MICROS * (m / MICROS) + m % MICROS;
  }

  lemma Pow2Values()
    ensures Pow2(18) == 262_144 && Pow2(19) == 524_288
  {
    assert Pow2(6) == 64;
    assert Pow2(12) == 4096;
  }

  lemma EarlySteps(second: nat)
    requires second < Pow2(34)
    ensures Steps(second) >= 524_288
  {
    hide Pow2;
    Log2IsSmall(second, 34);
    Pow2IsMonotonic(19, 52 - Log2(second));
    Pow2Values();
  }

  lemma LateSteps(second: nat)
    requires second >= Pow2(34)
    ensures Steps(second) <= 262_144
  {
    hide Pow2;
    Log2IsLarge(second, 34);
    Pow2IsMonotonic(if Log2(second) <= 52 then 52 - Log2(second) else 0, 18);
    Pow2Values();
  }

  /** Up to 2^34 seconds, in the year 2514, nothing rounds up. */
  lemma NothingRoundsUpBefore2514(micros: nat)
    requires micros / MICROS < Pow2(34)
    ensures !RoundsUp(micros)
  {
    hide Steps, Pow2;
    EarlySteps(micros / MICROS);
    FineSteps(MICROS - micros % MICROS, Steps(micros / MICROS));
  }

  lemma FineSteps(a: nat, p: nat)
    requires a >= 1 && p >= 524_288
    ensures 2 * a * p > MICROS
  {
    assert 2 * a * p == 2 * p + 2 * (a - 1) * p;
    assert (a - 1) * p >= 0;
  }

  lemma {:induction false} Log2IsSmall(n: nat, k: nat)
    requires k >= 1 && n < Pow2(k)
    ensures Log2(n) < k
  {
    if n < 2 {
    } else {
      Log2IsSmall(n / 2, k - 1);
    }
  }

  lemma {:induction false} Pow2IsMonotonic(a: nat, b: nat)
    requires a <= b
    ensures Pow2(a) <= Pow2(b)
  {
    if a == b {
    } else {
      Pow2IsMonotonic(a, b - 1);
    }
  }

  /** From there on the last microsecond of a second does, and comes out one second late. */
  lemma LateTimesRoundUp(second: nat)
    requires second >= Pow2(34)
    ensures RoundsUp(second * MICROS + 999_999)
  {
    hide Steps, Pow2;
    LateSteps(second);
    var micros := second * MICROS + 999_999;
    assert micros / MICROS == second && micros % MICROS == 999_999;
  }

  lemma {:induction false} Log2IsLarge(n: nat, k: nat)
    requires n >= Pow2(k)
    ensures Log2(n) >= k
  {
    if k == 0 {
    } else {
      Log2IsLarge(n / 2, k - 1);
    }
  }

  // -------------------------------------------------------------------------------------------
  // Grouping

  function LabelMap(labels: seq<(string, string)>): Labels {
    if labels == [] then map[]
    else LabelMap(labels[..|labels| - 1])[labels[|labels| - 1].0 := labels[|labels| - 1].1]
  }

  /** The label set of an entry, which `json.dumps` with sorted keys represents without loss. */
  function LabelsOf(t: Timed): Labels {
    if t.entry.labels.Some? then LabelMap(t.entry.labels.value) else map[]
  }

  /** A pair is in the label map exactly if it is among the entry's labels. */
  lemma {:induction false} LabelMapHolds(labels: Assoc<string>, key: string, value: string)
    ensures key in LabelMap(labels) && LabelMap(labels)[key] == value <==> (key, value) in labels
    ensures key in LabelMap(labels) ==> exists v :: (key, v) in labels
  {
    if labels == [] {
    } else {
      var before: Assoc<string>, last := labels[..|labels| - 1], labels[|labels| - 1];
      LabelMapHolds(before, key, value);
      assert labels == before + [last];
      if last.0 == key {
        assert (key, last.1) in labels;
        assert forall i :: 0 <= i < |before| ==> labels[i] == before[i] && labels[i].0 != labels[|before|].0;
      } else if key in LabelMap(labels) {
        var v :| (key, v) in before;
        assert (key, v) in labels;
      }
    }
  }

  /** The labels of an entry's own fields, none for an entry without: they are just these pairs. */
  predicate HasLabels(t: Timed, k: Labels) {
    match t.entry.labels
    case None => k == map[]
    case Some(pairs) =>
      && (forall i :: 0 <= i < |pairs| ==> pairs[i].0 in k && k[pairs[i].0] == pairs[i].1)
      && forall key :: key in k ==> (key, k[key]) in pairs
  }

  lemma HasLabelsIff(t: Timed, k: Labels)
    ensures HasLabels(t, k) <==> LabelsOf(t) == k
  {
    if t.entry.labels.Some? {
      var pairs := t.entry.labels.value;
      forall key, value
        ensures key in LabelMap(pairs) && LabelMap(pairs)[key] == value <==> (key, value) in pairs
      {
        LabelMapHolds(pairs, key, value);
      }
      if HasLabels(t, k) {
        forall key
          ensures key in LabelMap(pairs) <==> key in k
          ensures key in k ==> LabelMap(pairs)[key] == k[key]
        {
          if key in LabelMap(pairs) {
            assert (key, LabelMap(pairs)[key]) in pairs;
          }
          if key in k {
            assert (key, k[key]) in pairs;
          }
        }
        assert LabelMap(pairs) == k;
      }
      if LabelsOf(t) == k {
        forall i | 0 <= i < |pairs|
          ensures pairs[i].0 in k && k[pairs[i].0] == pairs[i].1
        {
          assert (pairs[i].0, pairs[i].1) in pairs;
        }
      }
    }
  }

  /** A line is its entry: when (by the clock if its timestamp does not parse), who, what, and where it came
      from, without identifiers and metadata that are empty. */
  lemma LineLaw(t: Timed)
    ensures LineOf(t).ns == if t.micros.Some? then TimestampToNs(t) else t.clock
    ensures LineOf(t).payload.id == t.entry.id && LineOf(t).payload.level == t.entry.level
    ensures LineOf(t).payload.message == t.entry.message && LineOf(t).payload.context == t.entry.context
    ensures LineOf(t).payload.traceId == if t.entry.traceId == Some("") then None else t.entry.traceId
    ensures LineOf(t).payload.spanId == if t.entry.spanId == Some("") then None else t.entry.spanId
    ensures LineOf(t).payload.requestId == if t.entry.requestId == Some("") then None else t.entry.requestId
    ensures LineOf(t).payload.metadata == if t.entry.metadata == Some([]) then None else t.entry.metadata
  {
  }

  function LineOf(t: Timed): Line {
    Line(TimestampToNs(t),
         Payload(t.entry.id, t.entry.level, t.entry.message, t.entry.context,
                 NonEmpty(t.entry.traceId), NonEmpty(t.entry.spanId), NonEmpty(t.entry.requestId),
                 NonEmpty(t.entry.metadata)))
  }

  /** The label sets in the order of their first appearance. */
  function Keys(entries: seq<Timed>): seq<Labels> {
    if entries == [] then []
    else
      var before, k := Keys(entries[..|entries| - 1]), LabelsOf(entries[|entries| - 1]);
      if k in before then before else before + [k]
  }

  /** The lines of one label set, in the order they came. */
  function Group(entries: seq<Timed>, k: Labels): seq<Line> {
    if entries == [] then []
    else
      var before, last := Group(entries[..|entries| - 1], k), entries[|entries| - 1];
      if LabelsOf(last) == k then before + [LineOf(last)] else before
  }

  lemma {:induction false} KeysAreTheLabelSets(entries: seq<Timed>)
    ensures forall i, j :: 0 <= i < j < |Keys(entries)| ==> Keys(entries)[i] != Keys(entries)[j]
    ensures forall k :: k in Keys(entries) <==> exists i :: 0 <= i < |entries| && LabelsOf(entries[i]) == k
  {
    if entries == [] {
    } else {
      var before, last := entries[..|entries| - 1], entries[|entries| - 1];
      KeysAreTheLabelSets(before);
      forall k
        ensures k in Keys(entries) <==> exists i :: 0 <= i < |entries| && LabelsOf(entries[i]) == k
      {
        assert forall i :: 0 <= i < |before| ==> entries[i] == before[i];
        if k in Keys(before) {
          var i :| 0 <= i < |before| && LabelsOf(before[i]) == k;
          assert LabelsOf(entries[i]) == k;
        }
        assert LabelsOf(entries[|before|]) == LabelsOf(last);
      }
    }
  }

  /** Where a label set first appears. */
  function FirstIndex(entries: seq<Timed>, k: Labels): nat {
    if entries == [] then 0
    else if k in Keys(entries[..|entries| - 1]) then FirstIndex(entries[..|entries| - 1], k)
    else |entries| - 1
  }

  lemma {:induction false} KeysInFirstAppearanceOrder(entries: seq<Timed>)
    ensures forall k :: k in Keys(entries) ==>
              && FirstIndex(entries, k) < |entries|
              && LabelsOf(entries[FirstIndex(entries, k)]) == k
              && forall i :: 0 <= i < FirstIndex(entries, k) ==> LabelsOf(entries[i]) != k
    ensures forall i, j :: 0 <= i < j < |Keys(entries)| ==>
              FirstIndex(entries, Keys(entries)[i]) < FirstIndex(entries, Keys(entries)[j])
  {
    if entries == [] {
    } else {
      var before := entries[..|entries| - 1];
      KeysInFirstAppearanceOrder(before);
      KeysAreTheLabelSets(before);
      forall k | k in Keys(entries)
        ensures FirstIndex(entries, k) < |entries| && LabelsOf(entries[FirstIndex(entries, k)]) == k
        ensures forall i :: 0 <= i < FirstIndex(entries, k) ==> LabelsOf(entries[i]) != k
      {
        assert forall i :: 0 <= i < |before| ==> entries[i] == before[i];
      }
    }
  }

  /** All the lines of a batch, ungrouped. */
  function AllLines(entries: seq<Timed>): seq<Line> {
    seq(|entries|, i requires 0 <= i < |entries| => LineOf(entries[i]))
  }

  function CountIn(entries: seq<Timed>, keys: seq<Labels>, x: Line): nat {
    if keys == [] then 0
    else CountIn(entries, keys[..|keys| - 1], x) + multiset(Group(entries, keys[|keys| - 1]))[x]
  }

  lemma {:induction false} CountSnoc(entries: seq<Timed>, last: Timed, keys: seq<Labels>, x: Line)
    requires forall i, j :: 0 <= i < j < |keys| ==> keys[i] != keys[j]
    ensures CountIn(entries + [last], keys, x) ==
            CountIn(entries, keys, x) + if LabelsOf(last) in keys && LineOf(last) == x then 1 else 0
  {
    if keys == [] {
    } else {
      CountSnoc(entries, last, keys[..|keys| - 1], x);
      assert (entries + [last])[..|entries|] == entries;
      assert keys == keys[..|keys| - 1] + [keys[|keys| - 1]];
    }
  }

  lemma {:induction false} GroupOfStrangers(entries: seq<Timed>, k: Labels)
    requires forall i :: 0 <= i < |entries| ==> LabelsOf(entries[i]) != k
    ensures Group(entries, k) == []
  {
    if entries == [] {
    } else {
      GroupOfStrangers(entries[..|entries| - 1], k);
    }
  }

  /** One more key, one more group. */
  lemma CountKey(entries: seq<Timed>, keys: seq<Labels>, k: Labels, x: Line)
    ensures CountIn(entries, keys + [k], x) == CountIn(entries, keys, x) + multiset(Group(entries, k))[x]
  {
    assert (keys + [k])[..|keys|] == keys;
  }

  lemma GroupOfNewcomer(before: seq<Timed>, last: Timed)
    requires LabelsOf(last) !in Keys(before)
    ensures Group(before + [last], LabelsOf(last)) == [LineOf(last)]
  {
    KeysAreTheLabelSets(before);
    GroupOfStrangers(before, LabelsOf(last));
    assert (before + [last])[..|before|] == before;
  }

  /** Each line is in the streams together as often as in the batch: none is lost or repeated. */
  lemma {:induction false} GroupsPartition(entries: seq<Timed>, x: Line)
    ensures CountIn(entries, Keys(entries), x) == multiset(AllLines(entries))[x]
  {
    if entries == [] {
    } else {
      var before, last := entries[..|entries| - 1], entries[|entries| - 1];
      assert entries == before + [last];
      GroupsPartition(before, x);
      KeysAreTheLabelSets(before);
      assert AllLines(entries) == AllLines(before) + [LineOf(last)];
      hide AllLines, Group, CountIn, LabelsOf, LineOf;
      CountSnoc(before, last, Keys(before), x);
      if LabelsOf(last) !in Keys(before) {
        CountKey(entries, Keys(before), LabelsOf(last), x);
        GroupOfNewcomer(before, last);
      }
    }
  }

  // -------------------------------------------------------------------------------------------
  // Stable sorting by the timestamp's string

  predicate Before(x: Line, y: Line) {
    Less(Str(x.ns), Str(y.ns))
  }

  function Insert(xs: seq<Line>, x: Line): seq<Line> {
    if xs == [] || !Before(x, xs[|xs| - 1]) then xs + [x]
    else Insert(xs[..|xs| - 1], x) + [xs[|xs| - 1]]
  }

  /** The library's sort: each value goes behind the last one that is not after it. */
  function StableSort(xs: seq<Line>): seq<Line> {
    if xs == [] then [] else Insert(StableSort(xs[..|xs| - 1]), xs[|xs| - 1])
  }

  predicate Sorted(xs: seq<Line>) {
    forall i, j :: 0 <= i < j < |xs| ==> !Before(xs[j], xs[i])
  }

  /** The values with one timestamp, in the order they came. */
  function At(xs: seq<Line>, ns: int): seq<Line> {
    if xs == [] then []
    else At(xs[..|xs| - 1], ns) + if xs[|xs| - 1].ns == ns then [xs[|xs| - 1]] else []
  }

  /** Sorted, with the values of each timestamp kept in their order. */
  ghost predicate IsStableSort(xs: seq<Line>, ys: seq<Line>) {
    Sorted(ys) && forall ns :: At(ys, ns) == At(xs, ns)
  }

  lemma StrIsInjective(m: int, n: int)
    requires Str(m) == Str(n)
    ensures m == n
  {
    FirstIsDigit(if m < 0 then -m else m);
    FirstIsDigit(if n < 0 then -n else n);
    if m < 0 && n < 0 {
      assert Str(m)[1..] == Decimal(-m) && Str(n)[1..] == Decimal(-n);
      DecimalIsInjective(-m, -n);
    } else if m >= 0 && n >= 0 {
      DecimalIsInjective(m, n);
    }
  }

  lemma {:induction false} InsertMembers(xs: seq<Line>, x: Line)
    ensures forall y :: y in Insert(xs, x) <==> y == x || y in xs
  {
    hide Before;
    if xs == [] {
    } else if Before(x, xs[|xs| - 1]) {
      InsertMembers(xs[..|xs| - 1], x);
      assert xs == xs[..|xs| - 1] + [xs[|xs| - 1]];
    }
  }

  lemma {:induction false} InsertAt(xs: seq<Line>, x: Line, ns: int)
    ensures At(Insert(xs, x), ns) == At(xs, ns) + if x.ns == ns then [x] else []
  {
    hide Less, Str;
    if xs == [] {
      assert [x][..0] == [];
    } else if !Before(x, xs[|xs| - 1]) {
      assert (xs + [x])[..|xs|] == xs;
    } else {
      var before := xs[..|xs| - 1];
      LessIsIrreflexive(Str(x.ns));
      InsertAt(before, x, ns);
      var ys := Insert(before, x);
      assert Insert(xs, x)[..|ys|] == ys;
    }
  }

  /** A value not before the last is not before any. */
  lemma NotBeforeLast(xs: seq<Line>, x: Line)
    requires Sorted(xs) && xs != [] && !Before(x, xs[|xs| - 1])
    ensures Sorted(xs + [x])
  {
    forall i | 0 <= i < |xs|
      ensures !Before(x, xs[i])
    {
      if i < |xs| - 1 {
        LessIsTransitive(Str(xs[i].ns), Str(xs[|xs| - 1].ns), Str(x.ns));
      }
    }
  }

  lemma {:induction false} InsertSorts(xs: seq<Line>, x: Line)
    requires Sorted(xs)
    ensures Sorted(Insert(xs, x))
  {
    if xs == [] {
    } else {
      var before, last := xs[..|xs| - 1], xs[|xs| - 1];
      LessIsTotal(Str(x.ns), Str(last.ns));
      if !Before(x, last) {
        NotBeforeLast(xs, x);
      } else {
        assert !Before(last, x);
        hide Before;
        InsertSorts(before, x);
        InsertMembers(before, x);
        forall i | 0 <= i < |Insert(before, x)|
          ensures !Before(last, Insert(before, x)[i])
        {
          var y := Insert(before, x)[i];
          assert y in Insert(before, x);
          if y in before {
            var j :| 0 <= j < |before| && before[j] == y;
            assert xs[j] == y;
          }
        }
      }
    }
  }

  lemma {:induction false} StableSortIsStableSort(xs: seq<Line>)
    ensures IsStableSort(xs, StableSort(xs))
  {
    if xs == [] {
    } else {
      StableSortIsStableSort(xs[..|xs| - 1]);
      InsertSorts(StableSort(xs[..|xs| - 1]), xs[|xs| - 1]);
      forall ns
        ensures At(StableSort(xs), ns) == At(xs, ns)
      {
        InsertAt(StableSort(xs[..|xs| - 1]), xs[|xs| - 1], ns);
      }
    }
  }

  lemma {:induction false} AtIsEmptyIff(xs: seq<Line>, ns: int)
    ensures At(xs, ns) == [] <==> forall i :: 0 <= i < |xs| ==> xs[i].ns != ns
    ensures At(xs, ns) != [] && xs[|xs| - 1].ns == ns ==> At(xs, ns)[|At(xs, ns)| - 1] == xs[|xs| - 1]
  {
    if xs == [] {
    } else {
      AtIsEmptyIff(xs[..|xs| - 1], ns);
    }
  }

  /** Nothing in the one list is after the last value of the other. */
  lemma LastIsLatest(ys: seq<Line>, zs: seq<Line>)
    requires ys != [] && zs != [] && Sorted(zs) && forall ns :: At(ys, ns) == At(zs, ns)
    ensures !Before(zs[|zs| - 1], ys[|ys| - 1])
  {
    hide At, Less, Str;
    var y := ys[|ys| - 1];
    AtIsEmptyIff(ys, y.ns);
    assert At(ys, y.ns) == At(zs, y.ns);
    AtIsEmptyIff(zs, y.ns);
    var i :| 0 <= i < |zs| && zs[i].ns == y.ns;
    LessIsTotal(Str(y.ns), Str(y.ns));
  }

  lemma LastAgrees(ys: seq<Line>, zs: seq<Line>)
    requires ys != [] && zs != [] && Sorted(ys) && Sorted(zs) && forall ns :: At(ys, ns) == At(zs, ns)
    ensures ys[|ys| - 1] == zs[|zs| - 1]
  {
    var y, z := ys[|ys| - 1], zs[|zs| - 1];
    LastIsLatest(ys, zs);
    LastIsLatest(zs, ys);
    LessIsTotal(Str(y.ns), Str(z.ns));
    hide Less, Str, Sorted;
    StrIsInjective(y.ns, z.ns);
    AtIsEmptyIff(ys, y.ns);
    AtIsEmptyIff(zs, y.ns);
    assert At(ys, y.ns) == At(zs, y.ns);
  }

  lemma AtInit(xs: seq<Line>, ns: int)
    requires xs != []
    ensures At(xs[..|xs| - 1], ns) ==
            if xs[|xs| - 1].ns == ns then At(xs, ns)[..|At(xs, ns)| - 1] else At(xs, ns)
  {
    if xs[|xs| - 1].ns == ns {
      assert At(xs, ns) == At(xs[..|xs| - 1], ns) + [xs[|xs| - 1]];
    }
  }

  lemma SameEmptiness(ys: seq<Line>, zs: seq<Line>)
    requires forall ns :: At(ys, ns) == At(zs, ns)
    ensures ys == [] ==> zs == []
  {
    if zs != [] {
      var ns := zs[0].ns;
      AtIsEmptyIff(zs, ns);
      assert At(ys, ns) == At(zs, ns);
    }
  }

  /** There is only one such arrangement, so the library's sort is this one. */
  lemma {:induction false} StableSortIsUnique(ys: seq<Line>, zs: seq<Line>)
    requires Sorted(ys) && Sorted(zs) && forall ns :: At(ys, ns) == At(zs, ns)
    ensures ys == zs
  {
    SameEmptiness(ys, zs);
    SameEmptiness(zs, ys);
    if ys == [] {
    } else {
      LastAgrees(ys, zs);
      var ys1, zs1 := ys[..|ys| - 1], zs[..|zs| - 1];
      forall ns
        ensures At(ys1, ns) == At(zs1, ns)
      {
        hide At;
        AtInit(ys, ns);
        AtInit(zs, ns);
        assert At(ys, ns) == At(zs, ns);
      }
      assert Sorted(ys1) && Sorted(zs1);
      StableSortIsUnique(ys1, zs1);
      assert ys == ys1 + [ys[|ys| - 1]] && zs == zs1 + [zs[|zs| - 1]];
    }
  }

  // -------------------------------------------------------------------------------------------
  // The batch

  /** What `_format_for_loki` is specified to return. */
  function Formatted(entries: seq<Timed>): seq<Stream> {
    var keys := Keys(entries);
    seq(|keys|, i requires 0 <= i < |keys| => Stream(keys[i], StableSort(Group(entries, keys[i]))))
  }

  lemma {:induction false} GroupMembersIff(entries: seq<Timed>, k: Labels, x: Line)
    ensures x in Group(entries, k) <==>
            exists i :: 0 <= i < |entries| && LabelsOf(entries[i]) == k && LineOf(entries[i]) == x
  {
    hide LineOf, LabelsOf;
    if entries == [] {
    } else {
      var before := entries[..|entries| - 1];
      GroupMembersIff(before, k, x);
      assert forall i :: 0 <= i < |before| ==> before[i] == entries[i];
      if x in Group(before, k) {
        var i :| 0 <= i < |before| && LabelsOf(before[i]) == k && LineOf(before[i]) == x;
        assert LabelsOf(entries[i]) == k && LineOf(entries[i]) == x;
      } else if x in Group(entries, k) {
        assert LabelsOf(entries[|before|]) == k && LineOf(entries[|before|]) == x;
      }
    }
  }

  lemma {:induction false} StableSortMembers(xs: seq<Line>, x: Line)
    ensures x in StableSort(xs) <==> x in xs
  {
    hide Insert, Before;
    if xs == [] {
    } else {
      StableSortMembers(xs[..|xs| - 1], x);
      InsertMembers(StableSort(xs[..|xs| - 1]), xs[|xs| - 1]);
      assert xs == xs[..|xs| - 1] + [xs[|xs| - 1]];
    }
  }

  predicate TimeOrdered(xs: seq<Line>) {
    forall i, j :: 0 <= i < j < |xs| ==> xs[i].ns <= xs[j].ns
  }

  predicate NeverMisplaced(xs: seq<Line>) {
    forall x, y :: x in xs && y in xs && x.ns < y.ns ==> !Before(y, x)
  }

  lemma TimeOrderedIfNeverMisplaced(xs: seq<Line>)
    requires Sorted(xs) && NeverMisplaced(xs)
    ensures TimeOrdered(xs)
  {
    hide Less, Str;
    forall i, j | 0 <= i < j < |xs|
      ensures xs[i].ns <= xs[j].ns
    {
      LessIsTotal(Str(xs[i].ns), Str(xs[j].ns));
      if Str(xs[i].ns) == Str(xs[j].ns) {
        StrIsInjective(xs[i].ns, xs[j].ns);
      }
    }
  }

  lemma NeverMisplacedIfTimeOrdered(xs: seq<Line>)
    requires Sorted(xs) && TimeOrdered(xs)
    ensures NeverMisplaced(xs)
  {
    hide Before;
    forall x, y | x in xs && y in xs && x.ns < y.ns
      ensures !Before(y, x)
    {
      var i :| 0 <= i < |xs| && xs[i] == x;
      var j :| 0 <= j < |xs| && xs[j] == y;
      assert i < j;
    }
  }

  lemma SortedTimesIff(xs: seq<Line>)
    ensures TimeOrdered(StableSort(xs)) <==> NeverMisplaced(xs)
  {
    var ys := StableSort(xs);
    StableSortIsStableSort(xs);
    forall x
      ensures x in ys <==> x in xs
    {
      StableSortMembers(xs, x);
    }
    hide StableSort, Sorted, TimeOrdered, Before;
    if NeverMisplaced(ys) {
      TimeOrderedIfNeverMisplaced(ys);
    }
    if TimeOrdered(ys) {
      NeverMisplacedIfTimeOrdered(ys);
    }
  }

  /** No two times of the label set are such that the earlier comes later as a string. */
  predicate TimesKeepOrder(entries: seq<Timed>, k: Labels) {
    forall i, j :: 0 <= i < |entries| && 0 <= j < |entries| && LabelsOf(entries[i]) == k == LabelsOf(entries[j]) ==>
      !(TimestampToNs(entries[i]) < TimestampToNs(entries[j])
        && StringFirst(TimestampToNs(entries[j]), TimestampToNs(entries[i])))
  }

  /** A stream is in time order exactly when no two of its times are in the wrong string order. */
  lemma StreamInTimeOrderIff(entries: seq<Timed>, k: Labels)
    ensures TimeOrdered(StableSort(Group(entries, k))) <==> TimesKeepOrder(entries, k)
  {
    hide StableSort, LabelsOf, TimestampToNs, StringFirst, Less, Str, TimeOrdered;
    var xs := Group(entries, k);
    SortedTimesIff(xs);
    forall x
      ensures x in xs <==> exists i :: 0 <= i < |entries| && LabelsOf(entries[i]) == k && LineOf(entries[i]) == x
    {
      GroupMembersIff(entries, k, x);
    }
    forall m, n
      ensures Less(Str(n), Str(m)) <==> StringFirst(n, m)
    {
      StringOrderIff(n, m);
    }
    hide Group;
    if NeverMisplaced(xs) {
      forall i, j | 0 <= i < |entries| && 0 <= j < |entries| && LabelsOf(entries[i]) == k == LabelsOf(entries[j])
        ensures !(TimestampToNs(entries[i]) < TimestampToNs(entries[j])
                  && StringFirst(TimestampToNs(entries[j]), TimestampToNs(entries[i])))
      {
        assert LineOf(entries[i]) in xs && LineOf(entries[j]) in xs;
      }
    }
  }

  predicate NineteenDigitTimes(entries: seq<Timed>) {
    forall i :: 0 <= i < |entries| ==> FIRST_19_DIGITS <= TimestampToNs(entries[i]) <= LAST_19_DIGITS
  }

  /** In the nineteen-digit era each stream is in time order. */
  lemma StreamsAreInTimeOrder(entries: seq<Timed>, k: Labels)
    requires NineteenDigitTimes(entries)
    ensures TimeOrdered(StableSort(Group(entries, k)))
  {
    hide Group, StableSort, Decimal, LabelsOf, TimestampToNs;
    StreamInTimeOrderIff(entries, k);
    forall i | 0 <= i < |entries|
      ensures |Decimal(TimestampToNs(entries[i]))| == 19
    {
      NineteenDigits(TimestampToNs(entries[i]));
    }
  }

  /** Outside it none need be: the last eighteen-digit time comes after the first with nineteen digits, */
  lemma TimeOrderFailsAcrossLengths()
    ensures StringFirst(FIRST_19_DIGITS, FIRST_19_DIGITS - 1)
  {
    assert Pow10(6) == 1_000_000;
    assert Pow10(12) == 1_000_000_000_000;
    assert Pow10(17) == 100_000_000_000_000_000;
    assert Pow10(18) == 1_000_000_000_000_000_000;
    NineteenDigits(FIRST_19_DIGITS);
    NumeralLength(FIRST_19_DIGITS - 1, 18);
  }

  /** and before 1970, times of one length run backwards. */
  lemma EarlyTimesRunBackwards(m: int, n: int)
    requires m < n < 0 && |Decimal(-m)| == |Decimal(-n)|
    ensures StringFirst(n, m)
  {
  }

  /** How many entries with these labels have this line. */
  function CountWith(entries: seq<Timed>, k: Labels, x: Line): nat {
    if entries == [] then 0
    else
      var last := entries[|entries| - 1];
      CountWith(entries[..|entries| - 1], k, x) + if HasLabels(last, k) && LineOf(last) == x then 1 else 0
  }

  lemma {:induction false} GroupCount(entries: seq<Timed>, k: Labels, x: Line)
    ensures multiset(Group(entries, k))[x] == CountWith(entries, k, x)
  {
    hide HasLabels, LineOf, LabelsOf;
    if entries == [] {
    } else {
      GroupCount(entries[..|entries| - 1], k, x);
      HasLabelsIff(entries[|entries| - 1], k);
    }
  }

  lemma {:induction false} InsertCount(xs: seq<Line>, x: Line)
    ensures multiset(Insert(xs, x)) == multiset(xs) + multiset{x}
  {
    hide Before;
    if xs == [] {
    } else if Before(x, xs[|xs| - 1]) {
      InsertCount(xs[..|xs| - 1], x);
      assert xs == xs[..|xs| - 1] + [xs[|xs| - 1]];
    }
  }

  lemma {:induction false} StableSortCount(xs: seq<Line>)
    ensures multiset(StableSort(xs)) == multiset(xs)
  {
    hide Insert, Before;
    if xs == [] {
    } else {
      StableSortCount(xs[..|xs| - 1]);
      InsertCount(StableSort(xs[..|xs| - 1]), xs[|xs| - 1]);
      assert xs == xs[..|xs| - 1] + [xs[|xs| - 1]];
    }
  }

  /** Each stream holds exactly the lines of the entries whose own labels are those of the stream. */
  lemma StreamsHoldTheirEntries(entries: seq<Timed>, i: nat, x: Line)
    requires i < |Formatted(entries)|
    ensures var stream := Formatted(entries)[i];
            multiset(stream.values)[x] == CountWith(entries, stream.labels, x)
  {
    hide StableSort, Group, Keys;
    var k := Keys(entries)[i];
    StableSortCount(Group(entries, k));
    GroupCount(entries, k, x);
  }

  /** Each entry has exactly one stream with its labels. */
  lemma EveryEntryHasAStream(entries: seq<Timed>, j: nat) returns (i: nat)
    requires j < |entries|
    ensures i < |Formatted(entries)| && HasLabels(entries[j], Formatted(entries)[i].labels)
    ensures LineOf(entries[j]) in Formatted(entries)[i].values
    ensures forall other :: 0 <= other < |Formatted(entries)| && other != i ==>
              !HasLabels(entries[j], Formatted(entries)[other].labels)
  {
    hide StableSort, LabelsOf, HasLabels, Group, Keys;
    var k := LabelsOf(entries[j]);
    KeysAreTheLabelSets(entries);
    assert LabelsOf(entries[j]) == k;
    assert k in Keys(entries);
    i :| 0 <= i < |Keys(entries)| && Keys(entries)[i] == k;
    forall other: Labels
      ensures HasLabels(entries[j], other) <==> other == k
    {
      HasLabelsIff(entries[j], other);
    }
    GroupMembersIff(entries, k, LineOf(entries[j]));
    StableSortMembers(Group(entries, k), LineOf(entries[j]));
  }

  /** Two entries share a stream exactly if their labels are the same pairs, in any order. */
  lemma SameStreamIff(entries: seq<Timed>, a: nat, b: nat)
    requires a < |entries| && b < |entries|
    ensures (exists i :: 0 <= i < |Formatted(entries)| && HasLabels(entries[a], Formatted(entries)[i].labels)
                         && HasLabels(entries[b], Formatted(entries)[i].labels)) <==>
            forall pair :: pair in Pairs(entries[a]) <==> pair in Pairs(entries[b])
  {
    hide LabelsOf;
    var i := EveryEntryHasAStream(entries, a);
    HasLabelsIff(entries[a], Formatted(entries)[i].labels);
    HasLabelsIff(entries[b], Formatted(entries)[i].labels);
    SamePairsIff(entries[a], entries[b]);
    hide Formatted;
    forall k
      ensures HasLabels(entries[a], k) <==> LabelsOf(entries[a]) == k
      ensures HasLabels(entries[b], k) <==> LabelsOf(entries[b]) == k
    {
      HasLabelsIff(entries[a], k);
      HasLabelsIff(entries[b], k);
    }
  }

  function Pairs(t: Timed): Assoc<string> {
    if t.entry.labels.Some? then t.entry.labels.value else []
  }

  lemma SamePairsIff(s: Timed, t: Timed)
    ensures LabelsOf(s) == LabelsOf(t) <==> forall pair :: pair in Pairs(s) <==> pair in Pairs(t)
  {
    forall key, value
      ensures key in LabelsOf(s) && LabelsOf(s)[key] == value <==> (key, value) in Pairs(s)
      ensures key in LabelsOf(t) && LabelsOf(t)[key] == value <==> (key, value) in Pairs(t)
    {
      LabelMapHolds(Pairs(s), key, value);
      LabelMapHolds(Pairs(t), key, value);
    }
    if forall pair :: pair in Pairs(s) <==> pair in Pairs(t) {
      forall key
        ensures key in LabelsOf(s) <==> key in LabelsOf(t)
        ensures key in LabelsOf(s) ==> LabelsOf(s)[key] == LabelsOf(t)[key]
      {
        if key in LabelsOf(s) {
          assert (key, LabelsOf(s)[key]) in Pairs(s);
        }
        if key in LabelsOf(t) {
          assert (key, LabelsOf(t)[key]) in Pairs(t);
        }
      }
      assert LabelsOf(s) == LabelsOf(t);
    } else {
      var pair :| (pair in Pairs(s)) != (pair in Pairs(t));
      assert (pair.0, pair.1) == pair;
    }
  }

  /** What one more entry does to the label sets and the groups. */
  lemma OneMore(before: seq<Timed>, last: Timed)
    ensures var k := LabelsOf(last);
            && Keys(before + [last]) == (if k in Keys(before) then Keys(before) else Keys(before) + [k])
            && (k !in Keys(before) ==> Group(before, k) == [])
            && Group(before + [last], k) == Group(before, k) + [LineOf(last)]
            && forall other :: other != k ==> Group(before + [last], other) == Group(before, other)
  {
    hide LabelsOf, LineOf;
    assert (before + [last])[..|before|] == before;
    KeysAreTheLabelSets(before);
    if LabelsOf(last) !in Keys(before) {
      GroupOfStrangers(before, LabelsOf(last));
    }
  }

  lemma NoKeys()
    ensures Keys([]) == []
  {
  }

  method FormatForLoki(entries: seq<Timed>) returns (formatted: seq<Stream>)
    ensures formatted == Formatted(entries)
  {
    hide LabelsOf, LineOf, StableSort, Keys, Group;
    NoKeys();
    var order: seq<Labels> := [];
    var values: map<Labels, seq<Line>> := map[];
    for i := 0 to |entries|
      invariant order == Keys(entries[..i])
      invariant forall k :: k in values <==> k in order
      invariant forall k :: k in order ==> values[k] == Group(entries[..i], k)
    {
      OneMore(entries[..i], entries[i]);
      assert entries[..i + 1] == entries[..i] + [entries[i]];
      var k := LabelsOf(entries[i]);
      values := values[k := (if k in values then values[k] else []) + [LineOf(entries[i])]];
      order := if k in order then order else order + [k];
    }
    assert entries[..|entries|] == entries;
    formatted := [];
    for i := 0 to |order|
      invariant |formatted| == i
      invariant forall j :: 0 <= j < i ==> formatted[j] == Stream(order[j], StableSort(Group(entries, order[j])))
    {
      formatted := formatted + [Stream(order[i], StableSort(values[order[i]]))];
    }
  }
}
