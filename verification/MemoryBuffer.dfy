/** How many bytes an entry is taken to occupy, and what the tracker knows about a list of entries. */
module MemoryAccounting {
  import opened Prelude
  import opened LogEntries

  /** A buffered entry: `ref` is the identity of the object, `stamp` its timestamp when that parses. */
  datatype Item = Item(ref: nat, entry: Entry, stamp: Option<real>)

  const ENTRY_OVERHEAD: nat := 200

  function TextSize(t: Option<string>): nat {
    if t.Some? then |t.value| * 2 else 0
  }

  function LabelsSize(labels: seq<(string, string)>): nat {
    if labels == [] then 0
    else LabelsSize(labels[..|labels| - 1]) + |labels[|labels| - 1].0| * 2 + |labels[|labels| - 1].1| * 2
  }

  function Size(e: Entry): nat {
    |e.id| * 2 + |e.timestamp| * 2 + |e.level| * 2 + |e.message| * 2
    + TextSize(e.traceId) + TextSize(e.spanId) + TextSize(e.requestId)
    + (if e.context.Some? then |e.context.value| * 70 else 0)
    + (if e.labels.Some? then LabelsSize(e.labels.value) else 0)
    + (if e.metadata.Some? && e.metadata.value != [] then 50 else 0)
    + ENTRY_OVERHEAD
  }

  /** Each character adds two bytes, wherever it is. */
  lemma TextSizeLaw(e: Entry, text: string)
    ensures Size(e.(id := e.id + text)) == Size(e) + 2 * |text| == Size(e.(timestamp := e.timestamp + text))
    ensures Size(e.(level := e.level + text)) == Size(e) + 2 * |text| == Size(e.(message := e.message + text))
    ensures Size(e.(traceId := Some(text))) == Size(e.(traceId := None)) + 2 * |text|
    ensures Size(e.(spanId := Some(text))) == Size(e.(spanId := None)) + 2 * |text|
    ensures Size(e.(requestId := Some(text))) == Size(e.(requestId := None)) + 2 * |text|
  {
  }

  /** What an empty entry occupies, and what context, metadata and labels add to one. */
  lemma FieldSizeLaw(e: Entry, fields: JsonObject, labels: Assoc<string>)
    ensures Size(LogEntry("", "", "", "", None, None, None, None, None, None)) == 200
    ensures Size(e.(context := Some(fields))) == Size(e.(context := None)) + 70 * |fields|
    ensures Size(e.(metadata := Some(fields))) == Size(e.(metadata := None)) + if fields == [] then 0 else 50
    ensures Size(e.(labels := Some([]))) == Size(e.(labels := None))
    ensures labels != [] ==>
              var n := |labels| - 1;
              Size(e.(labels := Some(labels))) ==
              Size(e.(labels := Some(labels[..n]))) + 2 * |labels[n].0| + 2 * |labels[n].1|
  {
  }

  function Bytes(items: seq<Item>): nat {
    if items == [] then 0 else Bytes(items[..|items| - 1]) + Size(items[|items| - 1].entry)
  }

  lemma {:induction false} BytesConcat(xs: seq<Item>, ys: seq<Item>)
    ensures Bytes(xs + ys) == Bytes(xs) + Bytes(ys)
  {
    if ys == [] {
      assert xs + ys == xs;
    } else {
      BytesConcat(xs, ys[..|ys| - 1]);
      assert (xs + ys)[..|xs + ys| - 1] == xs + ys[..|ys| - 1];
    }
  }

  lemma {:induction false} BytesAtLeast(items: seq<Item>)
    ensures Bytes(items) >= ENTRY_OVERHEAD * |items|
  {
    if items == [] {
    } else {
      BytesAtLeast(items[..|items| - 1]);
    }
  }

  ghost function Refs(items: seq<Item>): set<nat> {
    set i | 0 <= i < |items| :: items[i].ref
  }

  ghost predicate Distinct(items: seq<Item>) {
    forall i, j :: 0 <= i < j < |items| ==> items[i].ref != items[j].ref
  }

  // -------------------------------------------------------------------------------------------
  // The tracker's fields

  datatype Ledger = Ledger(totalSize: int, entrySizes: map<nat, nat>, entryCount: int)

  function Note(t: Ledger, item: Item): Ledger {
    Ledger(t.totalSize + Size(item.entry), t.entrySizes[item.ref := Size(item.entry)], t.entryCount + 1)
  }

  function Forget(t: Ledger, item: Item): Ledger {
    if item.ref !in t.entrySizes then t
    else Ledger(t.totalSize - t.entrySizes[item.ref], t.entrySizes - {item.ref}, t.entryCount - 1)
  }

  function ForgetAll(t: Ledger, items: seq<Item>): Ledger {
    if items == [] then t else Forget(ForgetAll(t, items[..|items| - 1]), items[|items| - 1])
  }

  /** The totals agree with the plain sum over `items`. */
  ghost predicate Tracks(t: Ledger, items: seq<Item>) {
    && Distinct(items)
    && t.totalSize == Bytes(items)
    && t.entryCount == |items|
    && t.entrySizes.Keys == Refs(items)
    && forall i :: 0 <= i < |items| ==> t.entrySizes[items[i].ref] == Size(items[i].entry)
  }

  /** `gone` and `kept` together are `items`. */
  ghost predicate Split(items: seq<Item>, gone: seq<Item>, kept: seq<Item>) {
    && Distinct(gone) && Distinct(kept)
    && Refs(gone) !! Refs(kept)
    && Refs(items) == Refs(gone) + Refs(kept)
    && Bytes(items) == Bytes(gone) + Bytes(kept)
    && |items| == |gone| + |kept|
    && (forall g :: g in gone ==> g in items)
    && (forall k :: k in kept ==> k in items)
  }

  lemma NoteTracks(t: Ledger, items: seq<Item>, item: Item)
    requires Tracks(t, items)
    ensures Tracks(Note(t, item), items + [item]) <==> item.ref !in Refs(items)
  {
    hide Size;
    var after := items + [item];
    BytesConcat(items, [item]);
    assert after[|items|] == item;
    assert forall i :: 0 <= i < |items| ==> after[i] == items[i];
    if item.ref in Refs(items) {
      var i :| 0 <= i < |items| && items[i].ref == item.ref;
      assert after[i].ref == after[|items|].ref;
    } else {
      assert Refs(after) == Refs(items) + {item.ref};
    }
  }

  lemma {:induction false} ForgetDistinct(t: Ledger, gone: seq<Item>)
    requires Distinct(gone) && Refs(gone) <= t.entrySizes.Keys
    requires forall i :: 0 <= i < |gone| ==> t.entrySizes[gone[i].ref] == Size(gone[i].entry)
    ensures ForgetAll(t, gone) ==
            Ledger(t.totalSize - Bytes(gone), t.entrySizes - Refs(gone), t.entryCount - |gone|)
  {
    if gone == [] {
      assert Refs(gone) == {};
    } else {
      var before, last := gone[..|gone| - 1], gone[|gone| - 1];
      assert forall i :: 0 <= i < |before| ==> before[i] == gone[i];
      assert Refs(gone) == Refs(before) + {last.ref};
      ForgetDistinct(t, before);
      assert last.ref !in Refs(before);
      assert t.entrySizes - Refs(before) - {last.ref} == t.entrySizes - Refs(gone);
    }
  }

  lemma ForgetSplit(t: Ledger, items: seq<Item>, gone: seq<Item>, kept: seq<Item>)
    requires Tracks(t, items) && Split(items, gone, kept)
    ensures Tracks(ForgetAll(t, gone), kept)
  {
    forall i | 0 <= i < |gone|
      ensures gone[i].ref in Refs(items) && t.entrySizes[gone[i].ref] == Size(gone[i].entry)
    {
      assert gone[i] in gone;
      var j :| 0 <= j < |items| && items[j] == gone[i];
    }
    ForgetDistinct(t, gone);
    forall i | 0 <= i < |kept|
      ensures kept[i].ref in t.entrySizes && t.entrySizes[kept[i].ref] == Size(kept[i].entry)
      ensures kept[i].ref !in Refs(gone)
    {
      assert kept[i] in kept && kept[i].ref in Refs(kept);
      var j :| 0 <= j < |items| && items[j] == kept[i];
    }
  }

  /** Adding an object that is already buffered leaves a debt that no flush clears. */
  lemma DoubleAddLeaks(t: Ledger, items: seq<Item>, item: Item)
    requires Tracks(t, items) && item in items
    ensures var left := ForgetAll(Note(t, item), items + [item]);
            left == Ledger(Size(item.entry), map[], 1) && left.totalSize > 0
  {
    var i :| 0 <= i < |items| && items[i] == item;
    assert item.ref in Refs(items);
    ForgetDistinct(Note(t, item), items);
    assert (items + [item])[..|items|] == items;
  }

  lemma SplitAt(items: seq<Item>, k: nat)
    requires Distinct(items) && k <= |items|
    ensures Split(items, items[..k], items[k..])
  {
    hide Bytes, Size;
    var gone, kept := items[..k], items[k..];
    assert items == gone + kept;
    BytesConcat(gone, kept);
    RefsConcat(gone, kept);
    forall i, j | 0 <= i < |gone| && 0 <= j < |kept|
      ensures gone[i].ref != kept[j].ref
    {
      assert items[i].ref != items[k + j].ref;
    }
  }

  lemma RefsConcat(xs: seq<Item>, ys: seq<Item>)
    ensures Refs(xs + ys) == Refs(xs) + Refs(ys)
  {
    forall r
      ensures r in Refs(xs + ys) <==> r in Refs(xs) + Refs(ys)
    {
      if r in Refs(xs) {
        var i :| 0 <= i < |xs| && xs[i].ref == r;
        assert (xs + ys)[i].ref == r;
      }
      if r in Refs(ys) {
        var i :| 0 <= i < |ys| && ys[i].ref == r;
        assert (xs + ys)[|xs| + i].ref == r;
      }
    }
  }
}

/** The tracker object. */
module MemoryTrackers {
  import opened LogEntries
  import opened MemoryAccounting

  class MemoryTracker {
    var totalSize: int
    var entrySizes: map<nat, nat>
    var entryCount: int

    ghost function Fields(): Ledger
      reads this
    {
      Ledger(totalSize, entrySizes, entryCount)
    }

    constructor ()
      ensures Fields() == Ledger(0, map[], 0)
    {
      totalSize, entrySizes, entryCount := 0, map[], 0;
    }

    method AddEntry(item: Item)
      modifies this
      ensures Fields() == Note(old(Fields()), item)
    {
      var size := EstimateSize(item.entry);
      entrySizes := entrySizes[item.ref := size];
      totalSize := totalSize + size;
      entryCount := entryCount + 1;
    }

    method RemoveEntry(item: Item)
      modifies this
      ensures Fields() == Forget(old(Fields()), item)
    {
      if item.ref !in entrySizes {
        return;
      }
      var size := entrySizes[item.ref];
      entrySizes := entrySizes - {item.ref};
      totalSize := totalSize - size;
      entryCount := entryCount - 1;
    }

    method RemoveEntries(items: seq<Item>)
      modifies this
      ensures Fields() == ForgetAll(old(Fields()), items)
    {
      for i := 0 to |items|
        invariant Fields() == ForgetAll(old(Fields()), items[..i])
      {
        RemoveEntry(items[i]);
        assert items[..i + 1][..i] == items[..i];
      }
      assert items[..|items|] == items;
    }

    method Reset()
      modifies this
      ensures Fields() == Ledger(0, map[], 0)
    {
      totalSize, entrySizes, entryCount := 0, map[], 0;
    }

    static method EstimateSize(entry: Entry) returns (size: nat)
      ensures size == Size(entry) >= ENTRY_OVERHEAD
    {
      size := |entry.id| * 2 + |entry.timestamp| * 2 + |entry.level| * 2 + |entry.message| * 2;
      if entry.traceId.Some? && entry.traceId.value != "" {
        size := size + |entry.traceId.value| * 2;
      }
      if entry.spanId.Some? && entry.spanId.value != "" {
        size := size + |entry.spanId.value| * 2;
      }
      if entry.requestId.Some? && entry.requestId.value != "" {
        size := size + |entry.requestId.value| * 2;
      }
      if entry.context.Some? && entry.context.value != [] {
        size := size + |entry.context.value| * 20;
        size := size + |entry.context.value| * 50;
      }
      if entry.labels.Some? && entry.labels.value != [] {
        var labels := entry.labels.value;
        ghost var before := size;
        for i := 0 to |labels|
          invariant size == before + LabelsSize(labels[..i])
        {
          assert labels[..i + 1][..i] == labels[..i];
          size := size + |labels[i].0| * 2;
          size := size + |labels[i].1| * 2;
        }
        assert labels[..|labels|] == labels;
      }
      if entry.metadata.Some? && entry.metadata.value != [] {
        size := size + 50;
      }
      size := size + ENTRY_OVERHEAD;
    }
  }
}

/** The limits of the buffer: which entries one `add` leaves. */
module BufferPolicy {
  import opened Prelude
  import opened Subsequences
  import opened LogEntries
  import opened MemoryAccounting

  datatype Config = Config(maxSize: nat, maxAge: nat, autoFlush: bool, maxMemoryMb: nat) {
    function MemoryLimit(): nat {
      maxMemoryMb * 1024 * 1024
    }

    /** Can a buffer with these limits hold an entry at all? */
    predicate HasRoom() {
      maxSize >= 1 && maxMemoryMb >= 1
    }

    predicate OverMemory(items: seq<Item>) {
      Bytes(items) > MemoryLimit()
    }
  }

  predicate Young(c: Config, item: Item, now: real) {
    item.stamp.None? || now - item.stamp.value < c.maxAge as real / 1000.0
  }

  function Keep(c: Config, items: seq<Item>, now: real, young: bool): seq<Item> {
    if items == [] then []
    else
      var rest, last := Keep(c, items[..|items| - 1], now, young), items[|items| - 1];
      if Young(c, last, now) == young then rest + [last] else rest
  }

  function DropOldest(items: seq<Item>, count: nat): seq<Item> {
    items[Min(count, |items|)..]
  }

  function Cap(c: Config, items: seq<Item>): seq<Item> {
    LastN(items, c.maxSize)
  }

  function Relieve(c: Config, items: seq<Item>, now: real): seq<Item> {
    var kept := Keep(c, items, now, true);
    if c.OverMemory(kept) && kept != [] then DropOldest(kept, Max(1, |kept| / 10)) else kept
  }

  /** The entries an `add` leaves in a buffer that is in service. */
  function AfterAdd(c: Config, items: seq<Item>, item: Item, now: real): seq<Item> {
    var capped := Cap(c, items + [item]);
    if c.OverMemory(capped) then Cap(c, Relieve(c, capped, now)) else capped
  }

  // -------------------------------------------------------------------------------------------
  // What every drop leaves is a subsequence

  lemma {:induction false} KeepIsSub(c: Config, items: seq<Item>, now: real, young: bool)
    ensures Sub(Keep(c, items, now, young), items)
  {
    if items == [] {
    } else {
      KeepIsSub(c, items[..|items| - 1], now, young);
      SubSnoc(Keep(c, items[..|items| - 1], now, young), items[..|items| - 1], items[|items| - 1]);
      assert items == items[..|items| - 1] + [items[|items| - 1]];
    }
  }

  lemma LastNIsSub(items: seq<Item>, n: nat)
    ensures Sub(LastN(items, n), items)
  {
    SubSuffix(items, if |items| <= n then 0 else |items| - n);
  }

  lemma AfterAddIsSub(c: Config, items: seq<Item>, item: Item, now: real)
    ensures Sub(AfterAdd(c, items, item, now), items + [item])
  {
    var capped := Cap(c, items + [item]);
    LastNIsSub(items + [item], c.maxSize);
    if c.OverMemory(capped) {
      var kept, relieved := Keep(c, capped, now, true), Relieve(c, capped, now);
      KeepIsSub(c, capped, now, true);
      SubSuffix(kept, Min(Max(1, |kept| / 10), |kept|));
      SubRefl(kept);
      SubTrans(relieved, kept, capped);
      SubTrans(relieved, capped, items + [item]);
      LastNIsSub(relieved, c.maxSize);
      SubTrans(Cap(c, relieved), relieved, items + [item]);
    }
  }

  // -------------------------------------------------------------------------------------------
  // Bounds

  lemma {:induction false} KeepLength(c: Config, items: seq<Item>, now: real)
    ensures |Keep(c, items, now, true)| + |Keep(c, items, now, false)| == |items|
    ensures Bytes(Keep(c, items, now, true)) + Bytes(Keep(c, items, now, false)) == Bytes(items)
  {
    if items == [] {
    } else {
      var before, last := items[..|items| - 1], items[|items| - 1];
      KeepLength(c, before, now);
      BytesConcat(Keep(c, before, now, true), [last]);
      BytesConcat(Keep(c, before, now, false), [last]);
    }
  }

  /** Relieving a buffer that is over its memory limit removes at least one entry. */
  lemma RelieveShrinks(c: Config, items: seq<Item>, now: real)
    requires c.OverMemory(items)
    ensures |Relieve(c, items, now)| < |items|
  {
    KeepLength(c, items, now);
    if |Keep(c, items, now, false)| == 0 {
      assert Keep(c, items, now, false) == [];
    }
  }

  /** An entry survives the age pass exactly if its timestamp does not parse or is younger than the age
      limit, in milliseconds. */
  lemma {:induction false} SurvivesAgeIff(c: Config, items: seq<Item>, now: real, x: Item)
    ensures x in Keep(c, items, now, true) <==>
            x in items && (x.stamp.None? || now - x.stamp.value < c.maxAge as real / 1000.0)
  {
    if items == [] {
    } else {
      SurvivesAgeIff(c, items[..|items| - 1], now, x);
      assert items == items[..|items| - 1] + [items[|items| - 1]];
    }
  }

  /** If those still exceed the limit, in binary megabytes, a tenth of them goes, rounded down but one at
      least, and the oldest. */
  lemma ReliefDropsTenth(c: Config, items: seq<Item>, now: real) returns (d: nat)
    ensures d <= |Keep(c, items, now, true)| && Relieve(c, items, now) == Keep(c, items, now, true)[d..]
    ensures var young := Keep(c, items, now, true);
            if Bytes(young) > c.maxMemoryMb * 1_048_576 then d >= 1 && 10 * d <= Max(10, |young|) < 10 * d + 10
            else d == 0
  {
    var young := Keep(c, items, now, true);
    if young == [] {
      assert Bytes(young) == 0;
    }
    d := if Bytes(young) > c.maxMemoryMb * 1_048_576 then Max(1, |young| / 10) else 0;
  }

  /** An `add` that exceeds the memory limit leaves nothing over the age limit, and if what is younger fits,
      it leaves all of that. */
  lemma AddKeepsTheYoung(c: Config, items: seq<Item>, item: Item, now: real)
    requires Bytes(LastN(items + [item], c.maxSize)) > c.maxMemoryMb * 1_048_576
    ensures forall x :: x in AfterAdd(c, items, item, now) ==>
              x in LastN(items + [item], c.maxSize)
              && (x.stamp.None? || now - x.stamp.value < c.maxAge as real / 1000.0)
    ensures var young := Keep(c, LastN(items + [item], c.maxSize), now, true);
            Bytes(young) <= c.maxMemoryMb * 1_048_576 ==>
              && AfterAdd(c, items, item, now) == young
              && forall x | x in LastN(items + [item], c.maxSize) ::
                   (x.stamp.None? || now - x.stamp.value < c.maxAge as real / 1000.0) ==> x in young
  {
    var capped := LastN(items + [item], c.maxSize);
    var young := Keep(c, capped, now, true);
    KeepLength(c, capped, now);
    var d := ReliefDropsTenth(c, capped, now);
    forall x
      ensures x in young <==> x in capped && (x.stamp.None? || now - x.stamp.value < c.maxAge as real / 1000.0)
    {
      SurvivesAgeIff(c, capped, now, x);
    }
    hide Keep, Bytes, Young;
    assert AfterAdd(c, items, item, now) == young[d..];
  }

  /** The bounds of every run: an `add` keeps the count limit, never ends with more entries than it
      began with once the memory limit trips, and so keeps 200 bytes an entry within that limit. */
  lemma AddKeepsBounds(c: Config, items: seq<Item>, item: Item, now: real)
    requires ENTRY_OVERHEAD * |items| <= c.MemoryLimit()
    ensures |AfterAdd(c, items, item, now)| <= c.maxSize
    ensures c.OverMemory(Cap(c, items + [item])) ==> |AfterAdd(c, items, item, now)| <= |items|
    ensures ENTRY_OVERHEAD * |AfterAdd(c, items, item, now)| <= c.MemoryLimit()
  {
    var capped := Cap(c, items + [item]);
    BytesAtLeast(capped);
    if c.OverMemory(capped) {
      RelieveShrinks(c, capped, now);
    }
  }

  /** With a limit of zero entries or zero bytes nothing ever stays. */
  lemma NoRoomKeepsNothing(c: Config, item: Item, now: real)
    requires !c.HasRoom()
    ensures AfterAdd(c, [], item, now) == []
  {
    AddKeepsBounds(c, [], item, now);
  }

  /** An `add` loses nothing but the oldest entries over the count exactly when what is then left does not
      trip the memory limit. */
  lemma AddKeepsNewestIff(c: Config, items: seq<Item>, item: Item, now: real)
    ensures AfterAdd(c, items, item, now) == LastN(items + [item], c.maxSize) <==>
            !c.OverMemory(LastN(items + [item], c.maxSize))
  {
    if c.OverMemory(Cap(c, items + [item])) {
      RelieveShrinks(c, Cap(c, items + [item]), now);
    }
  }

  /** One pass of relief need not be enough: two entries of which the newer alone is too big. */
  lemma MemoryLimitExceeded(c: Config, now: real) returns (items: seq<Item>, item: Item)
    requires c.maxSize >= 2 && c.maxMemoryMb >= 1
    ensures |items| <= c.maxSize && !c.OverMemory(items) && c.OverMemory(AfterAdd(c, items, item, now))
  {
    var big := seq(c.MemoryLimit(), (_: int) => 'x');
    var e := LogEntry("", "", "info", "", None, None, None, None, None, None);
    var small := Item(0, e, None);
    item := Item(1, e.(message := big), None);
    items := [small];
    var all := items + [item];
    assert [small][..0] == [] && [item][..0] == [] && all[..1] == [small];
    BytesConcat(items, [item]);
    assert Cap(c, all) == all;
    assert Keep(c, items, now, true) == items;
    assert Keep(c, all, now, true) == all;
    assert Relieve(c, all, now) == [item];
    assert AfterAdd(c, items, item, now) == [item];
  }

  /** The byte limit survives every `add` exactly when the buffer cannot hold two entries. */
  lemma MemoryLimitKeptIffTiny(c: Config, now: real)
    ensures c.maxSize <= 1 || c.maxMemoryMb == 0 <==>
            forall items: seq<Item>, item ::
              |items| <= c.maxSize && !c.OverMemory(items) ==> !c.OverMemory(AfterAdd(c, items, item, now))
  {
    if c.maxSize >= 2 && c.maxMemoryMb >= 1 {
      var items, item := MemoryLimitExceeded(c, now);
    } else {
      forall items: seq<Item>, item | |items| <= c.maxSize && !c.OverMemory(items)
        ensures !c.OverMemory(AfterAdd(c, items, item, now))
      {
        BytesAtLeast(items);
        var capped := Cap(c, items + [item]);
        if c.OverMemory(capped) {
          KeepLength(c, capped, now);
          RelieveShrinks(c, capped, now);
        }
      }
    }
  }

  // -------------------------------------------------------------------------------------------
  // Age-based removal splits the entries

  lemma {:induction false} KeepSplits(c: Config, items: seq<Item>, now: real)
    requires Distinct(items)
    ensures Split(items, Keep(c, items, now, false), Keep(c, items, now, true))
  {
    hide Keep;
    KeepLength(c, items, now);
    KeepMembers(c, items, now, true);
    KeepMembers(c, items, now, false);
    var gone, kept := Keep(c, items, now, false), Keep(c, items, now, true);
    forall i, j | 0 <= i < |gone| && 0 <= j < |kept|
      ensures gone[i].ref != kept[j].ref
    {
      assert gone[i] in gone && kept[j] in kept;
      var m :| 0 <= m < |items| && items[m] == gone[i];
      var n :| 0 <= n < |items| && items[n] == kept[j];
    }
    forall r
      ensures r in Refs(items) <==> r in Refs(gone) + Refs(kept)
    {
      if r in Refs(gone) {
        var i :| 0 <= i < |gone| && gone[i].ref == r;
        assert gone[i] in gone && gone[i] in items;
      }
      if r in Refs(kept) {
        var i :| 0 <= i < |kept| && kept[i].ref == r;
        assert kept[i] in kept && kept[i] in items;
      }
      if r in Refs(items) {
        var i :| 0 <= i < |items| && items[i].ref == r;
        if Young(c, items[i], now) {
          assert items[i] in kept;
        } else {
          assert items[i] in gone;
        }
      }
    }
  }

  lemma {:induction false} KeepMembers(c: Config, items: seq<Item>, now: real, young: bool)
    requires Distinct(items)
    ensures var kept := Keep(c, items, now, young);
            && Distinct(kept)
            && (forall i :: 0 <= i < |items| && Young(c, items[i], now) == young ==> items[i] in kept)
            && (forall k :: k in kept ==> k in items && Young(c, k, now) == young)
  {
    if items == [] {
    } else {
      var before, last := items[..|items| - 1], items[|items| - 1];
      KeepMembers(c, before, now, young);
      var rest := Keep(c, before, now, young);
      forall k | k in rest
        ensures k.ref != last.ref && k in items
      {
        var i :| 0 <= i < |before| && before[i] == k;
        assert items[i] == k;
      }
      assert forall i :: 0 <= i < |before| ==> items[i] == before[i];
    }
  }
}

/** The buffer object. */
module MemoryBuffers {
  import opened Prelude
  import opened Subsequences
  import opened MemoryAccounting
  import opened MemoryTrackers
  import opened BufferPolicy

  class MemoryBuffer {
    const config: Config
    const tracker: MemoryTracker
    var entries: seq<Item>
    var lastFlushTime: real
    var timerArmed: bool
    var callbackSet: bool
    var droppedEntries: nat
    var destroyed: bool

    // The history of a buffer in service: every entry added, every entry handed out by `flush`, and
    // how many were cleared.
    ghost var added: seq<Item>
    ghost var flushed: seq<Item>
    ghost var cleared: nat

    /** The tracker agrees with the plain sums, and each entry added is flushed, dropped, cleared or
        present, the flushed and present ones in the order they came. */
    ghost predicate Consistent()
      reads this, tracker
    {
      && Tracks(tracker.Fields(), entries)
      && |added| == |flushed| + droppedEntries + cleared + |entries|
      && Sub(flushed + entries, added)
    }

    ghost predicate Valid()
      reads this, tracker
    {
      && Consistent()
      && |entries| <= config.maxSize
      && ENTRY_OVERHEAD * |entries| <= config.MemoryLimit()
      && (destroyed ==> entries == [] && !timerArmed)
    }

    constructor (config: Config, now: real)
      ensures Valid() && fresh(this) && fresh(tracker) && this.config == config
      ensures entries == [] == added && flushed == [] && droppedEntries == 0 == cleared
      ensures !destroyed && !callbackSet && timerArmed == config.autoFlush && lastFlushTime == now
    {
      this.config := config;
      tracker := new MemoryTracker();
      entries, lastFlushTime, droppedEntries, destroyed, callbackSet := [], now, 0, false, false;
      timerArmed := config.autoFlush;
      added, flushed, cleared := [], [], 0;
    }

    method SetFlushCallback()
      requires Valid()
      modifies `callbackSet
      ensures Valid() && callbackSet
    {
      callbackSet := true;
    }

    /** `immediate` tells whether a timer for an immediate flush is started. */
    method Add(item: Item, now: real) returns (immediate: bool)
      requires Valid() && item.ref !in Refs(entries)
      modifies this, tracker
      ensures Valid()
      ensures destroyed == old(destroyed) && callbackSet == old(callbackSet)
      ensures flushed == old(flushed) && cleared == old(cleared) && lastFlushTime == old(lastFlushTime)
      ensures old(destroyed) ==>
                entries == [] && added == old(added) && droppedEntries == old(droppedEntries) && !immediate
      ensures !old(destroyed) ==>
                && entries == AfterAdd(config, old(entries), item, now)
                && added == old(added) + [item]
                && droppedEntries == old(droppedEntries) + |old(entries)| + 1 - |entries|
                && timerArmed == (old(timerArmed) || config.autoFlush)
                && immediate == (|entries| >= config.maxSize && config.autoFlush && callbackSet)
    {
      if destroyed {
        return false;
      }
      AddKeepsBounds(config, entries, item, now);
      Store(item, now);
      if config.autoFlush {
        ScheduleFlush();
      }
      immediate := |entries| >= config.maxSize && config.autoFlush && !destroyed && callbackSet;
    }

    method Flush(now: real) returns (batch: seq<Item>)
      requires Valid()
      modifies this, tracker
      ensures Valid()
      ensures batch == old(entries) && entries == []
      ensures flushed == old(flushed) + batch
      ensures added == old(added) && cleared == old(cleared) && droppedEntries == old(droppedEntries)
      ensures destroyed == old(destroyed) && callbackSet == old(callbackSet)
      ensures timerArmed == (config.autoFlush && !destroyed) && lastFlushTime == now
    {
      hide Sub, Tracks, ForgetAll;
      timerArmed := false;
      batch := entries;
      ForgetEverything();
      tracker.RemoveEntries(batch);
      flushed := flushed + batch;
      entries := [];
      assert flushed + entries == old(flushed + entries);
      lastFlushTime := now;
      if config.autoFlush && !destroyed {
        ScheduleFlush();
      }
    }

    method Clear()
      requires Valid()
      modifies this, tracker
      ensures Valid() && entries == [] && !timerArmed
      ensures cleared == old(cleared) + |old(entries)|
      ensures added == old(added) && flushed == old(flushed) && droppedEntries == old(droppedEntries)
      ensures destroyed == old(destroyed) && callbackSet == old(callbackSet)
    {
      ForgetEverything();
      ShrinkTo([]);
      tracker.RemoveEntries(entries);
      cleared := cleared + |entries|;
      entries := [];
      timerArmed := false;
    }

    method Destroy()
      requires Valid()
      modifies this, tracker
      ensures Valid() && destroyed && !callbackSet && entries == []
      ensures cleared == old(cleared) + |old(entries)|
      ensures added == old(added) && flushed == old(flushed) && droppedEntries == old(droppedEntries)
    {
      Clear();
      destroyed, callbackSet := true, false;
      tracker.Reset();
      assert Refs(entries) == {};
    }

    /** The flush timer fires: is the flush callback due? */
    method OnTimer() returns (due: bool)
      requires Valid()
      modifies `timerArmed
      ensures Valid() && !timerArmed
      ensures due <==> !destroyed && callbackSet && entries != []
    {
      timerArmed := false;
      if destroyed {
        return false;
      }
      return callbackSet && entries != [];
    }

    method ScheduleFlush()
      modifies `timerArmed
      ensures timerArmed == (old(timerArmed) || !destroyed)
    {
      if destroyed || timerArmed {
        return;
      }
      timerArmed := true;
    }

    /** The part of `add` that changes the entries. */
    method Store(item: Item, now: real)
      requires Consistent() && item.ref !in Refs(entries)
      modifies `entries, `added, `droppedEntries, tracker
      ensures Consistent()
      ensures entries == AfterAdd(config, old(entries), item, now) && added == old(added) + [item]
      ensures droppedEntries == old(droppedEntries) + |old(entries)| + 1 - |entries|
    {
      Append(item);
      EnforceMaxSize();
      if tracker.totalSize > config.maxMemoryMb * 1024 * 1024 {
        RemoveOldEntries(now);
        EnforceMaxSize();
      }
    }

    method Append(item: Item)
      requires Consistent() && item.ref !in Refs(entries)
      modifies `entries, `added, tracker
      ensures Consistent()
      ensures entries == old(entries) + [item] && added == old(added) + [item]
    {
      NoteTracks(tracker.Fields(), entries, item);
      SubSnoc(flushed + entries, added, item);
      assert flushed + entries + [item] == flushed + (entries + [item]);
      entries := entries + [item];
      tracker.AddEntry(item);
      added := added + [item];
    }

    method EnforceMaxSize()
      requires Consistent()
      modifies `entries, `droppedEntries, tracker
      ensures Consistent()
      ensures entries == Cap(config, old(entries))
      ensures droppedEntries == old(droppedEntries) + |old(entries)| - |entries|
    {
      if |entries| <= config.maxSize {
        return;
      }
      DropOldestEntries(|entries| - config.maxSize);
    }

    method DropOldestEntries(count: nat)
      requires Consistent()
      modifies `entries, `droppedEntries, tracker
      ensures Consistent()
      ensures entries == DropOldest(old(entries), count)
      ensures droppedEntries == old(droppedEntries) + |old(entries)| - |entries|
    {
      if count <= 0 || entries == [] {
        return;
      }
      var k := Min(count, |entries|);
      SplitAt(entries, k);
      ForgetSplit(tracker.Fields(), entries, entries[..k], entries[k..]);
      SubSuffix(entries, k);
      ShrinkTo(entries[k..]);

      var dropped := entries[..k];
      entries := entries[k..];
      tracker.RemoveEntries(dropped);
      droppedEntries := droppedEntries + |dropped|;
    }

    method RemoveOldEntries(now: real)
      requires Consistent()
      modifies `entries, `droppedEntries, tracker
      ensures Consistent()
      ensures entries == Relieve(config, old(entries), now)
      ensures droppedEntries == old(droppedEntries) + |old(entries)| - |entries|
    {
      RemoveAged(now);
      if tracker.totalSize > config.maxMemoryMb * 1024 * 1024 && entries != [] {
        DropOldestEntries(Max(1, |entries| / 10));
      }
    }

    /** The first half of `_remove_old_entries`: whatever has reached the age limit goes. */
    method RemoveAged(now: real)
      requires Consistent()
      modifies `entries, `droppedEntries, tracker
      ensures Consistent()
      ensures entries == Keep(config, old(entries), now, true)
      ensures droppedEntries == old(droppedEntries) + |old(entries)| - |entries|
    {
      hide Sub, Tracks, ForgetAll, Keep;
      var kept, removed := Partition(now);
      ForgetAged(now);
      entries := kept;
      if removed != [] {
        tracker.RemoveEntries(removed);
        droppedEntries := droppedEntries + |removed|;
      }
    }

    method Partition(now: real) returns (kept: seq<Item>, removed: seq<Item>)
      ensures kept == Keep(config, entries, now, true)
      ensures removed == Keep(config, entries, now, false)
    {
      var maxAge := config.maxAge as real / 1000.0;
      kept, removed := [], [];
      for i := 0 to |entries|
        invariant kept == Keep(config, entries[..i], now, true)
        invariant removed == Keep(config, entries[..i], now, false)
      {
        assert entries[..i + 1][..i] == entries[..i];
        var entry := entries[i];
        if entry.stamp.None? || now - entry.stamp.value < maxAge {
          kept := kept + [entry];
        } else {
          removed := removed + [entry];
        }
      }
      assert entries[..|entries|] == entries;
    }

    /** Leaving out entries keeps the history a subsequence of what was added. */
    lemma ShrinkTo(kept: seq<Item>)
      requires Sub(flushed + entries, added) && Sub(kept, entries)
      ensures Sub(flushed + kept, added)
    {
      SubPrefix(flushed, kept, entries);
      SubTrans(flushed + kept, flushed + entries, added);
    }

    lemma ForgetAged(now: real)
      requires Consistent()
      ensures var kept, removed := Keep(config, entries, now, true), Keep(config, entries, now, false);
              && Tracks(ForgetAll(tracker.Fields(), removed), kept)
              && (removed == [] ==> Tracks(tracker.Fields(), kept))
              && Sub(flushed + kept, added) && |kept| + |removed| == |entries|
    {
      var kept, removed := Keep(config, entries, now, true), Keep(config, entries, now, false);
      assert ForgetAll(tracker.Fields(), []) == tracker.Fields();
      assert Distinct(entries);
      hide Sub, Tracks, ForgetAll, Keep, Split;
      KeepLength(config, entries, now);
      KeepSplits(config, entries, now);
      ForgetSplit(tracker.Fields(), entries, removed, kept);
      KeepIsSub(config, entries, now, true);
      ShrinkTo(kept);
    }

    lemma ForgetEverything()
      requires Tracks(tracker.Fields(), entries)
      ensures Tracks(ForgetAll(tracker.Fields(), entries), [])
    {
      SplitAt(entries, |entries|);
      assert entries[..|entries|] == entries && entries[|entries|..] == [];
      ForgetSplit(tracker.Fields(), entries, entries, []);
    }
  }
}
