/**
  What redaction does not reach: a list inside a list is passed on unread, with everything below it. The
  traversal reads exactly the dictionaries it can get to, so that is also all it misses.
 */
module SanitizerReach {
  import opened Sanitizers

  // -------------------------------------------------------------------------------------------
  // Where the traversal goes

  /** The dictionaries it reads next, and the lists it passes on unread: from a list, from a value, and from
      the fields of a dictionary. */
  datatype Ways = Ways(dicts: set<nat>, lists: set<nat>) {
    function Plus(other: Ways): Ways {
      Ways(dicts + other.dicts, lists + other.lists)
    }
  }

  const NOWHERE := Ways({}, {})

  function ItemWays(items: seq<Value>): Ways {
    if items == [] then NOWHERE
    else
      var last := items[|items| - 1];
      ItemWays(items[..|items| - 1])
        .Plus(Ways(if last.DictRef? then {last.dict} else {}, if last.ListRef? then {last.list} else {}))
  }

  function ValueWays(p: Patterns, h: Heap, key: string, value: Value): Ways
    requires Known(h, value)
  {
    if p.configured(key) then NOWHERE
    else
      match value
      case ListRef(l) => ItemWays(h.lists[l])
      case DictRef(d) => Ways({d}, {})
      case _ => NOWHERE
  }

  function FieldWays(p: Patterns, h: Heap, fields: Fields): Ways
    requires forall i :: 0 <= i < |fields| ==> Known(h, fields[i].1)
  {
    if fields == [] then NOWHERE
    else
      var (key, value) := fields[|fields| - 1];
      FieldWays(p, h, fields[..|fields| - 1]).Plus(ValueWays(p, h, key, value))
  }

  function DictWays(p: Patterns, h: Heap, d: nat): Ways
    requires Closed(h)
  {
    if d in h.dicts then FieldWays(p, h, h.dicts[d]) else NOWHERE
  }

  /** `e` is reached from `d` in `n` such steps. */
  predicate Leads(p: Patterns, h: Heap, d: nat, e: nat, n: nat)
    requires Closed(h)
    decreases n
  {
    if n == 0 then d == e else exists f :: f in DictWays(p, h, d).dicts && Leads(p, h, f, e, n - 1)
  }

  ghost predicate Reaches(p: Patterns, h: Heap, d: nat, e: nat)
    requires Closed(h)
  {
    exists n: nat :: Leads(p, h, d, e, n)
  }

  // -------------------------------------------------------------------------------------------
  // What the result passes on

  /** The lists that a tree holds unread. */
  function Unread(t: Tree): set<nat>
    decreases t, 0
  {
    match t
    case Plain(_) => {}
    case List(items) => UnreadOfItems(items)
    case Dict(fields) => UnreadOfFields(fields)
    case Raw(v) => if v.ListRef? then {v.list} else {}
  }

  function UnreadOfItems(items: seq<Tree>): set<nat>
    decreases items, 1
  {
    if items == [] then {} else UnreadOfItems(items[..|items| - 1]) + Unread(items[|items| - 1])
  }

  function UnreadOfFields(fields: TreeFields): set<nat>
    decreases fields, 1
  {
    if fields == [] then {} else UnreadOfFields(fields[..|fields| - 1]) + Unread(fields[|fields| - 1].tree)
  }

  /** What a stretch of the traversal does, that sets out on the ways `w`: it reads the dictionaries those
      lead to, leaves no way from one that it reads, and passes on the lists it finds on the way. */
  ghost predicate Visits(p: Patterns, h: Heap, seen: set<nat>, seen': set<nat>, w: Ways, unread: set<nat>)
    requires Closed(h)
  {
    && seen <= seen' && w.dicts <= seen'
    && (forall e :: e in seen' - seen ==> DictWays(p, h, e).dicts <= seen')
    && (forall e :: e in seen' - seen ==> exists f :: f in w.dicts && Reaches(p, h, f, e))
    && (forall m :: m in unread <==> m in w.lists || exists e :: e in seen' - seen && m in DictWays(p, h, e).lists)
  }

  lemma VisitsNothing(p: Patterns, h: Heap, seen: set<nat>)
    requires Closed(h)
    ensures Visits(p, h, seen, seen, NOWHERE, {})
  {
  }

  lemma VisitsThen(p: Patterns, h: Heap, seen: set<nat>, seen1: set<nat>, seen2: set<nat>, w1: Ways, w2: Ways,
                   unread1: set<nat>, unread2: set<nat>)
    requires Closed(h) && Visits(p, h, seen, seen1, w1, unread1) && Visits(p, h, seen1, seen2, w2, unread2)
    ensures Visits(p, h, seen, seen2, w1.Plus(w2), unread1 + unread2)
  {
    hide DictWays, Reaches;
    forall e | e in seen2 - seen
      ensures DictWays(p, h, e).dicts <= seen2 && exists f :: f in w1.Plus(w2).dicts && Reaches(p, h, f, e)
    {
      if e in seen1 {
        assert e in seen1 - seen;
        var f :| f in w1.dicts && Reaches(p, h, f, e);
        assert f in w1.Plus(w2).dicts;
      } else {
        assert e in seen2 - seen1;
        var f :| f in w2.dicts && Reaches(p, h, f, e);
        assert f in w1.Plus(w2).dicts;
      }
    }
    forall m
      ensures m in unread1 + unread2 <==>
              m in w1.Plus(w2).lists || exists e :: e in seen2 - seen && m in DictWays(p, h, e).lists
    {
      if e :| e in seen2 - seen && m in DictWays(p, h, e).lists {
        assert e in seen1 - seen || e in seen2 - seen1;
      }
    }
  }

  lemma {:induction false} DictVisits(p: Patterns, h: Heap, d: nat, seen: set<nat>)
    requires Closed(h) && d in h.dicts
    ensures var r := SanitizeDict(p, h, d, seen);
            Visits(p, h, seen, r.1, Ways({d}, {}), UnreadOfFields(r.0))
    decreases h.dicts.Keys - seen, 0, 0
  {
    if d in seen {
      assert UnreadOfFields([TreeField(CIRCULAR, Plain(REDACTED))]) == {} by {
        assert [TreeField(CIRCULAR, Plain(REDACTED))][..0] == [];
      }
    } else {
      FieldsVisit(p, h, h.dicts[d], seen + {d});
      var r := SanitizeDict(p, h, d, seen);
      DictIsVisited(p, h, d, seen, r.1, UnreadOfFields(r.0));
    }
  }

  lemma DictIsVisited(p: Patterns, h: Heap, d: nat, seen: set<nat>, seen': set<nat>, unread: set<nat>)
    requires Closed(h) && d in h.dicts && d !in seen
    requires Visits(p, h, seen + {d}, seen', DictWays(p, h, d), unread)
    ensures Visits(p, h, seen, seen', Ways({d}, {}), unread)
  {
    hide DictWays;
    forall e | e in seen' - seen
      ensures Reaches(p, h, d, e)
    {
      if e == d {
        assert Leads(p, h, d, d, 0);
      } else {
        assert e in seen' - (seen + {d});
        var f :| f in DictWays(p, h, d).dicts && Reaches(p, h, f, e);
        var n: nat :| Leads(p, h, f, e, n);
        assert Leads(p, h, d, e, n + 1);
      }
    }
    forall m
      ensures m in unread <==> exists e :: e in seen' - seen && m in DictWays(p, h, e).lists
    {
      if m in DictWays(p, h, d).lists {
        assert d in seen' - seen;
      }
    }
  }

  lemma {:induction false} FieldsVisit(p: Patterns, h: Heap, fields: Fields, seen: set<nat>)
    requires Closed(h) && forall i :: 0 <= i < |fields| ==> Known(h, fields[i].1)
    ensures var r := SanitizeFields(p, h, fields, seen);
            Visits(p, h, seen, r.1, FieldWays(p, h, fields), UnreadOfFields(r.0))
    decreases h.dicts.Keys - seen, 3, |fields|
  {
    hide Visits, SanitizeValue, ValueWays, Unread;
    if fields == [] {
      VisitsNothing(p, h, seen);
    } else {
      var n := |fields| - 1;
      var (key, value) := fields[n];
      var (before, seen1) := SanitizeFields(p, h, fields[..n], seen);
      var (tree, seen2) := SanitizeValue(p, h, key, value, seen1);
      FieldsVisit(p, h, fields[..n], seen);
      ValueVisits(p, h, key, value, seen1);
      assert (before + [TreeField(key, tree)])[..|before|] == before;
      VisitsThen(p, h, seen, seen1, seen2, FieldWays(p, h, fields[..n]), ValueWays(p, h, key, value),
                 UnreadOfFields(before), Unread(tree));
    }
  }

  lemma {:induction false} ValueVisits(p: Patterns, h: Heap, key: string, value: Value, seen: set<nat>)
    requires Closed(h) && Known(h, value)
    ensures var r := SanitizeValue(p, h, key, value, seen);
            Visits(p, h, seen, r.1, ValueWays(p, h, key, value), Unread(r.0))
    decreases h.dicts.Keys - seen, 2, 0
  {
    hide Visits;
    VisitsNothing(p, h, seen);
    if !p.configured(key) {
      match value
      case ListRef(l) => ItemsVisit(p, h, h.lists[l], seen);
      case DictRef(d) => DictVisits(p, h, d, seen);
      case _ =>
    }
  }

  lemma {:induction false} ItemsVisit(p: Patterns, h: Heap, items: seq<Value>, seen: set<nat>)
    requires Closed(h) && forall i :: 0 <= i < |items| ==> Known(h, items[i])
    ensures var r := SanitizeItems(p, h, items, seen);
            Visits(p, h, seen, r.1, ItemWays(items), UnreadOfItems(r.0))
    decreases h.dicts.Keys - seen, 1, |items|
  {
    hide Visits, SanitizeItem, Unread;
    if items == [] {
      VisitsNothing(p, h, seen);
    } else {
      var n := |items| - 1;
      var (before, seen1) := SanitizeItems(p, h, items[..n], seen);
      var (tree, seen2) := SanitizeItem(p, h, items[n], seen1);
      ItemsVisit(p, h, items[..n], seen);
      ItemVisits(p, h, items[n], seen1);
      assert (before + [tree])[..|before|] == before;
      VisitsThen(p, h, seen, seen1, seen2, ItemWays(items[..n]), OneWay(items[n]), UnreadOfItems(before), Unread(tree));
    }
  }

  function OneWay(item: Value): Ways {
    Ways(if item.DictRef? then {item.dict} else {}, if item.ListRef? then {item.list} else {})
  }

  lemma {:induction false} ItemVisits(p: Patterns, h: Heap, item: Value, seen: set<nat>)
    requires Closed(h) && Known(h, item)
    ensures var r := SanitizeItem(p, h, item, seen);
            Visits(p, h, seen, r.1, OneWay(item), Unread(r.0))
    decreases h.dicts.Keys - seen, 0, 1
  {
    match item
    case DictRef(d) => DictVisits(p, h, d, seen);
    case _ =>
  }

  // -------------------------------------------------------------------------------------------
  // From the start, everything that can be reached is read

  lemma {:induction false} ReachedIsSeen(p: Patterns, h: Heap, d: nat, e: nat, n: nat, seen: set<nat>)
    requires Closed(h) && d in seen && Leads(p, h, d, e, n)
    requires forall f :: f in seen ==> DictWays(p, h, f).dicts <= seen
    ensures e in seen
    decreases n
  {
    if n == 0 {
    } else {
      var f :| f in DictWays(p, h, d).dicts && Leads(p, h, f, e, n - 1);
      ReachedIsSeen(p, h, f, e, n - 1, seen);
    }
  }

  /** The lists passed on are exactly those found inside a list that a reached dictionary holds under a key
      that is not sensitive. */
  lemma UnreadIff(p: Patterns, h: Heap, d: nat, m: nat)
    requires Closed(h) && d in h.dicts
    ensures m in UnreadOfFields(SanitizeDict(p, h, d, {}).0) <==>
            exists e :: Reaches(p, h, d, e) && m in DictWays(p, h, e).lists
  {
    hide DictWays, UnreadOfFields, SanitizeDict;
    DictVisits(p, h, d, {});
    var seen := SanitizeDict(p, h, d, {}).1;
    if e :| Reaches(p, h, d, e) && m in DictWays(p, h, e).lists {
      var n: nat :| Leads(p, h, d, e, n);
      ReachedIsSeen(p, h, d, e, n, seen);
      assert e in seen - {};
    }
    if e :| e in seen - {} && m in DictWays(p, h, e).lists {
      var f :| f in {d} && Reaches(p, h, f, e);
    }
  }

  // -------------------------------------------------------------------------------------------
  // What can be read off a result

  /** A text is the value itself or a value somewhere below it, at most `n` containers deep. */
  predicate ReadsWithin(h: Heap, v: Value, s: string, n: nat)
    decreases n
  {
    match v
    case Text(t) => t == s
    case ListRef(l) =>
      n > 0 && l in h.lists && exists i :: 0 <= i < |h.lists[l]| && ReadsWithin(h, h.lists[l][i], s, n - 1)
    case DictRef(d) =>
      n > 0 && d in h.dicts && exists i :: 0 <= i < |h.dicts[d]| && ReadsWithin(h, h.dicts[d][i].1, s, n - 1)
    case Other(_) => false
  }

  ghost predicate Reads(h: Heap, v: Value, s: string) {
    exists n: nat :: ReadsWithin(h, v, s, n)
  }

  /** The same for a result, whose unread lists are still those of the heap. */
  ghost predicate TreeReads(h: Heap, t: Tree, s: string)
    decreases t, 0
  {
    match t
    case Plain(x) => x == s
    case List(items) => exists i :: 0 <= i < |items| && TreeReads(h, items[i], s)
    case Dict(fields) => FieldsRead(h, fields, s)
    case Raw(v) => Reads(h, v, s)
  }

  ghost predicate FieldsRead(h: Heap, fields: TreeFields, s: string)
    decreases fields, 1
  {
    exists i :: 0 <= i < |fields| && TreeReads(h, fields[i].tree, s)
  }

  /** A text that should not be there. */
  predicate Secret(p: Patterns, s: string) {
    p.Detects(s) && s != REDACTED
  }

  ghost predicate ListsRead(h: Heap, lists: set<nat>, s: string) {
    exists m :: m in lists && Reads(h, ListRef(m), s)
  }

  lemma ListsReadUnion(h: Heap, a: set<nat>, b: set<nat>, s: string)
    ensures ListsRead(h, a + b, s) <==> ListsRead(h, a, s) || ListsRead(h, b, s)
  {
    hide Reads;
    if m :| m in a && Reads(h, ListRef(m), s) {
      assert m in a + b;
    }
    if m :| m in b && Reads(h, ListRef(m), s) {
      assert m in a + b;
    }
  }

  lemma ReadsOther(h: Heap, v: Value, s: string)
    requires v.Other?
    ensures !Reads(h, v, s)
  {
  }

  /** Off a clean value a secret can be read only through a list left unread. */
  lemma {:induction false} ItemReadsIff(p: Patterns, h: Heap, t: Tree, s: string)
    requires CleanItem(p, t) && Secret(p, s)
    ensures TreeReads(h, t, s) <==> ListsRead(h, Unread(t), s)
    decreases t, 0
  {
    hide Reads;
    match t
    case Plain(_) =>
    case Dict(fields) => FieldsReadIff(p, h, fields, s);
    case Raw(v) =>
      if v.Other? {
        ReadsOther(h, v, s);
      }
  }

  lemma {:induction false} ValueReadsIff(p: Patterns, h: Heap, key: string, t: Tree, s: string)
    requires CleanValue(p, key, t) && Secret(p, s)
    ensures TreeReads(h, t, s) <==> ListsRead(h, Unread(t), s)
    decreases t, 0
  {
    hide Reads;
    match t
    case Plain(_) =>
    case List(items) => ItemsReadIff(p, h, items, s);
    case Dict(fields) => FieldsReadIff(p, h, fields, s);
    case Raw(v) => ReadsOther(h, v, s);
  }

  lemma {:induction false} ItemsReadIff(p: Patterns, h: Heap, items: seq<Tree>, s: string)
    requires (forall i :: 0 <= i < |items| ==> CleanItem(p, items[i])) && Secret(p, s)
    ensures (exists i :: 0 <= i < |items| && TreeReads(h, items[i], s)) <==> ListsRead(h, UnreadOfItems(items), s)
    decreases items, 1
  {
    hide TreeReads, ListsRead, Unread, CleanItem;
    if items == [] {
      NoListsRead(h, s);
    } else {
      var n := |items| - 1;
      ItemsReadIff(p, h, items[..n], s);
      ItemReadsIff(p, h, items[n], s);
      ListsReadUnion(h, UnreadOfItems(items[..n]), Unread(items[n]), s);
      if i :| 0 <= i < |items[..n]| && TreeReads(h, items[..n][i], s) {
        assert TreeReads(h, items[i], s);
      }
      if i :| 0 <= i < |items| && TreeReads(h, items[i], s) {
        assert i < n ==> TreeReads(h, items[..n][i], s);
      }
    }
  }

  lemma {:induction false} FieldsReadIff(p: Patterns, h: Heap, fields: TreeFields, s: string)
    requires CleanFields(p, fields) && Secret(p, s)
    ensures FieldsRead(h, fields, s) <==> ListsRead(h, UnreadOfFields(fields), s)
    decreases fields, 1
  {
    hide TreeReads, ListsRead, Unread, CleanValue;
    if fields == [] {
      NoListsRead(h, s);
    } else {
      var n := |fields| - 1;
      FieldsReadIff(p, h, fields[..n], s);
      ValueReadsIff(p, h, fields[n].key, fields[n].tree, s);
      ListsReadUnion(h, UnreadOfFields(fields[..n]), Unread(fields[n].tree), s);
      if i :| 0 <= i < |fields[..n]| && TreeReads(h, fields[..n][i].tree, s) {
        assert TreeReads(h, fields[i].tree, s);
      }
      if i :| 0 <= i < |fields| && TreeReads(h, fields[i].tree, s) {
        assert i < n ==> TreeReads(h, fields[..n][i].tree, s);
      }
    }
  }

  lemma NoListsRead(h: Heap, s: string)
    ensures !ListsRead(h, {}, s)
  {
  }

  // -------------------------------------------------------------------------------------------
  // Main results

  /** A secret can be read off a result exactly if one lies below a list inside a list that a reached
      dictionary holds under a key that is not sensitive. */
  lemma SecretRemainsIff(p: Patterns, h: Heap, d: nat, s: string)
    requires Closed(h) && d in h.dicts && Secret(p, s)
    ensures FieldsRead(h, SanitizeDict(p, h, d, {}).0, s) <==>
            exists e, m :: Reaches(p, h, d, e) && m in DictWays(p, h, e).lists && Reads(h, ListRef(m), s)
  {
    hide Reads, Reaches, DictWays, UnreadOfFields, SanitizeDict, CleanFields, FieldsRead;
    var fields := SanitizeDict(p, h, d, {}).0;
    DictIsClean(p, h, d, {});
    FieldsReadIff(p, h, fields, s);
    forall m
      ensures m in UnreadOfFields(fields) <==> exists e :: Reaches(p, h, d, e) && m in DictWays(p, h, e).lists
    {
      UnreadIff(p, h, d, m);
    }
  }

  /** The patterns for which no result ever holds a secret. */
  ghost predicate NeverMisses(p: Patterns) {
    forall h: Heap, d, s | Closed(h) && d in h.dicts && Secret(p, s) :: !FieldsRead(h, SanitizeDict(p, h, d, {}).0, s)
  }

  /** A dictionary that holds, under one key, a list of one list of one text. */
  function NestedList(key: string, s: string): Heap {
    Heap(map[0 := [(key, ListRef(0))]], map[0 := [ListRef(1)], 1 := [Text(s)]])
  }

  lemma NestedListKeepsSecret(p: Patterns, key: string, s: string)
    requires !p.configured(key) && Secret(p, s)
    ensures Closed(NestedList(key, s))
    ensures FieldsRead(NestedList(key, s), SanitizeDict(p, NestedList(key, s), 0, {}).0, s)
  {
    var h := NestedList(key, s);
    NestedWays(p, key, s);
    assert Leads(p, h, 0, 0, 0) && Reaches(p, h, 0, 0);
    assert ReadsWithin(h, h.lists[1][0], s, 0);
    assert ReadsWithin(h, ListRef(1), s, 1) && Reads(h, ListRef(1), s);
    hide DictWays, SanitizeDict, FieldsRead;
    SecretRemainsIff(p, h, 0, s);
  }

  lemma NestedWays(p: Patterns, key: string, s: string)
    requires !p.configured(key)
    ensures Closed(NestedList(key, s)) && DictWays(p, NestedList(key, s), 0).lists == {1}
  {
    var h := NestedList(key, s);
    assert h.dicts[0][..0] == [] && h.lists[0][..0] == [];
    assert h.dicts[0][0] == (key, ListRef(0)) && h.lists[0] == [ListRef(1)];
    assert ItemWays(h.lists[0]).lists == {} + {1};
    assert FieldWays(p, h, h.dicts[0]).lists == {} + ItemWays(h.lists[0]).lists;
  }

  /** That is so exactly if every key is sensitive, or nothing but the mark itself is detected. */
  lemma NeverMissesIff(p: Patterns)
    ensures NeverMisses(p) <==> (forall key :: p.configured(key)) || (forall s :: !Secret(p, s))
  {
    if key, s :| !p.configured(key) && Secret(p, s) {
      NestedListKeepsSecret(p, key, s);
    } else {
      forall h: Heap, d, s | Closed(h) && d in h.dicts && Secret(p, s)
        ensures !FieldsRead(h, SanitizeDict(p, h, d, {}).0, s)
      {
        SecretRemainsIff(p, h, d, s);
        forall e
          ensures DictWays(p, h, e).lists == {}
        {
          if e in h.dicts {
            SensitiveKeysLeadNowhere(p, h, h.dicts[e]);
          }
        }
      }
    }
  }

  lemma {:induction false} SensitiveKeysLeadNowhere(p: Patterns, h: Heap, fields: Fields)
    requires (forall key :: p.configured(key)) && forall i :: 0 <= i < |fields| ==> Known(h, fields[i].1)
    ensures FieldWays(p, h, fields) == NOWHERE
  {
    if fields == [] {
    } else {
      SensitiveKeysLeadNowhere(p, h, fields[..|fields| - 1]);
    }
  }
}
