/**
  Redaction of a log context: a graph of dictionaries and lists, possibly cyclic, becomes a tree of
  new ones.
 */
module Sanitizers {

  /** A Python value: text, a list or a dictionary by identity, or anything else. */
  datatype Value = Text(s: string) | ListRef(list: nat) | DictRef(dict: nat) | Other(token: int)

  type Fields = seq<(string, Value)>

  /** The contents of every dictionary and list. */
  datatype Heap = Heap(dicts: map<nat, Fields>, lists: map<nat, seq<Value>>)

  predicate Known(h: Heap, v: Value) {
    (v.ListRef? ==> v.list in h.lists) && (v.DictRef? ==> v.dict in h.dicts)
  }

  /** References lead somewhere. */
  predicate Closed(h: Heap) {
    && (forall d :: d in h.dicts ==> forall i :: 0 <= i < |h.dicts[d]| ==> Known(h, h.dicts[d][i].1))
    && (forall l :: l in h.lists ==> forall i :: 0 <= i < |h.lists[l]| ==> Known(h, h.lists[l][i]))
  }

  /** The regular expressions: whether one of the configured patterns, or one of the built-in ones,
      matches somewhere in a text. */
  datatype Patterns = Patterns(configured: string -> bool, common: string -> bool) {
    predicate Detects(text: string) {
      configured(text) || common(text)
    }
  }

  const REDACTED := "[REDACTED]"
  const CIRCULAR := "_circular"

  /** The result: new dictionaries and lists, with whatever was not text, list or dictionary as it was. */
  datatype Tree = Plain(s: string) | List(items: seq<Tree>) | Dict(fields: seq<TreeField>) | Raw(v: Value)

  datatype TreeField = TreeField(key: string, tree: Tree)

  type TreeFields = seq<TreeField>

  function CleanText(p: Patterns, s: string): Tree {
    Plain(if p.Detects(s) then REDACTED else s)
  }

  // -------------------------------------------------------------------------------------------
  // The traversal; each function also returns the dictionaries seen when it is done

  function SanitizeDict(p: Patterns, h: Heap, d: nat, seen: set<nat>): (r: (TreeFields, set<nat>))
    requires Closed(h) && d in h.dicts
    ensures seen <= r.1
    decreases h.dicts.Keys - seen, 0, 0
  {
    if d in seen then ([TreeField(CIRCULAR, Plain(REDACTED))], seen)
    else SanitizeFields(p, h, h.dicts[d], seen + {d})
  }

  function SanitizeFields(p: Patterns, h: Heap, fields: Fields, seen: set<nat>): (r: (TreeFields, set<nat>))
    requires Closed(h) && forall i :: 0 <= i < |fields| ==> Known(h, fields[i].1)
    ensures seen <= r.1 && |r.0| == |fields|
    decreases h.dicts.Keys - seen, 3, |fields|
  {
    if fields == [] then ([], seen)
    else
      var (before, seen1) := SanitizeFields(p, h, fields[..|fields| - 1], seen);
      var (key, value) := fields[|fields| - 1];
      var (tree, seen2) := SanitizeValue(p, h, key, value, seen1);
      (before + [TreeField(key, tree)], seen2)
  }

  function SanitizeValue(p: Patterns, h: Heap, key: string, value: Value, seen: set<nat>): (r: (Tree, set<nat>))
    requires Closed(h) && Known(h, value)
    ensures seen <= r.1
    decreases h.dicts.Keys - seen, 2, 0
  {
    if p.configured(key) then (Plain(REDACTED), seen)
    else
      match value
      case Text(s) => (CleanText(p, s), seen)
      case ListRef(l) => var (items, seen') := SanitizeItems(p, h, h.lists[l], seen); (List(items), seen')
      case DictRef(d) => var (fields, seen') := SanitizeDict(p, h, d, seen); (Dict(fields), seen')
      case Other(_) => (Raw(value), seen)
  }

  function SanitizeItems(p: Patterns, h: Heap, items: seq<Value>, seen: set<nat>): (r: (seq<Tree>, set<nat>))
    requires Closed(h) && forall i :: 0 <= i < |items| ==> Known(h, items[i])
    ensures seen <= r.1
    decreases h.dicts.Keys - seen, 1, |items|
  {
    if items == [] then ([], seen)
    else
      var (before, seen1) := SanitizeItems(p, h, items[..|items| - 1], seen);
      var (tree, seen2) := SanitizeItem(p, h, items[|items| - 1], seen1);
      (before + [tree], seen2)
  }

  /** A list inside a list is passed on unread. */
  function SanitizeItem(p: Patterns, h: Heap, item: Value, seen: set<nat>): (r: (Tree, set<nat>))
    requires Closed(h) && Known(h, item)
    ensures seen <= r.1
    decreases h.dicts.Keys - seen, 0, 1
  {
    match item
    case Text(s) => (CleanText(p, s), seen)
    case DictRef(d) => var (fields, seen') := SanitizeDict(p, h, d, seen); (Dict(fields), seen')
    case _ => (Raw(item), seen)
  }

  method SanitizeData(p: Patterns, h: Heap, d: nat, seen: set<nat>) returns (sanitized: TreeFields, seen': set<nat>)
    requires Closed(h) && d in h.dicts
    ensures (sanitized, seen') == SanitizeDict(p, h, d, seen)
    decreases h.dicts.Keys - seen, 0
  {
    if d in seen {
      return [TreeField(CIRCULAR, Plain(REDACTED))], seen;
    }
    sanitized, seen' := [], seen + {d};
    var data := h.dicts[d];
    for i := 0 to |data|
      invariant (sanitized, seen') == SanitizeFields(p, h, data[..i], seen + {d})
      invariant seen + {d} <= seen'
    {
      assert data[..i + 1][..i] == data[..i];
      var (key, value) := data[i];
      var tree;
      if p.configured(key) {
        tree := Plain(REDACTED);
      } else {
        match value {
          case Text(s) => tree := CleanText(p, s);
          case ListRef(l) => tree, seen' := SanitizeList(p, h, h.lists[l], seen');
          case DictRef(child) =>
            var fields;
            fields, seen' := SanitizeData(p, h, child, seen');
            tree := Dict(fields);
          case Other(_) => tree := Raw(value);
        }
      }
      sanitized := sanitized + [TreeField(key, tree)];
    }
    assert data[..|data|] == data;
  }

  method SanitizeList(p: Patterns, h: Heap, items: seq<Value>, seen: set<nat>) returns (tree: Tree, seen': set<nat>)
    requires Closed(h) && forall i :: 0 <= i < |items| ==> Known(h, items[i])
    ensures (var r := SanitizeItems(p, h, items, seen); tree == List(r.0) && seen' == r.1)
    decreases h.dicts.Keys - seen, |items|
  {
    var transformed: seq<Tree> := [];
    seen' := seen;
    for i := 0 to |items|
      invariant (transformed, seen') == SanitizeItems(p, h, items[..i], seen)
      invariant seen <= seen'
    {
      assert items[..i + 1][..i] == items[..i];
      match items[i] {
        case Text(s) => transformed := transformed + [CleanText(p, s)];
        case DictRef(child) =>
          var fields;
          fields, seen' := SanitizeData(p, h, child, seen');
          transformed := transformed + [Dict(fields)];
        case _ => transformed := transformed + [Raw(items[i])];
      }
    }
    assert items[..|items|] == items;
    tree := List(transformed);
  }

  // -------------------------------------------------------------------------------------------
  // What the result promises

  predicate CleanString(p: Patterns, s: string) {
    s == REDACTED || !p.Detects(s)
  }

  /** Every text is redacted or undetected, and every value under a sensitive key is redacted. */
  predicate CleanFields(p: Patterns, fields: TreeFields)
    decreases fields, 1
  {
    forall i :: 0 <= i < |fields| ==> CleanValue(p, fields[i].key, fields[i].tree)
  }

  predicate CleanValue(p: Patterns, key: string, t: Tree)
    decreases t, 0
  {
    && (p.configured(key) ==> t == Plain(REDACTED))
    && match t
       case Plain(s) => CleanString(p, s)
       case List(items) => forall i :: 0 <= i < |items| ==> CleanItem(p, items[i])
       case Dict(fields) => CleanFields(p, fields)
       case Raw(v) => v.Other?
  }

  predicate CleanItem(p: Patterns, t: Tree)
    decreases t, 0
  {
    match t
    case Plain(s) => CleanString(p, s)
    case List(_) => false
    case Dict(fields) => CleanFields(p, fields)
    case Raw(v) => v.Other? || v.ListRef?
  }

  lemma {:induction false} DictIsClean(p: Patterns, h: Heap, d: nat, seen: set<nat>)
    requires Closed(h) && d in h.dicts
    ensures CleanFields(p, SanitizeDict(p, h, d, seen).0)
    decreases h.dicts.Keys - seen, 0, 0
  {
    if d in seen {
    } else {
      FieldsAreClean(p, h, h.dicts[d], seen + {d});
    }
  }

  lemma {:induction false} FieldsAreClean(p: Patterns, h: Heap, fields: Fields, seen: set<nat>)
    requires Closed(h) && forall i :: 0 <= i < |fields| ==> Known(h, fields[i].1)
    ensures CleanFields(p, SanitizeFields(p, h, fields, seen).0)
    decreases h.dicts.Keys - seen, 3, |fields|
  {
    if fields == [] {
    } else {
      var (key, value) := fields[|fields| - 1];
      var (before, seen1) := SanitizeFields(p, h, fields[..|fields| - 1], seen);
      FieldsAreClean(p, h, fields[..|fields| - 1], seen);
      ValueIsClean(p, h, key, value, seen1);
    }
  }

  lemma {:induction false} ValueIsClean(p: Patterns, h: Heap, key: string, value: Value, seen: set<nat>)
    requires Closed(h) && Known(h, value)
    ensures CleanValue(p, key, SanitizeValue(p, h, key, value, seen).0)
    decreases h.dicts.Keys - seen, 2, 0
  {
    if !p.configured(key) {
      match value
      case ListRef(l) => ItemsAreClean(p, h, h.lists[l], seen);
      case DictRef(d) => DictIsClean(p, h, d, seen);
      case _ =>
    }
  }

  lemma {:induction false} ItemsAreClean(p: Patterns, h: Heap, items: seq<Value>, seen: set<nat>)
    requires Closed(h) && forall i :: 0 <= i < |items| ==> Known(h, items[i])
    ensures forall i :: 0 <= i < |SanitizeItems(p, h, items, seen).0| ==>
              CleanItem(p, SanitizeItems(p, h, items, seen).0[i])
    decreases h.dicts.Keys - seen, 1, |items|
  {
    if items == [] {
    } else {
      var (before, seen1) := SanitizeItems(p, h, items[..|items| - 1], seen);
      ItemsAreClean(p, h, items[..|items| - 1], seen);
      match items[|items| - 1]
      case DictRef(d) => DictIsClean(p, h, d, seen1);
      case _ =>
    }
  }

  /** Keys stay in their order, and what is neither sensitive nor detected is not touched. */
  lemma {:induction false} FieldsKept(p: Patterns, h: Heap, fields: Fields, seen: set<nat>, i: nat)
    requires Closed(h) && (forall i :: 0 <= i < |fields| ==> Known(h, fields[i].1)) && i < |fields|
    ensures var (key, value) := fields[i];
            var r := SanitizeFields(p, h, fields, seen).0[i];
            && r.key == key
            && (!p.configured(key) && value.Text? && !p.Detects(value.s) ==> r.tree == Plain(value.s))
            && (!p.configured(key) && value.Other? ==> r.tree == Raw(value))
    decreases |fields|
  {
    if i == |fields| - 1 {
    } else {
      FieldsKept(p, h, fields[..|fields| - 1], seen, i);
    }
  }

  /** A dictionary met again leaves only a mark. */
  lemma CircularLaw(p: Patterns, h: Heap, d: nat, seen: set<nat>)
    requires Closed(h) && d in h.dicts && d in seen
    ensures SanitizeDict(p, h, d, seen) == ([TreeField("_circular", Plain("[REDACTED]"))], seen)
  {
  }

  /** A text is redacted under a sensitive key, or if a configured or a built-in pattern matches it. */
  lemma RedactedIff(p: Patterns, h: Heap, key: string, s: string, seen: set<nat>)
    requires Closed(h)
    ensures SanitizeValue(p, h, key, Text(s), seen).0 ==
            Plain(if p.configured(key) || p.configured(s) || p.common(s) then "[REDACTED]" else s)
  {
  }

  /** Under a key that is not sensitive a value stays what it is: a list a list, a dictionary a dictionary. */
  lemma ValueLaw(p: Patterns, h: Heap, key: string, value: Value, seen: set<nat>)
    requires Closed(h) && Known(h, value)
    ensures p.configured(key) ==> SanitizeValue(p, h, key, value, seen) == (Plain("[REDACTED]"), seen)
    ensures !p.configured(key) ==>
              var r := SanitizeValue(p, h, key, value, seen);
              match value
              case ListRef(l) => r.0.List? && |r.0.items| == |h.lists[l]|
              case DictRef(d) => r == (Dict(SanitizeDict(p, h, d, seen).0), SanitizeDict(p, h, d, seen).1)
              case Other(_) => r == (Raw(value), seen)
              case Text(_) => r.1 == seen
  {
    if value.ListRef? {
      if value.list in h.lists && h.lists[value.list] != [] {
        ItemsKept(p, h, h.lists[value.list], seen, 0);
      }
    }
  }

  /** The items of a list keep their places: texts redacted or not, dictionaries sanitised, the rest as is. */
  lemma {:induction false} ItemsKept(p: Patterns, h: Heap, items: seq<Value>, seen: set<nat>, i: nat)
    requires Closed(h) && (forall i :: 0 <= i < |items| ==> Known(h, items[i])) && i < |items|
    ensures |SanitizeItems(p, h, items, seen).0| == |items|
    ensures var r := SanitizeItems(p, h, items, seen).0[i];
            match items[i]
            case Text(s) => r == Plain(if p.configured(s) || p.common(s) then "[REDACTED]" else s)
            case DictRef(_) => r.Dict?
            case _ => r == Raw(items[i])
    decreases |items|
  {
    if |items| == 1 {
    } else {
      ItemsKept(p, h, items[..|items| - 1], seen, if i < |items| - 1 then i else 0);
    }
  }

  // -------------------------------------------------------------------------------------------
  // A second pass

  /** The dictionaries that hold a tree stored in a heap. */
  function Ids(h: Heap, v: Value, t: Tree): set<nat>
    decreases t, 0
  {
    match t
    case List(items) => if v.ListRef? && v.list in h.lists then IdsOfItems(h, h.lists[v.list], items) else {}
    case Dict(fields) =>
      if v.DictRef? && v.dict in h.dicts then {v.dict} + IdsOfFields(h, h.dicts[v.dict], fields) else {}
    case _ => {}
  }

  function IdsOfFields(h: Heap, stored: Fields, fields: TreeFields): set<nat>
    decreases fields, 1
  {
    if fields == [] || |stored| != |fields| then {}
    else IdsOfFields(h, stored[..|stored| - 1], fields[..|fields| - 1])
         + Ids(h, stored[|stored| - 1].1, fields[|fields| - 1].tree)
  }

  function IdsOfItems(h: Heap, stored: seq<Value>, items: seq<Tree>): set<nat>
    decreases items, 1
  {
    if items == [] || |stored| != |items| then {}
    else IdsOfItems(h, stored[..|stored| - 1], items[..|items| - 1]) + Ids(h, stored[|stored| - 1], items[|items| - 1])
  }

  /** The value is the tree, each of whose dictionaries is an object of its own, as those a first pass
      creates are. */
  predicate Stored(h: Heap, v: Value, t: Tree)
    decreases t, 0
  {
    match t
    case Plain(s) => v == Text(s)
    case List(items) => v.ListRef? && v.list in h.lists && ItemsStored(h, h.lists[v.list], items)
    case Dict(fields) =>
      && v.DictRef? && v.dict in h.dicts && FieldsStored(h, h.dicts[v.dict], fields)
      && v.dict !in IdsOfFields(h, h.dicts[v.dict], fields)
    case Raw(x) => v == x
  }

  predicate FieldsStored(h: Heap, stored: Fields, fields: TreeFields)
    decreases fields, 1
  {
    |stored| == |fields| &&
    (fields == [] ||
     (var n := |fields| - 1;
      && FieldsStored(h, stored[..n], fields[..n])
      && stored[n].0 == fields[n].key && Stored(h, stored[n].1, fields[n].tree)
      && IdsOfFields(h, stored[..n], fields[..n]) !! Ids(h, stored[n].1, fields[n].tree)))
  }

  predicate ItemsStored(h: Heap, stored: seq<Value>, items: seq<Tree>)
    decreases items, 1
  {
    |stored| == |items| &&
    (items == [] ||
     (var n := |items| - 1;
      && ItemsStored(h, stored[..n], items[..n]) && Stored(h, stored[n], items[n])
      && IdsOfItems(h, stored[..n], items[..n]) !! Ids(h, stored[n], items[n])))
  }

  /** A clean tree goes through a pass unchanged. */
  lemma {:induction false} CleanFieldsStay(p: Patterns, h: Heap, stored: Fields, fields: TreeFields, seen: set<nat>)
    requires Closed(h) && FieldsStored(h, stored, fields) && CleanFields(p, fields)
    requires forall i :: 0 <= i < |stored| ==> Known(h, stored[i].1)
    requires seen !! IdsOfFields(h, stored, fields)
    ensures SanitizeFields(p, h, stored, seen).0 == fields
    ensures SanitizeFields(p, h, stored, seen).1 == seen + IdsOfFields(h, stored, fields)
    decreases fields, 1
  {
    hide SanitizeValue, CleanValue, Stored, Ids;
    if fields == [] {
      assert stored == [];
      assert seen + {} == seen;
    } else {
      var n := |fields| - 1;
      var before, last := IdsOfFields(h, stored[..n], fields[..n]), Ids(h, stored[n].1, fields[n].tree);
      assert seen + (before + last) == seen + before + last;
      CleanFieldsStay(p, h, stored[..n], fields[..n], seen);
      CleanValueStays(p, h, fields[n].key, stored[n].1, fields[n].tree, seen + before);
      assert fields[..n] + [TreeField(fields[n].key, fields[n].tree)] == fields;
    }
  }

  lemma {:induction false} CleanValueStays(p: Patterns, h: Heap, key: string, v: Value, t: Tree, seen: set<nat>)
    requires Closed(h) && Known(h, v) && Stored(h, v, t) && CleanValue(p, key, t) && seen !! Ids(h, v, t)
    ensures SanitizeValue(p, h, key, v, seen).0 == t
    ensures SanitizeValue(p, h, key, v, seen).1 == seen + Ids(h, v, t)
    decreases t, 0
  {
    hide SanitizeFields, SanitizeItems, IdsOfFields, IdsOfItems, FieldsStored, ItemsStored;
    assert seen + {} == seen;
    if !p.configured(key) {
      match t {
        case List(items) => CleanItemsStay(p, h, h.lists[v.list], items, seen);
        case Dict(fields) => CleanDictStays(p, h, v.dict, fields, seen);
        case _ =>
      }
    } else {
      assert t == Plain(REDACTED);
    }
  }

  lemma {:induction false} CleanDictStays(p: Patterns, h: Heap, d: nat, fields: TreeFields, seen: set<nat>)
    requires Closed(h) && d in h.dicts && Stored(h, DictRef(d), Dict(fields)) && CleanFields(p, fields)
    requires seen !! Ids(h, DictRef(d), Dict(fields))
    ensures SanitizeDict(p, h, d, seen).0 == fields
    ensures SanitizeDict(p, h, d, seen).1 == seen + Ids(h, DictRef(d), Dict(fields))
    decreases fields, 2
  {
    hide SanitizeFields, IdsOfFields, FieldsStored;
    CleanFieldsStay(p, h, h.dicts[d], fields, seen + {d});
    assert seen + {d} + IdsOfFields(h, h.dicts[d], fields) == seen + Ids(h, DictRef(d), Dict(fields));
  }

  lemma {:induction false} CleanItemsStay(p: Patterns, h: Heap, stored: seq<Value>, items: seq<Tree>, seen: set<nat>)
    requires Closed(h) && ItemsStored(h, stored, items)
    requires forall i :: 0 <= i < |items| ==> CleanItem(p, items[i])
    requires forall i :: 0 <= i < |stored| ==> Known(h, stored[i])
    requires seen !! IdsOfItems(h, stored, items)
    ensures SanitizeItems(p, h, stored, seen).0 == items
    ensures SanitizeItems(p, h, stored, seen).1 == seen + IdsOfItems(h, stored, items)
    decreases items, 1
  {
    hide SanitizeItem, CleanItem, Stored, Ids;
    if items == [] {
      assert stored == [];
      assert seen + {} == seen;
    } else {
      var n := |items| - 1;
      var before, last := IdsOfItems(h, stored[..n], items[..n]), Ids(h, stored[n], items[n]);
      assert seen + (before + last) == seen + before + last;
      CleanItemsStay(p, h, stored[..n], items[..n], seen);
      CleanItemStays(p, h, stored[n], items[n], seen + before);
      assert items[..n] + [items[n]] == items;
    }
  }

  lemma {:induction false} CleanItemStays(p: Patterns, h: Heap, v: Value, t: Tree, seen: set<nat>)
    requires Closed(h) && Known(h, v) && Stored(h, v, t) && CleanItem(p, t) && seen !! Ids(h, v, t)
    ensures SanitizeItem(p, h, v, seen).0 == t
    ensures SanitizeItem(p, h, v, seen).1 == seen + Ids(h, v, t)
    decreases t, 0
  {
    hide IdsOfFields, FieldsStored;
    assert seen + {} == seen;
    match t {
      case Dict(fields) => CleanDictStays(p, h, v.dict, fields, seen);
      case _ =>
    }
  }

  // -------------------------------------------------------------------------------------------
  // Every result can be held by a heap

  predicate Extends(h: Heap, h': Heap) {
    && (forall d :: d in h.dicts ==> d in h'.dicts && h'.dicts[d] == h.dicts[d])
    && (forall l :: l in h.lists ==> l in h'.lists && h'.lists[l] == h.lists[l])
  }

  lemma {:induction false} StoredExtends(h: Heap, h': Heap, v: Value, t: Tree)
    requires Extends(h, h') && Stored(h, v, t)
    ensures Stored(h', v, t) && Ids(h', v, t) == Ids(h, v, t)
    decreases t, 0
  {
    match t
    case List(items) => ItemsStoredExtends(h, h', h.lists[v.list], items);
    case Dict(fields) => FieldsStoredExtends(h, h', h.dicts[v.dict], fields);
    case _ =>
  }

  lemma {:induction false} FieldsStoredExtends(h: Heap, h': Heap, stored: Fields, fields: TreeFields)
    requires Extends(h, h') && FieldsStored(h, stored, fields)
    ensures FieldsStored(h', stored, fields) && IdsOfFields(h', stored, fields) == IdsOfFields(h, stored, fields)
    decreases fields, 1
  {
    if fields == [] {
    } else {
      var n := |fields| - 1;
      FieldsStoredExtends(h, h', stored[..n], fields[..n]);
      StoredExtends(h, h', stored[n].1, fields[n].tree);
    }
  }

  lemma {:induction false} ItemsStoredExtends(h: Heap, h': Heap, stored: seq<Value>, items: seq<Tree>)
    requires Extends(h, h') && ItemsStored(h, stored, items)
    ensures ItemsStored(h', stored, items) && IdsOfItems(h', stored, items) == IdsOfItems(h, stored, items)
    decreases items, 1
  {
    if items == [] {
    } else {
      var n := |items| - 1;
      ItemsStoredExtends(h, h', stored[..n], items[..n]);
      StoredExtends(h, h', stored[n], items[n]);
    }
  }

  lemma UnusedId(used: set<nat>) returns (id: nat)
    ensures id !in used
  {
    id := 0;
    var rest := used;
    while rest != {}
      invariant rest <= used && forall w :: w in used ==> w in rest || w < id
    {
      var u :| u in rest;
      rest := rest - {u};
      id := if u < id then id else u + 1;
    }
  }

  /** What storing adds is new. */
  ghost predicate Grown(h: Heap, h': Heap, ids: set<nat>) {
    Closed(h') && Extends(h, h') && ids !! h.dicts.Keys && ids <= h'.dicts.Keys
  }

  lemma {:induction false} Store(h: Heap, t: Tree) returns (h': Heap, v: Value)
    requires Closed(h)
    ensures Stored(h', v, t) && Known(h', v) && Grown(h, h', Ids(h', v, t))
    decreases t, 0
  {
    match t {
      case Plain(s) => h', v := h, Text(s);
      case Raw(x) =>
        v := x;
        h' := Heap(if x.DictRef? && x.dict !in h.dicts then h.dicts[x.dict := []] else h.dicts,
                   if x.ListRef? && x.list !in h.lists then h.lists[x.list := []] else h.lists);
      case List(items) =>
        var h1, stored := StoreItems(h, items);
        var l := UnusedId(h1.lists.Keys);
        h', v := h1.(lists := h1.lists[l := stored]), ListRef(l);
        ItemsStoredExtends(h1, h', stored, items);
      case Dict(fields) =>
        var h1, stored := StoreFields(h, fields);
        var d := UnusedId(h1.dicts.Keys);
        h', v := h1.(dicts := h1.dicts[d := stored]), DictRef(d);
        FieldsStoredExtends(h1, h', stored, fields);
    }
  }

  lemma {:induction false} StoreFields(h: Heap, fields: TreeFields) returns (h': Heap, stored: Fields)
    requires Closed(h)
    ensures FieldsStored(h', stored, fields) && Grown(h, h', IdsOfFields(h', stored, fields))
    ensures forall i :: 0 <= i < |stored| ==> Known(h', stored[i].1)
    decreases fields, 1
  {
    hide Stored, Ids, Closed;
    if fields == [] {
      h', stored := h, [];
    } else {
      var n := |fields| - 1;
      var h1, before := StoreFields(h, fields[..n]);
      var h2, v := Store(h1, fields[n].tree);
      FieldsStoredExtends(h1, h2, before, fields[..n]);
      h', stored := h2, before + [(fields[n].key, v)];
      assert stored[..n] == before && stored[n].1 == v;
      assert IdsOfFields(h', before, fields[..n]) <= h1.dicts.Keys;
    }
  }

  lemma {:induction false} StoreItems(h: Heap, items: seq<Tree>) returns (h': Heap, stored: seq<Value>)
    requires Closed(h)
    ensures ItemsStored(h', stored, items) && Grown(h, h', IdsOfItems(h', stored, items))
    ensures forall i :: 0 <= i < |stored| ==> Known(h', stored[i])
    decreases items, 1
  {
    hide Stored, Ids, Closed;
    if items == [] {
      h', stored := h, [];
    } else {
      var n := |items| - 1;
      var h1, before := StoreItems(h, items[..n]);
      var h2, v := Store(h1, items[n]);
      ItemsStoredExtends(h1, h2, before, items[..n]);
      h', stored := h2, before + [v];
      assert stored[..n] == before && stored[n] == v;
      assert IdsOfItems(h', before, items[..n]) <= h1.dicts.Keys;
    }
  }

  /** Sanitising twice is sanitising once, on any graph, cyclic or not: the result, held by a heap as
      the tree of new dictionaries that it is, comes back from a second pass as it went in. */
  lemma SanitizeIsIdempotent(p: Patterns, h: Heap, d: nat, h': Heap, d': nat)
    requires Closed(h) && d in h.dicts
    requires Closed(h') && d' in h'.dicts && Stored(h', DictRef(d'), Dict(SanitizeDict(p, h, d, {}).0))
    ensures SanitizeDict(p, h', d', {}).0 == SanitizeDict(p, h, d, {}).0
  {
    DictIsClean(p, h, d, {});
    CleanDictStays(p, h', d', SanitizeDict(p, h, d, {}).0, {});
  }
}
