/** The personal-prompt registry: named prompt texts, the set of prompts
    that are switched on, and the display order, which is also the order
    in which active prompts are sent.  File reads are given as parameters;
    file writes leave the in-memory state as it is and are not modelled. */
module Prompts {

  /** A JSON object of strings as Python holds it: its keys in insertion
      order and the value of each key. */
  datatype Dict = Dict(keys: seq<string>, values: map<string, string>) {
    predicate Valid() {
      Distinct(keys) && Elems(keys) == values.Keys
    }
  }

  function Elems(xs: seq<string>): set<string> {
    set x | x in xs
  }

  /** No name twice (stated on the last element, as lists grow at the end). */
  predicate Distinct(xs: seq<string>)
    decreases |xs|
  {
    |xs| == 0 || (xs[|xs| - 1] !in xs[..|xs| - 1] && Distinct(xs[..|xs| - 1]))
  }

  /** The names of `xs` that are in `s`, in order: `[n for n in xs if n in s]`. */
  function KeepIn(xs: seq<string>, s: set<string>): seq<string>
    decreases |xs|
  {
    if |xs| == 0 then []
    else KeepIn(xs[..|xs| - 1], s) + (if xs[|xs| - 1] in s then [xs[|xs| - 1]] else [])
  }

  /** The names of `xs` that are not in `s`, in order. */
  function DropIn(xs: seq<string>, s: set<string>): seq<string>
    decreases |xs|
  {
    if |xs| == 0 then []
    else DropIn(xs[..|xs| - 1], s) + (if xs[|xs| - 1] !in s then [xs[|xs| - 1]] else [])
  }

  lemma {:induction false} KeepInMembers(xs: seq<string>, s: set<string>)
    ensures forall x :: x in KeepIn(xs, s) <==> x in xs && x in s
    ensures |KeepIn(xs, s)| <= |xs|
    decreases |xs|
  {
    if |xs| > 0 {
      var init := xs[..|xs| - 1];
      KeepInMembers(init, s);
      assert xs == init + [xs[|xs| - 1]];
    }
  }

  lemma {:induction false} DropInMembers(xs: seq<string>, s: set<string>)
    ensures forall x :: x in DropIn(xs, s) <==> x in xs && x !in s
    decreases |xs|
  {
    if |xs| > 0 {
      var init := xs[..|xs| - 1];
      DropInMembers(init, s);
      assert xs == init + [xs[|xs| - 1]];
    }
  }

  /** Filtering a list without repeats gives one without repeats. */
  lemma {:induction false} DropInDistinct(xs: seq<string>, s: set<string>)
    requires Distinct(xs)
    ensures Distinct(DropIn(xs, s))
    decreases |xs|
  {
    if |xs| > 0 {
      var init := xs[..|xs| - 1];
      DropInDistinct(init, s);
      DropInMembers(init, s);
      var r := DropIn(xs, s);
      if xs[|xs| - 1] !in s {
        assert r == DropIn(init, s) + [xs[|xs| - 1]];
        assert r[..|r| - 1] == DropIn(init, s);
        assert r[|r| - 1] == xs[|xs| - 1];
      } else {
        assert r == DropIn(init, s);
      }
    }
  }

  /** Filtering by a set every name belongs to changes nothing. */
  lemma {:induction false} KeepInAll(xs: seq<string>, s: set<string>)
    requires Elems(xs) <= s
    ensures KeepIn(xs, s) == xs
    decreases |xs|
  {
    if |xs| > 0 {
      var init := xs[..|xs| - 1];
      KeepInAll(init, s);
      assert xs == init + [xs[|xs| - 1]];
    }
  }

  /** Dropping the names of a set that holds every name leaves nothing. */
  lemma {:induction false} DropInAll(xs: seq<string>, s: set<string>)
    requires Elems(xs) <= s
    ensures DropIn(xs, s) == []
    decreases |xs|
  {
    if |xs| > 0 {
      DropInAll(xs[..|xs| - 1], s);
    }
  }

  /** `d.update(e)`: new keys go to the end in `e`'s order, and `e`'s value
      wins for a key both have. */
  function Update(d: Dict, e: Dict): Dict {
    Dict(d.keys + DropIn(e.keys, d.values.Keys), d.values + e.values)
  }

  lemma UpdateValid(d: Dict, e: Dict)
    requires d.Valid() && e.Valid()
    ensures Update(d, e).Valid()
    ensures forall k :: k in Update(d, e).values <==> k in d.values || k in e.values
    ensures forall k :: k in e.values ==> Update(d, e).values[k] == e.values[k]
    ensures forall k :: k in d.values && k !in e.values ==> Update(d, e).values[k] == d.values[k]
  {
    var added := DropIn(e.keys, d.values.Keys);
    DropInMembers(e.keys, d.values.Keys);
    DropInDistinct(e.keys, d.values.Keys);
    DistinctAppend(d.keys, added);
  }

  /** The order after a merging import: the incoming names not stored
      before are appended in their own order. */
  method MergeOrder(order: seq<string>, incoming: seq<string>, stored: set<string>) returns (merged: seq<string>)
    ensures merged == order + DropIn(incoming, stored)
  {
    merged := order;
    for i := 0 to |incoming|
      invariant merged == order + DropIn(incoming[..i], stored)
    {
      assert incoming[..i + 1][..i] == incoming[..i];
      if incoming[i] !in stored {
        merged := merged + [incoming[i]];
      }
    }
    assert incoming[..|incoming|] == incoming;
  }

  /** After a merge, the merged order still covers every stored name. */
  lemma MergeCovers(d: Dict, e: Dict, order: seq<string>)
    requires d.Valid() && e.Valid()
    requires forall k :: k in d.values ==> k in order
    ensures Update(d, e).Valid()
    ensures forall k :: k in Update(d, e).values ==> k in order + DropIn(e.keys, d.values.Keys)
  {
    UpdateValid(d, e);
    DropInMembers(e.keys, d.values.Keys);
  }

  /** Appending a list without repeats and with no name of the first keeps
      a list without repeats. */
  lemma {:induction false} DistinctAppend(xs: seq<string>, ys: seq<string>)
    requires Distinct(xs) && Distinct(ys)
    requires forall y :: y in ys ==> y !in xs
    ensures Distinct(xs + ys)
    decreases |ys|
  {
    if |ys| > 0 {
      var init := ys[..|ys| - 1];
      DistinctAppend(xs, init);
      var last := ys[|ys| - 1];
      assert (xs + ys)[..|xs + ys| - 1] == xs + init;
      assert (xs + ys)[|xs + ys| - 1] == last;
      assert last !in init && last !in xs;
    } else {
      assert xs + ys == xs;
    }
  }

  /** `del d[name]`: the other keys keep their order. */
  function Remove(d: Dict, name: string): Dict {
    Dict(DropIn(d.keys, {name}), d.values - {name})
  }

  lemma RemoveValid(d: Dict, name: string)
    requires d.Valid()
    ensures Remove(d, name).Valid()
    ensures name !in Remove(d, name).values
    ensures forall k :: k != name && k in d.values ==>
      k in Remove(d, name).values && Remove(d, name).values[k] == d.values[k]
  {
    DropInMembers(d.keys, {name});
    DropInDistinct(d.keys, {name});
  }

  /** Deleting a stored name from the prompts and its first entry from an
      order that covers them leaves an order that still covers them. */
  lemma RemoveKeepsCovered(d: Dict, order: seq<string>, name: string)
    requires d.Valid() && name in d.values
    requires forall k :: k in d.values ==> k in order
    ensures Remove(d, name).Valid()
    ensures forall k :: k in Remove(d, name).values ==> k in RemoveFirst(order, name)
  {
    RemoveValid(d, name);
    RemoveFirstCounts(order, name);
    forall k | k in Remove(d, name).values ensures k in RemoveFirst(order, name) {
      assert multiset(RemoveFirst(order, name))[k] == multiset(order)[k];
    }
  }

  /** `lst.remove(x)`: the first occurrence of `x` goes, if there is one. */
  function RemoveFirst(xs: seq<string>, x: string): seq<string> {
    if |xs| == 0 then []
    else if xs[0] == x then xs[1..]
    else [xs[0]] + RemoveFirst(xs[1..], x)
  }

  /** Exactly one occurrence of `x` goes and every other name stays. */
  lemma {:induction false} RemoveFirstCounts(xs: seq<string>, x: string)
    requires x in xs
    ensures multiset(RemoveFirst(xs, x)) == multiset(xs) - multiset{x}
  {
    if xs[0] != x {
      RemoveFirstCounts(xs[1..], x);
      assert xs == [xs[0]] + xs[1..];
    } else {
      assert xs == [xs[0]] + xs[1..];
    }
  }

  // ---------------------------------------------------------------------
  // Reconciling a display order with the stored prompts
  // ---------------------------------------------------------------------

  /** A saved or requested order made consistent with the stored prompts:
      its known names in its order (repeats included), then every stored
      name it lacks, in the prompts' own order. */
  function Reconcile(saved: seq<string>, d: Dict): seq<string> {
    var kept := KeepIn(saved, d.values.Keys);
    kept + DropIn(d.keys, Elems(kept))
  }

  /** The reconciled order names every stored prompt and nothing else, and
      starts with the known names of the saved order. */
  lemma ReconcileCovers(saved: seq<string>, d: Dict)
    requires d.Valid()
    ensures forall x :: x in Reconcile(saved, d) <==> x in d.values
    ensures Reconcile(saved, d)[..|KeepIn(saved, d.values.Keys)|] == KeepIn(saved, d.values.Keys)
  {
    var kept := KeepIn(saved, d.values.Keys);
    KeepInMembers(saved, d.values.Keys);
    DropInMembers(d.keys, Elems(kept));
  }

  /** A saved order that already lists each stored prompt once is kept as is. */
  lemma ReconcileKeepsConsistentOrder(saved: seq<string>, d: Dict)
    requires d.Valid() && Elems(saved) == d.values.Keys
    ensures Reconcile(saved, d) == saved
  {
    KeepInAll(saved, d.values.Keys);
    DropInAll(d.keys, Elems(saved));
  }

  /** Reconciling twice is reconciling once. */
  lemma ReconcileIdempotent(saved: seq<string>, d: Dict)
    requires d.Valid()
    ensures Reconcile(Reconcile(saved, d), d) == Reconcile(saved, d)
  {
    var r := Reconcile(saved, d);
    ReconcileCovers(saved, d);
    KeepInAll(r, d.values.Keys);
    DropInAll(d.keys, Elems(r));
  }

  /** A request that names a prompt twice keeps both entries, so deleting
      that prompt afterwards leaves one entry of a name that is no longer
      stored. */
  lemma RepeatOutlivesDelete(d: Dict, name: string)
    requires d.Valid() && name in d.values
    ensures var r := Reconcile([name, name], d);
      && |r| >= 2 && r[0] == name && r[1] == name
      && name in RemoveFirst(r, name)
      && name !in Remove(d, name).values
  {
    var known := d.values.Keys;
    assert KeepIn([name], known) == [name] by {
      assert [name][..0] == [];
    }
    assert KeepIn([name, name], known) == [name, name] by {
      assert [name, name][..1] == [name];
    }
    var r := Reconcile([name, name], d);
    assert r == [name, name] + DropIn(d.keys, Elems([name, name]));
    assert RemoveFirst(r, name) == r[1..];
    assert r[1..][0] == name;
    RemoveValid(d, name);
  }

  /** The reconciliation loops of `_load_active` and `reorder`. */
  method ReconcileOrder(saved: seq<string>, d: Dict) returns (order: seq<string>)
    requires d.Valid()
    ensures order == Reconcile(saved, d)
  {
    order := [];
    for i := 0 to |saved|
      invariant order == KeepIn(saved[..i], d.values.Keys)
    {
      assert saved[..i + 1][..i] == saved[..i];
      if saved[i] in d.values {
        order := order + [saved[i]];
      }
    }
    assert saved[..|saved|] == saved;
    ghost var kept := order;
    for i := 0 to |d.keys|
      invariant order == kept + DropIn(d.keys[..i], Elems(kept))
    {
      var name := d.keys[i];
      assert d.keys[..i + 1][..i] == d.keys[..i];
      assert name !in DropIn(d.keys[..i], Elems(kept)) by {
        DropInMembers(d.keys[..i], Elems(kept));
        DistinctPrefix(d.keys, i);
      }
      if name !in order {
        order := order + [name];
      }
    }
    assert d.keys[..|d.keys|] == d.keys;
  }

  /** In a list without repeats, an element does not occur before itself. */
  lemma {:induction false} DistinctPrefix(xs: seq<string>, i: nat)
    requires Distinct(xs) && i < |xs|
    ensures xs[i] !in xs[..i]
    decreases |xs|
  {
    var init := xs[..|xs| - 1];
    if i < |xs| - 1 {
      DistinctPrefix(init, i);
      assert init[..i] == xs[..i];
    }
  }

  // ---------------------------------------------------------------------
  // The active prompts
  // ---------------------------------------------------------------------

  /** `get_active_contents`: (name, content) for each name of the order that
      is active and stored, in display order. */
  function ActiveContents(order: seq<string>, active: set<string>, prompts: map<string, string>): seq<(string, string)>
    decreases |order|
  {
    if |order| == 0 then []
    else
      var name := order[|order| - 1];
      ActiveContents(order[..|order| - 1], active, prompts)
        + (if name in active && name in prompts then [(name, prompts[name])] else [])
  }

  function Names(pairs: seq<(string, string)>): seq<string> {
    seq(|pairs|, i requires 0 <= i < |pairs| => pairs[i].0)
  }

  /** The names returned are the order filtered to active, stored prompts,
      each with its stored content. */
  lemma {:induction false} ActiveContentsShape(order: seq<string>, active: set<string>, prompts: map<string, string>)
    ensures Names(ActiveContents(order, active, prompts)) == KeepIn(order, active * prompts.Keys)
    ensures forall p :: p in ActiveContents(order, active, prompts) ==> p.0 in prompts && p.1 == prompts[p.0]
    decreases |order|
  {
    if |order| > 0 {
      ActiveContentsShape(order[..|order| - 1], active, prompts);
    }
  }

  /** What the active-prompt file held, read as JSON. */
  datatype ActiveFile =
    | Missing                                                   // no file
    | Current(savedOrder: seq<string>, activeList: seq<string>) // {"order": [...], "active": [...]}
    | Legacy(activeNames: seq<string>)                          // a plain list of active names
    | Unreadable                                                // not JSON, or unreadable
    | OtherValue                                                // JSON, but neither object nor list

  class PromptManager {
    var prompts: Dict
    var active: set<string>
    var order: seq<string>

    /** The dict is a proper one and every stored prompt is in the display
        order.  (The order may also hold names no longer stored.) */
    predicate Valid()
      reads this
    {
      prompts.Valid() && forall k :: k in prompts.values ==> k in order
    }

    /** Loads the prompts and then the active file: the current format
        reconciles the saved order and keeps only known active names, the
        legacy format keeps only known active names, and anything else
        leaves nothing active and the prompts in their stored order. */
    constructor (stored: Dict, activeFile: ActiveFile)
      requires stored.Valid()
      ensures Valid() && prompts == stored
      ensures order == if activeFile.Current? then Reconcile(activeFile.savedOrder, stored) else stored.keys
      ensures active == match activeFile
        case Current(_, activeList) => Elems(activeList) * stored.values.Keys
        case Legacy(names) => Elems(names) * stored.values.Keys
        case _ => {}
    {
      var loadedOrder := stored.keys;
      var loadedActive := {};
      match activeFile {
        case Current(savedOrder, activeList) =>
          loadedOrder := ReconcileOrder(savedOrder, stored);
          ReconcileCovers(savedOrder, stored);
          loadedActive := Elems(activeList) * stored.values.Keys;
        case Legacy(names) =>
          loadedActive := Elems(names) * stored.values.Keys;
        case _ =>
      }
      prompts := stored;
      order := loadedOrder;
      active := loadedActive;
    }

    /** `add`: a new name is stored and appended to the order; an existing
        one only gets its new content. */
    method Add(name: string, content: string)
      requires Valid()
      modifies this
      ensures Valid()
      ensures prompts.values == old(prompts.values)[name := content]
      ensures Get(name) == content
      ensures name in old(prompts.values) ==> prompts.keys == old(prompts.keys) && order == old(order)
      ensures name !in old(prompts.values) ==>
        prompts.keys == old(prompts.keys) + [name] && order == old(order) + [name]
      ensures active == old(active)
    {
      var isNew := name !in prompts.values;
      if isNew {
        DistinctAppend(prompts.keys, [name]);
        prompts := Dict(prompts.keys + [name], prompts.values[name := content]);
        order := order + [name];
      } else {
        prompts := prompts.(values := prompts.values[name := content]);
      }
    }

    /** `delete`: an existing name leaves the prompts, the active set and
        (its first entry) the order; an unknown name changes nothing. */
    method Delete(name: string)
      requires Valid()
      modifies this
      ensures Valid()
      ensures name in old(prompts.values) ==>
        && prompts == Remove(old(prompts), name)
        && active == old(active) - {name}
        && order == RemoveFirst(old(order), name)
      ensures name !in old(prompts.values) ==>
        prompts == old(prompts) && active == old(active) && order == old(order)
      ensures Get(name) == ""
    {
      if name in prompts.values {
        RemoveKeepsCovered(prompts, order, name);
        prompts := Remove(prompts, name);
        active := active - {name};
        order := RemoveFirst(order, name);
      }
    }

    /** `get`: the stored content, or "" for an unknown name. */
    function Get(name: string): (content: string)
      reads this
      ensures name in prompts.values ==> content == prompts.values[name]
      ensures name !in prompts.values ==> content == ""
    {
      if name in prompts.values then prompts.values[name] else ""
    }

    /** `set_active`: only that name enters or leaves the active set. */
    method SetActive(name: string, on: bool)
      requires Valid()
      modifies this
      ensures Valid()
      ensures active == if on then old(active) + {name} else old(active) - {name}
      ensures prompts == old(prompts) && order == old(order)
    {
      if on {
        active := active + {name};
      } else {
        active := active - {name};
      }
    }

    /** `get_active_contents` */
    function GetActiveContents(): (pairs: seq<(string, string)>)
      reads this
      ensures Names(pairs) == KeepIn(order, active * prompts.values.Keys)
      ensures forall p :: p in pairs ==> p.0 in prompts.values && p.1 == prompts.values[p.0]
    {
      ActiveContentsShape(order, active, prompts.values);
      ActiveContents(order, active, prompts.values)
    }

    /** `reorder`: the requested order, made consistent with the prompts. */
    method Reorder(newOrder: seq<string>)
      requires Valid()
      modifies this
      ensures Valid()
      ensures order == Reconcile(newOrder, prompts)
      ensures forall x :: x in order <==> x in prompts.values
      ensures prompts == old(prompts) && active == old(active)
    {
      order := ReconcileOrder(newOrder, prompts);
      ReconcileCovers(newOrder, prompts);
    }

    /** `import_from`: replacing takes the incoming prompts and their order;
        merging appends the names not stored before to the order and lets
        incoming contents win.  Either way the count is the incoming size. */
    method ImportFrom(incoming: Dict, overwrite: bool) returns (count: nat)
      requires Valid() && incoming.Valid()
      modifies this
      ensures Valid()
      ensures count == |incoming.keys|
      ensures overwrite ==> prompts == incoming && order == incoming.keys
      ensures !overwrite ==>
        && prompts == Update(old(prompts), incoming)
        && order == old(order) + DropIn(incoming.keys, old(prompts).values.Keys)
      ensures active == old(active)
    {
      if overwrite {
        prompts := incoming;
        order := incoming.keys;
      } else {
        var merged := MergeOrder(order, incoming.keys, prompts.values.Keys);
        MergeCovers(prompts, incoming, order);
        order := merged;
        prompts := Update(prompts, incoming);
      }
      count := |incoming.keys|;
    }
  }
}
