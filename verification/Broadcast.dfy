// Broadcast settings: nested sections, and the merging of layers (broadcast_mgr.py).

module Settings {
  import opened Wrappers

  // A nested dictionary of settings.  A setting that is None has been cancelled.
  datatype Tree = Leaf(setting: Option<string>) | Section(items: map<string, Tree>)

  type Path = seq<string>

  function At(t: Tree, p: Path): Option<Tree> {
    if p == [] then Some(t)
    else if t.Section? && p[0] in t.items then At(t.items[p[0]], p[1..])
    else None
  }

  // The setting at a path, if there is one.
  function LeafAt(t: Tree, p: Path): Option<Option<string>> {
    match At(t, p)
    case Some(Leaf(v)) => Some(v)
    case _ => None
  }

  // addict: what the source sets goes over what the target has.

  function Over(target: Option<Tree>, source: Tree): Tree
    decreases source, 1
  {
    if source.Leaf? then source
    else Added(if target.Some? && target.value.Section? then target.value else Section(map[]), source)
  }

  function Item(t: Tree, k: string): Option<Tree>
    requires t.Section?
  {
    if k in t.items then Some(t.items[k]) else None
  }

  function Added(target: Tree, source: Tree): (r: Tree)
    requires target.Section? && source.Section?
    ensures r.Section?
    decreases source, 0
  {
    AddedFor(target, source, source.items.Keys)
  }

  // With only some of the source's keys gone through.
  function AddedFor(target: Tree, source: Tree, ks: set<string>): (r: Tree)
    requires target.Section? && source.Section?
    ensures r.Section?
    decreases source, 0, 0
  {
    Section(map k | k in target.items.Keys + source.items.Keys * ks ::
              if k in source.items && k in ks then Over(Item(target, k), source.items[k]) else target.items[k])
  }

  // A section is never added where the target has a setting.
  ghost predicate Fits(target: Tree, source: Tree)
    decreases source
  {
    && target.Section?
    && source.Section?
    && forall k :: k in source.items && source.items[k].Section? ==>
         k in target.items ==> Fits(target.items[k], source.items[k])
  }

  // Both have settings and sections in the same places.
  ghost predicate Agree(a: Tree, b: Tree)
    decreases a
  {
    if a.Leaf? then b.Leaf?
    else b.Section? && forall k :: k in a.items && k in b.items ==> Agree(a.items[k], b.items[k])
  }

  lemma {:induction false} AgreeFits(target: Tree, source: Tree)
    requires Agree(target, source) && source.Section?
    ensures Fits(target, source)
    decreases source
  {
    forall k | k in source.items && source.items[k].Section? && k in target.items
      ensures Fits(target.items[k], source.items[k])
    {
      AgreeFits(target.items[k], source.items[k]);
    }
  }

  lemma {:induction false} NothingUnder(p: Path)
    ensures LeafAt(Section(map[]), p) == None
  {
  }

  lemma AddedItem(target: Tree, source: Tree, k: string)
    requires target.Section? && source.Section?
    ensures Item(Added(target, source), k) ==
            if k !in source.items then Item(target, k)
            else if source.items[k].Leaf? then Some(source.items[k])
            else if k in target.items && target.items[k].Section? then Some(Added(target.items[k], source.items[k]))
            else Some(Added(Section(map[]), source.items[k]))
  {
    var r := AddedFor(target, source, source.items.Keys);
    assert Added(target, source) == r;
    assert k in source.items ==> r.items[k] == Over(Item(target, k), source.items[k]);
    assert k !in source.items ==> Item(r, k) == Item(target, k);
    if k in source.items && source.items[k].Section? {
      var below := if k in target.items && target.items[k].Section? then target.items[k] else Section(map[]);
      assert Over(Item(target, k), source.items[k]) == Added(below, source.items[k]);
    }
  }

  lemma LeafBelow(t: Tree, p: Path)
    requires p != [] && t.Section?
    ensures LeafAt(t, p) == if p[0] in t.items then LeafAt(t.items[p[0]], p[1..]) else None
  {
  }

  // The source's setting if it has one at the path, or else the target's.
  lemma {:induction false} AddedAt(target: Tree, source: Tree, p: Path)
    requires Agree(target, source) && source.Section?
    ensures LeafAt(Added(target, source), p) ==
            if LeafAt(source, p).Some? then LeafAt(source, p) else LeafAt(target, p)
    decreases source
  {
    if p != [] {
      var k := p[0];
      AddedItem(target, source, k);
      LeafBelow(target, p);
      LeafBelow(source, p);
      LeafBelow(Added(target, source), p);
      if k in source.items && source.items[k].Section? {
        if k in target.items {
          AddedAt(target.items[k], source.items[k], p[1..]);
        } else {
          AddedAt(Section(map[]), source.items[k], p[1..]);
          NothingUnder(p[1..]);
        }
      }
    }
  }

  lemma {:induction false} AddedAgrees(target: Tree, source: Tree, other: Tree)
    requires Agree(target, source) && Agree(target, other) && Agree(source, other) && source.Section?
    ensures Agree(Added(target, source), other)
    decreases source
  {
    var r := Added(target, source);
    forall k | k in r.items && k in other.items ensures Agree(r.items[k], other.items[k]) {
      AddedItem(target, source, k);
      if k in source.items && source.items[k].Section? {
        if k in target.items {
          AddedAgrees(target.items[k], source.items[k], other.items[k]);
        } else {
          AddedAgrees(Section(map[]), source.items[k], other.items[k]);
        }
      }
    }
  }

  // Layers, each over the ones before.

  function Merged(layers: seq<Tree>): (r: Tree)
    requires forall l :: l in layers ==> l.Section?
    ensures r.Section?
  {
    if layers == [] then Section(map[])
    else Added(Merged(layers[..|layers| - 1]), layers[|layers| - 1])
  }

  ghost predicate AllAgree(layers: seq<Tree>) {
    && (forall l :: l in layers ==> l.Section?)
    && (forall i, j :: 0 <= i < j < |layers| ==> Agree(layers[i], layers[j]))
  }

  lemma {:induction false} MergedAgrees(layers: seq<Tree>, other: Tree)
    requires AllAgree(layers) && other.Section? && forall l :: l in layers ==> Agree(l, other)
    ensures Agree(Merged(layers), other)
    decreases |layers|
  {
    if layers != [] {
      var before, last := layers[..|layers| - 1], layers[|layers| - 1];
      MergedAgrees(before, other);
      MergedAgrees(before, last);
      AddedAgrees(Merged(before), last, other);
    }
  }

  // The last layer that sets the path has its way.
  lemma {:induction false} LastLayerWins(layers: seq<Tree>, p: Path)
    requires AllAgree(layers)
    ensures LeafAt(Merged(layers), p).None? <==> forall l :: l in layers ==> LeafAt(l, p).None?
    ensures forall i :: 0 <= i < |layers| && LeafAt(layers[i], p).Some?
                        && (forall j :: i < j < |layers| ==> LeafAt(layers[j], p).None?) ==>
              LeafAt(Merged(layers), p) == LeafAt(layers[i], p)
    decreases |layers|
  {
    if layers == [] {
      NothingUnder(p);
    } else {
      var before, last := layers[..|layers| - 1], layers[|layers| - 1];
      assert layers == before + [last];
      LastLayerWins(before, p);
      MergedAgrees(before, last);
      AddedAt(Merged(before), last, p);
    }
  }
}

// The dictionaries themselves, and what get_broadcast makes of them.
module Broadcasts {
  import opened Settings
  import opened Wrappers

  datatype Slot = Value(setting: Option<string>) | Sub(dict: Dict)

  // A dictionary whose values are settings or further dictionaries; repr is
  // the dictionary with all those in it, tree the settings as a value.
  class Dict {
    var items: map<string, Slot>
    ghost var repr: set<object>
    ghost var tree: Tree

    ghost predicate Valid()
      reads this, repr
      decreases repr
    {
      && this in repr
      && tree.Section?
      && tree.items.Keys == items.Keys
      && (forall k :: k in items && items[k].Value? ==> tree.items[k] == Leaf(items[k].setting))
      && (forall k :: k in items && items[k].Sub? ==>
           var d := items[k].dict;
           d in repr && d.repr <= repr - {this} && d.Valid() && tree.items[k] == d.tree)
      && (forall j, k :: j in items && k in items && j != k && items[j].Sub? && items[k].Sub? ==>
           items[j].dict.repr !! items[k].dict.repr)
    }

  // When one section has been added to, the dictionary it is in is valid again.
    twostate lemma Rejoined(key: string)
      requires old(Valid()) && key in old(items) && old(items[key]).Sub? && items == old(items)
      requires items[key].dict.Valid() && items[key].dict.Grown()
      requires forall o :: o in old(repr) && o != this && o !in old(items[key].dict.repr) ==> unchanged(o)
      requires repr == old(repr) + items[key].dict.repr
      requires tree == Section(old(tree).items[key := items[key].dict.tree])
      ensures Valid() && Grown()
    {
      var d := items[key].dict;
      forall j | j in items && j != key && items[j].Sub?
        ensures var e := items[j].dict;
                e.Valid() && e.repr == old(e.repr) && e.tree == old(e.tree) && e.repr !! d.repr
      {
        var e := items[j].dict;
        assert old(e.Valid());
      }
    }

    // Only new dictionaries have joined it.
    twostate predicate Grown()
      reads this
    {
      old(repr) <= repr && forall o :: o in repr ==> o in old(repr) || fresh(o)
    }

    twostate lemma GrownIs()
      ensures Grown() <==> old(repr) <= repr && forall o :: o in repr ==> o in old(repr) || fresh(o)
    {
    }

    constructor ()
      ensures Valid() && fresh(repr) && tree == Section(map[])
    {
      items, repr, tree := map[], {this}, Section(map[]);
    }

    method Put(k: string, v: Option<string>)
      requires Valid()
      modifies this
      ensures Valid() && repr == old(repr)
      ensures tree == Section(old(tree).items[k := Leaf(v)])
    {
      items := items[k := Value(v)];
      tree := Section(tree.items[k := Leaf(v)]);
    }

    // target[key] = {}
    method PutSection(k: string)
      requires Valid() && k !in items
      modifies this
      ensures Valid() && fresh(repr - old(repr)) && old(repr) <= repr
      ensures tree == Section(old(tree).items[k := Section(map[])])
      ensures k in items && items[k].Sub?
    {
      var d := new Dict();
      items := items[k := Sub(d)];
      tree := Section(tree.items[k := d.tree]);
      repr := repr + d.repr;
    }
  }

  lemma Keeps(d: Dict)
    requires d.Valid()
    ensures d in d.repr && d.tree.Section? && d.tree.items.Keys == d.items.Keys
  {
  }

  lemma SlotOf(d: Dict, key: string)
    requires d.Valid() && key in d.items
    ensures d in d.repr && d.tree.Section? && key in d.tree.items
    ensures d.items[key].Value? ==> d.tree.items[key] == Leaf(d.items[key].setting)
    ensures d.items[key].Sub? ==>
              var e := d.items[key].dict;
              e.Valid() && e in e.repr && e.repr <= d.repr - {d} && d.tree.items[key] == e.tree && e.tree.Section?
  {
    if d.items[key].Sub? {
      assert d.items[key].dict.Valid();
    }
  }

  // addict: add what the source sets to the target, section by section.
  method Addict(target: Dict, source: Dict)
    requires target.Valid() && source.Valid() && target.repr !! source.repr
    requires Fits(target.tree, source.tree)
    modifies target.repr
    ensures target.Valid() && source.Valid() && target.repr !! source.repr && target.Grown()
    ensures source.repr == old(source.repr) && source.tree == old(source.tree)
    ensures target.tree == Added(old(target.tree), old(source.tree))
    decreases source.repr, 1
  {
    ghost var t, s := target.tree, source.tree;
    Keeps(source);
    NoKeyYet(target, source);
    hide *;
    var todo := source.items.Keys;
    assert target.Grown() by {
      target.GrownIs();
    }
    while todo != {}
      invariant target.Valid() && source.Valid() && target.repr !! source.repr && target.Grown()
      invariant source.repr == old(source.repr) && source.items == old(source.items) && source.tree == s
      invariant Going(t, s, target.tree, todo)
      decreases |todo|
    {
      var key :| key in todo;
      NextKey(t, source, target.tree, todo, key);
      assert forall o :: o in target.repr ==> o in old(target.repr) || fresh(o) by {
        target.GrownIs();
      }
      label before:
      AddKey(target, source, key);
      assert target.Grown() by {
        target.GrownIs();
        target.GrownIs@before();
        assert target.Grown@before();
        forall o | o in target.repr ensures o in old(target.repr) || fresh(o) {
          assert o in old@before(target.repr) || fresh@before(o);
        }
      }
      todo := todo - {key};
    }
    AllKeys(t, s, target.tree, todo);
  }

  method AddKey(target: Dict, source: Dict, key: string)
    requires target.Valid() && source.Valid() && target.repr !! source.repr
    requires key in source.items && FitsAt(target.tree, source.tree, key)
    modifies target.repr
    ensures target.Valid() && source.Valid() && target.repr !! source.repr && target.Grown()
    ensures source.repr == old(source.repr) && source.items == old(source.items) && source.tree == old(source.tree)
    ensures target.tree == WithKey(old(target.tree), old(source.tree), key)
    decreases source.repr, 0
  {
    ghost var t, s := target.tree, source.tree;
    Keeps(target);
    SlotOf(source, key);
    hide *;
    var slot := source.items[key];
    if slot.Value? {
      OverLeaf(t, s, key);
      target.Put(key, slot.setting);
      assert target.Grown() by {
        target.GrownIs();
      }
    } else {
      OverSection(t, s, key);
      AddUnder(target, key, slot.dict);
    }
  }

  method AddUnder(target: Dict, key: string, source: Dict)
    requires target.Valid() && source.Valid() && target.repr !! source.repr
    requires SectionAt(target.tree, key).Section? && Fits(SectionAt(target.tree, key), source.tree)
    modifies target.repr
    ensures target.Valid() && target.Grown()
    ensures target.tree == Section(old(target.tree).items[key := Added(SectionAt(old(target.tree), key), old(source.tree))])
    decreases source.repr, 3
  {
    ghost var t, theirs := target.tree, source.repr;
    Keeps(target);
    Keeps(source);
    hide *;
    OpenSection(target, key);
    assert target.repr !! theirs && forall o :: o in target.repr ==> o in old(target.repr) || fresh(o) by {
      target.GrownIs();
    }
    label before:
    AddSub(target, key, source);
    assert target.Grown() by {
      target.GrownIs();
      target.GrownIs@before();
      assert target.Grown@before();
      forall o | o in target.repr ensures o in old(target.repr) || fresh(o) {
        assert o in old@before(target.repr) || fresh@before(o);
      }
    }
    Twice(t.items, key, SectionAt(t, key), Added(SectionAt(t, key), source.tree));
  }

  ghost function SectionAt(t: Tree, key: string): Tree {
    if t.Section? && key in t.items then t.items[key] else Section(map[])
  }

  method OpenSection(target: Dict, key: string)
    requires target.Valid() && SectionAt(target.tree, key).Section?
    modifies target
    ensures target.Valid() && target.Grown()
    ensures key in target.items && target.items[key].Sub?
    ensures target.tree == Section(old(target.tree).items[key := SectionAt(old(target.tree), key)])
  {
    if key !in target.items {
      target.PutSection(key);
    } else {
      assert target.tree.items == target.tree.items[key := target.tree.items[key]];
    }
  }

  method AddSub(target: Dict, key: string, source: Dict)
    requires target.Valid() && source.Valid() && target.repr !! source.repr
    requires key in target.items && target.items[key].Sub?
    requires Fits(target.tree.items[key], source.tree)
    modifies target.repr
    ensures target.Valid() && target.Grown()
    ensures target.tree == Section(old(target.tree).items[key := Added(old(target.tree).items[key], old(source.tree))])
    decreases source.repr, 2
  {
    Keeps(target);
    SlotOf(target, key);
    var d := target.items[key].dict;
    Addict(d, source);
    assert target !in d.repr;
    target.repr, target.tree := target.repr + d.repr, Section(target.tree.items[key := d.tree]);
    target.Rejoined(key);
  }

  ghost predicate FitsAt(t: Tree, s: Tree, key: string) {
    && t.Section? && s.Section? && key in s.items
    && (key in t.items && s.items[key].Section? ==> Fits(t.items[key], s.items[key]))
  }

  ghost function WithKey(t: Tree, s: Tree, key: string): Tree
    requires t.Section? && s.Section? && key in s.items
  {
    Section(t.items[key := Over(Item(t, key), s.items[key])])
  }

  lemma OverLeaf(t: Tree, s: Tree, key: string)
    requires FitsAt(t, s, key) && s.items[key].Leaf?
    ensures WithKey(t, s, key) == Section(t.items[key := s.items[key]])
  {
  }

  lemma OverSection(t: Tree, s: Tree, key: string)
    requires FitsAt(t, s, key) && s.items[key].Section?
    ensures var below := SectionAt(t, key);
            && below.Section?
            && Fits(below, s.items[key])
            && WithKey(t, s, key) == Section(t.items[key := Added(below, s.items[key])])
  {
  }

  // The keys still to go through, and what the target is by then.
  ghost predicate Going(t: Tree, s: Tree, now: Tree, todo: set<string>) {
    && Fits(t, s)
    && todo <= s.items.Keys
    && now == AddedFor(t, s, s.items.Keys - todo)
  }

  lemma NoKeyYet(target: Dict, source: Dict)
    requires source.Valid() && Fits(target.tree, source.tree)
    ensures Going(target.tree, source.tree, target.tree, source.items.Keys)
  {
    assert source.tree.items.Keys - source.items.Keys == {};
    assert AddedFor(target.tree, source.tree, {}).items == target.tree.items;
  }

  lemma AllKeys(t: Tree, s: Tree, now: Tree, todo: set<string>)
    requires Going(t, s, now, todo) && todo == {}
    ensures now == Added(t, s)
  {
    assert s.items.Keys - todo == s.items.Keys;
  }

  lemma NextKey(t: Tree, source: Dict, now: Tree, todo: set<string>, key: string)
    requires source.Valid() && Going(t, source.tree, now, todo) && key in todo
    ensures key in source.items && FitsAt(now, source.tree, key) && |todo - {key}| < |todo|
    ensures Going(t, source.tree, WithKey(now, source.tree, key), todo - {key})
  {
    Keeps(source);
    GoesOn(t, source.tree, now, todo, key);
    hide *;
  }

  lemma GoesOn(t: Tree, s: Tree, now: Tree, todo: set<string>, key: string)
    requires Going(t, s, now, todo) && key in todo
    ensures key in s.items && FitsAt(now, s, key)
    ensures Going(t, s, WithKey(now, s, key), todo - {key})
  {
    var done := s.items.Keys - todo;
    assert s.items.Keys - (todo - {key}) == done + {key};
    assert Item(now, key) == Item(t, key);
    assert AddedFor(t, s, done + {key}).items == WithKey(now, s, key).items;
  }

  lemma Twice(m: map<string, Tree>, key: string, a: Tree, b: Tree)
    ensures m[key := a][key := b] == m[key := b]
  {
  }

  // get_broadcast

  type Store = map<string, map<string, Dict>>

  // Broadcasts to all cycles come first, under any of their names.
  function CycleOrder(point: string): seq<string> {
    ["*", "all-cycle-points", "all-cycles", point]
  }

  function Reversed(names: seq<string>): seq<string> {
    if names == [] then [] else [names[|names| - 1]] + Reversed(names[..|names| - 1])
  }

  // What one cycle has for the given namespaces.
  function NamespaceLayers(spaces: map<string, Dict>, names: seq<string>): seq<Dict> {
    if names == [] then []
    else
      NamespaceLayers(spaces, names[..|names| - 1])
      + if names[|names| - 1] in spaces then [spaces[names[|names| - 1]]] else []
  }

  function CycleLayers(store: Store, cycles: seq<string>, names: seq<string>): seq<Dict> {
    if cycles == [] then []
    else
      CycleLayers(store, cycles[..|cycles| - 1], names)
      + if cycles[|cycles| - 1] in store then NamespaceLayers(store[cycles[|cycles| - 1]], names) else []
  }

  // The dictionaries that target a task, from the least to the most specific:
  // the ancestors are linearised with the task itself first.
  function Layers(store: Store, ancestors: seq<string>, point: string): seq<Dict> {
    CycleLayers(store, CycleOrder(point), Reversed(ancestors))
  }

  ghost function Trees(ds: seq<Dict>): seq<Tree>
    reads ds
  {
    if ds == [] then [] else Trees(ds[..|ds| - 1]) + [ds[|ds| - 1].tree]
  }

  lemma {:induction false} TreesLength(ds: seq<Dict>)
    ensures |Trees(ds)| == |ds|
    ensures forall i :: 0 <= i < |ds| ==> Trees(ds)[i] == ds[i].tree
  {
    if ds != [] {
      TreesLength(ds[..|ds| - 1]);
    }
  }

  ghost predicate AllValid(store: Store)
    reads set c, n | c in store && n in store[c] :: store[c][n],
          set c, n, o | c in store && n in store[c] && o in store[c][n].repr :: o
  {
    forall c, n :: c in store && n in store[c] ==> store[c][n].Valid()
  }

  lemma {:induction false} NamespacesSoFar(spaces: map<string, Dict>, names: seq<string>, j: nat)
    requires j <= |names|
    ensures NamespaceLayers(spaces, names[..j]) <= NamespaceLayers(spaces, names)
    ensures j < |names| ==>
              NamespaceLayers(spaces, names[..j + 1]) ==
              NamespaceLayers(spaces, names[..j]) + if names[j] in spaces then [spaces[names[j]]] else []
    decreases |names|
  {
    if j < |names| {
      assert names[..|names| - 1][..j] == names[..j];
      assert names[..j + 1][..j] == names[..j];
      NamespacesSoFar(spaces, names[..|names| - 1], j);
    } else {
      assert names[..j] == names;
    }
  }

  lemma {:induction false} CyclesSoFar(store: Store, cycles: seq<string>, names: seq<string>, i: nat)
    requires i <= |cycles|
    ensures CycleLayers(store, cycles[..i], names) <= CycleLayers(store, cycles, names)
    ensures i < |cycles| ==>
              CycleLayers(store, cycles[..i + 1], names) ==
              CycleLayers(store, cycles[..i], names)
              + if cycles[i] in store then NamespaceLayers(store[cycles[i]], names) else []
    decreases |cycles|
  {
    if i < |cycles| {
      assert cycles[..|cycles| - 1][..i] == cycles[..i];
      assert cycles[..i + 1][..i] == cycles[..i];
      CyclesSoFar(store, cycles[..|cycles| - 1], names, i);
    } else {
      assert cycles[..i] == cycles;
    }
  }

  // The next layer goes over the ones merged so far.
  lemma NextMerged(layers: seq<Tree>, k: nat)
    requires AllAgree(layers) && k < |layers|
    ensures Fits(Merged(layers[..k]), layers[k])
    ensures Added(Merged(layers[..k]), layers[k]) == Merged(layers[..k + 1])
  {
    forall l | l in layers[..k] ensures Agree(l, layers[k]) {
      var i :| 0 <= i < k && layers[i] == l;
    }
    MergedAgrees(layers[..k], layers[k]);
    AgreeFits(Merged(layers[..k]), layers[k]);
    assert layers[..k + 1][..k] == layers[..k];
  }

  method MergeLayer(ret: Dict, layer: Dict, ghost layers: seq<Tree>, ghost k: nat)
    requires ret.Valid() && layer.Valid() && ret.repr !! layer.repr
    requires AllAgree(layers) && k < |layers| && layers[k] == layer.tree
    requires ret.tree == Merged(layers[..k])
    modifies ret.repr
    ensures ret.Valid() && ret.Grown()
    ensures ret.tree == Merged(layers[..k + 1])
  {
    hide *;
    NextMerged(layers, k);
    Addict(ret, layer);
  }

  // All the settings for a task, in a new dictionary.  The store is not
  // changed, and since none of the result is in it, it cannot be changed through it.
  method GetBroadcast(store: Store, ancestors: seq<string>, point: string) returns (ret: Dict)
    requires AllValid(store)
    requires AllAgree(Trees(Layers(store, ancestors, point)))
    ensures ret.Valid() && fresh(ret.repr)
    ensures ret.tree == Merged(old(Trees(Layers(store, ancestors, point))))
  {
    var cycles, names := CycleOrder(point), Reversed(ancestors);
    ghost var all := Layers(store, ancestors, point);
    ghost var layers := Trees(all);
    TreesLength(all);
    NoCycleYet(all, store, cycles, names, layers);
    hide Merged, AllAgree, Agree, Trees, NamespaceLayers, CycleLayers, Reversed, Layers, CyclesReached, CycleOrder;
    ret := new Dict();
    ghost var k: nat := 0;
    for i := 0 to |cycles|
      invariant ret.Valid() && fresh(ret.repr)
      invariant CyclesReached(all, store, cycles, names, i, k)
      invariant k <= |layers| && ret.tree == Merged(layers[..k])
    {
      NextCycle(all, store, cycles, names, i, k);
      if cycles[i] in store {
        assert forall n | 0 <= n < |all| :: layers[n] == old(all[n].tree);
        assert forall n | n in store[cycles[i]] :: old(store[cycles[i]][n].Valid());
        ghost var first := k;
        label before:
        k := MergeNamespaces(ret, store[cycles[i]], names, all, layers, k);
        CycleDone(all, store, cycles, names, i, first, k);
        assert fresh(ret.repr) by {
          ret.GrownIs@before();
        }
      }
    }
    LastCycle(all, store, cycles, names, k);
    assert layers[..k] == layers;
  }

  // How far the layers have been merged when some cycles have been gone through.
  ghost predicate CyclesReached(all: seq<Dict>, store: Store, cycles: seq<string>, names: seq<string>, i: nat, k: nat) {
    && i <= |cycles| && k <= |all|
    && all == CycleLayers(store, cycles, names)
    && all[..k] == CycleLayers(store, cycles[..i], names)
  }

  lemma NoCycleYet(all: seq<Dict>, store: Store, cycles: seq<string>, names: seq<string>, layers: seq<Tree>)
    requires all == CycleLayers(store, cycles, names) && AllAgree(layers)
    ensures CyclesReached(all, store, cycles, names, 0, 0) && Merged(layers[..0]) == Section(map[])
    ensures forall l :: l in layers ==> l.Section?
  {
  }

  lemma NextCycle(all: seq<Dict>, store: Store, cycles: seq<string>, names: seq<string>, i: nat, k: nat)
    requires CyclesReached(all, store, cycles, names, i, k) && i < |cycles|
    ensures cycles[i] !in store ==> CyclesReached(all, store, cycles, names, i + 1, k)
    ensures cycles[i] in store ==> all[..k] + NamespaceLayers(store[cycles[i]], names) <= all
  {
    hide CycleLayers, NamespaceLayers;
    CyclesSoFar(store, cycles, names, i);
    CyclesSoFar(store, cycles, names, i + 1);
  }

  lemma CycleDone(all: seq<Dict>, store: Store, cycles: seq<string>, names: seq<string>, i: nat, before: nat, k: nat)
    requires CyclesReached(all, store, cycles, names, i, before) && i < |cycles| && cycles[i] in store
    requires k <= |all| && all[..k] == all[..before] + NamespaceLayers(store[cycles[i]], names)
    ensures CyclesReached(all, store, cycles, names, i + 1, k)
  {
    CyclesSoFar(store, cycles, names, i);
  }

  lemma LastCycle(all: seq<Dict>, store: Store, cycles: seq<string>, names: seq<string>, k: nat)
    requires CyclesReached(all, store, cycles, names, |cycles|, k)
    ensures k == |all|
  {
    assert cycles[..|cycles|] == cycles;
  }

  method MergeNamespaces(ret: Dict, spaces: map<string, Dict>, names: seq<string>,
                         ghost all: seq<Dict>, ghost layers: seq<Tree>, ghost first: nat)
    returns (ghost k: nat)
    requires forall n :: n in spaces ==> spaces[n].Valid() && spaces[n].repr !! ret.repr
    requires ret.Valid() && AllAgree(layers) && |layers| == |all|
    requires forall i :: 0 <= i < |all| ==> layers[i] == all[i].tree
    requires forall l :: l in layers ==> l.Section?
    requires first <= |all| && all[..first] + NamespaceLayers(spaces, names) <= all
    requires ret.tree == Merged(layers[..first])
    modifies ret.repr
    ensures ret.Valid() && ret.Grown()
    ensures k <= |all| && all[..k] == all[..first] + NamespaceLayers(spaces, names)
    ensures ret.tree == Merged(layers[..k])
  {
    forall n | n in spaces {
      Keeps(spaces[n]);
    }
    Keeps(ret);
    hide *;
    k := first;
    assert ret.Grown() by {
      ret.GrownIs();
    }
    NoLayerYet(all, first, spaces, names);
    for j := 0 to |names|
      invariant ret.Valid() && ret.Grown()
      invariant Reached(all, first, spaces, names, j, k)
      invariant k <= |layers| && ret.tree == Merged(layers[..k])
    {
      NextLayer(all, first, spaces, names, j, k);
      if names[j] in spaces {
        var layer := spaces[names[j]];
        assert old(layer.Valid()) && old(layer.repr) !! old(ret.repr) && layers[k] == old(layer.tree);
        assert forall o :: o in ret.repr ==> o in old(ret.repr) || fresh(o) by {
          ret.GrownIs();
        }
        label before:
        MergeLayer(ret, layer, layers, k);
        assert ret.Grown() by {
          ret.GrownIs();
          ret.GrownIs@before();
          assert ret.Grown@before();
          forall o | o in ret.repr ensures o in old(ret.repr) || fresh(o) {
            assert o in old@before(ret.repr) || fresh@before(o);
          }
        }
        k := k + 1;
      }
    }
    LastLayer(all, first, spaces, names, k);
  }

  // How far the layers have been merged when some namespaces have been gone through.
  ghost predicate Reached(all: seq<Dict>, first: nat, spaces: map<string, Dict>, names: seq<string>, j: nat, k: nat) {
    && j <= |names| && first <= |all| && k <= |all|
    && all[..first] + NamespaceLayers(spaces, names) <= all
    && all[..k] == all[..first] + NamespaceLayers(spaces, names[..j])
  }

  lemma NoLayerYet(all: seq<Dict>, first: nat, spaces: map<string, Dict>, names: seq<string>)
    requires first <= |all| && all[..first] + NamespaceLayers(spaces, names) <= all
    ensures Reached(all, first, spaces, names, 0, first)
  {
  }

  lemma NextLayer(all: seq<Dict>, first: nat, spaces: map<string, Dict>, names: seq<string>, j: nat, k: nat)
    requires Reached(all, first, spaces, names, j, k) && j < |names|
    ensures if names[j] in spaces then
              k < |all| && all[k] == spaces[names[j]] && Reached(all, first, spaces, names, j + 1, k + 1)
            else
              Reached(all, first, spaces, names, j + 1, k)
  {
    hide NamespaceLayers;
    NamespacesSoFar(spaces, names, j);
    NamespacesSoFar(spaces, names, j + 1);
    if names[j] in spaces {
      assert all[..k] + [spaces[names[j]]] <= all;
      assert all[..k + 1] == all[..k] + [all[k]];
    }
  }

  lemma LastLayer(all: seq<Dict>, first: nat, spaces: map<string, Dict>, names: seq<string>, k: nat)
    requires Reached(all, first, spaces, names, |names|, k)
    ensures k <= |all| && first <= |all| && all[..k] == all[..first] + NamespaceLayers(spaces, names)
  {
    assert names[..|names|] == names;
  }
}
