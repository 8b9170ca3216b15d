// Turning a logical expression into nested lists (listify.py).

module Listify {
  import opened Wrappers

  // What is left of the text once it is split at the operators: names and
  // operators are words.
  datatype Token = Word(text: string) | Open | Close

  // A nested list.
  datatype Item = Text(text: string) | Inner(items: seq<Item>)

  // The items of the lists that are open, the outermost first.
  type Opened = seq<seq<Item>>

  // A list of one item is replaced by that item as it is closed.
  function Closed(items: seq<Item>): Item {
    if |items| == 1 then items[0] else Inner(items)
  }

  function Added(open: Opened, item: Item): Opened
    requires open != []
  {
    open[..|open| - 1] + [open[|open| - 1] + [item]]
  }

  // One token; None is the ValueError.
  function Next(open: Opened, t: Token): (r: Option<Opened>)
    requires open != []
    ensures r.Some? ==> r.value != []
  {
    match t
    case Word(w) => Some(Added(open, Text(w)))
    case Open => Some(open + [[]])
    case Close =>
      if |open| == 1 then None
      else Some(Added(open[..|open| - 1], Closed(open[|open| - 1])))
  }

  function NextAll(open: Opened, ts: seq<Token>): (r: Option<Opened>)
    requires open != []
    ensures r.Some? ==> r.value != []
    decreases |ts|
  {
    if ts == [] then Some(open)
    else
      var next := Next(open, ts[0]);
      if next.None? then None else NextAll(next.value, ts[1..])
  }

  function Parse(ts: seq<Token>): Option<seq<Item>> {
    var end := NextAll([[]], ts);
    if end.Some? && |end.value| == 1 then Some(end.value[0]) else None
  }

  // When it fails.

  function Depth(ts: seq<Token>): int {
    if ts == [] then 0
    else
      Depth(ts[..|ts| - 1])
      + match ts[|ts| - 1] case Word(_) => 0 case Open => 1 case Close => -1
  }

  // No parenthesis is closed before it is opened, and none is left open.
  ghost predicate Balanced(ts: seq<Token>) {
    (forall i :: 0 <= i <= |ts| ==> Depth(ts[..i]) >= 0) && Depth(ts) == 0
  }

  lemma {:induction false} NextAllStep(open: Opened, ts: seq<Token>)
    requires open != [] && ts != []
    ensures var before := NextAll(open, ts[..|ts| - 1]);
            NextAll(open, ts) == if before.None? then None else Next(before.value, ts[|ts| - 1])
    decreases |ts|
  {
    if |ts| == 1 {
      assert ts[1..] == [];
    } else if Next(open, ts[0]).Some? {
      NextAllStep(Next(open, ts[0]).value, ts[1..]);
      assert ts[..|ts| - 1][1..] == ts[1..][..|ts| - 2];
    }
  }

  // The stack is as deep as the parentheses, until one is closed too many.
  lemma {:induction false} StackDepth(ts: seq<Token>)
    ensures NextAll([[]], ts).Some? <==> forall i :: 0 <= i <= |ts| ==> Depth(ts[..i]) >= 0
    ensures NextAll([[]], ts).Some? ==> |NextAll([[]], ts).value| == Depth(ts) + 1
    decreases |ts|
  {
    if ts == [] {
      assert ts[..0] == [];
    } else {
      var before := ts[..|ts| - 1];
      StackDepth(before);
      NextAllStep([[]], ts);
      assert forall i :: 0 <= i <= |before| ==> before[..i] == ts[..i];
      assert ts[..|ts|] == ts;
      if NextAll([[]], before).None? {
        var i :| 0 <= i <= |before| && Depth(before[..i]) < 0;
        assert Depth(ts[..i]) < 0;
      }
    }
  }

  // listify fails exactly on unbalanced parentheses.
  lemma FailsUnlessBalanced(ts: seq<Token>)
    ensures Parse(ts).Some? <==> Balanced(ts)
  {
    StackDepth(ts);
  }

  // Round trip.

  function Render(items: seq<Item>): seq<Token> {
    if items == [] then [] else RenderOne(items[0]) + Render(items[1..])
  }

  function RenderOne(item: Item): seq<Token> {
    match item
    case Text(w) => [Word(w)]
    case Inner(items) => [Open] + Render(items) + [Close]
  }

  // With every inner list of one item replaced by that item.
  function Collapsed(items: seq<Item>): (r: seq<Item>)
    ensures |r| == |items|
  {
    if items == [] then [] else [CollapsedOne(items[0])] + Collapsed(items[1..])
  }

  function CollapsedOne(item: Item): Item {
    match item
    case Text(_) => item
    case Inner(items) => var inner := Collapsed(items); if |inner| == 1 then inner[0] else Inner(inner)
  }

  // No inner list has just one item.
  predicate NoSingles(items: seq<Item>) {
    forall i :: 0 <= i < |items| ==> NoSinglesIn(items[i])
  }

  predicate NoSinglesIn(item: Item) {
    item.Inner? ==> |item.items| != 1 && NoSingles(item.items)
  }

  lemma {:induction false} NextAllJoin(open: Opened, ts: seq<Token>, us: seq<Token>)
    requires open != []
    ensures var middle := NextAll(open, ts);
            NextAll(open, ts + us) == if middle.None? then None else NextAll(middle.value, us)
    decreases |ts|
  {
    if ts == [] {
      assert ts + us == us;
    } else {
      assert (ts + us)[1..] == ts[1..] + us;
      if Next(open, ts[0]).Some? {
        NextAllJoin(Next(open, ts[0]).value, ts[1..], us);
      }
    }
  }

  function AddedAll(open: Opened, items: seq<Item>): Opened
    requires open != []
  {
    open[..|open| - 1] + [open[|open| - 1] + items]
  }

  lemma {:induction false} RenderParsed(open: Opened, items: seq<Item>)
    requires open != []
    ensures NextAll(open, Render(items)) == Some(AddedAll(open, Collapsed(items)))
    decreases items, 1
  {
    if items == [] {
      assert AddedAll(open, []) == open by {
        assert open[|open| - 1] + [] == open[|open| - 1];
      }
    } else {
      OneParsed(open, items[0]);
      var middle := Added(open, CollapsedOne(items[0]));
      RenderParsed(middle, items[1..]);
      NextAllJoin(open, RenderOne(items[0]), Render(items[1..]));
      assert middle[..|middle| - 1] == open[..|open| - 1];
      assert AddedAll(middle, Collapsed(items[1..])) == AddedAll(open, Collapsed(items)) by {
        assert open[|open| - 1] + [CollapsedOne(items[0])] + Collapsed(items[1..]) ==
               open[|open| - 1] + Collapsed(items);
      }
    }
  }

  lemma {:induction false} OneParsed(open: Opened, item: Item)
    requires open != []
    ensures NextAll(open, RenderOne(item)) == Some(Added(open, CollapsedOne(item)))
    decreases item, 0
  {
    match item
    case Text(w) =>
      assert [Word(w)][1..] == [];
    case Inner(items) =>
      var pushed := open + [[]];
      OneToken(open, Token.Open);
      RenderParsed(pushed, items);
      var filled := AddedAll(pushed, Collapsed(items));
      assert [] + Collapsed(items) == Collapsed(items);
      assert filled == open + [Collapsed(items)];
      NextAllJoin(pushed, Render(items), [Close]);
      OneToken(filled, Close);
      assert filled[..|filled| - 1] == open;
      NextAllJoin(open, [Token.Open], Render(items) + [Close]);
      assert [Token.Open] + (Render(items) + [Close]) == RenderOne(item);
  }

  lemma OneToken(open: Opened, t: Token)
    requires open != []
    ensures NextAll(open, [t]) == Next(open, t)
  {
    assert [t][1..] == [];
  }

  // A rendered list is given back with its single-item lists collapsed.
  lemma RoundTrip(items: seq<Item>)
    ensures Parse(Render(items)) == Some(Collapsed(items))
  {
    RenderParsed([[]], items);
    assert [] + Collapsed(items) == Collapsed(items);
  }

  lemma {:induction false} CollapsedSame(items: seq<Item>)
    requires NoSingles(items)
    ensures Collapsed(items) == items
    decreases items
  {
    if items != [] {
      NoSinglesSplit(items);
      hide NoSingles;
      if items[0].Inner? {
        CollapsedSame(items[0].items);
      }
      CollapsedSame(items[1..]);
      assert items == [items[0]] + items[1..];
    }
  }

  lemma NoSinglesSplit(items: seq<Item>)
    requires items != [] && NoSingles(items)
    ensures NoSingles(items[1..])
    ensures items[0].Inner? ==> |items[0].items| != 1 && NoSingles(items[0].items)
  {
    assert NoSinglesIn(items[0]);
    forall i | 0 <= i < |items[1..]| ensures NoSinglesIn(items[1..][i]) {
      assert NoSinglesIn(items[i + 1]);
    }
  }

  // Collapsing leaves no list of one item but the outermost.
  lemma {:induction false} CollapsedNoSingles(items: seq<Item>)
    ensures NoSingles(Collapsed(items))
    decreases items, 1
  {
    if items != [] {
      OneNoSingles(items[0]);
      CollapsedNoSingles(items[1..]);
    }
  }

  lemma {:induction false} OneNoSingles(item: Item)
    ensures NoSinglesIn(CollapsedOne(item))
    decreases item, 0
  {
    if item.Inner? {
      CollapsedNoSingles(item.items);
    }
  }

  // So it is given back as it was exactly when it has no such list.
  lemma RoundTripIff(items: seq<Item>)
    ensures Parse(Render(items)) == Some(items) <==> NoSingles(items)
  {
    RoundTrip(items);
    CollapsedNoSingles(items);
    if NoSingles(items) {
      CollapsedSame(items);
    }
  }

  // The loop over the tokens, with its stack of lists that hold one another.

  datatype Slot = Value(text: string) | Sub(list: ListObject)

  class ListObject {
    var slots: seq<Slot>

    constructor ()
      ensures slots == []
    {
      slots := [];
    }
  }

  // The slot holds the item, in lists that are closed.
  ghost predicate Shows(slot: Slot, item: Item, closed: set<ListObject>)
    reads closed
    decreases item
  {
    match slot
    case Value(w) => item == Text(w)
    case Sub(l) =>
      && l in closed
      && item.Inner?
      && |l.slots| == |item.items|
      && forall i :: 0 <= i < |item.items| ==> Shows(l.slots[i], item.items[i], closed)
  }

  ghost predicate ShowsAll(slots: seq<Slot>, items: seq<Item>, closed: set<ListObject>)
    reads closed
  {
    |slots| == |items| && forall i :: 0 <= i < |items| ==> Shows(slots[i], items[i], closed)
  }

  lemma {:induction false} ShowsMore(slot: Slot, item: Item, closed: set<ListObject>, more: set<ListObject>)
    requires Shows(slot, item, closed) && closed <= more
    ensures Shows(slot, item, more)
    decreases item
  {
    if slot.Sub? {
      forall i | 0 <= i < |item.items| ensures Shows(slot.list.slots[i], item.items[i], more) {
        ShowsMore(slot.list.slots[i], item.items[i], closed, more);
      }
    }
  }

  lemma ShowsAllMore(slots: seq<Slot>, items: seq<Item>, closed: set<ListObject>, more: set<ListObject>)
    requires ShowsAll(slots, items, closed) && closed <= more
    ensures ShowsAll(slots, items, more)
  {
    forall i | 0 <= i < |items| ensures Shows(slots[i], items[i], more) {
      ShowsMore(slots[i], items[i], closed, more);
    }
  }

  // A list on the stack: what it holds, and, last, the list above it.
  ghost predicate Holding(l: ListObject, items: seq<Item>, above: ListObject, closed: set<ListObject>)
    reads l, closed
  {
    && |l.slots| == |items| + 1
    && l.slots[|items|] == Sub(above)
    && ShowsAll(l.slots[..|items|], items, closed)
  }

  // The stack holds the items of the open lists, each list being the last
  // thing in the one below it.
  ghost predicate Stacked(stack: seq<ListObject>, open: Opened, closed: set<ListObject>)
    reads stack, closed
  {
    && |stack| == |open| > 0
    && Distinct(stack)
    && (forall i :: 0 <= i < |stack| ==> stack[i] !in closed)
    && (forall i :: 0 <= i < |stack| - 1 ==> Holding(stack[i], open[i], stack[i + 1], closed))
    && ShowsAll(stack[|stack| - 1].slots, open[|open| - 1], closed)
  }

  method AppendWord(stack: seq<ListObject>, w: string, ghost open: Opened, ghost closed: set<ListObject>)
    requires Stacked(stack, open, closed)
    modifies stack[|stack| - 1]
    ensures Stacked(stack, Added(open, Text(w)), closed)
  {
    var top := stack[|stack| - 1];
    top.slots := top.slots + [Value(w)];
  }

  method OpenList(stack: seq<ListObject>, ghost open: Opened, ghost closed: set<ListObject>)
    returns (after: seq<ListObject>)
    requires Stacked(stack, open, closed)
    modifies stack[|stack| - 1]
    ensures Stacked(after, open + [[]], closed)
    ensures after[..|after| - 1] == stack && fresh(after[|after| - 1])
  {
    var top := stack[|stack| - 1];
    var l := new ListObject();
    top.slots := top.slots + [Sub(l)];
    after := stack + [l];
    assert top.slots[..|open[|open| - 1]|] == old(top.slots);
    ghost var more := open + [[]];
    forall i | 0 <= i < |after| - 1 ensures Holding(after[i], more[i], after[i + 1], closed) {
      if i < |stack| - 1 {
        assert old(Holding(stack[i], open[i], stack[i + 1], closed));
      }
    }
  }

  // The list just closed is the last thing in the list below.
  method CloseList(stack: seq<ListObject>, ghost open: Opened, ghost closed: set<ListObject>)
    returns (after: seq<ListObject>)
    requires Stacked(stack, open, closed) && |stack| > 1
    modifies stack[|stack| - 2]
    ensures after == stack[..|stack| - 1]
    ensures Stacked(after, Added(open[..|open| - 1], Closed(open[|open| - 1])), closed + {stack[|stack| - 1]})
  {
    after := stack[..|stack| - 1];
    var below := after[|after| - 1];
    ghost var l, more := stack[|stack| - 1], closed + {stack[|stack| - 1]};
    ghost var n := |stack| - 2;
    ghost var items := open[|open| - 1];
    assert Holding(stack[n], open[n], stack[n + 1], closed);
    assert below.slots[|below.slots| - 1] == Sub(l);
    ShowsAllMore(l.slots, items, closed, more);
    ShowsAllMore(below.slots[..|open[n]|], open[n], closed, more);
    forall i | 0 <= i < n ensures Holding(stack[i], open[i], stack[i + 1], more) {
      assert Holding(stack[i], open[i], stack[i + 1], closed);
      ShowsAllMore(stack[i].slots[..|open[i]|], open[i], closed, more);
    }
    ghost var before := below.slots[..|open[n]|];
    assert Shows(Sub(l), Inner(items), more);
    match below.slots[|below.slots| - 1] {
      case Sub(last) =>
        if |last.slots| == 1 {
          below.slots := below.slots[..|below.slots| - 1] + [last.slots[0]];
        }
      case Value(_) =>
    }
    ghost var item := Closed(items);
    assert below.slots == before + [below.slots[|open[n]|]] && Shows(below.slots[|open[n]|], item, more);
    ghost var now := Added(open[..|open| - 1], item);
    assert now[n] == open[n] + [item];
    forall i | 0 <= i < n ensures Holding(after[i], now[i], after[i + 1], more) {
      assert old(Holding(stack[i], open[i], stack[i + 1], closed));
    }
  }

  // None is the ValueError.
  method ListifyTokens(ts: seq<Token>) returns (ret: Option<ListObject>, ghost closed: set<ListObject>)
    ensures ret.Some? <==> Parse(ts).Some?
    ensures ret.Some? ==> ShowsAll(ret.value.slots, Parse(ts).value, closed)
  {
    hide Stacked, ShowsAll;
    var list := new ListObject();
    var stack := [list];
    closed := {};
    ghost var open := [[]];
    StackedStart(list);
    for i := 0 to |ts|
      invariant fresh(stack) && stack != [] && stack[0] == list
      invariant open != [] && |open| == |stack| && Stacked(stack, open, closed)
      invariant NextAll([[]], ts) == NextAll(open, ts[i..])
    {
      assert ts[i..][1..] == ts[i + 1..];
      match ts[i]
      case Word(w) =>
        AppendWord(stack, w, open, closed);
        open := Added(open, Text(w));
      case Open =>
        stack := OpenList(stack, open, closed);
        open := open + [[]];
      case Close =>
        if |stack| == 1 {
          return None, closed;
        }
        ghost var last := stack[|stack| - 1];
        stack := CloseList(stack, open, closed);
        closed := closed + {last};
        open := Added(open[..|open| - 1], Closed(open[|open| - 1]));
    }
    assert ts[|ts|..] == [];
    if |stack| > 1 {
      return None, closed;
    }
    StackedEnd(stack, open, closed);
    return Some(list), closed;
  }

  lemma StackedStart(list: ListObject)
    requires list.slots == []
    ensures Stacked([list], [[]], {})
  {
  }

  lemma StackedEnd(stack: seq<ListObject>, open: Opened, closed: set<ListObject>)
    requires Stacked(stack, open, closed) && |stack| == 1
    ensures ShowsAll(stack[0].slots, open[0], closed)
  {
  }
}
