// The asynchronous pipe (async_util.py): a generator task and one task per item
// race, and a consumer yields the results.
//
// asyncio runs one task at a time and switches only where a task suspends, so a
// step here is what a task does between two suspensions.  The steps of the
// generator, of the item tasks and of the consumer interleave in any order.

module AsyncPipe {
  import opened Wrappers

  type Item = string

  // What awaiting a coroutine's function on an item gives.
  datatype Ret = True | False | Raised | Object(item: Item)

  // One stage of the pipe after the generator.
  datatype Coro = Coro(func: Item -> Ret, filterStop: bool)

  // The end of an item's way through the pipe.
  datatype Fate = Kept(item: Item) | Dropped

  // What one stage does: pass on an item, drop it, or let it out as it is.
  datatype Verdict = Next(item: Item) | Stop | LetOut(item: Item)

  function Judge(coro: Coro, item: Item): Verdict {
    match coro.func(item)
    case True => Next(item)
    case Object(v) => Next(v)
    case False => if coro.filterStop then Stop else LetOut(item)
    case Raised => if coro.filterStop then Stop else LetOut(item)   // logged, then as False
  }

  function Chain(coros: seq<Coro>, item: Item): Fate {
    if coros == [] then Kept(item)
    else match Judge(coros[0], item)
      case Next(v) => Chain(coros[1..], v)
      case Stop => Dropped
      case LetOut(v) => Kept(v)
  }

  /* ---- the state ---- */

  datatype TaskId = Gen | ItemTask(ind: nat)

  // An item task: at stage pos with a value, or finished; a dropped item's task
  // has its index as its result.
  datatype Task = Working(pos: nat, item: Item) | Finished(dropped: bool)

  datatype Consumer = Top | Yielding | Stopped | Failed

  // The pipe itself: what the generator gives, and whether it then raises.
  datatype Pipe = Pipe(items: seq<Item>, genRaises: bool, coros: seq<Coro>)

  datatype State = State(
    genDone: bool,
    tasks: seq<Task>,                // one for each item generated so far
    running: seq<TaskId>,
    completed: seq<(nat, Item)>,     // the queue
    cache: map<nat, Item>,
    skipCache: seq<nat>,
    yieldInd: nat,
    consumer: Consumer,
    output: seq<Item>)

  predicate Init(s: State) {
    s == State(false, [], [Gen], [], map[], [], 0, Top, [])
  }

  predicate Done(s: State, t: TaskId) {
    match t
    case Gen => s.genDone
    case ItemTask(i) => i < |s.tasks| && s.tasks[i].Finished?
  }

  /* ---- the steps of the other tasks ---- */

  // The generator gives its next item, whose task is added to running, or ends.
  function GenStep(p: Pipe, s: State): State {
    if s.genDone then s
    else if |s.tasks| < |p.items| then
      var i := |s.tasks|;
      s.(tasks := s.tasks + [Working(0, p.items[i])], running := s.running + [ItemTask(i)])
    else s.(genDone := true)
  }

  // An item task goes through one stage; at the end it puts its result in the
  // queue, which has no bound and so never suspends it, and finishes.
  function TaskStep(p: Pipe, s: State, i: nat): State {
    if i < |s.tasks| && s.tasks[i].Working? then
      var Working(pos, item) := s.tasks[i];
      if pos < |p.coros| then
        match Judge(p.coros[pos], item)
        case Next(v) => s.(tasks := s.tasks[i := Working(pos + 1, v)])
        case Stop => s.(tasks := s.tasks[i := Finished(true)])
        case LetOut(v) => s.(tasks := s.tasks[i := Finished(false)], completed := s.completed + [(i, v)])
      else
        s.(tasks := s.tasks[i := Finished(false)], completed := s.completed + [(i, item)])
    else s
  }

  /* ---- the consumer's steps ---- */

  function Remove<T(==)>(s: seq<T>, x: T): (r: seq<T>)
    requires x in s
    ensures |r| == |s| - 1
  {
    if s[0] == x then s[1..] else [s[0]] + Remove(s[1..], x)
  }

  // while yield_ind in skip_cache
  function Skip(skipCache: seq<nat>, yieldInd: nat): (r: (seq<nat>, nat))
    decreases |skipCache|
  {
    if yieldInd in skipCache then Skip(Remove(skipCache, yieldInd), yieldInd + 1) else (skipCache, yieldInd)
  }

  // The loop "for task in running" from list position k on; it removes from the
  // list that it iterates over, so the element after a removed one is passed by.
  function Reap(p: Pipe, s: State, k: nat): State
    decreases |s.running| - k
  {
    if k >= |s.running| then s
    else
      var t := s.running[k];
      if !Done(s, t) then Reap(p, s, k + 1)
      else
        var s' := s.(running := Remove(s.running, t));
        match t
        case Gen => if p.genRaises then s'.(consumer := Failed) else Reap(p, s', k + 1)
        case ItemTask(i) =>
          if s.tasks[i].dropped then Reap(p, s'.(skipCache := s'.skipCache + [i]), k + 1) else Reap(p, s', k + 1)
  }

  // From the loop's guard to the first suspension of the yielding loop.
  function TopStep(s: State): State {
    if s.cache == map[] && s.running == [] && s.completed == [] then s.(consumer := Stopped)
    else
      var s1 := if s.completed == [] then s
                else s.(completed := s.completed[1..], cache := s.cache[s.completed[0].0 := s.completed[0].1]);
      var (skipCache, yieldInd) := Skip(s1.skipCache, s1.yieldInd);
      s1.(skipCache := skipCache, yieldInd := yieldInd, consumer := Yielding)
  }

  // Yield one cached result, or reap the finished tasks and sleep.
  function YieldStep(p: Pipe, s: State): State {
    if s.yieldInd in s.cache then
      s.(output := s.output + [s.cache[s.yieldInd]], cache := s.cache - {s.yieldInd}, yieldInd := s.yieldInd + 1)
    else
      var s' := Reap(p, s, 0);
      if s'.consumer == Failed then s' else s'.(consumer := Top)
  }

  function ConsumerStep(p: Pipe, s: State): State {
    match s.consumer
    case Top => TopStep(s)
    case Yielding => YieldStep(p, s)
    case Stopped => s
    case Failed => s
  }

  datatype Action = Generate | Advance(ind: nat) | Consume

  function Step(p: Pipe, s: State, a: Action): State {
    match a
    case Generate => GenStep(p, s)
    case Advance(i) => TaskStep(p, s, i)
    case Consume => ConsumerStep(p, s)
  }

  // The state after any interleaving.
  function Run(p: Pipe, s: State, actions: seq<Action>): State
    decreases |actions|
  {
    if actions == [] then s else Step(p, Run(p, s, actions[..|actions| - 1]), actions[|actions| - 1])
  }

  /* ---- what every interleaving keeps ---- */

  function FateOf(p: Pipe, i: nat): Fate
    requires i < |p.items|
  {
    Chain(p.coros, p.items[i])
  }

  // The results that the pipe owes for its first k items, in order.
  function KeptItems(p: Pipe, k: nat): seq<Item>
    requires k <= |p.items|
  {
    if k == 0 then []
    else KeptItems(p, k - 1) + match FateOf(p, k - 1) case Kept(v) => [v] case Dropped => []
  }

  // What the pipe owes, said of the stages' functions themselves.

  // The values that an item has on entering the first stages, each of which
  // passes it on: as it is, or as the object that the stage gives for it.
  ghost predicate Passes(coros: seq<Coro>, vals: seq<Item>) {
    && 0 < |vals| <= |coros| + 1
    && forall j :: 0 <= j < |vals| - 1 ==>
         || coros[j].func(vals[j]) == Object(vals[j + 1])
         || (coros[j].func(vals[j]) == True && vals[j + 1] == vals[j])
  }

  // The stage after those fails.
  ghost predicate ThenFails(coros: seq<Coro>, vals: seq<Item>) {
    && 0 < |vals| <= |coros|
    && var r := coros[|vals| - 1].func(vals[|vals| - 1]); r == False || r == Raised
  }

  // The item comes out as v: from the last stage, or from the first that fails
  // if that does not stop what fails.
  ghost predicate Owed(coros: seq<Coro>, item: Item, v: Item) {
    exists vals :: Passes(coros, vals) && vals[0] == item && vals[|vals| - 1] == v &&
                   (|vals| == |coros| + 1 || (ThenFails(coros, vals) && !coros[|vals| - 1].filterStop))
  }

  // The first stage that fails stops the item.
  ghost predicate Filtered(coros: seq<Coro>, item: Item) {
    exists vals :: Passes(coros, vals) && vals[0] == item && ThenFails(coros, vals) && coros[|vals| - 1].filterStop
  }

  lemma {:induction false} PassesTo(coros: seq<Coro>, vals: seq<Item>)
    requires Passes(coros, vals)
    ensures |vals| == |coros| + 1 ==> Chain(coros, vals[0]) == Kept(vals[|vals| - 1])
    ensures ThenFails(coros, vals) ==>
              Chain(coros, vals[0]) == if coros[|vals| - 1].filterStop then Dropped else Kept(vals[|vals| - 1])
    decreases |vals|
  {
    if |vals| > 1 {
      PassesTo(coros[1..], vals[1..]);
    }
  }

  lemma {:induction false} WayThrough(coros: seq<Coro>, item: Item) returns (vals: seq<Item>)
    ensures Passes(coros, vals) && vals[0] == item && (|vals| == |coros| + 1 || ThenFails(coros, vals))
    decreases |coros|
  {
    vals := [item];
    if coros != [] {
      match coros[0].func(item) {
        case True => var rest := WayThrough(coros[1..], item); vals := [item] + rest;
        case Object(v) => var rest := WayThrough(coros[1..], v); vals := [item] + rest;
        case False =>
        case Raised =>
      }
    }
  }

  // An item is owed exactly when it is not filtered, and then with one value.
  lemma FateIs(coros: seq<Coro>, item: Item, v: Item)
    ensures Owed(coros, item, v) <==> Chain(coros, item) == Kept(v)
    ensures Filtered(coros, item) <==> Chain(coros, item) == Dropped
  {
    var vals := WayThrough(coros, item);
    PassesTo(coros, vals);
    hide Chain;
    forall other | Passes(coros, other) && other[0] == item
      ensures |other| == |coros| + 1 ==> Chain(coros, item) == Kept(other[|other| - 1])
      ensures ThenFails(coros, other) ==>
                Chain(coros, item) == if coros[|other| - 1].filterStop then Dropped else Kept(other[|other| - 1])
    {
      PassesTo(coros, other);
    }
  }

  // The results of the items numbered by kept, in order, where every other of
  // the first k items is filtered.
  ghost predicate AreResults(p: Pipe, k: nat, kept: seq<nat>, results: seq<Item>) {
    && |kept| == |results|
    && (forall a, b :: 0 <= a < b < |kept| ==> kept[a] < kept[b])
    && (forall a :: 0 <= a < |kept| ==> kept[a] < k <= |p.items| && Owed(p.coros, p.items[kept[a]], results[a]))
    && (forall i :: 0 <= i < k <= |p.items| && i !in kept ==> Filtered(p.coros, p.items[i]))
  }

  ghost predicate Results(p: Pipe, k: nat, results: seq<Item>) {
    k <= |p.items| && exists kept :: AreResults(p, k, kept, results)
  }

  lemma OneMoreResult(p: Pipe, k: nat, kept: seq<nat>, results: seq<Item>, v: Item)
    requires AreResults(p, k, kept, results) && k < |p.items| && Owed(p.coros, p.items[k], v)
    ensures AreResults(p, k + 1, kept + [k], results + [v])
  {
    hide Owed, Filtered;
    forall i | 0 <= i < k + 1 && i !in kept + [k] ensures Filtered(p.coros, p.items[i]) {
      assert i != k && i !in kept;
    }
  }

  lemma NoMoreResult(p: Pipe, k: nat, kept: seq<nat>, results: seq<Item>)
    requires AreResults(p, k, kept, results) && k < |p.items| && Filtered(p.coros, p.items[k])
    ensures AreResults(p, k + 1, kept, results)
  {
    hide Owed, Filtered;
  }

  lemma {:induction false} KeptItemsAre(p: Pipe, k: nat) returns (kept: seq<nat>)
    requires k <= |p.items|
    ensures AreResults(p, k, kept, KeptItems(p, k))
    decreases k
  {
    hide Owed, Filtered, Chain, AreResults;
    if k == 0 {
      kept := [];
      NoResults(p);
    } else {
      var before := KeptItemsAre(p, k - 1);
      match FateOf(p, k - 1)
      case Kept(v) =>
        FateIs(p.coros, p.items[k - 1], v);
        OneMoreResult(p, k - 1, before, KeptItems(p, k - 1), v);
        kept := before + [k - 1];
      case Dropped =>
        FateIs(p.coros, p.items[k - 1], p.items[k - 1]);
        NoMoreResult(p, k - 1, before, KeptItems(p, k - 1));
        assert KeptItems(p, k) == KeptItems(p, k - 1);
        kept := before;
    }
  }

  lemma NoResults(p: Pipe)
    ensures AreResults(p, 0, [], [])
  {
  }

  // Whether the last item has a result, and what the results before it are.
  lemma LastResult(p: Pipe, k: nat, kept: seq<nat>, results: seq<Item>)
    requires AreResults(p, k, kept, results) && 0 < k <= |p.items|
    ensures var n := |kept| - 1;
            if n >= 0 && kept[n] == k - 1 then
              && Owed(p.coros, p.items[k - 1], results[|results| - 1])
              && AreResults(p, k - 1, kept[..|kept| - 1], results[..|results| - 1])
            else
              Filtered(p.coros, p.items[k - 1]) && AreResults(p, k - 1, kept, results)
  {
    hide Owed, Filtered;
    var n := |kept| - 1;
    if n >= 0 && kept[n] == k - 1 {
      assert kept == kept[..n] + [k - 1];
    } else {
      forall a | 0 <= a < |kept| ensures kept[a] < k - 1 {
        assert kept[a] <= kept[n];
      }
    }
  }

  lemma SomeBelow(kept: seq<nat>, k: nat)
    requires kept != [] && forall a :: 0 <= a < |kept| ==> kept[a] < k
    ensures k > 0
  {
    assert kept[0] < k;
  }

  lemma NothingFromNothing(p: Pipe, kept: seq<nat>, results: seq<Item>)
    requires AreResults(p, 0, kept, results)
    ensures results == []
  {
    if kept != [] { SomeBelow(kept, 0); }
  }

  lemma LastKept(p: Pipe, k: nat, results: seq<Item>)
    requires 0 < k <= |p.items| && results != [] && results[..|results| - 1] == KeptItems(p, k - 1)
    requires Owed(p.coros, p.items[k - 1], results[|results| - 1])
    ensures results == KeptItems(p, k)
  {
    FateIs(p.coros, p.items[k - 1], results[|results| - 1]);
    hide Owed, Chain;
    assert results == results[..|results| - 1] + [results[|results| - 1]];
  }

  lemma LastDropped(p: Pipe, k: nat)
    requires 0 < k <= |p.items| && Filtered(p.coros, p.items[k - 1])
    ensures KeptItems(p, k) == KeptItems(p, k - 1)
  {
    FateIs(p.coros, p.items[k - 1], p.items[k - 1]);
    hide Filtered, Chain;
  }

  // There is one answer to what the results are.
  lemma {:induction false} ResultsAre(p: Pipe, k: nat, kept: seq<nat>, results: seq<Item>)
    requires k <= |p.items| && AreResults(p, k, kept, results)
    ensures results == KeptItems(p, k)
    decreases k
  {
    assert |kept| == |results|;
    if k > 0 { LastResult(p, k, kept, results); }
    hide *;
    if k == 0 {
      NothingFromNothing(p, kept, results);
      NoneKept(p);
    } else if kept != [] && kept[|kept| - 1] == k - 1 {
      ResultsAre(p, k - 1, kept[..|kept| - 1], results[..|results| - 1]);
      LastKept(p, k, results);
    } else {
      ResultsAre(p, k - 1, kept, results);
      LastDropped(p, k);
    }
  }

  lemma NoneKept(p: Pipe)
    ensures KeptItems(p, 0) == []
  {
  }

  lemma ResultsIff(p: Pipe, k: nat, results: seq<Item>)
    requires k <= |p.items|
    ensures Results(p, k, results) <==> results == KeptItems(p, k)
  {
    hide AreResults;
    var kept := KeptItemsAre(p, k);
    if other :| AreResults(p, k, other, results) {
      ResultsAre(p, k, other, results);
    }
  }

  ghost predicate Queued(s: State, i: nat) {
    exists k :: 0 <= k < |s.completed| && s.completed[k].0 == i
  }

  ghost predicate IsDropped(s: State, i: nat) {
    i < |s.tasks| && s.tasks[i] == Finished(true)
  }

  ghost predicate IsKept(s: State, i: nat) {
    i < |s.tasks| && s.tasks[i] == Finished(false)
  }

  // Each task is on its way to its item's fate.
  ghost predicate TasksOk(p: Pipe, s: State) {
    && |s.tasks| <= |p.items|
    && (s.genDone ==> |s.tasks| == |p.items|)
    && forall i :: 0 <= i < |s.tasks| ==>
         match s.tasks[i]
         case Working(pos, item) => pos <= |p.coros| && Chain(p.coros[pos..], item) == FateOf(p, i)
         case Finished(d) => d <==> FateOf(p, i) == Dropped
  }

  // Nothing unfinished is missing from running.
  ghost predicate RunningOk(p: Pipe, s: State) {
    && Distinct(s.running)
    && (Gen in s.running || (s.genDone && (p.genRaises ==> s.consumer == Failed)))
    && (forall i: nat :: ItemTask(i) in s.running ==> i < |s.tasks|)
    && (forall i :: 0 <= i < |s.tasks| && s.tasks[i].Working? ==> ItemTask(i) in s.running)
  }

  ghost predicate QueueOk(p: Pipe, s: State)
    requires |s.tasks| <= |p.items|
  {
    && (forall k :: 0 <= k < |s.completed| ==>
          var (i, v) := s.completed[k];
          IsKept(s, i) && FateOf(p, i) == Kept(v) && s.yieldInd <= i && i !in s.cache)
    && (forall j, k :: 0 <= j < k < |s.completed| ==> s.completed[j].0 != s.completed[k].0)
  }

  ghost predicate CacheOk(p: Pipe, s: State)
    requires |s.tasks| <= |p.items|
  {
    forall i :: i in s.cache ==> IsKept(s, i) && FateOf(p, i) == Kept(s.cache[i]) && s.yieldInd <= i
  }

  ghost predicate SkipOk(s: State) {
    && Distinct(s.skipCache)
    && forall i :: i in s.skipCache ==> IsDropped(s, i) && s.yieldInd <= i && ItemTask(i) !in s.running
  }

  // Every finished item is accounted for.
  ghost predicate AllHeld(s: State) {
    && (forall i: nat :: IsKept(s, i) && s.yieldInd <= i ==> i in s.cache || Queued(s, i))
    && (forall i: nat :: IsDropped(s, i) && s.yieldInd <= i ==> i in s.skipCache || ItemTask(i) in s.running)
  }

  ghost predicate YieldOk(p: Pipe, s: State)
    requires |s.tasks| <= |p.items|
  {
    && s.yieldInd <= |s.tasks|
    && (forall i :: 0 <= i < s.yieldInd ==> s.tasks[i].Finished? && (s.tasks[i].dropped ==> ItemTask(i) !in s.running))
    && s.output == KeptItems(p, s.yieldInd)
  }

  ghost predicate ConsumerOk(p: Pipe, s: State) {
    && (s.consumer == Stopped ==> s.running == [] && s.completed == [] && s.cache == map[])
    && (s.consumer == Failed ==> p.genRaises && s.genDone)
  }

  ghost predicate Inv(p: Pipe, s: State) {
    && TasksOk(p, s) && RunningOk(p, s) && QueueOk(p, s) && CacheOk(p, s)
    && SkipOk(s) && AllHeld(s) && YieldOk(p, s) && ConsumerOk(p, s)
  }

  lemma InitInv(p: Pipe, s: State)
    requires Init(s)
    ensures Inv(p, s)
  {
  }

  lemma GenStepHeld(s: State, p: Pipe)
    ensures forall j: nat :: IsKept(GenStep(p, s), j) <==> IsKept(s, j)
    ensures forall j: nat :: IsDropped(GenStep(p, s), j) <==> IsDropped(s, j)
    ensures forall j: nat :: Queued(GenStep(p, s), j) <==> Queued(s, j)
  {
  }

  lemma GenStepTasks(p: Pipe, s: State)
    requires Inv(p, s)
    ensures TasksOk(p, GenStep(p, s)) && RunningOk(p, GenStep(p, s))
  {
    assert p.coros[0..] == p.coros;
    assert ItemTask(|s.tasks|) !in s.running;
    hide Chain, QueueOk, CacheOk, SkipOk, AllHeld, YieldOk, ConsumerOk;
  }

  lemma GenStepQueued(p: Pipe, s: State)
    requires Inv(p, s)
    ensures |GenStep(p, s).tasks| <= |p.items| && QueueOk(p, GenStep(p, s)) && CacheOk(p, GenStep(p, s))
  {
    GenStepHeld(s, p);
    hide Chain, IsKept, Queued, RunningOk, SkipOk, AllHeld, YieldOk, ConsumerOk;
  }

  lemma GenStepRest(p: Pipe, s: State)
    requires Inv(p, s)
    ensures SkipOk(GenStep(p, s)) && AllHeld(GenStep(p, s)) && YieldOk(p, GenStep(p, s))
    ensures ConsumerOk(p, GenStep(p, s))
  {
    GenStepHeld(s, p);
    hide Chain, KeptItems, IsKept, Queued, CacheOk;
  }

  lemma GenStepInv(p: Pipe, s: State)
    requires Inv(p, s)
    ensures Inv(p, GenStep(p, s))
  {
    GenStepTasks(p, s);
    GenStepQueued(p, s);
    GenStepRest(p, s);
    hide GenStep, TasksOk, RunningOk, QueueOk, CacheOk, SkipOk, AllHeld, YieldOk, ConsumerOk;
  }

  // An item task moves on to its next stage.
  lemma MovedInv(p: Pipe, s: State, i: nat, pos: nat, v: Item)
    requires Inv(p, s) && i < |s.tasks| && s.tasks[i].Working?
    requires pos <= |p.coros| && Chain(p.coros[pos..], v) == FateOf(p, i)
    ensures Inv(p, s.(tasks := s.tasks[i := Working(pos, v)]))
  {
    hide Chain, KeptItems;
    var s' := s.(tasks := s.tasks[i := Working(pos, v)]);
    assert forall j: nat :: IsKept(s', j) <==> IsKept(s, j);
    assert forall j: nat :: IsDropped(s', j) <==> IsDropped(s, j);
    assert forall j: nat :: Queued(s', j) <==> Queued(s, j);
    hide IsKept, IsDropped, Queued;
  }

  lemma DroppedInv(p: Pipe, s: State, i: nat)
    requires Inv(p, s) && i < |s.tasks| && s.tasks[i].Working? && FateOf(p, i) == Dropped
    ensures Inv(p, s.(tasks := s.tasks[i := Finished(true)]))
  {
    hide Chain, KeptItems;
    var s' := s.(tasks := s.tasks[i := Finished(true)]);
    assert forall j: nat :: IsKept(s', j) <==> IsKept(s, j);
    assert forall j: nat :: IsDropped(s', j) <==> IsDropped(s, j) || j == i;
    assert forall j: nat :: Queued(s', j) <==> Queued(s, j);
    hide IsKept, IsDropped, Queued;
  }

  lemma PutInv(p: Pipe, s: State, i: nat, v: Item)
    requires Inv(p, s) && i < |s.tasks| && s.tasks[i].Working? && FateOf(p, i) == Kept(v)
    ensures Inv(p, s.(tasks := s.tasks[i := Finished(false)], completed := s.completed + [(i, v)]))
  {
    hide Chain, KeptItems;
    var s' := s.(tasks := s.tasks[i := Finished(false)], completed := s.completed + [(i, v)]);
    assert !IsKept(s, i) && s.yieldInd <= i;
    assert forall j: nat :: IsKept(s', j) <==> IsKept(s, j) || j == i;
    assert forall j: nat :: IsDropped(s', j) <==> IsDropped(s, j);
    forall j: nat ensures Queued(s', j) <==> Queued(s, j) || j == i {
      if k :| 0 <= k < |s.completed| && s.completed[k].0 == j { assert s'.completed[k].0 == j; }
      assert s'.completed[|s.completed|].0 == i;
    }
    hide IsKept, IsDropped, Queued;
  }

  lemma TaskStepInv(p: Pipe, s: State, i: nat)
    requires Inv(p, s)
    ensures Inv(p, TaskStep(p, s, i))
  {
    if i < |s.tasks| && s.tasks[i].Working? {
      var Working(pos, item) := s.tasks[i];
      assert pos <= |p.coros| && Chain(p.coros[pos..], item) == FateOf(p, i);
      if pos < |p.coros| {
        assert p.coros[pos..][0] == p.coros[pos] && p.coros[pos..][1..] == p.coros[pos + 1..];
        hide Inv;
        match Judge(p.coros[pos], item)
        case Next(v) => MovedInv(p, s, i, pos + 1, v);
        case Stop => DroppedInv(p, s, i);
        case LetOut(v) => PutInv(p, s, i, v);
      } else {
        hide Inv;
        PutInv(p, s, i, item);
      }
    }
  }

  /* ---- the consumer ---- */

  ghost function Popped(s: State): State
    requires s.completed != []
  {
    s.(completed := s.completed[1..], cache := s.cache[s.completed[0].0 := s.completed[0].1])
  }

  lemma PoppedInv(p: Pipe, s: State)
    requires Inv(p, s) && s.completed != [] && s.consumer == Top
    ensures Inv(p, Popped(s))
  {
    hide Chain, KeptItems;
    var s', i := Popped(s), s.completed[0].0;
    assert forall j: nat :: IsKept(s', j) <==> IsKept(s, j);
    assert forall j: nat :: IsDropped(s', j) <==> IsDropped(s, j);
    forall j: nat | Queued(s, j) ensures j == i || Queued(s', j) {
      var k :| 0 <= k < |s.completed| && s.completed[k].0 == j;
      if k > 0 { assert s'.completed[k - 1].0 == j; }
    }
    forall k | 0 <= k < |s'.completed| ensures s'.completed[k] == s.completed[k + 1] {
    }
    hide IsKept, IsDropped, Queued;
  }

  lemma RemoveDistinct<T>(s: seq<T>, x: T)
    requires Distinct(s) && x in s
    ensures Distinct(Remove(s, x))
    ensures forall y :: y in Remove(s, x) <==> y in s && y != x
  {
    if s[0] == x {
      assert s == [x] + s[1..];
    } else {
      assert Distinct(s[1..]);
      RemoveDistinct(s[1..], x);
      assert s == [s[0]] + s[1..];
      assert s[0] !in s[1..];
    }
  }

  // The yield index moves past item i = yieldInd, which is in neither store any more.
  ghost predicate MovesPast(p: Pipe, s: State, s': State)
    requires TasksOk(p, s)
  {
    var i := s.yieldInd;
    && i < |s.tasks| && s.tasks[i].Finished? && (s.tasks[i].dropped ==> ItemTask(i) !in s.running)
    && !Queued(s, i)
    && s'.yieldInd == i + 1 && s'.cache == s.cache - {i}
    && Distinct(s'.skipCache) && (forall j :: j in s'.skipCache <==> j in s.skipCache && j != i)
    && s'.output == KeptItems(p, i + 1)
    && s'.tasks == s.tasks && s'.running == s.running && s'.completed == s.completed
    && s'.genDone == s.genDone && s'.consumer == s.consumer && s.consumer != Stopped
  }

  lemma MovedPastQueue(p: Pipe, s: State, s': State)
    requires Inv(p, s) && MovesPast(p, s, s')
    ensures TasksOk(p, s') && QueueOk(p, s') && CacheOk(p, s')
  {
    hide Chain, KeptItems, AllHeld, SkipOk, YieldOk, RunningOk, Distinct;
    forall k | 0 <= k < |s'.completed| ensures s'.completed[k].0 != s.yieldInd {
    }
  }

  lemma MovedPastHeld(p: Pipe, s: State, s': State)
    requires Inv(p, s) && MovesPast(p, s, s') && TasksOk(p, s')
    ensures RunningOk(p, s') && SkipOk(s') && AllHeld(s') && YieldOk(p, s') && ConsumerOk(p, s')
  {
    hide Chain, KeptItems, QueueOk, CacheOk, Distinct;
    assert forall j: nat :: IsKept(s', j) <==> IsKept(s, j);
    assert forall j: nat :: IsDropped(s', j) <==> IsDropped(s, j);
    assert forall j: nat :: Queued(s', j) <==> Queued(s, j);
    hide IsKept, IsDropped, Queued;
  }

  lemma SkippedOneInv(p: Pipe, s: State)
    requires Inv(p, s) && s.yieldInd in s.skipCache && s.consumer == Top
    ensures Inv(p, s.(skipCache := Remove(s.skipCache, s.yieldInd), yieldInd := s.yieldInd + 1))
  {
    hide Remove;
    RemoveDistinct(s.skipCache, s.yieldInd);
    var s' := s.(skipCache := Remove(s.skipCache, s.yieldInd), yieldInd := s.yieldInd + 1);
    assert IsDropped(s, s.yieldInd) && s.tasks[s.yieldInd] == Finished(true);
    assert KeptItems(p, s.yieldInd + 1) == KeptItems(p, s.yieldInd) + [];
    assert s.yieldInd !in s.cache by { assert !IsKept(s, s.yieldInd); }
    assert s.cache - {s.yieldInd} == s.cache;
    assert MovesPast(p, s, s');
    MovedPastQueue(p, s, s');
    MovedPastHeld(p, s, s');
  }

  lemma {:induction false} SkippedInv(p: Pipe, s: State)
    requires Inv(p, s) && s.consumer == Top
    ensures var (skipCache, yieldInd) := Skip(s.skipCache, s.yieldInd);
            Inv(p, s.(skipCache := skipCache, yieldInd := yieldInd)) && yieldInd !in skipCache && s.yieldInd <= yieldInd
    decreases |s.skipCache|
  {
    hide Inv;
    if s.yieldInd in s.skipCache {
      SkippedOneInv(p, s);
      SkippedInv(p, s.(skipCache := Remove(s.skipCache, s.yieldInd), yieldInd := s.yieldInd + 1));
    }
  }

  lemma TopStepInv(p: Pipe, s: State)
    requires Inv(p, s) && s.consumer == Top
    ensures Inv(p, TopStep(s))
  {
    if !(s.cache == map[] && s.running == [] && s.completed == []) {
      if s.completed != [] { PoppedInv(p, s); }
      var s1 := if s.completed == [] then s else Popped(s);
      SkippedInv(p, s1);
      ConsumerOnly(p, s1.(skipCache := Skip(s1.skipCache, s1.yieldInd).0, yieldInd := Skip(s1.skipCache, s1.yieldInd).1), Yielding);
    } else {
      ConsumerOnly(p, s, Stopped);
    }
  }

  lemma ConsumerOnly(p: Pipe, s: State, c: Consumer)
    requires Inv(p, s) && s.consumer != Failed && c != Failed
    requires c == Stopped ==> s.running == [] && s.completed == [] && s.cache == map[]
    ensures Inv(p, s.(consumer := c))
  {
    var s' := s.(consumer := c);
    hide Chain, KeptItems;
    assert forall j: nat :: IsKept(s', j) <==> IsKept(s, j);
    assert forall j: nat :: IsDropped(s', j) <==> IsDropped(s, j);
    assert forall j: nat :: Queued(s', j) <==> Queued(s, j);
    hide IsKept, IsDropped, Queued;
  }

  lemma YieldedInv(p: Pipe, s: State)
    requires Inv(p, s) && s.yieldInd in s.cache && s.consumer == Yielding
    ensures Inv(p, YieldStep(p, s))
  {
    var s', i := YieldStep(p, s), s.yieldInd;
    assert IsKept(s, i) && FateOf(p, i) == Kept(s.cache[i]);
    assert KeptItems(p, i + 1) == KeptItems(p, i) + [s.cache[i]];
    assert !Queued(s, i);
    assert i !in s.skipCache by { assert !IsDropped(s, i); }
    assert MovesPast(p, s, s');
    hide YieldStep, KeptItems, Chain, MovesPast, TasksOk, RunningOk, QueueOk, CacheOk, SkipOk, AllHeld, YieldOk;
    MovedPastQueue(p, s, s');
    MovedPastHeld(p, s, s');
  }

  // One finished task taken from running.
  ghost function Reaped(p: Pipe, s: State, t: TaskId): State
    requires t in s.running && Done(s, t)
  {
    var s' := s.(running := Remove(s.running, t));
    match t
    case Gen => if p.genRaises then s'.(consumer := Failed) else s'
    case ItemTask(i) => if s.tasks[i].dropped then s'.(skipCache := s'.skipCache + [i]) else s'
  }

  lemma ReapedInv(p: Pipe, s: State, t: TaskId)
    requires Inv(p, s) && s.consumer == Yielding && t in s.running && Done(s, t)
    ensures Inv(p, Reaped(p, s, t))
  {
    hide Chain, KeptItems, Remove;
    RemoveDistinct(s.running, t);
    var s' := Reaped(p, s, t);
    assert s'.running == Remove(s.running, t);
    assert TasksOk(p, s') && RunningOk(p, s') && ConsumerOk(p, s') by { hide QueueOk, CacheOk, SkipOk, AllHeld, YieldOk; }
    assert QueueOk(p, s') && CacheOk(p, s') && YieldOk(p, s') by { hide RunningOk, SkipOk, AllHeld; }
    ReapedHeld(p, s, t);
    hide Reaped, TasksOk, RunningOk, QueueOk, CacheOk, SkipOk, AllHeld, YieldOk;
  }

  lemma ReapedHeld(p: Pipe, s: State, t: TaskId)
    requires Inv(p, s) && s.consumer == Yielding && t in s.running && Done(s, t)
    ensures SkipOk(Reaped(p, s, t)) && AllHeld(Reaped(p, s, t))
  {
    hide Chain, KeptItems, Remove, QueueOk, CacheOk;
    RemoveDistinct(s.running, t);
    var s' := Reaped(p, s, t);
    assert forall j: nat :: IsKept(s', j) <==> IsKept(s, j);
    assert forall j: nat :: IsDropped(s', j) <==> IsDropped(s, j);
    assert forall j: nat :: Queued(s', j) <==> Queued(s, j);
    if t.ItemTask? && s.tasks[t.ind].dropped {
      assert IsDropped(s, t.ind) && s.yieldInd <= t.ind && t.ind !in s.skipCache;
    } else if t.ItemTask? {
      assert !IsDropped(s, t.ind);
    }
    hide IsKept, IsDropped, Queued;
  }

  lemma {:induction false} ReapInv(p: Pipe, s: State, k: nat)
    requires Inv(p, s) && s.consumer == Yielding
    ensures Inv(p, Reap(p, s, k))
    ensures Reap(p, s, k).consumer == Failed || Reap(p, s, k).consumer == Yielding
    decreases |s.running| - k
  {
    hide Inv;
    if k < |s.running| {
      var t := s.running[k];
      if !Done(s, t) {
        ReapInv(p, s, k + 1);
      } else {
        ReapedInv(p, s, t);
        var s' := Reaped(p, s, t);
        if s'.consumer == Yielding { ReapInv(p, s', k + 1); }
      }
    }
  }

  lemma YieldStepInv(p: Pipe, s: State)
    requires Inv(p, s) && s.consumer == Yielding
    ensures Inv(p, YieldStep(p, s))
  {
    if s.yieldInd in s.cache {
      YieldedInv(p, s);
    } else {
      ReapInv(p, s, 0);
      var s' := Reap(p, s, 0);
      if s'.consumer != Failed { ConsumerOnly(p, s', Top); }
    }
  }

  lemma StepInv(p: Pipe, s: State, a: Action)
    requires Inv(p, s)
    ensures Inv(p, Step(p, s, a))
  {
    hide Inv;
    match a
    case Generate => GenStepInv(p, s);
    case Advance(i) => TaskStepInv(p, s, i);
    case Consume =>
      if s.consumer == Top { TopStepInv(p, s); }
      if s.consumer == Yielding { YieldStepInv(p, s); }
  }

  lemma {:induction false} RunInv(p: Pipe, s: State, actions: seq<Action>)
    requires Inv(p, s)
    ensures Inv(p, Run(p, s, actions))
    decreases |actions|
  {
    hide Inv;
    if actions != [] {
      RunInv(p, s, actions[..|actions| - 1]);
      StepInv(p, Run(p, s, actions[..|actions| - 1]), actions[|actions| - 1]);
    }
  }

  lemma {:induction false} KeptItemsPrefix(p: Pipe, j: nat, k: nat)
    requires j <= k <= |p.items|
    ensures KeptItems(p, j) <= KeptItems(p, k)
    decreases k
  {
    if j < k { KeptItemsPrefix(p, j, k - 1); }
  }

  // After any interleaving the pipe has yielded, in order and once each, exactly
  // the results of the kept items below the yield index.
  lemma OrderedSafety(p: Pipe, s: State, actions: seq<Action>)
    requires Init(s)
    ensures var r := Run(p, s, actions);
            && Results(p, r.yieldInd, r.output)
            && exists all :: Results(p, |p.items|, all) && r.output <= all
  {
    InitInv(p, s);
    RunInv(p, s, actions);
    var r := Run(p, s, actions);
    KeptItemsPrefix(p, r.yieldInd, |p.items|);
    hide Results;
    ResultsIff(p, r.yieldInd, r.output);
    ResultsIff(p, |p.items|, KeptItems(p, |p.items|));
  }

  lemma {:induction false} OnlyDroppedLeft(p: Pipe, s: State, k: nat)
    requires Inv(p, s) && s.consumer == Stopped && s.yieldInd <= k <= |s.tasks|
    ensures KeptItems(p, k) == KeptItems(p, s.yieldInd)
    decreases k
  {
    if k > s.yieldInd {
      OnlyDroppedLeft(p, s, k - 1);
      assert ItemTask(k - 1) !in s.running;
      assert s.tasks[k - 1].Finished?;
      assert !IsKept(s, k - 1);
    }
  }

  // The loop stops only when everything has been yielded; it fails exactly when
  // the generator raises, and then it does not stop.
  lemma OrderedComplete(p: Pipe, s: State, actions: seq<Action>)
    requires Init(s)
    ensures var r := Run(p, s, actions);
            && (r.consumer == Stopped ==> Results(p, |p.items|, r.output) && !p.genRaises)
            && (r.consumer == Failed ==> p.genRaises)
  {
    hide Results;
    InitInv(p, s);
    RunInv(p, s, actions);
    var r := Run(p, s, actions);
    if r.consumer == Stopped {
      OnlyDroppedLeft(p, r, |r.tasks|);
      ResultsIff(p, |p.items|, r.output);
    }
  }

  /* ---- the loop ends ---- */

  // The generator and all the item tasks are done.
  ghost predicate Quiet(s: State) {
    s.genDone && forall i :: 0 <= i < |s.tasks| ==> s.tasks[i].Finished?
  }

  ghost predicate Ended(s: State) {
    s.consumer == Stopped || s.consumer == Failed
  }

  ghost function Work(s: State): nat {
    |s.completed| + |s.running| + if s.yieldInd <= |s.tasks| then |s.tasks| - s.yieldInd else 0
  }

  ghost predicate Drained(s: State) {
    s.cache == map[] && s.running == [] && s.completed == []
  }

  ghost function Rank(s: State): nat {
    5 * Work(s) +
    match s.consumer
    case Stopped => 0
    case Failed => 0
    case Top => if Drained(s) then 1 else 3
    case Yielding => if Drained(s) || s.yieldInd in s.cache || s.running != [] then 2 else 4
  }

  lemma {:induction false} SkipMoves(skipCache: seq<nat>, yieldInd: nat)
    ensures Skip(skipCache, yieldInd).1 >= yieldInd
    ensures yieldInd in skipCache ==> Skip(skipCache, yieldInd).1 > yieldInd
    decreases |skipCache|
  {
    if yieldInd in skipCache { SkipMoves(Remove(skipCache, yieldInd), yieldInd + 1); }
  }

  lemma {:induction false} ReapShrinks(p: Pipe, s: State, k: nat)
    ensures var r := Reap(p, s, k);
            && |r.running| <= |s.running|
            && (k < |s.running| && Done(s, s.running[k]) ==> |r.running| < |s.running|)
            && r.tasks == s.tasks && r.genDone == s.genDone && r.yieldInd == s.yieldInd
            && r.completed == s.completed && r.cache == s.cache
    decreases |s.running| - k
  {
    if k < |s.running| {
      var t := s.running[k];
      if !Done(s, t) {
        ReapShrinks(p, s, k + 1);
      } else {
        var s' := Reaped(p, s, t);
        ReapShrinks(p, s', k + 1);
      }
    }
  }

  // In a quiet state nothing is lost: the item at the yield index is at hand.
  lemma NextIsHeld(p: Pipe, s: State)
    requires Inv(p, s) && Quiet(s) && s.yieldInd < |s.tasks| && s.completed == [] && s.running == []
    ensures s.yieldInd in s.cache || s.yieldInd in s.skipCache
  {
    assert IsKept(s, s.yieldInd) || IsDropped(s, s.yieldInd);
    assert !Queued(s, s.yieldInd);
  }

  lemma TopRanks(p: Pipe, s: State)
    requires Inv(p, s) && Quiet(s) && s.consumer == Top
    ensures Rank(TopStep(s)) < Rank(s)
  {
    if !Drained(s) {
      var s1 := if s.completed == [] then s else Popped(s);
      if s.completed != [] { PoppedInv(p, s); }
      SkippedInv(p, s1);
      SkipMoves(s1.skipCache, s1.yieldInd);
      var s' := TopStep(s);
      if s.completed == [] && s.running == [] && s'.yieldInd == s.yieldInd {
        var i :| i in s.cache;
        assert IsKept(s, i) && s.yieldInd <= i;
        NextIsHeld(p, s);
      }
    }
  }

  lemma YieldRanks(p: Pipe, s: State)
    requires Inv(p, s) && Quiet(s) && s.consumer == Yielding
    ensures Rank(YieldStep(p, s)) < Rank(s)
  {
    if s.yieldInd !in s.cache {
      ReapShrinks(p, s, 0);
      if s.running != [] {
        FirstIsDone(p, s);
      }
      hide Inv, Quiet;
    }
  }

  lemma FirstIsDone(p: Pipe, s: State)
    requires Inv(p, s) && Quiet(s) && s.running != []
    ensures Done(s, s.running[0])
  {
    hide TasksOk, QueueOk, CacheOk, SkipOk, AllHeld, YieldOk, ConsumerOk, Chain, KeptItems;
    assert s.running[0] in s.running;
  }

  lemma QuietStep(p: Pipe, s: State)
    requires Inv(p, s) && Quiet(s) && !Ended(s)
    ensures Inv(p, ConsumerStep(p, s)) && Quiet(ConsumerStep(p, s))
    ensures Rank(ConsumerStep(p, s)) < Rank(s)
  {
    StepInv(p, s, Consume);
    ReapShrinks(p, s, 0);
    var s' := ConsumerStep(p, s);
    assert s'.tasks == s.tasks && s'.genDone == s.genDone;
    if s.consumer == Top { TopRanks(p, s); } else { YieldRanks(p, s); }
  }

  // Consumer steps alone, as many as are needed.
  lemma {:induction false} Drain(p: Pipe, s: State) returns (r: State, n: nat)
    requires Inv(p, s) && Quiet(s)
    ensures n <= Rank(s)
    ensures Inv(p, r) && Ended(r) && r == Run(p, s, seq(n, i => Consume))
    decreases Rank(s)
  {
    hide Inv, Rank, ConsumerStep, Quiet;
    if Ended(s) {
      r, n := s, 0;
    } else {
      QuietStep(p, s);
      r, n := Drain(p, ConsumerStep(p, s));
      RunConsume(p, s, n);
      n := n + 1;
    }
  }

  lemma {:induction false} RunConsume(p: Pipe, s: State, n: nat)
    ensures Run(p, s, seq(n + 1, i => Consume)) == Run(p, ConsumerStep(p, s), seq(n, i => Consume))
    decreases n
  {
    hide ConsumerStep;
    var a, b := seq(n + 1, i => Consume), seq(n, i => Consume);
    assert a[..n] == b;
    if n == 0 {
      assert a[..0] == [];
    } else {
      var c := seq(n - 1, i => Consume);
      assert b[..n - 1] == c;
      RunConsume(p, s, n - 1);
    }
  }

  // Once the other tasks are done, the consumer's own steps end the loop; unless
  // the generator raises, with every kept item yielded once, in order.
  lemma OrderedTerminates(p: Pipe, s: State, actions: seq<Action>) returns (n: nat)
    requires Init(s) && Quiet(Run(p, s, actions))
    ensures var r := Run(p, Run(p, s, actions), seq(n, i => Consume));
            if p.genRaises then r.consumer == Failed
            else r.consumer == Stopped && Results(p, |p.items|, r.output)
  {
    hide Results;
    InitInv(p, s);
    RunInv(p, s, actions);
    var r;
    r, n := Drain(p, Run(p, s, actions));
    if r.consumer == Stopped {
      OnlyDroppedLeft(p, r, |r.tasks|);
      ResultsIff(p, |p.items|, r.output);
    }
  }

  /* ---- results in the order in which they arrive (_unordered) ---- */

  function ReapUnordered(s: State, k: nat): State
    decreases |s.running| - k
  {
    if k >= |s.running| then s
    else if Done(s, s.running[k]) then ReapUnordered(s.(running := Remove(s.running, s.running[k])), k + 1)
    else ReapUnordered(s, k + 1)
  }

  function UnorderedConsumerStep(s: State): State {
    match s.consumer
    case Top =>
      if s.running == [] && s.completed == [] then s.(consumer := Stopped)
      else if s.completed != [] then
        s.(completed := s.completed[1..], output := s.output + [s.completed[0].1], consumer := Yielding)
      else ReapUnordered(s, 0)
    case Yielding => ReapUnordered(s, 0).(consumer := Top)
    case Stopped => s
    case Failed => s
  }

  function UnorderedStep(p: Pipe, s: State, a: Action): State {
    match a
    case Generate => GenStep(p, s)
    case Advance(i) => TaskStep(p, s, i)
    case Consume => UnorderedConsumerStep(s)
  }

  function UnorderedRun(p: Pipe, s: State, actions: seq<Action>): State
    decreases |actions|
  {
    if actions == [] then s
    else UnorderedStep(p, UnorderedRun(p, s, actions[..|actions| - 1]), actions[|actions| - 1])
  }

  // The result of task i, if it has finished and kept its item.
  function Result(p: Pipe, tasks: seq<Task>, i: nat): multiset<Item>
    requires i < |tasks| <= |p.items|
  {
    if tasks[i] == Finished(false) && FateOf(p, i).Kept? then multiset{FateOf(p, i).item} else multiset{}
  }

  // The results of the first k tasks.
  function Arrived(p: Pipe, tasks: seq<Task>, k: nat): multiset<Item>
    requires k <= |tasks| <= |p.items|
  {
    if k == 0 then multiset{} else Arrived(p, tasks, k - 1) + Result(p, tasks, k - 1)
  }

  function Waiting(queue: seq<(nat, Item)>): multiset<Item> {
    if queue == [] then multiset{} else multiset{queue[0].1} + Waiting(queue[1..])
  }

  lemma {:induction false} WaitingPut(queue: seq<(nat, Item)>, e: (nat, Item))
    ensures Waiting(queue + [e]) == Waiting(queue) + multiset{e.1}
  {
    if queue == [] {
      assert [e][1..] == [] && queue + [e] == [e];
    } else {
      assert (queue + [e])[1..] == queue[1..] + [e];
      WaitingPut(queue[1..], e);
    }
  }

  lemma ArrivedUnfold(p: Pipe, tasks: seq<Task>, k: nat)
    requires k <= |tasks| <= |p.items|
    ensures Arrived(p, tasks, k) == if k == 0 then multiset{} else Arrived(p, tasks, k - 1) + Result(p, tasks, k - 1)
  {
  }

  lemma ResultChange(p: Pipe, before: seq<Task>, after: seq<Task>, i: nat, j: nat)
    requires j < |before| <= |after| <= |p.items|
    requires j != i ==> after[j] == before[j]
    requires j == i ==> before[i].Working?
    ensures if j == i then Result(p, before, j) == multiset{} else Result(p, after, j) == Result(p, before, j)
  {
    hide FateOf;
  }

  lemma {:induction false} ArrivedChange(p: Pipe, before: seq<Task>, after: seq<Task>, i: nat, k: nat)
    requires k <= |before| <= |after| <= |p.items|
    requires forall j :: 0 <= j < |before| && j != i ==> after[j] == before[j]
    requires i < |before| ==> before[i].Working?
    ensures Arrived(p, after, k) == Arrived(p, before, k) + if i < k then Result(p, after, i) else multiset{}
    decreases k
  {
    hide *;
    ArrivedUnfold(p, before, k);
    ArrivedUnfold(p, after, k);
    if k > 0 {
      ArrivedChange(p, before, after, i, k - 1);
      ResultChange(p, before, after, i, k - 1);
    }
  }

  lemma {:induction false} ArrivedAll(p: Pipe, s: State, k: nat)
    requires TasksOk(p, s) && k <= |s.tasks|
    requires forall i :: 0 <= i < k ==> s.tasks[i].Finished?
    ensures Arrived(p, s.tasks, k) == multiset(KeptItems(p, k))
    decreases k
  {
    hide Chain;
    if k > 0 { ArrivedAll(p, s, k - 1); }
  }

  ghost predicate UnorderedShape(p: Pipe, s: State) {
    && TasksOk(p, s)
    && Distinct(s.running)
    && (Gen in s.running || s.genDone)
    && (forall i: nat :: i < |s.tasks| && s.tasks[i].Working? ==> ItemTask(i) in s.running)
    && (forall i: nat :: ItemTask(i) in s.running ==> i < |s.tasks|)
    && (s.consumer == Stopped ==> s.running == [] && s.completed == [])
  }

  // What has arrived has been yielded or waits in the queue.
  ghost predicate Balanced(p: Pipe, s: State)
    requires |s.tasks| <= |p.items|
  {
    Arrived(p, s.tasks, |s.tasks|) == multiset(s.output) + Waiting(s.completed)
  }

  ghost predicate UnorderedInv(p: Pipe, s: State) {
    UnorderedShape(p, s) && Balanced(p, s)
  }

  lemma ArrivedGrows(p: Pipe, tasks: seq<Task>, t: Task)
    requires |tasks| < |p.items| && t.Working?
    ensures Arrived(p, tasks + [t], |tasks| + 1) == Arrived(p, tasks, |tasks|)
  {
    ArrivedChange(p, tasks, tasks + [t], |tasks|, |tasks|);
  }

  lemma UnorderedGenInv(p: Pipe, s: State)
    requires UnorderedInv(p, s)
    ensures UnorderedInv(p, GenStep(p, s))
  {
    hide Arrived, Waiting;
    if !s.genDone && |s.tasks| < |p.items| {
      assert p.coros[0..] == p.coros;
      ArrivedGrows(p, s.tasks, Working(0, p.items[|s.tasks|]));
      hide Chain;
      assert ItemTask(|s.tasks|) !in s.running;
      assert Balanced(p, GenStep(p, s)) by { hide UnorderedShape; }
      hide Balanced;
    }
  }

  // An item task's step keeps the shape; what it puts in the queue is its result.
  lemma TaskStepShape(p: Pipe, s: State, i: nat)
    requires UnorderedShape(p, s) && i < |s.tasks| && s.tasks[i].Working?
    ensures var s' := TaskStep(p, s, i);
            && UnorderedShape(p, s')
            && |s'.tasks| == |s.tasks| && (forall j :: 0 <= j < |s.tasks| && j != i ==> s'.tasks[j] == s.tasks[j])
            && s'.output == s.output
            && ((s'.completed == s.completed && s'.tasks[i] != Finished(false)) ||
                (exists v :: s'.tasks[i] == Finished(false) && FateOf(p, i) == Kept(v) && s'.completed == s.completed + [(i, v)]))
  {
    var Working(pos, item) := s.tasks[i];
    if pos < |p.coros| {
      assert p.coros[pos..][0] == p.coros[pos] && p.coros[pos..][1..] == p.coros[pos + 1..];
    }
    var s' := TaskStep(p, s, i);
    assert TasksOk(p, s');
    hide Chain, TasksOk;
  }

  lemma UnorderedTaskInv(p: Pipe, s: State, i: nat)
    requires UnorderedInv(p, s)
    ensures UnorderedInv(p, TaskStep(p, s, i))
  {
    if i < |s.tasks| && s.tasks[i].Working? {
      TaskStepShape(p, s, i);
      var s' := TaskStep(p, s, i);
      hide TaskStep, Arrived, Waiting;
      ArrivedChange(p, s.tasks, s'.tasks, i, |s.tasks|);
      hide UnorderedShape;
      if s'.tasks[i] == Finished(false) {
        var v :| FateOf(p, i) == Kept(v) && s'.completed == s.completed + [(i, v)];
        WaitingPut(s.completed, (i, v));
        hide FateOf;
        assert Result(p, s'.tasks, i) == multiset{v};
      } else {
        assert Result(p, s'.tasks, i) == multiset{};
      }
    }
  }

  lemma {:induction false} ReapUnorderedInv(p: Pipe, s: State, k: nat)
    requires UnorderedInv(p, s) && s.consumer != Stopped
    ensures UnorderedInv(p, ReapUnordered(s, k)) && ReapUnordered(s, k).consumer == s.consumer
    decreases |s.running| - k
  {
    hide Chain, Arrived, Waiting;
    if k < |s.running| && Done(s, s.running[k]) {
      RemoveDistinct(s.running, s.running[k]);
      ReapUnorderedInv(p, s.(running := Remove(s.running, s.running[k])), k + 1);
    } else if k < |s.running| {
      ReapUnorderedInv(p, s, k + 1);
    }
  }

  lemma UnorderedPopInv(p: Pipe, s: State)
    requires UnorderedInv(p, s) && s.completed != [] && s.consumer == Top
    ensures UnorderedInv(p, UnorderedConsumerStep(s))
  {
    hide Chain, Arrived;
    var s' := UnorderedConsumerStep(s);
    assert multiset(s'.output) == multiset(s.output) + multiset{s.completed[0].1};
    assert Waiting(s.completed) == multiset{s.completed[0].1} + Waiting(s'.completed);
    hide Waiting;
    assert Balanced(p, s') by { hide UnorderedShape; }
    hide Balanced;
  }

  lemma UnorderedStepInv(p: Pipe, s: State, a: Action)
    requires UnorderedInv(p, s)
    ensures UnorderedInv(p, UnorderedStep(p, s, a))
  {
    hide Chain, Arrived, Waiting;
    match a
    case Generate => UnorderedGenInv(p, s);
    case Advance(i) => UnorderedTaskInv(p, s, i);
    case Consume =>
      if s.consumer == Top && s.completed != [] {
        UnorderedPopInv(p, s);
      } else if s.consumer == Top || s.consumer == Yielding {
        ReapUnorderedInv(p, s, 0);
      }
  }

  lemma {:induction false} UnorderedRunInv(p: Pipe, s: State, actions: seq<Action>)
    requires UnorderedInv(p, s)
    ensures UnorderedInv(p, UnorderedRun(p, s, actions))
    decreases |actions|
  {
    hide UnorderedInv;
    if actions != [] {
      UnorderedRunInv(p, s, actions[..|actions| - 1]);
      UnorderedStepInv(p, UnorderedRun(p, s, actions[..|actions| - 1]), actions[|actions| - 1]);
    }
  }

  // The unordered loop yields the same results as often, in some order.
  lemma UnorderedComplete(p: Pipe, s: State, actions: seq<Action>)
    requires Init(s)
    ensures var r := UnorderedRun(p, s, actions);
            exists all ::
              && Results(p, |p.items|, all)
              && multiset(r.output) <= multiset(all)
              && (r.consumer == Stopped ==> multiset(r.output) == multiset(all))
  {
    UnorderedStart(p, s);
    UnorderedRunInv(p, s, actions);
    var r := UnorderedRun(p, s, actions);
    hide UnorderedRun, UnorderedInv, Results;
    BalancedOutput(p, r);
    ResultsIff(p, |p.items|, KeptItems(p, |p.items|));
  }

  lemma BalancedOutput(p: Pipe, r: State)
    requires UnorderedInv(p, r)
    ensures multiset(r.output) <= multiset(KeptItems(p, |p.items|))
    ensures r.consumer == Stopped ==> multiset(r.output) == multiset(KeptItems(p, |p.items|))
  {
    hide Chain, Arrived, KeptItems, Distinct;
    ArrivedBound(p, r, |r.tasks|);
    KeptItemsPrefix(p, |r.tasks|, |p.items|);
    PrefixBag(KeptItems(p, |r.tasks|), KeptItems(p, |p.items|));
    if r.consumer == Stopped {
      ArrivedAll(p, r, |r.tasks|);
      assert Waiting(r.completed) == multiset{};
    }
    hide Waiting, TasksOk;
  }

  // What is left for the consumer to do.
  ghost function UnorderedRank(s: State): nat {
    2 * |s.completed| + |s.running| + match s.consumer case Yielding => 2 case Top => 1 case _ => 0
  }

  lemma {:induction false} ReapUnorderedShrinks(s: State, k: nat)
    ensures var r := ReapUnordered(s, k);
            && |r.running| <= |s.running|
            && (k < |s.running| && Done(s, s.running[k]) ==> |r.running| < |s.running|)
            && r == s.(running := r.running)
    decreases |s.running| - k
  {
    if k < |s.running| {
      if Done(s, s.running[k]) {
        ReapUnorderedShrinks(s.(running := Remove(s.running, s.running[k])), k + 1);
      } else {
        ReapUnorderedShrinks(s, k + 1);
      }
    }
  }

  lemma UnorderedQuietStep(p: Pipe, s: State)
    requires UnorderedInv(p, s) && Quiet(s) && !Ended(s)
    ensures UnorderedInv(p, UnorderedConsumerStep(s)) && Quiet(UnorderedConsumerStep(s))
    ensures UnorderedRank(UnorderedConsumerStep(s)) < UnorderedRank(s)
    ensures UnorderedConsumerStep(s).consumer != Failed
  {
    UnorderedStepInv(p, s, Consume);
    ReapUnorderedShrinks(s, 0);
    if s.running != [] {
      QuietHead(p, s);
    }
    QuietlyUnordered(s);
    hide UnorderedInv, Quiet;
  }

  lemma QuietHead(p: Pipe, s: State)
    requires UnorderedInv(p, s) && Quiet(s) && s.running != []
    ensures Done(s, s.running[0])
  {
    assert s.running[0] in s.running;
    hide Balanced, TasksOk, Distinct;
  }

  lemma QuietlyUnordered(s: State)
    requires Quiet(s)
    ensures Quiet(UnorderedConsumerStep(s))
  {
    ReapUnorderedShrinks(s, 0);
  }

  lemma {:induction false} UnorderedRunConsume(p: Pipe, s: State, n: nat)
    ensures UnorderedRun(p, s, seq(n + 1, i => Consume)) ==
            UnorderedRun(p, UnorderedConsumerStep(s), seq(n, i => Consume))
    decreases n
  {
    hide UnorderedConsumerStep;
    var a, b := seq(n + 1, i => Consume), seq(n, i => Consume);
    assert a[..n] == b;
    if n == 0 {
      assert a[..0] == [];
    } else {
      var c := seq(n - 1, i => Consume);
      assert b[..n - 1] == c;
      UnorderedRunConsume(p, s, n - 1);
    }
  }

  lemma {:induction false} UnorderedDrain(p: Pipe, s: State) returns (r: State, n: nat)
    requires UnorderedInv(p, s) && Quiet(s) && s.consumer != Failed
    ensures UnorderedInv(p, r) && r.consumer == Stopped
    ensures r == UnorderedRun(p, s, seq(n, i => Consume))
    decreases UnorderedRank(s)
  {
    hide UnorderedInv, UnorderedRank, UnorderedConsumerStep, Quiet;
    if s.consumer == Stopped {
      r, n := s, 0;
    } else {
      UnorderedQuietStep(p, s);
      r, n := UnorderedDrain(p, UnorderedConsumerStep(s));
      UnorderedRunConsume(p, s, n);
      n := n + 1;
    }
  }

  lemma {:induction false} NeverFails(p: Pipe, s: State, actions: seq<Action>)
    requires s.consumer != Failed
    ensures UnorderedRun(p, s, actions).consumer != Failed
    decreases |actions|
  {
    if actions != [] {
      var before := UnorderedRun(p, s, actions[..|actions| - 1]);
      NeverFails(p, s, actions[..|actions| - 1]);
      ReapUnorderedShrinks(before, 0);
    }
  }

  lemma {:induction false} UnorderedRunJoin(p: Pipe, s: State, actions: seq<Action>, more: seq<Action>)
    ensures UnorderedRun(p, s, actions + more) == UnorderedRun(p, UnorderedRun(p, s, actions), more)
    decreases |more|
  {
    if more == [] {
      assert actions + more == actions;
    } else {
      var all := actions + more;
      assert all[..|all| - 1] == actions + more[..|more| - 1];
      UnorderedRunJoin(p, s, actions, more[..|more| - 1]);
    }
  }

  // Once the other tasks are done, the consumer's own steps end the loop with
  // every kept item yielded as often as it came.  The loop does not look at a
  // task's result, so this is so even when the generator raises.
  lemma UnorderedTerminates(p: Pipe, s: State, actions: seq<Action>) returns (n: nat)
    requires Init(s) && Quiet(UnorderedRun(p, s, actions))
    ensures var r := UnorderedRun(p, UnorderedRun(p, s, actions), seq(n, i => Consume));
            r.consumer == Stopped && exists all :: Results(p, |p.items|, all) && multiset(r.output) == multiset(all)
  {
    hide Results;
    UnorderedStart(p, s);
    UnorderedRunInv(p, s, actions);
    NeverFails(p, s, actions);
    var r;
    r, n := UnorderedDrain(p, UnorderedRun(p, s, actions));
    var consumes := seq(n, i => Consume);
    UnorderedRunJoin(p, s, actions, consumes);
    UnorderedComplete(p, s, actions + consumes);
  }

  lemma UnorderedStart(p: Pipe, s: State)
    requires Init(s)
    ensures UnorderedInv(p, s)
  {
  }

  lemma PrefixBag(a: seq<Item>, b: seq<Item>)
    requires a <= b
    ensures multiset(a) <= multiset(b)
  {
    assert b == a + b[|a|..];
  }

  lemma {:induction false} ArrivedBound(p: Pipe, s: State, k: nat)
    requires TasksOk(p, s) && k <= |s.tasks|
    ensures Arrived(p, s.tasks, k) <= multiset(KeptItems(p, k))
    decreases k
  {
    hide Chain;
    if k > 0 { ArrivedBound(p, s, k - 1); }
  }

  /* ---- the consumer's loops, in place ---- */

  // The local variables of _ordered and the results of the tasks it looks at.
  class OrderedLoop {
    const pipe: Pipe
    var genDone: bool
    var tasks: seq<Task>
    var running: seq<TaskId>
    var completed: seq<(nat, Item)>
    var cache: map<nat, Item>
    var skipCache: seq<nat>
    var yieldInd: nat
    var output: seq<Item>

    constructor (pipe: Pipe)
      ensures this.pipe == pipe && Init(Snapshot(Top))
    {
      this.pipe, genDone, tasks, running := pipe, false, [], [Gen];
      completed, cache, skipCache, yieldInd, output := [], map[], [], 0, [];
    }

    function Snapshot(consumer: Consumer): State
      reads this
    {
      State(genDone, tasks, running, completed, cache, skipCache, yieldInd, consumer, output)
    }

    // The guard, the queue, and the loop over the skip list.
    method TakeAndSkip() returns (go: bool)
      modifies this`completed, this`cache, this`skipCache, this`yieldInd
      ensures Snapshot(if go then Yielding else Stopped) == TopStep(old(Snapshot(Top)))
    {
      if cache == map[] && running == [] && completed == [] { return false; }
      if completed != [] {
        var (ind, item) := completed[0];
        completed := completed[1..];
        cache := cache[ind := item];
      }
      ghost var skip, queue, held := Skip(skipCache, yieldInd), completed, cache;
      while yieldInd in skipCache
        invariant Skip(skipCache, yieldInd) == skip && completed == queue && cache == held
        decreases |skipCache|
      {
        skipCache := Remove(skipCache, yieldInd);
        yieldInd := yieldInd + 1;
      }
      return true;
    }

    // One turn of the yielding loop; it says whether it has yielded.
    method YieldOne() returns (yielded: bool)
      modifies this`cache, this`output, this`yieldInd
      ensures yielded <==> old(yieldInd in cache)
      ensures yielded ==> Snapshot(Yielding) == YieldStep(pipe, old(Snapshot(Yielding)))
      ensures !yielded ==> Snapshot(Yielding) == old(Snapshot(Yielding))
    {
      if yieldInd !in cache { return false; }
      output := output + [cache[yieldInd]];
      cache := cache - {yieldInd};
      yieldInd := yieldInd + 1;
      return true;
    }

    // The loop over running, which it shortens while it goes on by position.
    method ReapDone() returns (raised: bool)
      modifies this`running, this`skipCache
      ensures Snapshot(if raised then Failed else Yielding) == Reap(pipe, old(Snapshot(Yielding)), 0)
    {
      ghost var all := Reap(pipe, Snapshot(Yielding), 0);
      var k := 0;
      while k < |running|
        invariant Reap(pipe, Snapshot(Yielding), k) == all
        decreases |running| - k
      {
        var t := running[k];
        if Done(Snapshot(Yielding), t) {
          running := Remove(running, t);
          match t {
            case Gen =>
              if pipe.genRaises { return true; }
            case ItemTask(i) =>
              if tasks[i].dropped { skipCache := skipCache + [i]; }
          }
        }
        k := k + 1;
      }
      return false;
    }
  }
}
