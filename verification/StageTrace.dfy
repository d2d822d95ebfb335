/** What the proposal stage normalisers share: the trace of one decision per raw item, and keeping the first item of
    each key up to a limit. */
module StageTrace {
  datatype Decision = Keep | Defer | Skip

  /** model.ProposalStage: the decisions in order and the counters of its summary. */
  datatype Stage = Stage(raw: nat, items: seq<Decision>, keep: nat, defer: nat, skip: nat, selected: nat)

  function NewStage(raw: nat): (r: Stage)
    ensures Tallied(r) && r.raw == raw && r.items == []
  {
    Stage(raw, [], 0, 0, 0, 0)
  }

  function Count(items: seq<Decision>, d: Decision): nat {
    if items == [] then 0
    else Count(items[..|items| - 1], d) + if items[|items| - 1] == d then 1 else 0
  }

  predicate Tallied(stage: Stage) {
    stage.keep == Count(stage.items, Keep) && stage.defer == Count(stage.items, Defer) && stage.skip == Count(stage.items, Skip)
  }

  /** The two lines at the end of every loop: append the item, bump the counter summaryKey names. */
  function Recorded(stage: Stage, d: Decision): (r: Stage)
    ensures Tallied(stage) ==> Tallied(r)
    ensures r.items == stage.items + [d] && r.raw == stage.raw && r.selected == stage.selected
  {
    assert (stage.items + [d])[..|stage.items|] == stage.items;
    match d
    case Keep => stage.(items := stage.items + [d], keep := stage.keep + 1)
    case Defer => stage.(items := stage.items + [d], defer := stage.defer + 1)
    case Skip => stage.(items := stage.items + [d], skip := stage.skip + 1)
  }

  /** Every raw item is counted once. */
  lemma {:induction false} ItemsConserved(stage: Stage)
    requires Tallied(stage) && |stage.items| == stage.raw
    ensures stage.keep + stage.defer + stage.skip == stage.raw
  {
    CountsAddUp(stage.items);
  }

  lemma {:induction false} CountsAddUp(items: seq<Decision>)
    ensures Count(items, Keep) + Count(items, Defer) + Count(items, Skip) == |items|
  {
    if items != [] {
      CountsAddUp(items[..|items| - 1]);
    }
  }

  // ---------------------------------------------------------------- first of each key

  /** What a normaliser finds out about an item by itself: the key it goes by, or the decision that it is out. */
  datatype Mark<K> = In(value: K) | Out(decision: Decision)

  /** The positions whose key did not occur before; an item that is out never counts. */
  function Firsts<K(==)>(keys: seq<Mark<K>>): seq<nat> {
    if keys == [] then []
    else
      var n := |keys| - 1;
      Firsts(keys[..n]) + if keys[n].In? && keys[n] !in keys[..n] then [n] else []
  }

  /** A limit of zero or less is no limit. */
  function Limited<T>(s: seq<T>, limit: int): seq<T> {
    if 0 < limit < |s| then s[..limit] else s
  }

  function Kept<K(==)>(keys: seq<Mark<K>>, limit: int): seq<nat> {
    Limited(Firsts(keys), limit)
  }

  predicate Full(kept: seq<nat>, limit: int) {
    0 < limit <= |kept|
  }

  /** Some kept position before `i` carries the key of `i`. */
  predicate Repeats<K(==)>(keys: seq<Mark<K>>, kept: seq<nat>, i: nat)
    requires i < |keys|
  {
    exists k | 0 <= k < |kept| :: kept[k] < i && keys[kept[k]] == keys[i]
  }

  lemma {:induction false} FirstsExact<K>(keys: seq<Mark<K>>)
    ensures forall k, l | 0 <= k < l < |Firsts(keys)| :: Firsts(keys)[k] < Firsts(keys)[l]
    ensures forall i: nat :: i in Firsts(keys) <==> i < |keys| && keys[i].In? && keys[i] !in keys[..i]
  {
    if keys != [] {
      var n := |keys| - 1;
      FirstsExact(keys[..n]);
      assert forall i | 0 <= i <= n :: keys[..n][..i] == keys[..i];
      assert forall k | 0 <= k < |Firsts(keys[..n])| :: Firsts(keys[..n])[k] in Firsts(keys[..n]);
    }
  }

  /** The kept positions: increasing, of pairwise different keys, within the limit. */
  lemma KeptExact<K>(keys: seq<Mark<K>>, limit: int)
    ensures var kept := Kept(keys, limit);
      && (forall k | 0 <= k < |kept| :: kept[k] < |keys| && keys[kept[k]].In?)
      && (forall k, l | 0 <= k < l < |kept| :: kept[k] < kept[l] && keys[kept[k]] != keys[kept[l]])
      && (limit > 0 ==> |kept| <= limit)
  {
    FirstsExact(keys);
    var all, kept := Firsts(keys), Kept(keys, limit);
    assert forall k | 0 <= k < |kept| :: kept[k] == all[k] && all[k] in all;
    forall k, l | 0 <= k < l < |kept| ensures keys[kept[k]] != keys[kept[l]] {
      assert keys[..kept[l]][kept[k]] == keys[kept[k]];
    }
  }

  /** Nothing is dropped without reason: an item with a key is kept, or repeats a kept one, or came when all places
      were taken. */
  lemma KeptComplete<K>(keys: seq<Mark<K>>, limit: int, i: nat)
    requires i < |keys| && keys[i].In?
    ensures var kept := Kept(keys, limit); i in kept || Repeats(keys, kept, i) || Full(kept, limit)
  {
    FirstsExact(keys);
    if !Full(Kept(keys, limit), limit) && i !in Firsts(keys) {
      var j := FirstOf(keys, i);
      var k :| 0 <= k < |Firsts(keys)| && Firsts(keys)[k] == j;
      assert Kept(keys, limit)[k] == j;
    }
  }

  /** While there is room the key of every item is among the kept ones. */
  lemma KeyIsKept<K>(keys: seq<Mark<K>>, limit: int, i: nat)
    requires i < |keys| && keys[i].In?
    ensures var kept := Kept(keys, limit);
      Full(kept, limit) || exists k | 0 <= k < |kept| :: kept[k] < |keys| && keys[kept[k]] == keys[i]
  {
    KeptExact(keys, limit);
    KeptComplete(keys, limit, i);
    var kept := Kept(keys, limit);
    if i in kept {
      var k :| 0 <= k < |kept| && kept[k] == i;
      assert keys[kept[k]] == keys[i];
    }
  }

  lemma {:induction false} FirstOf<K>(keys: seq<Mark<K>>, i: nat) returns (j: nat)
    requires i < |keys| && keys[i].In? && keys[i] in keys[..i]
    ensures j < i && keys[j] == keys[i] && keys[j] !in keys[..j]
    decreases i
  {
    j :| 0 <= j < i && keys[j] == keys[i];
    if keys[j] in keys[..j] {
      j := FirstOf(keys, j);
    }
  }

  predicate AnyIn<K(==)>(keys: seq<Mark<K>>) {
    exists i | 0 <= i < |keys| :: keys[i].In?
  }

  lemma AnyInKept<K>(keys: seq<Mark<K>>, limit: int)
    ensures AnyIn(keys) <==> Kept(keys, limit) != []
  {
    KeptExact(keys, limit);
    if AnyIn(keys) {
      var i :| 0 <= i < |keys| && keys[i].In?;
      KeptComplete(keys, limit, i);
    }
    if Kept(keys, limit) != [] {
      assert keys[Kept(keys, limit)[0]].In?;
    }
  }

  /** Before the places are taken, a key is repeated exactly when it occurred at all. */
  /** While the list has room, a key met before was kept. */
  lemma OccurredIsKept<K>(keys: seq<Mark<K>>, key: Mark<K>, limit: int)
    requires key.In? && !Full(Kept(keys, limit), limit) && key in keys
    ensures exists k | 0 <= k < |Kept(keys, limit)| :: Kept(keys, limit)[k] < |keys| && keys[Kept(keys, limit)[k]] == key
  {
    var kept := Kept(keys, limit);
    var i :| 0 <= i < |keys| && keys[i] == key;
    KeptExact(keys, limit);
    KeptComplete(keys, limit, i);
    if i in kept {
      var k :| 0 <= k < |kept| && kept[k] == i;
      assert keys[kept[k]] == key;
    }
  }

  lemma RepeatsIffOccurred<K>(keys: seq<Mark<K>>, key: Mark<K>, limit: int)
    requires key.In? && !Full(Kept(keys, limit), limit)
    ensures Repeats(keys + [key], Kept(keys, limit), |keys|) <==> key in keys
  {
    var kept, more, n := Kept(keys, limit), keys + [key], |keys|;
    KeptExact(keys, limit);
    assert forall k | 0 <= k < |kept| :: more[kept[k]] == keys[kept[k]] && keys[kept[k]] in keys;
    if key in keys {
      OccurredIsKept(keys, key, limit);
      var k :| 0 <= k < |kept| && kept[k] < n && keys[kept[k]] == key;
      assert more[kept[k]] == more[n];
    }
  }

  /** What one more item does: the test a normaliser's loop makes. */
  lemma KeptSnoc<K>(keys: seq<Mark<K>>, key: Mark<K>, limit: int)
    ensures var kept, more := Kept(keys, limit), keys + [key];
      Kept(more, limit) == if key.Out? || Repeats(more, kept, |keys|) || Full(kept, limit) then kept else kept + [|keys|]
  {
    assert (keys + [key])[..|keys|] == keys;
    if key.In? && !Full(Kept(keys, limit), limit) {
      RepeatsIffOccurred(keys, key, limit);
    }
  }

  /** The set a loop keeps of what it has seen: the keys of the kept positions. */
  predicate SeenIs<K(==)>(keys: seq<Mark<K>>, kept: seq<nat>, seen: set<K>) {
    && (forall k | 0 <= k < |kept| :: kept[k] < |keys| && keys[kept[k]].In? && keys[kept[k]].value in seen)
    && (forall s | s in seen :: KeyKept(keys, kept, s))
  }

  predicate KeyKept<K(==)>(keys: seq<Mark<K>>, kept: seq<nat>, key: K) {
    exists k | 0 <= k < |kept| :: kept[k] < |keys| && keys[kept[k]] == In(key)
  }

  lemma SeenGrows<K>(keys: seq<Mark<K>>, kept: seq<nat>, seen: set<K>, key: Mark<K>)
    requires SeenIs(keys, kept, seen)
    ensures SeenIs(keys + [key], kept, seen)
    ensures key.In? ==> SeenIs(keys + [key], kept + [|keys|], seen + {key.value})
  {
    var more, n := keys + [key], |keys|;
    assert forall i | 0 <= i < n :: more[i] == keys[i];
    forall s | s in seen ensures KeyKept(more, kept, s) && KeyKept(more, kept + [n], s) {
      var k :| 0 <= k < |kept| && kept[k] < n && keys[kept[k]] == In(s);
      assert (kept + [n])[k] == kept[k] && more[kept[k]] == In(s);
    }
    assert (kept + [n])[|kept|] == n && more[n] == key;
  }

  lemma RepeatsIffSeen<K>(keys: seq<Mark<K>>, kept: seq<nat>, seen: set<K>, key: K)
    requires SeenIs(keys, kept, seen)
    ensures Repeats(keys + [In(key)], kept, |keys|) <==> key in seen
  {
    var more, n := keys + [In(key)], |keys|;
    assert forall k | 0 <= k < |kept| :: more[kept[k]] == keys[kept[k]];
    if key in seen {
      assert KeyKept(keys, kept, key);
    }
  }

  /** One turn of such a loop keeps its set and its positions right. */
  lemma KeptStep<K>(keys: seq<Mark<K>>, kept: seq<nat>, seen: set<K>, key: Mark<K>, limit: int)
    requires kept == Kept(keys, limit) && SeenIs(keys, kept, seen)
    ensures var more, taken := keys + [key], key.In? && key.value !in seen && !Full(kept, limit);
      && Kept(more, limit) == (if taken then kept + [|keys|] else kept)
      && SeenIs(more, Kept(more, limit), if taken then seen + {key.value} else seen)
  {
    KeptSnoc(keys, key, limit);
    SeenGrows(keys, kept, seen, key);
    if key.In? {
      RepeatsIffSeen(keys, kept, seen, key.value);
    }
  }

  // ---------------------------------------------------------------- the decisions

  /** What is traced for the last item, given the positions kept before it; `again` is said of a repeated key. */
  function Decide<K(==)>(keys: seq<Mark<K>>, kept: seq<nat>, limit: int, again: Decision): Decision
    requires keys != []
  {
    var n := |keys| - 1;
    if keys[n].Out? then keys[n].decision else if Repeats(keys, kept, n) then again else if Full(kept, limit) then Defer else Keep
  }

  function Decisions<K(==)>(keys: seq<Mark<K>>, limit: int, again: Decision): (r: seq<Decision>)
    ensures |r| == |keys|
  {
    if keys == [] then []
    else
      var front := keys[..|keys| - 1];
      Decisions(front, limit, again) + [Decide(keys, Kept(front, limit), limit, again)]
  }

  lemma DecisionsSnoc<K>(keys: seq<Mark<K>>, key: Mark<K>, limit: int, again: Decision, seen: set<K>)
    requires SeenIs(keys, Kept(keys, limit), seen)
    ensures var d := if key.Out? then key.decision else if key.value in seen then again else if Full(Kept(keys, limit), limit) then Defer else Keep;
      Decisions(keys + [key], limit, again) == Decisions(keys, limit, again) + [d]
  {
    assert (keys + [key])[..|keys|] == keys;
    if key.In? {
      RepeatsIffSeen(keys, Kept(keys, limit), seen, key.value);
    }
  }

  /** One more item does not change what was kept or repeated before it. */
  lemma KeptStable<K>(keys: seq<Mark<K>>, key: Mark<K>, limit: int, i: nat)
    requires i <= |keys|
    ensures i < |keys| ==> (i in Kept(keys, limit) <==> i in Kept(keys + [key], limit))
    ensures i < |keys| ==> (Repeats(keys, Kept(keys, limit), i) <==> Repeats(keys + [key], Kept(keys + [key], limit), i))
    ensures Repeats(keys + [key], Kept(keys, limit), i) <==> Repeats(keys + [key], Kept(keys + [key], limit), i)
  {
    var kept := Kept(keys, limit);
    KeptSnoc(keys, key, limit);
    KeptExact(keys, limit);
    RepeatsLater(keys + [key], kept, |keys|, i);
    if i < |keys| {
      RepeatsExtended(keys, key, kept, i);
    }
  }

  /** A position that is not before `i` makes no difference to whether `i` repeats. */
  lemma RepeatsLater<K>(keys: seq<Mark<K>>, kept: seq<nat>, later: nat, i: nat)
    requires i < |keys| && i <= later
    ensures Repeats(keys, kept + [later], i) <==> Repeats(keys, kept, i)
  {
    if Repeats(keys, kept, i) {
      var k :| 0 <= k < |kept| && kept[k] < i && keys[kept[k]] == keys[i];
      assert (kept + [later])[k] == kept[k];
    }
  }

  lemma RepeatsExtended<K>(keys: seq<Mark<K>>, key: Mark<K>, kept: seq<nat>, i: nat)
    requires i < |keys|
    ensures Repeats(keys + [key], kept, i) <==> Repeats(keys, kept, i)
  {
    assert forall j | 0 <= j < |keys| :: (keys + [key])[j] == keys[j];
    if Repeats(keys, kept, i) {
      var k :| 0 <= k < |kept| && kept[k] < i && keys[kept[k]] == keys[i];
      assert kept[k] < i && (keys + [key])[kept[k]] == (keys + [key])[i];
    }
  }

  /** The outcome an item has been given in the end. */
  predicate Settled<K(==)>(keys: seq<Mark<K>>, kept: seq<nat>, limit: int, again: Decision, i: nat, d: Decision)
    requires i < |keys|
  {
    if keys[i].Out? then d == keys[i].decision && i !in kept
    else if Repeats(keys, kept, i) then d == again && i !in kept
    else if i in kept then d == Keep
    else d == Defer && Full(kept, limit)
  }

  /** Read against the final outcome: an item that is out has its own decision; the others are repetitions of a key
      kept before, or deferred, which needs all places taken, or kept. */
  lemma {:induction false} DecisionsExact<K>(keys: seq<Mark<K>>, limit: int, again: Decision, i: nat)
    requires i < |keys|
    ensures Settled(keys, Kept(keys, limit), limit, again, i, Decisions(keys, limit, again)[i])
  {
    var n := |keys| - 1;
    var front, key := keys[..n], keys[n];
    assert front + [key] == keys;
    KeptStable(front, key, limit, i);
    KeptSnoc(front, key, limit);
    if i < n {
      DecisionsExact(front, limit, again, i);
    } else {
      LastSettled(front, key, limit, again);
    }
  }

  lemma LastSettled<K>(keys: seq<Mark<K>>, key: Mark<K>, limit: int, again: Decision)
    ensures var more := keys + [key];
      Settled(more, Kept(more, limit), limit, again, |keys|, Decide(more, Kept(keys, limit), limit, again))
  {
    KeptStable(keys, key, limit, |keys|);
    KeptSnoc(keys, key, limit);
    KeptExact(keys, limit);
    assert |keys| !in Kept(keys, limit);
    assert |keys| in Kept(keys, limit) + [|keys|] by {
      assert (Kept(keys, limit) + [|keys|])[|Kept(keys, limit)|] == |keys|;
    }
  }

  /** Selected equals keep where repetitions are skipped. */
  lemma {:induction false} KeptCounted<K>(keys: seq<Mark<K>>, limit: int)
    requires forall i | 0 <= i < |keys| :: keys[i] != Out(Keep)
    ensures Count(Decisions(keys, limit, Skip), Keep) == |Kept(keys, limit)|
  {
    if keys != [] {
      var n := |keys| - 1;
      KeptCounted(keys[..n], limit);
      assert keys[..n] + [keys[n]] == keys;
      KeptSnoc(keys[..n], keys[n], limit);
      assert Decisions(keys, limit, Skip)[..n] == Decisions(keys[..n], limit, Skip);
    }
  }
}
