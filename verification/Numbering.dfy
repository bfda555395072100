/** Rows kept in order by a position, with the creation time as tie-break: what renumbering them 1, 2, 3, ...
    does. Rows that tie on both may come in any order, so an ordering is a relation, not a function. */
module Numbering {
  import opened Sorting

  datatype Key = Key(position: nat, created: int)

  type Keys = map<nat, Key>

  predicate Le(a: Key, b: Key) {
    a.position < b.position || (a.position == b.position && a.created <= b.created)
  }

  ghost predicate NoRepeats(ids: seq<nat>) {
    forall i, j :: 0 <= i < j < |ids| ==> ids[i] != ids[j]
  }

  ghost predicate Lists(keys: Keys, order: seq<nat>) {
    NoRepeats(order) && forall id :: id in order <==> id in keys
  }

  /** A result of ordering the rows by position and then creation time. */
  ghost predicate Sorts(keys: Keys, order: seq<nat>) {
    Lists(keys, order) && forall i, j :: 0 <= i < j < |order| ==> Le(keys[order[i]], keys[order[j]])
  }

  /** The rows carry the positions 1..n, each once. */
  ghost predicate Dense(keys: Keys) {
    Distinct(keys) && forall id :: id in keys ==> 1 <= keys[id].position <= |keys|
  }

  ghost predicate Distinct(keys: Keys) {
    forall a, b :: a in keys && b in keys && a != b ==> keys[a].position != keys[b].position
  }

  /** Position i + 1 is given to the row at index i. */
  ghost predicate NumberedAlong(keys: Keys, order: seq<nat>) {
    Lists(keys, order) && forall i :: 0 <= i < |order| ==> keys[order[i]].position == i + 1
  }

  predicate LeId(keys: Keys, a: nat, b: nat) {
    if a in keys && b in keys then Le(keys[a], keys[b]) else b !in keys
  }

  method OrderIds(keys: Keys) returns (order: seq<nat>)
    ensures Sorts(keys, order)
  {
    var ids: seq<nat> := [];
    var todo := keys.Keys;
    while todo != {}
      invariant todo <= keys.Keys && NoRepeats(ids)
      invariant forall id :: id in ids <==> id in keys.Keys - todo
      decreases |todo|
    {
      var id :| id in todo;
      assert id !in ids;
      NoRepeatsAppend(ids, id);
      ids := ids + [id];
      todo := todo - {id};
    }
    var le := (a: nat, b: nat) => LeId(keys, a, b);
    SortIsOrderedPermutation(ids, le);
    order := Sort(ids, le);
    PermutationHasNoRepeats(ids, order);
    assert forall i, j :: 0 <= i < j < |order| ==> le(order[i], order[j]);
    assert forall i :: 0 <= i < |order| ==> order[i] in order;
  }

  lemma NoRepeatsAppend(ids: seq<nat>, id: nat)
    requires NoRepeats(ids) && id !in ids
    ensures NoRepeats(ids + [id])
  {
  }

  lemma {:induction false} NoRepeatsCounts(s: seq<nat>)
    ensures NoRepeats(s) <==> forall x :: multiset(s)[x] <= 1
  {
    if s == [] {
    } else {
      var (front, last) := (s[..|s| - 1], s[|s| - 1]);
      NoRepeatsCounts(front);
      assert s == front + [last];
      assert multiset(s)[last] == multiset(front)[last] + 1;
      assert last in front <==> multiset(front)[last] > 0;
      if NoRepeats(s) {
        forall x
          ensures multiset(s)[x] <= 1
        {
          assert last !in front;
        }
      } else if NoRepeats(front) {
        assert last in front;
        assert multiset(s)[last] > 1;
      } else {
        var x :| multiset(front)[x] > 1;
        assert multiset(s)[x] > 1;
      }
    }
  }

  lemma PermutationHasNoRepeats(a: seq<nat>, b: seq<nat>)
    requires NoRepeats(a) && multiset(a) == multiset(b)
    ensures NoRepeats(b)
  {
    NoRepeatsCounts(a);
    NoRepeatsCounts(b);
  }

  lemma {:induction false} ListLength(keys: Keys, order: seq<nat>)
    requires Lists(keys, order)
    ensures |order| == |keys|
    decreases |order|
  {
    if order == [] {
      assert keys == map[];
    } else {
      var last := order[|order| - 1];
      var (front, rest) := (order[..|order| - 1], keys - {last});
      assert order == front + [last];
      ListLength(rest, front);
      assert keys.Keys == rest.Keys + {last};
      assert |keys| == |keys.Keys| && |rest| == |rest.Keys|;
    }
  }

  lemma NumberedAlongIsDense(keys: Keys, order: seq<nat>)
    requires NumberedAlong(keys, order)
    ensures Dense(keys)
  {
    ListLength(keys, order);
    forall a, b | a in keys && b in keys && a != b
      ensures keys[a].position != keys[b].position
    {
      var i :| 0 <= i < |order| && order[i] == a;
      var j :| 0 <= j < |order| && order[j] == b;
    }
    forall id | id in keys
      ensures 1 <= keys[id].position <= |keys|
    {
      var i :| 0 <= i < |order| && order[i] == id;
    }
  }

  /** Positions p(0) < p(1) < ... leave room below and above every entry. */
  lemma {:induction false} StrictlyIncreasing(keys: Keys, order: seq<nat>, i: nat, j: nat)
    requires Sorts(keys, order) && Distinct(keys) && i <= j < |order|
    ensures order[i] in keys && order[j] in keys && keys[order[j]].position - keys[order[i]].position >= j - i
    decreases j - i
  {
    assert order[i] in order && order[j] in order;
    if i == j {
    } else {
      StrictlyIncreasing(keys, order, i, j - 1);
      assert Le(keys[order[j - 1]], keys[order[j]]) && order[j - 1] != order[j];
    }
  }

  /** The positions 1..n without the one at `gap`: the row at index i is at i + 1 before the gap and i + 2 after. */
  ghost predicate Gapped(keys: Keys, gap: nat) {
    && Distinct(keys) && 1 <= gap <= |keys| + 1
    && forall id :: id in keys ==> 1 <= keys[id].position <= |keys| + 1 && keys[id].position != gap
  }

  lemma GappedBounds(keys: Keys, order: seq<nat>, gap: nat, i: nat)
    requires Sorts(keys, order) && Gapped(keys, gap) && i < |order|
    ensures order[i] in keys && i + 1 <= keys[order[i]].position <= i + 2 && keys[order[i]].position != gap
  {
    ListLength(keys, order);
    StrictlyIncreasing(keys, order, 0, i);
    StrictlyIncreasing(keys, order, i, |order| - 1);
  }

  lemma GappedOrder(keys: Keys, order: seq<nat>, gap: nat, i: nat)
    requires Sorts(keys, order) && Gapped(keys, gap) && i < |order|
    ensures order[i] in keys && keys[order[i]].position == if i + 1 < gap then i + 1 else i + 2
  {
    ListLength(keys, order);
    GappedBounds(keys, order, gap, i);
    if i + 1 < gap {
      GappedBounds(keys, order, gap, gap - 2);
      StrictlyIncreasing(keys, order, i, gap - 2);
    } else {
      GappedBounds(keys, order, gap, gap - 1);
      StrictlyIncreasing(keys, order, gap - 1, i);
    }
  }

  lemma DenseIsGapped(keys: Keys)
    requires Dense(keys)
    ensures Gapped(keys, |keys| + 1)
  {
  }

  /** Ordering rows that are numbered already finds each where its number says. */
  lemma DenseOrder(keys: Keys, order: seq<nat>)
    requires Sorts(keys, order) && Dense(keys)
    ensures NumberedAlong(keys, order)
  {
    ListLength(keys, order);
    DenseIsGapped(keys);
    forall i | 0 <= i < |order|
      ensures keys[order[i]].position == i + 1
    {
      GappedOrder(keys, order, |keys| + 1, i);
    }
  }

  /** Where a row lands among others that occupy 1..n except `gap`, when it asks for `wanted`. `landing` is its new
      number; an occupant of the wanted position stays in front exactly when it is the older one. */
  ghost predicate LandsRight(others: Keys, key: Key, gap: nat, landing: nat) {
    var (n, wanted) := (|others| + 1, key.position);
    && (wanted > n ==> landing == n)
    && (wanted == gap ==> landing == gap)
    && (1 <= wanted < gap ==> Occupied(others, key, landing == wanted, landing == wanted + 1))
    && (gap < wanted <= n ==> Occupied(others, key, landing == wanted - 1, landing == wanted))
  }

  /** Some row holds the wanted position: `before` if the newcomer is no younger, `behind` if it is no older. */
  ghost predicate Occupied(others: Keys, key: Key, before: bool, behind: bool) {
    exists id :: id in others && others[id].position == key.position
              && ((before && key.created <= others[id].created) || (behind && others[id].created <= key.created))
  }

  function Without(order: seq<nat>, m: nat): seq<nat>
    requires m < |order|
  {
    order[..m] + order[m + 1..]
  }

  lemma WithoutSorts(keys: Keys, order: seq<nat>, m: nat)
    requires Sorts(keys, order) && m < |order|
    ensures Sorts(keys - {order[m]}, Without(order, m))
  {
    var (id, rest) := (order[m], Without(order, m));
    forall i | 0 <= i < |rest|
      ensures rest[i] == order[if i < m then i else i + 1] && rest[i] != id && rest[i] in keys
    {
      assert order[if i < m then i else i + 1] in order;
    }
    forall k | k in keys && k != id
      ensures k in rest
    {
      var i :| 0 <= i < |order| && order[i] == k;
      assert rest[if i < m then i else i - 1] == k;
    }
  }

  lemma SortsAt(keys: Keys, order: seq<nat>, i: nat, j: nat)
    requires Sorts(keys, order) && i <= j < |order|
    ensures order[i] in keys && order[j] in keys && Le(keys[order[i]], keys[order[j]])
    ensures i < j ==> order[i] != order[j]
  {
    assert order[i] in order && order[j] in order;
  }

  /** The number of the i-th of the other rows. */
  function NumberAt(gap: nat, i: nat): nat {
    if i + 1 < gap then i + 1 else i + 2
  }

  /** The i-th other row stands in front of the newcomer, or behind it, and is ordered accordingly. */
  lemma OtherRow(keys: Keys, order: seq<nat>, m: nat, gap: nat, i: nat)
    requires Sorts(keys, order) && m < |order| && order[m] in keys
    requires Gapped(keys - {order[m]}, gap) && i < |order| - 1
    ensures var (id, key) := (order[if i < m then i else i + 1], keys[order[m]]);
      && id in keys && id != order[m] && keys[id].position == NumberAt(gap, i)
      && (if i < m then Le(keys[id], key) else Le(key, keys[id]))
  {
    WithoutSorts(keys, order, m);
    GappedOrder(keys - {order[m]}, Without(order, m), gap, i);
    if i < m {
      SortsAt(keys, order, i, m);
    } else {
      SortsAt(keys, order, m, i + 1);
    }
  }

  lemma LandingBounds(keys: Keys, order: seq<nat>, m: nat, gap: nat)
    requires Sorts(keys, order) && m < |order| && order[m] in keys
    requires Gapped(keys - {order[m]}, gap)
    ensures |keys - {order[m]}| + 1 == |order|
    ensures m > 0 ==> NumberAt(gap, m - 1) <= keys[order[m]].position
    ensures m + 1 < |order| ==> keys[order[m]].position <= NumberAt(gap, m)
  {
    WithoutSorts(keys, order, m);
    ListLength(keys - {order[m]}, Without(order, m));
    if m > 0 {
      OtherRow(keys, order, m, gap, m - 1);
    }
    if m + 1 < |order| {
      OtherRow(keys, order, m, gap, m);
    }
  }

  lemma OccupantDecides(keys: Keys, order: seq<nat>, m: nat, gap: nat, i: nat)
    requires Sorts(keys, order) && m < |order| && order[m] in keys
    requires Gapped(keys - {order[m]}, gap) && i < |order| - 1 && NumberAt(gap, i) == keys[order[m]].position
    ensures Occupied(keys - {order[m]}, keys[order[m]], m <= i, i < m)
  {
    OtherRow(keys, order, m, gap, i);
    var occupant := order[if i < m then i else i + 1];
    assert occupant in keys - {order[m]};
  }

  lemma Landing(keys: Keys, order: seq<nat>, m: nat, gap: nat)
    requires Sorts(keys, order) && m < |order| && order[m] in keys
    requires Gapped(keys - {order[m]}, gap)
    ensures LandsRight(keys - {order[m]}, keys[order[m]], gap, m + 1)
  {
    var wanted := keys[order[m]].position;
    LandingBounds(keys, order, m, gap);
    if 1 <= wanted < gap {
      OccupantDecides(keys, order, m, gap, wanted - 1);
      assert m <= wanted - 1 <==> m + 1 == wanted;
      assert wanted - 1 < m <==> m + 1 == wanted + 1;
    } else if gap < wanted <= |order| {
      OccupantDecides(keys, order, m, gap, wanted - 2);
      assert m <= wanted - 2 <==> m + 1 == wanted - 1;
      assert wanted - 2 < m <==> m + 1 == wanted;
    }
  }

  /** A row behind every other one is ordered last. */
  lemma LandsLast(keys: Keys, order: seq<nat>, m: nat)
    requires Sorts(keys, order) && m < |order| && order[m] in keys
    requires forall id :: id in keys && id != order[m] ==> keys[id].position < keys[order[m]].position
    ensures m + 1 == |keys|
  {
    ListLength(keys, order);
    SortsAt(keys, order, m, |order| - 1);
  }

  /** The position after the last one: one more than the greatest, or 1 when there is none. */
  ghost predicate IsNext(keys: Keys, p: nat) {
    && (forall id :: id in keys ==> keys[id].position < p)
    && (if keys == map[] then p == 1 else exists id :: id in keys && keys[id].position + 1 == p)
  }

  method NextPosition(keys: Keys) returns (p: nat)
    ensures IsNext(keys, p)
  {
    p := 1;
    var todo := keys.Keys;
    var max := 0;
    while todo != {}
      invariant todo <= keys.Keys
      invariant forall id :: id in keys.Keys - todo ==> keys[id].position <= max
      invariant todo == keys.Keys || exists id :: id in keys && keys[id].position == max
      invariant todo == keys.Keys ==> max == 0
      decreases |todo|
    {
      var id :| id in todo;
      if keys[id].position > max || todo == keys.Keys {
        max := keys[id].position;
      }
      todo := todo - {id};
    }
    if keys.Keys != {} {
      p := max + 1;
    }
  }
}
