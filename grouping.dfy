/** Grouping a sequence by a string key, as the report builder does with a
    `defaultdict(list)` or `defaultdict(int)` filled in one pass: the keys
    come out in order of first occurrence and each group keeps the order of
    the input. */
module Grouping {
  import opened Common

  /** The keys of a dict filled from `s`: each distinct key once, in order of
      first occurrence. */
  function KeysInOrder<T>(s: seq<T>, key: T -> string): seq<string> {
    if s == [] then []
    else
      var keys := KeysInOrder(s[..|s| - 1], key);
      var k := key(s[|s| - 1]);
      if k in keys then keys else keys + [k]
  }

  /** Each key of `s` is listed, once. */
  lemma {:induction false} KeysInOrderFacts<T>(s: seq<T>, key: T -> string)
    ensures Distinct(KeysInOrder(s, key))
    ensures forall x :: x in s ==> key(x) in KeysInOrder(s, key)
  {
    if s != [] {
      var init, last := s[..|s| - 1], s[|s| - 1];
      assert s == init + [last];
      KeysInOrderFacts(init, key);
      DistinctSnoc(KeysInOrder(init, key), key(last));
    }
  }

  /** Every listed key is the key of some element of `s`. */
  lemma {:induction false} KeyWitness<T>(s: seq<T>, key: T -> string, k: string) returns (x: T)
    requires k in KeysInOrder(s, key)
    ensures x in s && key(x) == k
  {
    var init := s[..|s| - 1];
    if k in KeysInOrder(init, key) {
      x := KeyWitness(init, key, k);
      assert x in s by { assert s == init + [s[|s| - 1]]; }
    } else {
      x := s[|s| - 1];
    }
  }

  /** The distinct keys of the elements of `s`. */
  ghost function KeySet<T>(s: seq<T>, key: T -> string): set<string> {
    set x | x in s :: key(x)
  }

  /** The listed keys are the keys of the elements of `s`. */
  lemma KeysInOrderSet<T>(s: seq<T>, key: T -> string)
    ensures (set k | k in KeysInOrder(s, key)) == KeySet(s, key)
  {
    KeysInOrderFacts(s, key);
    forall k | k in KeysInOrder(s, key)
      ensures k in (set x | x in s :: key(x))
    {
      var x := KeyWitness(s, key, k);
    }
  }

  /** The elements of `s` with key `k`, in order. */
  function Members<T>(s: seq<T>, key: T -> string, k: string): (r: seq<T>)
    ensures |r| <= |s|
  {
    if s == [] then []
    else Members(s[..|s| - 1], key, k) + (if key(s[|s| - 1]) == k then [s[|s| - 1]] else [])
  }

  /** The elements of `s` whose key is not `k`, in order. */
  function NonMembers<T>(s: seq<T>, key: T -> string, k: string): (r: seq<T>)
    ensures |r| <= |s|
  {
    if s == [] then []
    else NonMembers(s[..|s| - 1], key, k) + (if key(s[|s| - 1]) == k then [] else [s[|s| - 1]])
  }

  /** A group holds only elements of `s` with its key, and the rest only
      elements of `s` with another key. */
  lemma {:induction false} MembersIn<T>(s: seq<T>, key: T -> string, k: string)
    ensures forall x :: x in Members(s, key, k) ==> x in s && key(x) == k
    ensures forall x :: x in NonMembers(s, key, k) ==> x in s && key(x) != k
  {
    if s != [] {
      var init := s[..|s| - 1];
      MembersIn(init, key, k);
      assert forall x :: x in init ==> x in s;
    }
  }

  /** The dict's items: each key with its group. */
  function GroupItems<T>(s: seq<T>, key: T -> string): (r: seq<(string, seq<T>)>)
    ensures |r| == |KeysInOrder(s, key)|
  {
    GroupsFor(KeysInOrder(s, key), s, key)
  }

  /** Each of `keys` with its group. */
  function GroupsFor<T>(keys: seq<string>, s: seq<T>, key: T -> string): (r: seq<(string, seq<T>)>)
    ensures |r| == |keys|
    ensures forall i :: 0 <= i < |keys| ==> r[i] == (keys[i], Members(s, key, keys[i]))
  {
    seq(|keys|, i requires 0 <= i < |keys| => (keys[i], Members(s, key, keys[i])))
  }

  /** The items of a counting dict: each key with the size of its group. */
  function CountItems<T>(s: seq<T>, key: T -> string): (r: seq<(string, nat)>)
    ensures |r| == |KeysInOrder(s, key)|
  {
    CountsFor(KeysInOrder(s, key), s, key)
  }

  /** Each of `keys` with the size of its group. */
  function CountsFor<T>(keys: seq<string>, s: seq<T>, key: T -> string): (r: seq<(string, nat)>)
    ensures |r| == |keys|
    ensures forall i :: 0 <= i < |keys| ==> r[i] == (keys[i], |Members(s, key, keys[i])|)
  {
    seq(|keys|, i requires 0 <= i < |keys| => (keys[i], |Members(s, key, keys[i])|))
  }

  /** Total size of the groups of `keys`. */
  function SizeSum<T>(keys: seq<string>, s: seq<T>, key: T -> string): nat {
    if keys == [] then 0 else |Members(s, key, keys[0])| + SizeSum(keys[1..], s, key)
  }

  /** The count of a counting dict's item. */
  function CountOf(item: (string, nat)): nat {
    item.1
  }

  /** The size of a grouping dict's item. */
  function SizeOf<T>(item: (string, seq<T>)): nat {
    |item.1|
  }

  /** Appending `x` to `s` appends it to the rest of `k` exactly when its
      key is not `k`. */
  lemma NonMembersSnoc<T>(s: seq<T>, x: T, key: T -> string, k: string)
    ensures NonMembers(s + [x], key, k) == NonMembers(s, key, k) + (if key(x) == k then [] else [x])
  {
    assert (s + [x])[..|s|] == s;
  }

  /** Appending `x` to `s` adds its key at the end of the keys when it is
      new. */
  lemma KeysSnoc<T>(s: seq<T>, x: T, key: T -> string)
    ensures KeysInOrder(s + [x], key) == if key(x) in KeysInOrder(s, key) then KeysInOrder(s, key) else KeysInOrder(s, key) + [key(x)]
  {
    assert (s + [x])[..|s|] == s;
  }

  /** Appending `x` to `s` appends it to its own group and to no other. */
  lemma MembersSnoc<T>(s: seq<T>, x: T, key: T -> string, k: string)
    ensures Members(s + [x], key, k) == Members(s, key, k) + (if key(x) == k then [x] else [])
  {
    assert (s + [x])[..|s|] == s;
  }

  /** `dict.items()` of a dict whose keys, in insertion order, are `keys`. */
  function DictItems<V>(keys: seq<string>, dict: map<string, V>): (r: seq<(string, V)>)
    requires forall k :: k in keys ==> k in dict
    ensures |r| == |keys|
    ensures forall i :: 0 <= i < |keys| ==> r[i] == (keys[i], dict[keys[i]])
  {
    seq(|keys|, i requires 0 <= i < |keys| => (keys[i], dict[keys[i]]))
  }

  /** `keys` and `groups` are a `defaultdict(list)` filled from `s`. */
  ghost predicate IsGroupDict<T>(s: seq<T>, key: T -> string, keys: seq<string>, groups: map<string, seq<T>>) {
    keys == KeysInOrder(s, key)
    && (forall k :: k in groups <==> k in keys)
    && (forall k :: k in groups ==> groups[k] == Members(s, key, k))
  }

  /** `keys` and `counts` are a `defaultdict(int)` counting the keys of `s`. */
  ghost predicate IsCountDict<T>(s: seq<T>, key: T -> string, keys: seq<string>, counts: map<string, nat>) {
    keys == KeysInOrder(s, key)
    && (forall k :: k in counts <==> k in keys)
    && (forall k :: k in counts ==> counts[k] == |Members(s, key, k)|)
  }

  /** `groups[key(x)].append(x)` keeps a grouping dict of the sequence
      grown by `x`. */
  lemma GroupDictStep<T>(s: seq<T>, x: T, key: T -> string, keys: seq<string>, groups: map<string, seq<T>>)
    requires IsGroupDict(s, key, keys, groups)
    ensures IsGroupDict(s + [x], key,
      if key(x) in groups then keys else keys + [key(x)],
      groups[key(x) := (if key(x) in groups then groups[key(x)] else []) + [x]])
  {
    var k0 := key(x);
    var keys' := if k0 in groups then keys else keys + [k0];
    var groups' := groups[k0 := (if k0 in groups then groups[k0] else []) + [x]];
    KeysSnoc(s, x, key);
    assert keys' == KeysInOrder(s + [x], key);
    forall k | k in groups'
      ensures groups'[k] == Members(s + [x], key, k)
    {
      MembersSnoc(s, x, key, k);
      if k == k0 && k0 !in groups {
        KeysInOrderFacts(s, key);
        MembersNone(s, key, k0);
      }
    }
  }

  /** `counts[key(x)] += 1` keeps a counting dict of the sequence grown by `x`. */
  lemma CountDictStep<T>(s: seq<T>, x: T, key: T -> string, keys: seq<string>, counts: map<string, nat>)
    requires IsCountDict(s, key, keys, counts)
    ensures IsCountDict(s + [x], key,
      if key(x) in counts then keys else keys + [key(x)],
      counts[key(x) := (if key(x) in counts then counts[key(x)] else 0) + 1])
  {
    var k0 := key(x);
    var keys' := if k0 in counts then keys else keys + [k0];
    var counts' := counts[k0 := (if k0 in counts then counts[k0] else 0) + 1];
    KeysSnoc(s, x, key);
    assert keys' == KeysInOrder(s + [x], key);
    forall k | k in counts'
      ensures counts'[k] == |Members(s + [x], key, k)|
    {
      MembersSnoc(s, x, key, k);
      if k == k0 && k0 !in counts {
        KeysInOrderFacts(s, key);
        MembersNone(s, key, k0);
      }
    }
  }

  /** The items of a grouping dict of `s` are its groups. */
  lemma GroupDictItems<T>(s: seq<T>, key: T -> string, keys: seq<string>, groups: map<string, seq<T>>)
    requires IsGroupDict(s, key, keys, groups)
    ensures forall k :: k in keys ==> k in groups
    ensures DictItems(keys, groups) == GroupItems(s, key)
  {
  }

  /** A loop that appends each element of `s` to the list of its key in a
      `defaultdict(list)`, skipping the elements whose key is `skip`, and
      then takes the dict's items. */
  method GroupExcept<T>(s: seq<T>, key: T -> string, skip: string) returns (items: seq<(string, seq<T>)>)
    ensures items == GroupItems(NonMembers(s, key, skip), key)
  {
    var keys: seq<string> := [];
    var groups: map<string, seq<T>> := map[];
    for i := 0 to |s|
      invariant IsGroupDict(NonMembers(s[..i], key, skip), key, keys, groups)
    {
      var x := s[i];
      ghost var seen := NonMembers(s[..i], key, skip);
      assert s[..i + 1] == s[..i] + [x];
      NonMembersSnoc(s[..i], x, key, skip);
      var k := key(x);
      if k != skip {
        assert NonMembers(s[..i + 1], key, skip) == seen + [x];
        GroupDictStep(seen, x, key, keys, groups);
        var group := if k in groups then groups[k] else [];
        keys := if k in groups then keys else keys + [k];
        groups := groups[k := group + [x]];
      } else {
        assert NonMembers(s[..i + 1], key, skip) == seen;
      }
    }
    assert s[..|s|] == s;
    GroupDictItems(NonMembers(s, key, skip), key, keys, groups);
    items := DictItems(keys, groups);
  }

  /** The items of a counting dict of `s` are its counts. */
  lemma CountDictItems<T>(s: seq<T>, key: T -> string, keys: seq<string>, counts: map<string, nat>)
    requires IsCountDict(s, key, keys, counts)
    ensures forall k :: k in keys ==> k in counts
    ensures DictItems(keys, counts) == CountItems(s, key)
  {
  }

  /** A key splits the sequence into its members and the rest. */
  lemma {:induction false} MembersPartition<T>(s: seq<T>, key: T -> string, k: string)
    ensures multiset(Members(s, key, k)) + multiset(NonMembers(s, key, k)) == multiset(s)
    ensures |Members(s, key, k)| + |NonMembers(s, key, k)| == |s|
  {
    if s != [] {
      var init, last := s[..|s| - 1], s[|s| - 1];
      assert s == init + [last];
      MembersPartition(init, key, k);
    }
  }

  /** Every element of `s` with key `k` is in the group of `k`, as often as
      it occurs in `s`. */
  lemma {:induction false} MembersCount<T>(s: seq<T>, key: T -> string, k: string, x: T)
    ensures multiset(Members(s, key, k))[x] == if key(x) == k then multiset(s)[x] else 0
  {
    if s != [] {
      var init, last := s[..|s| - 1], s[|s| - 1];
      assert s == init + [last];
      MembersCount(init, key, k, x);
    }
  }

  lemma {:induction false} MembersNone<T>(s: seq<T>, key: T -> string, k: string)
    requires forall x :: x in s ==> key(x) != k
    ensures Members(s, key, k) == []
  {
    if s != [] {
      MembersNone(s[..|s| - 1], key, k);
    }
  }

  /** Each item of a grouping dict is a key with its group, which is not
      empty. */
  lemma GroupItemsNonEmpty<T>(s: seq<T>, key: T -> string)
    ensures forall item :: item in GroupItems(s, key) ==> item.1 == Members(s, key, item.0) && item.1 != []
  {
    var keys := KeysInOrder(s, key);
    var items := GroupItems(s, key);
    forall item | item in items
      ensures item.1 == Members(s, key, item.0) && item.1 != []
    {
      var i :| 0 <= i < |items| && items[i] == item;
      assert item == (keys[i], Members(s, key, keys[i]));
      var x := KeyWitness(s, key, keys[i]);
      MembersCount(s, key, keys[i], x);
      assert x in multiset(item.1);
    }
  }

  /** Each item of a counting dict is a key with the size of its group,
      which is positive. */
  lemma CountItemsPositive<T>(s: seq<T>, key: T -> string)
    ensures forall item :: item in CountItems(s, key) ==> item.1 == |Members(s, key, item.0)| && item.1 > 0
  {
    var keys := KeysInOrder(s, key);
    var items := CountItems(s, key);
    forall item | item in items
      ensures item.1 == |Members(s, key, item.0)| && item.1 > 0
    {
      var i :| 0 <= i < |items| && items[i] == item;
      assert item == (keys[i], |Members(s, key, keys[i])|);
      var x := KeyWitness(s, key, keys[i]);
      MembersCount(s, key, keys[i], x);
      assert x in multiset(Members(s, key, keys[i]));
    }
  }

  /** Removing a key no element has removes nothing. */
  lemma {:induction false} NonMembersAll<T>(s: seq<T>, key: T -> string, k: string)
    requires forall x :: x in s ==> key(x) != k
    ensures NonMembers(s, key, k) == s
  {
    if s != [] {
      NonMembersAll(s[..|s| - 1], key, k);
      assert s == s[..|s| - 1] + [s[|s| - 1]];
    }
  }

  /** Adding one element to `s` grows exactly one group of a duplicate-free
      key list that holds its key, and no group of one that does not. */
  lemma {:induction false} SizeSumSnoc<T>(keys: seq<string>, s: seq<T>, x: T, key: T -> string)
    requires Distinct(keys)
    ensures SizeSum(keys, s + [x], key) == SizeSum(keys, s, key) + (if key(x) in keys then 1 else 0)
  {
    if keys != [] {
      assert (s + [x])[..|s + [x]| - 1] == s;
      var rest := keys[1..];
      assert Distinct(rest) by {
        forall i, j | 0 <= i < j < |rest|
          ensures rest[i] != rest[j]
        {
          assert rest[i] == keys[i + 1] && rest[j] == keys[j + 1];
        }
      }
      SizeSumSnoc(rest, s, x, key);
      if keys[0] == key(x) {
        forall i | 0 <= i < |rest|
          ensures rest[i] != key(x)
        {
          assert rest[i] == keys[i + 1];
        }
      }
      assert key(x) in keys <==> key(x) == keys[0] || key(x) in rest;
    }
  }

  lemma {:induction false} SizeSumAppend<T>(keys: seq<string>, k: string, s: seq<T>, key: T -> string)
    ensures SizeSum(keys + [k], s, key) == SizeSum(keys, s, key) + |Members(s, key, k)|
  {
    if keys != [] {
      assert (keys + [k])[1..] == keys[1..] + [k];
      SizeSumAppend(keys[1..], k, s, key);
    }
  }

  /** The groups of a dict filled from `s` together hold every element of
      `s` exactly once: their sizes sum to `|s|`. */
  lemma {:induction false} GroupSizesSum<T>(s: seq<T>, key: T -> string)
    ensures SizeSum(KeysInOrder(s, key), s, key) == |s|
  {
    if s != [] {
      var init, last := s[..|s| - 1], s[|s| - 1];
      assert s == init + [last];
      var keys := KeysInOrder(init, key);
      GroupSizesSum(init, key);
      KeysInOrderFacts(init, key);
      SizeSumSnoc(keys, init, last, key);
      if key(last) !in keys {
        SizeSumAppend(keys, key(last), s, key);
        MembersNone(init, key, key(last));
        assert Members(s, key, key(last)) == [last];
      }
    }
  }

  /** The groups of a grouping dict filled from `s` have sizes summing to
      `|s|`, and there is one group per distinct key of `s`. */
  lemma GroupItemsSum<T>(s: seq<T>, key: T -> string)
    ensures Sum(GroupItems(s, key), SizeOf) == |s|
    ensures |GroupItems(s, key)| == |KeySet(s, key)|
  {
    var keys := KeysInOrder(s, key);
    GroupSizesSum(s, key);
    SizeSumOfGroups(keys, s, key);
    KeysInOrderFacts(s, key);
    DistinctCard(keys);
    KeysInOrderSet(s, key);
  }

  lemma {:induction false} SizeSumOfGroups<T>(keys: seq<string>, s: seq<T>, key: T -> string)
    ensures Sum(GroupsFor(keys, s, key), SizeOf) == SizeSum(keys, s, key)
  {
    if keys != [] {
      SizeSumOfGroups(keys[1..], s, key);
      assert GroupsFor(keys, s, key)[1..] == GroupsFor(keys[1..], s, key);
    }
  }

  /** The counts of a counting dict sum to `|s|`, and it has one item per
      distinct key of `s`. */
  lemma CountItemsSum<T>(s: seq<T>, key: T -> string)
    ensures Sum(CountItems(s, key), CountOf) == |s|
    ensures |CountItems(s, key)| == |KeySet(s, key)|
  {
    var keys := KeysInOrder(s, key);
    GroupSizesSum(s, key);
    CountSumIsSizeSum(keys, s, key);
    KeysInOrderFacts(s, key);
    DistinctCard(keys);
    KeysInOrderSet(s, key);
  }

  lemma {:induction false} CountSumIsSizeSum<T>(keys: seq<string>, s: seq<T>, key: T -> string)
    ensures Sum(CountsFor(keys, s, key), CountOf) == SizeSum(keys, s, key)
  {
    if keys != [] {
      CountSumIsSizeSum(keys[1..], s, key);
      assert CountsFor(keys, s, key)[1..] == CountsFor(keys[1..], s, key);
    }
  }
}
