// The consistent-hash ring of mdm/ConsistencyHash.cpp: an ordered map from the virtual keys of
// the nodes to the nodes, and a table of the nodes with the count of keys mapped to each.

module ConsistencyHashes {
  import opened Collections

  /** Keys are 64-bit; the ring closes there. */
  const CIRCLE: int := 0x1_0000_0000_0000_0000

  type Key = k: int | 0 <= k < 0x1_0000_0000_0000_0000

  /** The node that holds a virtual key. */
  type Ring = map<Key, string>

  /** A node: its virtual keys in the order they were made, and how many keys were mapped to it. */
  datatype Node = Node(keys: seq<Key>, count: nat)

  datatype State = State(nodes: map<string, Node>, ring: Ring)

  // ------------------------------------------------------------- the ordered map

  lemma {:induction false} LeastExists(s: set<int>)
    requires s != {}
    ensures exists k :: k in s && forall k' :: k' in s ==> k <= k'
  {
    var some := SomeElement(s);
    var rest := s - {some};
    if rest == {} {
      SmallestOf(s, some, some);
    } else {
      LeastExists(rest);
      var k :| k in rest && forall k' :: k' in rest ==> k <= k';
      SmallestOf(s, some, k);
    }
  }

  lemma SmallestOf(s: set<int>, some: int, k: int)
    requires some in s && k in s && forall k' :: k' in s - {some} ==> k <= k'
    ensures exists k :: k in s && forall k' :: k' in s ==> k <= k'
  {
    var least := if some < k then some else k;
    forall k' | k' in s
      ensures least <= k'
    {
      assert k' == some || k' in s - {some};
    }
  }

  /** begin() */
  function Least(s: set<Key>): (k: Key)
    requires s != {}
    ensures k in s && forall k' :: k' in s ==> k <= k'
  {
    LeastExists(s);
    var k :| k in s && forall k' :: k' in s ==> k <= k';
    k
  }

  function Above(s: set<Key>, key: Key): set<Key> {
    set k | k in s && key < k
  }

  /** upper_bound(key), and begin() where that is the end. */
  function Successor(s: set<Key>, key: Key): (k: Key)
    requires s != {}
    ensures k in s
  {
    if Above(s, key) != {} then Least(Above(s, key)) else Least(s)
  }

  function Lookup(ring: Ring, key: Key): Option<string> {
    if ring.Keys == {} then None else Some(ring[Successor(ring.Keys, key)])
  }

  /** insert for each key: a key that is there keeps its node. */
  function WithKeys(ring: Ring, keys: seq<Key>, name: string): Ring {
    if keys == [] then ring
    else
      var before := WithKeys(ring, keys[..|keys| - 1], name);
      var k := keys[|keys| - 1];
      if k in before then before else before[k := name]
  }

  /** erase for each key, whoever holds it. */
  function WithoutKeys(ring: Ring, keys: seq<Key>): Ring {
    if keys == [] then ring
    else WithoutKeys(ring, keys[..|keys| - 1]) - {keys[|keys| - 1]}
  }

  // ------------------------------------------------------------- the circle

  /** How far one goes from just after key up to k, around the circle. */
  function Clockwise(key: Key, k: Key): (d: int)
    ensures 0 <= d < CIRCLE
  {
    if key < k then k - key - 1 else k - key - 1 + CIRCLE
  }

  /** The successor is the one virtual key that is nearest going clockwise, wrap-around
      included. */
  lemma SuccessorIsNearest(s: set<Key>, key: Key, k: Key)
    requires s != {}
    ensures k == Successor(s, key) <==> k in s && forall k' :: k' in s ==> Clockwise(key, k) <= Clockwise(key, k')
  {
    var n := Successor(s, key);
    assert Above(s, key) == {} ==> forall k' :: k' in s ==> k' !in Above(s, key);
    forall k' | k' in s
      ensures Clockwise(key, n) <= Clockwise(key, k')
    {
      assert key < k' ==> k' in Above(s, key);
    }
  }

  /** In a larger set the successor is the same or one of the new keys. */
  lemma SuccessorIn(s: set<Key>, t: set<Key>, key: Key)
    requires s != {} && s <= t
    ensures Successor(t, key) in s ==> Successor(t, key) == Successor(s, key)
  {
    SuccessorIsNearest(t, key, Successor(t, key));
    SuccessorIsNearest(s, key, Successor(t, key));
  }

  // ------------------------------------------------------------- one addition, one deletion

  lemma {:induction false} WithKeysIs(ring: Ring, keys: seq<Key>, name: string)
    ensures forall k :: k in WithKeys(ring, keys, name) <==> k in ring || k in keys
    ensures forall k :: k in WithKeys(ring, keys, name) ==>
      WithKeys(ring, keys, name)[k] == if k in ring then ring[k] else name
  {
    if keys != [] {
      WithKeysIs(ring, keys[..|keys| - 1], name);
      assert keys == keys[..|keys| - 1] + [keys[|keys| - 1]];
    }
  }

  lemma {:induction false} WithoutKeysIs(ring: Ring, keys: seq<Key>)
    ensures forall k :: k in WithoutKeys(ring, keys) <==> k in ring && k !in keys
    ensures forall k :: k in WithoutKeys(ring, keys) ==> WithoutKeys(ring, keys)[k] == ring[k]
  {
    if keys != [] {
      WithoutKeysIs(ring, keys[..|keys| - 1]);
      assert keys == keys[..|keys| - 1] + [keys[|keys| - 1]];
    }
  }

  /** Adding a node to a ring that is not empty leaves every key where it is or moves it to the
      new node, colliding virtual keys or not; it moves exactly when the nearest virtual key
      is now one that the new node brought. */
  lemma AdditionDisruptsLittle(ring: Ring, keys: seq<Key>, name: string, key: Key)
    requires ring != map[]
    ensures
      var larger := WithKeys(ring, keys, name);
      && larger.Keys != {} && ring.Keys != {}
      && Lookup(larger, key) == if Successor(larger.Keys, key) in ring then Lookup(ring, key) else Some(name)
  {
    var larger := WithKeys(ring, keys, name);
    WithKeysIs(ring, keys, name);
    assert ring.Keys != {};
    assert ring.Keys <= larger.Keys;
    SuccessorIn(ring.Keys, larger.Keys, key);
  }

  /** The ring names the node only at the node's own virtual keys. */
  predicate Owned(ring: Ring, keys: seq<Key>, name: string) {
    forall k :: k in ring && ring[k] == name ==> k in keys
  }

  /** After its deletion no key is mapped to a node; a key whose virtual key was not erased stays
      where it was. */
  lemma DeletionDisruptsLittle(ring: Ring, keys: seq<Key>, name: string, key: Key)
    requires Owned(ring, keys, name)
    ensures Lookup(WithoutKeys(ring, keys), key) != Some(name)
    ensures ring != map[] ==>
      && ring.Keys != {}
      && (Successor(ring.Keys, key) !in keys ==> Lookup(WithoutKeys(ring, keys), key) == Lookup(ring, key))
  {
    var smaller := WithoutKeys(ring, keys);
    WithoutKeysIs(ring, keys);
    if ring != map[] {
      assert ring.Keys != {};
      if Successor(ring.Keys, key) !in keys {
        assert Successor(ring.Keys, key) in smaller.Keys;
        SuccessorIn(smaller.Keys, ring.Keys, key);
      }
    }
  }

  lemma ClockwiseAdds(key: Key, k: Key, j: Key)
    ensures Clockwise(key, k) == Clockwise(key, j) <==> k == j
    ensures Clockwise(key, k) < Clockwise(key, j) ==> Clockwise(key, j) == Clockwise(key, k) + 1 + Clockwise(k, j)
  {
  }

  /** When the successor is erased, its own successor takes over. */
  lemma ErasedMovesOn(s: set<Key>, t: set<Key>, key: Key)
    requires t != {} && t <= s && Successor(s, key) !in t
    ensures Successor(t, key) == Successor(t, Successor(s, key))
  {
    var k := Successor(s, key);
    var next := Successor(t, k);
    SuccessorIsNearest(s, key, k);
    SuccessorIsNearest(t, k, next);
    forall j | j in t
      ensures Clockwise(key, next) <= Clockwise(key, j)
    {
      ClockwiseAdds(key, k, j);
      ClockwiseAdds(key, k, next);
    }
    SuccessorIsNearest(t, key, next);
  }

  /** The key just before a virtual key maps to it. */
  lemma JustBefore(s: set<Key>, k: Key) returns (key: Key)
    requires k in s
    ensures Successor(s, key) == k
  {
    key := if k == 0 then CIRCLE - 1 else k - 1;
    assert Clockwise(key, k) == 0;
    SuccessorIsNearest(s, key, k);
  }

  /** Whether a deletion leaves the other nodes' keys alone is decided at the virtual keys of
      other nodes that it erases: exactly when each of them, looked up in what remains, still
      maps to the node that held it. */
  lemma DeletionSparesOthers(ring: Ring, keys: seq<Key>, name: string)
    requires Owned(ring, keys, name)
    ensures
      var smaller := WithoutKeys(ring, keys);
      (forall key: Key :: Lookup(ring, key).Some? && Lookup(ring, key) != Some(name)
        ==> Lookup(smaller, key) == Lookup(ring, key))
      <==> (forall k :: k in ring && k in keys && ring[k] != name ==> Lookup(smaller, k) == Some(ring[k]))
  {
    hide Successor, WithoutKeys;
    var smaller := WithoutKeys(ring, keys);
    WithoutKeysIs(ring, keys);
    if forall k :: k in ring && k in keys && ring[k] != name ==> Lookup(smaller, k) == Some(ring[k]) {
      forall key: Key | Lookup(ring, key).Some? && Lookup(ring, key) != Some(name)
        ensures Lookup(smaller, key) == Lookup(ring, key)
      {
        SparedIfErasedAre(ring, keys, name, key);
      }
    }
    if forall key: Key ::
      Lookup(ring, key).Some? && Lookup(ring, key) != Some(name) ==> Lookup(smaller, key) == Lookup(ring, key)
    {
      forall k | k in ring && k in keys && ring[k] != name
        ensures Lookup(smaller, k) == Some(ring[k])
      {
        ErasedIfSpared(ring, keys, name, k);
      }
    }
  }

  lemma SparedIfErasedAre(ring: Ring, keys: seq<Key>, name: string, key: Key)
    requires Owned(ring, keys, name) && Lookup(ring, key).Some? && Lookup(ring, key) != Some(name)
    requires forall k :: k in ring && k in keys && ring[k] != name ==>
      Lookup(WithoutKeys(ring, keys), k) == Some(ring[k])
    ensures Lookup(WithoutKeys(ring, keys), key) == Lookup(ring, key)
  {
    hide Successor, WithoutKeys;
    var smaller := WithoutKeys(ring, keys);
    WithoutKeysIs(ring, keys);
    var k := Successor(ring.Keys, key);
    if k in keys {
      assert Lookup(smaller, k) == Some(ring[k]);
      ErasedMovesOn(ring.Keys, smaller.Keys, key);
    } else {
      assert k in smaller.Keys;
      SuccessorIn(smaller.Keys, ring.Keys, key);
    }
  }

  lemma ErasedIfSpared(ring: Ring, keys: seq<Key>, name: string, k: Key)
    requires k in ring && k in keys && ring[k] != name
    requires forall key: Key ::
      Lookup(ring, key).Some? && Lookup(ring, key) != Some(name) ==>
        Lookup(WithoutKeys(ring, keys), key) == Lookup(ring, key)
    ensures Lookup(WithoutKeys(ring, keys), k) == Some(ring[k])
  {
    hide Successor, WithoutKeys;
    var smaller := WithoutKeys(ring, keys);
    WithoutKeysIs(ring, keys);
    var key := JustBefore(ring.Keys, k);
    assert Lookup(ring, key) == Some(ring[k]);
    assert Lookup(smaller, key) == Some(ring[k]);
    ErasedMovesOn(ring.Keys, smaller.Keys, key);
  }

  /** And when no other node holds an erased virtual key, none loses anything. */
  lemma DisjointKeysAreSpared(ring: Ring, keys: seq<Key>, name: string, key: Key)
    requires Owned(ring, keys, name) && forall k :: k in ring && k in keys ==> ring[k] == name
    ensures Lookup(ring, key) != Some(name) ==> Lookup(WithoutKeys(ring, keys), key) == Lookup(ring, key)
  {
    DeletionDisruptsLittle(ring, keys, name, key);
    WithoutKeysIs(ring, keys);
    if ring == map[] {
      assert WithoutKeys(ring, keys).Keys == {};
    }
  }

  /** Adding a node and deleting it restores the ring exactly when none of its virtual keys was
      taken. */
  lemma AddThenDelete(ring: Ring, keys: seq<Key>, name: string)
    ensures WithoutKeys(WithKeys(ring, keys, name), keys) == ring <==> forall k :: k in keys ==> k !in ring
  {
    var larger := WithKeys(ring, keys, name);
    WithKeysIs(ring, keys, name);
    WithoutKeysIs(larger, keys);
    if forall k :: k in keys ==> k !in ring {
      assert WithoutKeys(larger, keys).Keys == ring.Keys;
    }
  }

  // ------------------------------------------------------------- every run

  /** The calls; the virtual keys of a new node come with the call that adds it. */
  datatype Call = Add(name: string, keys: seq<Key>) | Delete(name: string) | Map(key: Key)

  function Added(s: State, name: string, keys: seq<Key>): State {
    if name in s.nodes then s
    else State(s.nodes[name := Node(keys, 0)], WithKeys(s.ring, keys, name))
  }

  function Deleted(s: State, name: string): State {
    if name !in s.nodes then s else s.(ring := WithoutKeys(s.ring, s.nodes[name].keys))
  }

  function Mapped(s: State, key: Key): State {
    match Lookup(s.ring, key)
    case None => s
    case Some(name) =>
      if name !in s.nodes then s
      else s.(nodes := s.nodes[name := s.nodes[name].(count := s.nodes[name].count + 1)])
  }

  function After(s: State, call: Call): State {
    match call
    case Add(name, keys) => Added(s, name, keys)
    case Delete(name) => Deleted(s, name)
    case Map(key) => Mapped(s, key)
  }

  function AfterAll(calls: seq<Call>): State {
    if calls == [] then State(map[], map[]) else After(AfterAll(calls[..|calls| - 1]), calls[|calls| - 1])
  }

  /** Each entry of the ring is one of its node's own virtual keys. */
  ghost predicate Consistent(s: State) {
    forall k :: k in s.ring ==> s.ring[k] in s.nodes && k in s.nodes[s.ring[k]].keys
  }

  lemma AfterIsConsistent(s: State, call: Call)
    requires Consistent(s)
    ensures Consistent(After(s, call))
  {
    match call
    case Add(name, keys) =>
      WithKeysIs(s.ring, keys, name);
    case Delete(name) =>
      if name in s.nodes {
        WithoutKeysIs(s.ring, s.nodes[name].keys);
      }
    case Map(key) =>
      hide Lookup;
  }

  lemma {:induction false} AllIsConsistent(calls: seq<Call>)
    ensures Consistent(AfterAll(calls))
  {
    if calls != [] {
      AllIsConsistent(calls[..|calls| - 1]);
      AfterIsConsistent(AfterAll(calls[..|calls| - 1]), calls[|calls| - 1]);
    }
  }

  /** The names in the order in which their nodes were made. */
  ghost function Names(calls: seq<Call>): seq<string> {
    if calls == [] then []
    else
      var n := |calls| - 1;
      var call := calls[n];
      Names(calls[..n]) + if call.Add? && call.name !in AfterAll(calls[..n]).nodes then [call.name] else []
  }

  ghost function Sum(nodes: map<string, Node>, names: seq<string>): nat {
    if names == [] then 0
    else
      var n := |names| - 1;
      Sum(nodes, names[..n]) + if names[n] in nodes then nodes[names[n]].count else 0
  }

  /** How many of the lookups found a node. */
  ghost function Found(calls: seq<Call>): nat {
    if calls == [] then 0
    else
      var n := |calls| - 1;
      Found(calls[..n]) + if calls[n].Map? && AfterAll(calls[..n]).ring != map[] then 1 else 0
  }

  lemma {:induction false} SumIsLocal(nodes: map<string, Node>, names: seq<string>, name: string, node: Node)
    requires forall i, j :: 0 <= i < j < |names| ==> names[i] != names[j]
    ensures Sum(nodes[name := node], names)
         == Sum(nodes, names)
            + if name !in names then 0 else if name in nodes then node.count - nodes[name].count else node.count
  {
    if names != [] {
      var n := |names| - 1;
      SumIsLocal(nodes, names[..n], name, node);
      assert names == names[..n] + [names[n]];
      assert names[n] !in names[..n];
    }
  }

  lemma SumGrows(nodes: map<string, Node>, names: seq<string>, name: string)
    ensures Sum(nodes, names + [name]) == Sum(nodes, names) + if name in nodes then nodes[name].count else 0
  {
    assert (names + [name])[..|names|] == names;
  }

  /** The table only grows: the names are those of every node ever made, each once. */
  lemma {:induction false} NamesAreNodes(calls: seq<Call>)
    ensures forall name :: name in AfterAll(calls).nodes <==> name in Names(calls)
    ensures forall i, j :: 0 <= i < j < |Names(calls)| ==> Names(calls)[i] != Names(calls)[j]
  {
    if calls != [] {
      var n := |calls| - 1;
      NamesAreNodes(calls[..n]);
      hide Lookup, WithKeys, WithoutKeys;
    }
  }

  /** On every run the counts of all nodes, deleted ones included, add up to the lookups that
      found a node. */
  lemma {:induction false} CountsAreConserved(calls: seq<Call>)
    ensures Sum(AfterAll(calls).nodes, Names(calls)) == Found(calls)
  {
    if calls != [] {
      var n := |calls| - 1;
      var s := AfterAll(calls[..n]);
      CountsAreConserved(calls[..n]);
      NamesAreNodes(calls[..n]);
      AllIsConsistent(calls[..n]);
      CountStep(s, Names(calls[..n]), calls[n]);
    }
    hide After;
  }

  lemma CountStep(s: State, names: seq<string>, call: Call)
    requires Consistent(s)
    requires forall name :: name in s.nodes <==> name in names
    requires forall i, j :: 0 <= i < j < |names| ==> names[i] != names[j]
    ensures Sum(After(s, call).nodes, names + if call.Add? && call.name !in s.nodes then [call.name] else [])
         == Sum(s.nodes, names) + if call.Map? && s.ring != map[] then 1 else 0
  {
    hide Sum, WithKeys, WithoutKeys;
    assert names + [] == names;
    match call
    case Add(name, keys) =>
      SumIsLocal(s.nodes, names, name, Node(keys, 0));
      SumGrows(s.nodes[name := Node(keys, 0)], names, name);
    case Delete(name) =>
    case Map(key) =>
      MapStep(s, names, key);
  }

  lemma MapStep(s: State, names: seq<string>, key: Key)
    requires Consistent(s)
    requires forall name :: name in s.nodes <==> name in names
    requires forall i, j :: 0 <= i < j < |names| ==> names[i] != names[j]
    ensures Sum(Mapped(s, key).nodes, names) == Sum(s.nodes, names) + if s.ring != map[] then 1 else 0
  {
    hide Sum, Successor;
    if s.ring != map[] {
      assert s.ring.Keys != {};
      var name := s.ring[Successor(s.ring.Keys, key)];
      SumIsLocal(s.nodes, names, name, s.nodes[name].(count := s.nodes[name].count + 1));
    }
  }

  /** How many of the lookups found this node. */
  ghost function Hits(calls: seq<Call>, name: string): nat {
    if calls == [] then 0
    else
      var n := |calls| - 1;
      Hits(calls[..n], name)
      + if calls[n].Map? && Lookup(AfterAll(calls[..n]).ring, calls[n].key) == Some(name) then 1 else 0
  }

  /** On every run the count of a node is the number of lookups that found it. */
  lemma {:induction false} CountIsHits(calls: seq<Call>, name: string)
    ensures
      var nodes := AfterAll(calls).nodes;
      if name in nodes then nodes[name].count == Hits(calls, name) else Hits(calls, name) == 0
  {
    if calls != [] {
      var n := |calls| - 1;
      CountIsHits(calls[..n], name);
      AllIsConsistent(calls[..n]);
      HitStep(AfterAll(calls[..n]), calls[n], name);
      hide After, Lookup, Consistent;
    }
  }

  lemma HitStep(s: State, call: Call, name: string)
    requires Consistent(s)
    ensures
      var hit := call.Map? && Lookup(s.ring, call.key) == Some(name);
      var nodes := After(s, call).nodes;
      if name in s.nodes then name in nodes && nodes[name].count == s.nodes[name].count + if hit then 1 else 0
      else !hit && (name in nodes ==> nodes[name].count == 0)
  {
    hide Successor, WithKeys, WithoutKeys;
  }

  /** What a deletion achieves on any run: no key maps to the node any more, and it cannot be
      added again, because its record stays. */
  lemma DeletedForGood(calls: seq<Call>, name: string, keys: seq<Key>, key: Key)
    ensures
      var s := AfterAll(calls + [Delete(name)]);
      && Lookup(s.ring, key) != Some(name)
      && (name in AfterAll(calls).nodes ==> AfterAll(calls + [Delete(name), Add(name, keys)]) == s)
  {
    var before := AfterAll(calls);
    AllIsConsistent(calls);
    assert (calls + [Delete(name)])[..|calls|] == calls;
    if name in before.nodes {
      DeletionDisruptsLittle(before.ring, before.nodes[name].keys, name, key);
      assert (calls + [Delete(name), Add(name, keys)])[..|calls| + 1] == calls + [Delete(name)];
    }
    hide WithoutKeys, WithKeys;
  }

  /** A deletion that takes from another node: the name was deleted before, and the other node
      has since brought the same virtual key. */
  lemma RepeatedDeletionTakes(key: Key)
    ensures
      var calls := [Add("A", [5]), Delete("A"), Add("B", [5])];
      && Lookup(AfterAll(calls).ring, key) == Some("B")
      && Lookup(AfterAll(calls + [Delete("A")]).ring, key) == None
  {
    var one, two, three := [Add("A", [5])], [Add("A", [5]), Delete("A")], [Add("A", [5]), Delete("A"), Add("B", [5])];
    OneKey(map[], "A");
    OneKey(map[], "B");
    OneKey(map[5 := "B"], "A");
    OneKey(map[5 := "A"], "A");
    assert one[..0] == [] && two[..1] == one && three[..2] == two && (three + [Delete("A")])[..3] == three;
    assert AfterAll([]) == State(map[], map[]);
    assert AfterAll(one) == State(map["A" := Node([5], 0)], map[5 := "A"]);
    assert AfterAll(two) == State(map["A" := Node([5], 0)], map[]);
    assert AfterAll(three) == State(map["A" := Node([5], 0), "B" := Node([5], 0)], map[5 := "B"]);
    assert AfterAll(three).ring.Keys == {5};
    assert Successor({5}, key) in {5};
    hide WithKeys, WithoutKeys, Successor;
  }

  lemma OneKey(ring: Ring, name: string)
    ensures WithKeys(ring, [5], name) == if 5 in ring then ring else ring[5 := name]
    ensures WithoutKeys(ring, [5]) == ring - {5}
  {
    assert [5][..0] == [];
    assert WithKeys(ring, [5][..0], name) == ring && WithoutKeys(ring, [5][..0]) == ring;
  }

  // ------------------------------------------------------------- the class

  class ConsistencyHash {
    var nodes: map<string, Node>       // nodes_
    var hashMap: Ring                  // hashMap_

    ghost function View(): State
      reads this
    {
      State(nodes, hashMap)
    }

    constructor ()
      ensures View() == AfterAll([])
    {
      nodes, hashMap := map[], map[];
    }

    method AddHashNodesFromString(name: string, keys: seq<Key>) returns (ok: bool)
      modifies this
      ensures View() == After(old(View()), Add(name, keys)) && (ok <==> name !in old(nodes))
    {
      if name in nodes {
        return false;
      }
      nodes := nodes[name := Node(keys, 0)];
      for i := 0 to |keys|
        invariant nodes == old(nodes)[name := Node(keys, 0)]
        invariant hashMap == WithKeys(old(hashMap), keys[..i], name)
      {
        assert keys[..i + 1][..i] == keys[..i];
        if keys[i] !in hashMap {
          hashMap := hashMap[keys[i] := name];
        }
      }
      assert keys[..|keys|] == keys;
      ok := true;
    }

    method DeleteHashNodesFromString(name: string) returns (ok: bool)
      modifies `hashMap
      ensures View() == After(old(View()), Delete(name)) && ok
    {
      if name !in nodes {
        return true;
      }
      var keys := nodes[name].keys;
      for i := 0 to |keys|
        invariant hashMap == WithoutKeys(old(hashMap), keys[..i])
      {
        assert keys[..i + 1][..i] == keys[..i];
        hashMap := hashMap - {keys[i]};
      }
      assert keys[..|keys|] == keys;
      ok := true;
    }

    /** getMappingNodeFromKey: the node, and whether there is one. */
    method GetMappingNodeFromKey(key: Key) returns (found: Option<string>)
      requires Consistent(View())
      modifies `nodes
      ensures View() == After(old(View()), Map(key)) && found == Lookup(hashMap, key)
    {
      if hashMap.Keys == {} {
        return None;
      }
      var name := hashMap[Successor(hashMap.Keys, key)];
      nodes := nodes[name := nodes[name].(count := nodes[name].count + 1)];
      found := Some(name);
    }
  }
}
