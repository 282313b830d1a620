/** What every many-to-one loader shares: the index by foreign key and the neighbour a key resolves to. */
module ToOneIndex {
  import opened Collections
  import opened Entities

  /** The foreign keys to ask for: each non-null key once, as first met. */
  function KeysToFetch(keys: seq<Option<int>>): seq<int> {
    FirstSeen(Somes(keys))
  }

  /** nodeids[k]: the nodes whose key is k, in order. */
  function Carriers<T>(nodes: seq<T>, keys: seq<Option<int>>, k: int): seq<T>
    requires |nodes| == |keys|
  {
    if nodes == [] then []
    else
      var last := |nodes| - 1;
      var before := Carriers(nodes[..last], keys[..last], k);
      if keys[last] == Some(k) then before + [nodes[last]] else before
  }

  lemma {:induction false} CarriersMembers<T>(nodes: seq<T>, keys: seq<Option<int>>, k: int, x: T)
    requires |nodes| == |keys|
    ensures x in Carriers(nodes, keys, k) <==> exists i :: 0 <= i < |nodes| && nodes[i] == x && keys[i] == Some(k)
  {
    if nodes != [] {
      var last := |nodes| - 1;
      CarriersMembers(nodes[..last], keys[..last], k, x);
      if i :| 0 <= i < |nodes| && nodes[i] == x && keys[i] == Some(k) {
        assert i < last ==> nodes[..last][i] == x && keys[..last][i] == Some(k);
      }
    }
  }

  function CarrierCounts<T>(nodes: seq<T>, keys: seq<Option<int>>, ids: seq<int>): (counts: seq<nat>)
    requires |nodes| == |keys|
    ensures |counts| == |ids|
    ensures forall i | 0 <= i < |ids| :: counts[i] == |Carriers(nodes, keys, ids[i])|
  {
    seq(|ids|, i requires 0 <= i < |ids| => |Carriers(nodes, keys, ids[i])|)
  }

  lemma CarriersSnoc<T>(nodes: seq<T>, keys: seq<Option<int>>, i: nat, k: int)
    requires |nodes| == |keys| && i < |nodes|
    ensures var before := Carriers(nodes[..i], keys[..i], k);
            Carriers(nodes[..i + 1], keys[..i + 1], k) == if keys[i] == Some(k) then before + [nodes[i]] else before
  {
    assert nodes[..i + 1][..i] == nodes[..i] && keys[..i + 1][..i] == keys[..i];
  }

  lemma KeysToFetchSnoc(keys: seq<Option<int>>, i: nat)
    requires i < |keys|
    ensures var ids := KeysToFetch(keys[..i]);
            KeysToFetch(keys[..i + 1])
            == if keys[i].None? || keys[i].value in ids then ids else ids + [keys[i].value]
  {
    assert keys[..i + 1][..i] == keys[..i];
    if keys[i].Some? {
      FirstSeenSnoc(Somes(keys[..i]), keys[i].value);
      FirstSeenMembers(Somes(keys[..i]), keys[i].value);
    }
  }

  /** The index partitions the nodes that have a key: the lists it holds have as many entries as there are keys. */
  lemma {:induction false} CarriersPartition<T>(nodes: seq<T>, keys: seq<Option<int>>)
    requires |nodes| == |keys|
    ensures Tally(CarrierCounts(nodes, keys, KeysToFetch(keys))) == |Somes(keys)|
  {
    if nodes != [] {
      var last := |nodes| - 1;
      CarriersPartition(nodes[..last], keys[..last]);
      CarriersPartitionStep(nodes, keys);
    }
  }

  lemma CarrierCountsStep<T>(nodes: seq<T>, keys: seq<Option<int>>, ids: seq<int>)
    requires |nodes| == |keys| > 0
    ensures forall i | 0 <= i < |ids| ::
              CarrierCounts(nodes, keys, ids)[i]
              == CarrierCounts(nodes[..|nodes| - 1], keys[..|nodes| - 1], ids)[i]
                 + (if keys[|nodes| - 1] == Some(ids[i]) then 1 else 0)
  {
  }

  lemma CarriersPartitionStep<T>(nodes: seq<T>, keys: seq<Option<int>>)
    requires |nodes| == |keys| > 0
    ensures Tally(CarrierCounts(nodes, keys, KeysToFetch(keys)))
         == Tally(CarrierCounts(nodes[..|nodes| - 1], keys[..|nodes| - 1], KeysToFetch(keys[..|nodes| - 1])))
            + (if keys[|nodes| - 1].Some? then 1 else 0)
  {
    var last := |nodes| - 1;
    var nodes', keys' := nodes[..last], keys[..last];
    var ids := KeysToFetch(keys');
    var counts := CarrierCounts(nodes', keys', ids);
    assert keys[..last + 1] == keys;
    KeysToFetchSnoc(keys, last);
    if keys[last].None? {
      CarrierCountsStep(nodes, keys, ids);
      assert CarrierCounts(nodes, keys, ids) == counts;
    } else if keys[last].value in ids {
      var at :| 0 <= at < |ids| && ids[at] == keys[last].value;
      CarrierCountsStep(nodes, keys, ids);
      FirstSeenDistinct(Somes(keys'));
      TallyPoint(counts, CarrierCounts(nodes, keys, ids), at);
    } else {
      var k := keys[last].value;
      CarrierCountsStep(nodes, keys, ids + [k]);
      NoCarriers(nodes', keys', k);
      assert CarrierCounts(nodes, keys, ids + [k])[..|ids|] == counts;
    }
  }

  lemma {:induction false} NoCarriers<T>(nodes: seq<T>, keys: seq<Option<int>>, k: int)
    requires |nodes| == |keys|
    requires k !in KeysToFetch(keys)
    ensures Carriers(nodes, keys, k) == []
  {
    if nodes != [] {
      var last := |nodes| - 1;
      FirstSeenMembers(Somes(keys), k);
      FirstSeenMembers(Somes(keys[..last]), k);
      SomesMembers(keys, k);
      SomesMembers(keys[..last], k);
      NoCarriers(nodes[..last], keys[..last], k);
    }
  }

  /** The first loop of every many-to-one loader. */
  method IndexByKey<T>(nodes: seq<T>, keys: seq<Option<int>>) returns (ids: seq<int>, nodeids: map<int, seq<T>>)
    requires |nodes| == |keys|
    ensures ids == KeysToFetch(keys)
    ensures forall k :: k in nodeids <==> k in ids
    ensures forall k | k in nodeids :: nodeids[k] == Carriers(nodes, keys, k)
  {
    ids, nodeids := [], map[];
    for i := 0 to |nodes|
      invariant ids == KeysToFetch(keys[..i])
      invariant forall k :: k in nodeids <==> k in ids
      invariant forall k | k in nodeids :: nodeids[k] == Carriers(nodes[..i], keys[..i], k)
    {
      KeysToFetchSnoc(keys, i);
      forall k | k in nodeids
        ensures Carriers(nodes[..i + 1], keys[..i + 1], k)
             == if keys[i] == Some(k) then nodeids[k] + [nodes[i]] else nodeids[k]
      {
        CarriersSnoc(nodes, keys, i, k);
      }
      if keys[i].None? {
        continue;
      }
      var fk := keys[i].value;
      if fk !in nodeids {
        NoCarriers(nodes[..i], keys[..i], fk);
        CarriersSnoc(nodes, keys, i, fk);
        ids, nodeids := ids + [fk], nodeids[fk := [nodes[i]]];
      } else {
        nodeids := nodeids[fk := nodeids[fk] + [nodes[i]]];
      }
    }
    assert keys[..|nodes|] == keys && nodes[..|nodes|] == nodes;
  }

  /** The neighbour a key resolves to: the last one returned with that id. */
  function Match<T>(neighbors: seq<T>, idOf: T -> int, key: Option<int>): Option<T> {
    if neighbors == [] then None
    else
      var last := neighbors[|neighbors| - 1];
      if key == Some(idOf(last)) then Some(last)
      else Match(neighbors[..|neighbors| - 1], idOf, key)
  }

  function OrElse<T>(found: Option<T>, otherwise: T): T {
    match found case Some(v) => v case None => otherwise
  }

  lemma {:induction false} MatchMeaning<T>(neighbors: seq<T>, idOf: T -> int, key: Option<int>)
    ensures match Match(neighbors, idOf, key)
            case Some(n) => n in neighbors && key == Some(idOf(n))
            case None => forall n | n in neighbors :: key != Some(idOf(n))
  {
    if neighbors != [] {
      MatchMeaning(neighbors[..|neighbors| - 1], idOf, key);
      assert neighbors == neighbors[..|neighbors| - 1] + [neighbors[|neighbors| - 1]];
    }
  }

  /** Of several neighbours with the id, the last one. */
  lemma {:induction false} MatchIsLast<T>(neighbors: seq<T>, idOf: T -> int, i: nat)
    requires i < |neighbors| && forall j | i < j < |neighbors| :: idOf(neighbors[j]) != idOf(neighbors[i])
    ensures Match(neighbors, idOf, Some(idOf(neighbors[i]))) == Some(neighbors[i])
  {
    if i < |neighbors| - 1 {
      MatchIsLast(neighbors[..|neighbors| - 1], idOf, i);
    }
  }

  /** What a many-to-one loader returns: the first neighbour that nobody asked for is an error. */
  function ToOneOutcome<T>(keys: seq<Option<int>>, query: seq<int> -> Answer<T>, idOf: T -> int): LoadResult {
    var ids := KeysToFetch(keys);
    if ids == [] then Done
    else match query(ids)
      case QueryError => QueryFailed
      case Rows(neighbors) => Strays(neighbors, idOf, ids)
  }

  function Unasked<T>(idOf: T -> int, ids: seq<int>): T -> bool {
    n => idOf(n) !in ids
  }

  function Strays<T>(neighbors: seq<T>, idOf: T -> int, ids: seq<int>): LoadResult {
    var strays := Filter(neighbors, Unasked(idOf, ids));
    if strays == [] then Done else UnexpectedNode(idOf(strays[0]))
  }

  /** rows[i] is the first row that nobody asked for. */
  ghost predicate FirstStray<T>(rows: seq<T>, idOf: T -> int, ids: seq<int>, i: int) {
    0 <= i < |rows| && idOf(rows[i]) !in ids && forall j | 0 <= j < i :: idOf(rows[j]) in ids
  }

  /** When a many-to-one loader fails, and with what. */
  lemma ToOneOutcomeMeaning<T>(keys: seq<Option<int>>, query: seq<int> -> Answer<T>, idOf: T -> int)
    ensures var r, ids := ToOneOutcome(keys, query, idOf), KeysToFetch(keys);
            && (r == QueryFailed <==> (exists key :: key in keys && key.Some?) && query(ids).QueryError?)
            && (r == Done <==>
                  || (forall key | key in keys :: key.None?)
                  || (query(ids).Rows? && forall row | row in query(ids).rows :: idOf(row) in ids))
            && (r != Done && r != QueryFailed ==>
                  query(ids).Rows? && exists i :: FirstStray(query(ids).rows, idOf, ids, i)
                                                  && r == UnexpectedNode(idOf(query(ids).rows[i])))
  {
    var ids := KeysToFetch(keys);
    forall key | key in keys && key.Some?
      ensures key.value in ids
    {
      KeyIsFetched(keys, key.value);
    }
    if ids != [] {
      KeyIsFetched(keys, ids[0]);
      assert ids[0] in ids && Some(ids[0]) in keys;
    }
    if ids != [] && query(ids).Rows? {
      StraysMeaning(query(ids).rows, idOf, ids);
    }
  }

  lemma StraysMeaning<T>(rows: seq<T>, idOf: T -> int, ids: seq<int>)
    ensures Strays(rows, idOf, ids) == Done <==> forall row | row in rows :: idOf(row) in ids
    ensures Strays(rows, idOf, ids) != Done ==>
              exists i :: FirstStray(rows, idOf, ids, i) && Strays(rows, idOf, ids) == UnexpectedNode(idOf(rows[i]))
  {
    FirstOfFilter(rows, Unasked(idOf, ids));
    if Filter(rows, Unasked(idOf, ids)) != [] {
      var i :| IsFirst(rows, Unasked(idOf, ids), i) && Filter(rows, Unasked(idOf, ids))[0] == rows[i];
      assert FirstStray(rows, idOf, ids, i);
    }
  }

  /** The keys asked for are those that are not null, each once. */
  lemma KeyIsFetched(keys: seq<Option<int>>, k: int)
    ensures k in KeysToFetch(keys) <==> Some(k) in keys
    ensures Distinct(KeysToFetch(keys))
  {
    FirstSeenMembers(Somes(keys), k);
    FirstSeenDistinct(Somes(keys));
    SomesMembers(keys, k);
  }

  /** What a successful many-to-one loader leaves in the edge of a node with this key. */
  function Resolved<T>(
    keys: seq<Option<int>>, query: seq<int> -> Answer<T>, idOf: T -> int, key: Option<int>): Option<T> {
    var ids := KeysToFetch(keys);
    if ids == [] || query(ids).QueryError? then None else Match(query(ids).rows, idOf, key)
  }

  /** One more neighbour: it is the first stray, or it joins a prefix without strays. */
  lemma StraysStep<T>(neighbors: seq<T>, idOf: T -> int, ids: seq<int>, i: nat)
    requires i < |neighbors|
    requires Strays(neighbors[..i], idOf, ids) == Done
    ensures idOf(neighbors[i]) in ids ==> Strays(neighbors[..i + 1], idOf, ids) == Done
    ensures idOf(neighbors[i]) !in ids ==> Strays(neighbors, idOf, ids) == UnexpectedNode(idOf(neighbors[i]))
  {
    FirstSelected(neighbors, Unasked(idOf, ids), i);
  }

  lemma MatchStep<T>(neighbors: seq<T>, idOf: T -> int, i: nat, key: Option<int>)
    requires i < |neighbors|
    ensures var before := Match(neighbors[..i], idOf, key);
            Match(neighbors[..i + 1], idOf, key) ==
                if key == Some(idOf(neighbors[i])) then Some(neighbors[i]) else before
  {
    assert neighbors[..i + 1][..i] == neighbors[..i];
  }
}
