/** Rows elsewhere that carry a foreign key to an account: what an update of the account writes there. */
module KeyUpdate {
  import opened Collections
  import opened EdgeMutation
  import opened UpdateSpec
  import opened EdgeUpdate

  /** One nullable foreign key column: the account each row names. */
  type Keys = map<int, Option<int>>

  /** The rows that name an account. */
  function RowsOf(keys: Keys, id: int): set<int> {
    set c | c in keys && keys[c] == Some(id)
  }

  lemma SameRowsAreEqual(a: Keys, b: Keys)
    requires a.Keys == b.Keys && forall c | c in b :: a[c] == b[c]
    ensures a == b
  {
    assert forall c | c in a :: c in b && a[c] == b[c];
    assert forall c | c in b :: c in a;
  }

  // ---------- the statements ----------

  /** UPDATE t SET key = NULL WHERE key = id, and only in the rows of nodes if there are any. */
  function ClearKeys(keys: Keys, id: int, nodes: set<int>): Keys {
    map c | c in keys :: if keys[c] == Some(id) && (nodes == {} || c in nodes) then None else keys[c]
  }

  /** UPDATE t SET key = id WHERE key IS NULL in the rows of nodes; refused unless it reaches all of them. */
  function AddKeys(keys: Keys, id: int, nodes: set<int>): Option<Keys> {
    if forall c | c in nodes :: c in keys && keys[c].None?
    then Some(map c | c in keys :: if c in nodes then Some(id) else keys[c])
    else None
  }

  function About(changes: seq<EdgeChange>, e: EdgeName): seq<EdgeChange> {
    Filter(changes, (change: EdgeChange) => change.edge == e)
  }

  function AfterKeyClears(changes: seq<EdgeChange>, id: int, keys: Keys): Keys {
    if changes == [] then keys
    else ClearKeys(AfterKeyClears(changes[..|changes| - 1], id, keys), id, changes[|changes| - 1].nodes)
  }

  function AfterKeyAdds(changes: seq<EdgeChange>, id: int, keys: Keys): Option<Keys> {
    if changes == [] then Some(keys)
    else match AfterKeyAdds(changes[..|changes| - 1], id, keys)
      case None => None
      case Some(before) => AddKeys(before, id, changes[|changes| - 1].nodes)
  }

  /** The column of edge e after an update of account id: all clears come before all adds; None when it is refused. */
  function KeysAfter(changes: EdgeChanges, e: EdgeName, id: int, keys: Keys): Option<Keys> {
    AfterKeyAdds(About(changes.add, e), id, AfterKeyClears(About(changes.clear, e), id, keys))
  }

  // ---------- row by row ----------

  function ManyOf(p: Pendings, e: EdgeName): PendingMany
    requires !ToOne(e)
  {
    match e case Groups => p.groups case Children => p.children case UsageLogs => p.usageLogs
  }

  /** A row that this update takes from account id. */
  predicate Released(p: PendingMany, id: int, keys: Keys, c: int) {
    c in keys && keys[c] == Some(id) && (p.cleared || c in p.removed)
  }

  /** A pending row that is not there, or names an account that this update does not take it from. */
  predicate Contested(p: PendingMany, id: int, keys: Keys, c: int) {
    c in p.added && (c !in keys || (keys[c].Some? && !Released(p, id, keys, c)))
  }

  /** Every row after the statements: an added one names the account, a released one none, all others what they did. */
  lemma RowByRow(p: Pendings, e: EdgeName, id: int, keys: Keys)
    requires !ToOne(e)
    ensures var after := KeysAfter(AllChanges(p), e, id, keys);
            var pending := ManyOf(p, e);
            && (after.None? <==> exists c :: Contested(pending, id, keys, c))
            && (after.Some? ==>
                  && after.value.Keys == keys.Keys
                  && forall c | c in keys ::
                       after.value[c] == if c in pending.added then Some(id)
                                         else if Released(pending, id, keys, c) then None else keys[c])
  {
    OnlyItsSpecsMatter(p, e);
    hide AllChanges, About, ManyChanges, Contested, Released, ManyOf;
    var changes := ManyChanges(e, ManyOf(p, e));
    var cleared := AfterKeyClears(changes.clear, id, keys);
    ClearedKeys(ManyOf(p, e), e, id, keys, cleared);
    AddedKeys(ManyOf(p, e), e, id, keys, cleared);
  }

  lemma ClearedKeys(p: PendingMany, e: EdgeName, id: int, keys: Keys, cleared: Keys)
    requires cleared == AfterKeyClears(ManyChanges(e, p).clear, id, keys)
    ensures cleared.Keys == keys.Keys
    ensures forall c | c in keys :: cleared[c] == if Released(p, id, keys, c) then None else keys[c]
  {
    var clear := ManyChanges(e, p).clear;
    assert AfterKeyClears([], id, keys) == keys;
    assert clear != [] ==> clear[..|clear| - 1] == [];
  }

  lemma AddedKeys(p: PendingMany, e: EdgeName, id: int, keys: Keys, cleared: Keys)
    requires cleared.Keys == keys.Keys
    requires forall c | c in keys :: cleared[c] == if Released(p, id, keys, c) then None else keys[c]
    ensures var after := AfterKeyAdds(ManyChanges(e, p).add, id, cleared);
            && (after.None? <==> exists c :: Contested(p, id, keys, c))
            && (after.Some? ==>
                  && after.value.Keys == keys.Keys
                  && forall c | c in keys :: after.value[c] == if c in p.added then Some(id) else cleared[c])
  {
    var add := ManyChanges(e, p).add;
    assert add != [] ==> add[..|add| - 1] == [];
    assert AfterKeyAdds([], id, cleared) == Some(cleared);
    assert forall c | c in p.added :: Contested(p, id, keys, c) <==> !(c in cleared && cleared[c].None?);
    var after := AfterKeyAdds(add, id, cleared);
    if after.Some? {
      assert forall c | c in p.added :: !Contested(p, id, keys, c);
    } else {
      var c :| c in p.added && !(c in cleared && cleared[c].None?);
      assert Contested(p, id, keys, c);
    }
  }

  // ---------- the specs about one edge ----------

  /** Of all that is sent, the specs about an edge are its own. */
  lemma OnlyItsSpecsMatter(p: Pendings, e: EdgeName)
    requires !ToOne(e)
    ensures About(AllChanges(p).clear, e) == ManyChanges(e, ManyOf(p, e)).clear
    ensures About(AllChanges(p).add, e) == ManyChanges(e, ManyOf(p, e)).add
  {
    ManyAbout(Groups, p.groups, e);
    OneAbout(Proxy, p.proxy, e);
    OneAbout(Parent, p.parent, e);
    ManyAbout(Children, p.children, e);
    ManyAbout(UsageLogs, p.usageLogs, e);
    hide About, ManyChanges, OneChanges;
    var g, x, a := ManyChanges(Groups, p.groups), OneChanges(Proxy, p.proxy), OneChanges(Parent, p.parent);
    var c, u := ManyChanges(Children, p.children), ManyChanges(UsageLogs, p.usageLogs);
    AboutFive(g.clear, x.clear, a.clear, c.clear, u.clear, e);
    AboutFive(g.add, x.add, a.add, c.add, u.add, e);
    Alone(About(g.clear, e), About(c.clear, e), About(u.clear, e));
    Alone(About(g.add, e), About(c.add, e), About(u.add, e));
  }

  lemma Alone<T>(g: seq<T>, c: seq<T>, u: seq<T>)
    ensures c == u == [] ==> g + [] + [] + c + u == g
    ensures g == u == [] ==> g + [] + [] + c + u == c
    ensures g == c == [] ==> g + [] + [] + c + u == u
  {
  }

  lemma ManyAbout(own: EdgeName, p: PendingMany, e: EdgeName)
    ensures var m := ManyChanges(own, p);
            && About(m.clear, e) == (if own == e then m.clear else [])
            && About(m.add, e) == if own == e then m.add else []
  {
    hide About;
    var m := ManyChanges(own, p);
    if own == e {
      AboutThem(m.clear, e);
      AboutThem(m.add, e);
    } else {
      AboutOthers(m.clear, e);
      AboutOthers(m.add, e);
    }
  }

  lemma OneAbout(own: EdgeName, p: PendingOne, e: EdgeName)
    requires own != e
    ensures About(OneChanges(own, p).clear, e) == [] && About(OneChanges(own, p).add, e) == []
  {
    hide About;
    AboutOthers(OneChanges(own, p).clear, e);
    AboutOthers(OneChanges(own, p).add, e);
  }

  lemma AboutFive(
    g: seq<EdgeChange>, x: seq<EdgeChange>, a: seq<EdgeChange>, c: seq<EdgeChange>, u: seq<EdgeChange>, e: EdgeName)
    ensures About(g + x + a + c + u, e) == About(g, e) + About(x, e) + About(a, e) + About(c, e) + About(u, e)
  {
    AboutConcat(g, x, e);
    AboutConcat(g + x, a, e);
    AboutConcat(g + x + a, c, e);
    AboutConcat(g + x + a + c, u, e);
  }

  lemma {:induction false} AboutConcat(a: seq<EdgeChange>, b: seq<EdgeChange>, e: EdgeName)
    ensures About(a + b, e) == About(a, e) + About(b, e)
  {
    if b == [] {
      assert a + b == a;
    } else {
      AboutConcat(a, b[..|b| - 1], e);
      assert (a + b)[..|a + b| - 1] == a + b[..|b| - 1];
    }
  }

  lemma AboutOthers(changes: seq<EdgeChange>, e: EdgeName)
    requires forall i | 0 <= i < |changes| :: changes[i].edge != e
    ensures About(changes, e) == []
  {
    FilterNone(changes, (change: EdgeChange) => change.edge == e);
  }

  lemma {:induction false} AboutThem(changes: seq<EdgeChange>, e: EdgeName)
    requires forall i | 0 <= i < |changes| :: changes[i].edge == e
    ensures About(changes, e) == changes
  {
    if changes != [] {
      AboutThem(changes[..|changes| - 1], e);
    }
  }
}
