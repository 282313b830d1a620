/** Query builders: a tree of nested eager-load builders, its deep copy, and the independence of the two. */
module QueryBuilder {
  import opened Collections

  /** A predicate, order term, interceptor or modifier: a function value, known only by its identity. */
  type Func = int

  /** A Go slice: a prefix of a backing array that other slices may share. */
  datatype Slice = Slice(buf: array<Func>, len: nat) {
    predicate Valid() {
      len <= buf.Length
    }

    function Contents(): seq<Func>
      requires Valid()
      reads buf
    {
      buf[..len]
    }
  }

  method EmptySlice() returns (s: Slice)
    ensures s.Valid() && fresh(s.buf) && s.Contents() == []
  {
    var buf := new Func[0];
    s := Slice(buf, 0);
  }

  /** append(s, xs...): in place while the capacity lasts, else into a new array with room to spare. */
  method Append(s: Slice, xs: seq<Func>) returns (r: Slice)
    requires s.Valid()
    modifies s.buf
    ensures r.Valid() && r.Contents() == old(s.Contents()) + xs
    ensures r.buf == s.buf || fresh(r.buf)
    ensures s.Contents() == old(s.Contents())
  {
    if s.len + |xs| <= s.buf.Length {
      for i := 0 to |xs|
        invariant s.buf[..s.len] == old(s.buf[..s.len])
        invariant s.buf[s.len..s.len + i] == xs[..i]
      {
        s.buf[s.len + i] := xs[i];
      }
      r := Slice(s.buf, s.len + |xs|);
      assert r.Contents() == s.buf[..s.len] + s.buf[s.len..s.len + |xs|];
    } else {
      var all := s.buf[..s.len] + xs;
      var buf := new Func[2 * |all|](i => if 0 <= i < |all| then all[i] else 0);
      r := Slice(buf, |all|);
      assert r.Contents() == all;
    }
  }

  /** append([]T{}, s...): always a new array. */
  method Copy(s: Slice) returns (r: Slice)
    requires s.Valid()
    ensures r.Valid() && fresh(r.buf) && r.Contents() == s.Contents()
  {
    var empty := EmptySlice();
    r := Append(empty, s.buf[..s.len]);
  }

  datatype ContextView = ContextView(limit: Option<int>, offset: Option<int>, unique: Option<bool>, fields: seq<string>)

  /** ent.QueryContext, which Limit, Offset, Unique and Select change in place. */
  class QueryContext {
    var view: ContextView

    constructor (view: ContextView)
      ensures this.view == view
    {
      this.view := view;
    }

    method Clone() returns (c: QueryContext)
      ensures fresh(c) && c.view == view
    {
      c := new QueryContext(view);
    }
  }

  /** sql.Selector, as far as it is copied. */
  class Selector {
    var state: seq<int>

    constructor (state: seq<int>)
      ensures this.state == state
    {
      this.state := state;
    }

    method Clone() returns (c: Selector)
      ensures fresh(c) && c.state == state
    {
      c := new Selector(state);
    }
  }

  /** What a builder says, with the builders nested in it. */
  datatype BuilderView = BuilderView(
    ctx: ContextView,
    order: seq<Func>,
    inters: seq<Func>,
    predicates: seq<Func>,
    modifiers: seq<Func>,
    with: seq<Option<BuilderView>>,
    sql: Option<seq<int>>,
    path: Option<Func>)

  /** What Clone keeps of a view: everything except the modifiers, all the way down. */
  function Cloned(v: BuilderView): BuilderView {
    v.(modifiers := [], with := seq(|v.with|, i requires 0 <= i < |v.with| => ClonedEdge(v.with[i])))
  }

  function ClonedEdge(v: Option<BuilderView>): Option<BuilderView> {
    match v case None => None case Some(w) => Some(Cloned(w))
  }

  /** The slices of a builder; each has a backing array of its own. */
  datatype Slices = Slices(order: Slice, predicates: Slice, modifiers: Slice) {
    function Get(which: Which): Slice {
      match which
      case OrderTerms => order
      case Predicates => predicates
      case Modifiers => modifiers
    }

    function With(which: Which, s: Slice): Slices {
      match which
      case OrderTerms => this.(order := s)
      case Predicates => this.(predicates := s)
      case Modifiers => this.(modifiers := s)
    }

    function Buffers(): set<object> {
      {order.buf, predicates.buf, modifiers.buf}
    }

    ghost predicate Valid() {
      && order.Valid() && predicates.Valid() && modifiers.Valid()
      && order.buf != predicates.buf && order.buf != modifiers.buf && predicates.buf != modifiers.buf
    }
  }

  datatype Which = OrderTerms | Predicates | Modifiers

  /** The slice part of Clone: three copies, and no modifiers. */
  method CopySlices(s: Slices) returns (r: Slices)
    requires s.Valid()
    ensures r.Valid() && fresh(r.Buffers())
    ensures r.order.Contents() == s.order.Contents()
    ensures r.predicates.Contents() == s.predicates.Contents() && r.modifiers.Contents() == []
  {
    var order := Copy(s.order);
    var predicates := Copy(s.predicates);
    var modifiers := EmptySlice();
    r := Slices(order, predicates, modifiers);
  }

  method EmptySlices() returns (r: Slices)
    ensures r.Valid() && fresh(r.Buffers())
    ensures r.order.Contents() == []
    ensures r.predicates.Contents() == [] && r.modifiers.Contents() == []
  {
    var order := EmptySlice();
    var predicates := EmptySlice();
    var modifiers := EmptySlice();
    r := Slices(order, predicates, modifiers);
  }

  function SelectorObjects(sql: Selector?): set<object> {
    if sql == null then {} else {sql}
  }

  /** What a client's new query says: only the client's interceptors. */
  function EmptyView(edges: nat, inters: seq<Func>): BuilderView {
    BuilderView(ContextView(None, None, None, []), [], inters, [], [], seq(edges, _ => None), None, None)
  }

  /** The calls that change a builder: one that grows a slice, one that sets the context, WithX and its options. */
  datatype Op =
    | Append(which: Which, xs: seq<Func>)
    | Configure(setting: Setting)
    | With(edge: nat, edges: nat, inters: seq<Func>, opts: seq<Op>)

  datatype Setting = Limit(limit: int) | Offset(offset: int) | Unique(unique: bool) | Select(fields: seq<string>)

  function Configured(c: ContextView, s: Setting): ContextView {
    match s
    case Limit(n) => c.(limit := Some(n))
    case Offset(n) => c.(offset := Some(n))
    case Unique(b) => c.(unique := Some(b))
    case Select(fields) => c.(fields := c.fields + fields)
  }

  /** The view after a call, from the view before it alone. */
  function After(v: BuilderView, op: Op): BuilderView
    decreases op, 0
  {
    match op
    case Append(which, xs) => Appended(v, which, xs)
    case Configure(c) => v.(ctx := Configured(v.ctx, c))
    case With(edge, edges, inters, opts) =>
      WithEdge(v, edge, AfterAll(EmptyView(edges, inters), opts))
  }

  /** The view with an edge slot set; a slot that does not exist cannot be set. */
  function WithEdge(v: BuilderView, edge: nat, w: BuilderView): BuilderView {
    if edge < |v.with| then v.(with := v.with[edge := Some(w)]) else v
  }

  function AfterAll(v: BuilderView, ops: seq<Op>): BuilderView
    decreases ops, 1
  {
    if ops == [] then v else After(AfterAll(v, ops[..|ops| - 1]), ops[|ops| - 1])
  }

  function Appended(v: BuilderView, which: Which, xs: seq<Func>): BuilderView {
    match which
    case OrderTerms => v.(order := v.order + xs)
    case Predicates => v.(predicates := v.predicates + xs)
    case Modifiers => v.(modifiers := v.modifiers + xs)
  }

  /** AccountQuery or one of its siblings; `with` holds the eager-load builders of its edges, nil when not requested. */
  class Builder {
    var ctx: QueryContext
    var slices: Slices
    /** The interceptors. No builder writes through this slice, so it is kept as what it holds: clients may share it. */
    var inters: seq<Func>
    var with: seq<Builder?>
    var sql: Selector?
    var path: Option<Func>
    ghost var Repr: set<object>

    ghost predicate Valid()
      reads this, Repr
      decreases Repr
    {
      && this in Repr && ctx in Repr && slices.Buffers() <= Repr && SelectorObjects(sql) <= Repr
      && slices.Valid()
      && (forall b: Builder | b in with ::
            b in Repr && b.Repr < Repr && this !in b.Repr && ctx !in b.Repr && slices.Buffers() !! b.Repr && b.Valid())
    }

    ghost function View(): BuilderView
      requires Valid()
      reads Repr
      decreases Repr, 1
    {
      BuilderView(ctx.view, slices.order.Contents(), inters, slices.predicates.Contents(),
                  slices.modifiers.Contents(), Views(with), if sql == null then None else Some(sql.state), path)
    }

    ghost function Views(bs: seq<Builder?>): (vs: seq<Option<BuilderView>>)
      requires Valid()
      requires forall b: Builder | b in bs :: b in with
      reads Repr
      ensures |vs| == |bs|
      ensures forall i | 0 <= i < |bs| ::
                if bs[i] == null then vs[i] == None else vs[i] == Some(bs[i].View())
      decreases Repr, 0, bs
    {
      if bs == [] then []
      else
        var b := bs[|bs| - 1];
        Views(bs[..|bs| - 1]) + [if b == null then None else Some(b.View())]
    }

    /** A builder with these components; everything in `below` belongs to the builders it nests. */
    constructor Of(
      ctx: QueryContext, slices: Slices, inters: seq<Func>, with: seq<Builder?>, sql: Selector?, path: Option<Func>,
                   ghost below: set<object>, ghost parts: set<object>)
      requires slices.Valid()
      requires forall b: Builder | b in with :: b.Valid() && b.Repr <= below
      requires ctx !in below && slices.Buffers() !! below
      requires ctx in parts && slices.Buffers() <= parts && below <= parts && SelectorObjects(sql) <= parts
      ensures Valid()
      ensures Repr == {this} + parts
      ensures this.ctx == ctx && this.slices == slices && this.inters == inters && this.with == with
      ensures this.sql == sql && this.path == path
    {
      this.ctx, this.slices, this.inters, this.with, this.sql, this.path := ctx, slices, inters, with, sql, path;
      Repr := {this} + parts;
    }

    /** A client's Query(): a builder with the client's interceptors and `edges` empty eager-load slots. */
    static method Query(edges: nat, inters: seq<Func>) returns (q: Builder)
      ensures q.Valid() && fresh(q.Repr)
      ensures q.View() == EmptyView(edges, inters)
    {
      var ctx := new QueryContext(ContextView(None, None, None, []));
      var slices := EmptySlices();
      q := new Builder.Of(ctx, slices, inters, seq(edges, _ => null), null, None, {}, {ctx} + slices.Buffers());
      assert q.Views(q.with) == EmptyView(edges, inters).with;
    }

    lemma ViewParts()
      requires Valid()
      ensures View().ctx == ctx.view && View().path == path
      ensures View().order == slices.order.Contents() && View().inters == inters
      ensures View().predicates == slices.predicates.Contents() && View().modifiers == slices.modifiers.Contents()
      ensures View().sql == if sql == null then None else Some(sql.state)
      ensures |View().with| == |with|
      ensures forall i | 0 <= i < |with| ::
                if with[i] == null then View().with[i] == None
                else with[i].Valid() && View().with[i] == Some(with[i].View())
    {
      assert forall i | 0 <= i < |with| && with[i] != null :: with[i] in with;
    }

    /** Clone of a builder that is not nil. */
    method Clone() returns (c: Builder)
      requires Valid()
      ensures c.Valid() && fresh(c.Repr)
      ensures c.View() == Cloned(View())
      decreases Repr, 1
    {
      hide Cloned, Valid, View, Views;
      ghost var v := View();
      ViewParts();
      var with', below := CloneEdges(with);
      var ctx', slices', sql' := CloneOwn();
      ghost var parts := {ctx'} + slices'.Buffers() + below + SelectorObjects(sql');
      assert fresh(parts);
      c := new Builder.Of(ctx', slices', inters, with', sql', path, below, parts);
      ClonedParts(c, v);
    }

    /** The parts of a clone that are not builders. */
    method CloneOwn() returns (ctx': QueryContext, slices': Slices, sql': Selector?)
      requires Valid()
      ensures fresh(ctx') && ctx'.view == ctx.view
      ensures slices'.Valid() && fresh(slices'.Buffers())
      ensures slices'.order.Contents() == slices.order.Contents()
      ensures slices'.predicates.Contents() == slices.predicates.Contents() && slices'.modifiers.Contents() == []
      ensures fresh(SelectorObjects(sql'))
      ensures sql' == null <==> sql == null
      ensures sql != null ==> sql'.state == sql.state
    {
      ctx' := ctx.Clone();
      slices' := CopySlices(slices);
      sql' := null;
      if sql != null {
        sql' := sql.Clone();
      }
    }

    /** A builder whose parts are the copied parts of a view is a clone of it. */
    lemma ClonedParts(c: Builder, v: BuilderView)
      requires c.Valid() && |c.with| == |v.with|
      requires c.ctx.view == v.ctx && c.path == v.path
      requires c.slices.order.Contents() == v.order && c.inters == v.inters
      requires c.slices.predicates.Contents() == v.predicates && c.slices.modifiers.Contents() == []
      requires (if c.sql == null then None else Some(c.sql.state)) == v.sql
      requires forall i | 0 <= i < |c.with| ::
                 if v.with[i].None? then c.with[i] == null
                 else c.with[i] != null && c.with[i].View() == Cloned(v.with[i].value)
      ensures c.View() == Cloned(v)
    {
      assert c.Views(c.with) == Cloned(v).with;
    }

    /** `withX: _q.withX.Clone()` for every edge; nil stays nil. */
    method CloneEdges(bs: seq<Builder?>) returns (cs: seq<Builder?>, ghost below: set<object>)
      requires Valid()
      requires forall b: Builder | b in bs :: b in with
      ensures |cs| == |bs|
      ensures fresh(below)
      ensures forall b: Builder | b in cs :: b.Valid() && b.Repr <= below
      ensures forall i | 0 <= i < |bs| ::
                if bs[i] == null then cs[i] == null else cs[i] != null && cs[i].View() == Cloned(bs[i].View())
      decreases Repr, 0, bs
    {
      hide Cloned;
      if bs == [] {
        return [], {};
      }
      var b := bs[|bs| - 1];
      cs, below := CloneEdges(bs[..|bs| - 1]);
      if b == null {
        cs := cs + [null];
      } else {
        var c := b.Clone();
        cs, below := cs + [c], below + c.Repr;
      }
    }

    /** Changing only what belongs to the builder itself leaves its nested builders, and gives the expected view. */
    twostate lemma OwnPartsChanged()
      requires old(Valid())
      requires with == old(with) && path == old(path) && sql == old(sql) && inters == old(inters)
      requires sql != null ==> unchanged(sql)
      requires old(Repr) <= Repr && ctx == old(ctx)
      requires slices.Valid() && slices.Buffers() <= Repr
      requires forall b: Builder | b in with :: slices.Buffers() !! old(b.Repr) && unchanged(old(b.Repr))
      ensures Valid()
      ensures View() == old(View()).(ctx := ctx.view, order := slices.order.Contents(),
                                     predicates := slices.predicates.Contents(),
                                     modifiers := slices.modifiers.Contents())
    {
      forall b: Builder | b in with
        ensures b.Repr == old(b.Repr) && b.Valid() && b.View() == old(b.View())
      {
        assert unchanged(old(b.Repr));
      }
      assert Valid();
      assert Views(with) == old(Views(with));
    }

    /** Where, Order and the lock methods: one slice grows. */
    method AppendTo(which: Which, xs: seq<Func>)
      requires Valid()
      modifies Repr
      ensures Valid() && fresh(Repr - old(Repr))
      ensures View() == Appended(old(View()), which, xs)
    {
      var grown := AppendSlice(slices, which, xs);
      slices := grown;
      Repr := Repr + grown.Buffers();
      OwnPartsChanged();
    }

    /** Limit, Offset, Unique and Select write the context in place. */
    method ChangeContext(view: ContextView)
      requires Valid()
      modifies Repr
      ensures Valid() && fresh(Repr - old(Repr))
      ensures View() == old(View()).(ctx := view)
    {
      ctx.view := view;
      OwnPartsChanged();
    }

    /** Writing an edge slot leaves every other builder as it was. */
    twostate lemma NestedUntouched()
      requires old(Valid())
      requires unchanged(old(Repr) - {this})
      ensures forall b: Builder | b in old(with) :: b.Repr == old(b.Repr) && b.Valid() && b.View() == old(b.View())
    {
      forall b: Builder | b in old(with)
        ensures b.Repr == old(b.Repr) && b.Valid() && b.View() == old(b.View())
      {
        assert old(b.Repr) <= old(Repr) - {this};
        assert unchanged(old(b.Repr));
      }
    }

    lemma InUpdated(bs: seq<Builder?>, edge: nat, child: Builder)
      requires edge < |bs|
      ensures forall b | b in bs[edge := child] :: b in bs || b == child
    {
    }

    /** A builder is put in an edge slot; the others stay. */
    method SetEdge(edge: nat, child: Builder)
      requires Valid()
      requires child.Valid()
      requires child.Repr !! Repr && edge < |with|
      modifies this`with, this`Repr
      ensures Valid() && Repr == old(Repr) + child.Repr
      ensures View() == WithEdge(old(View()), edge, old(child.View()))
    {
      ViewParts();
      hide Valid, View, Views;
      ghost var vs := View().with[edge := Some(child.View())];
      ghost var was := with;
      PutEdge(edge, child);
      ViewParts();
      forall i | 0 <= i < |with|
        ensures View().with[i] == vs[i]
      {
        if i != edge && with[i] != null {
          assert with[i] == was[i] && was[i] in was;
        }
      }
    }

    /** Writing the slot keeps the builder valid and changes what no builder in it says. */
    method PutEdge(edge: nat, child: Builder)
      requires Valid()
      requires forall b | b == child :: b.Valid()
      requires child.Repr !! Repr && edge < |with|
      modifies this`with, this`Repr
      ensures Valid() && Repr == old(Repr) + child.Repr && with == old(with)[edge := child]
      ensures forall b: Builder | b in old(with) || b == child :: b.Valid() && b.View() == old(b.View())
    {
      hide View, Views;
      assert child.Valid();
      with := with[edge := child];
      Repr := Repr + child.Repr;
      assert unchanged(old(Repr) - {this}) && unchanged(child.Repr);
      NestedUntouched();
      InUpdated(old(with), edge, child);
      forall b: Builder | b in with
        ensures IsNested(b)
      {
        assert b in old(with) || b == child;
      }
      AllNested();
    }

    lemma AllNested()
      requires this in Repr && ctx in Repr && slices.Buffers() <= Repr && SelectorObjects(sql) <= Repr && slices.Valid()
      requires forall b: Builder | b in with :: IsNested(b)
      ensures Valid()
    {
    }

    /** The part of Valid about one nested builder. */
    ghost predicate IsNested(b: Builder)
      reads this, Repr, b, b.Repr
    {
      b in Repr && b.Repr < Repr && this !in b.Repr && ctx !in b.Repr && slices.Buffers() !! b.Repr && b.Valid()
    }

    /** One call on the builder. */
    method Apply(op: Op)
      requires Valid()
      modifies Repr
      ensures Valid() && fresh(Repr - old(Repr))
      ensures View() == After(old(View()), op)
      decreases op, 3
    {
      hide AfterAll, EmptyView, WithEdge, View, Views;
      ViewParts();
      match op
      case Append(which, xs) => AppendTo(which, xs);
      case Configure(c) => ChangeContext(Configured(ctx.view, c));
      case With(edge, edges, inters, opts) => EagerLoad(edge, edges, inters, opts);
    }

    /** WithX: a new builder, configured by the options, takes the edge slot. */
    method EagerLoad(edge: nat, edges: nat, inters: seq<Func>, opts: seq<Op>)
      requires Valid()
      modifies Repr
      ensures Valid() && fresh(Repr - old(Repr))
      ensures View() == WithEdge(old(View()), edge, AfterAll(EmptyView(edges, inters), opts))
      decreases opts, 2
    {
      hide AfterAll, EmptyView, View, Views;
      ViewParts();
      var child := Query(edges, inters);
      child.ApplyAll(opts);
      if edge < |with| {
        SetEdge(edge, child);
      }
    }

    method ApplyAll(ops: seq<Op>)
      requires Valid()
      modifies Repr
      ensures Valid() && fresh(Repr - old(Repr))
      ensures View() == AfterAll(old(View()), ops)
      decreases ops, 1
    {
      if ops != [] {
        ApplyAll(ops[..|ops| - 1]);
        Apply(ops[|ops| - 1]);
      }
    }
  }

  method AppendSlice(s: Slices, which: Which, xs: seq<Func>) returns (r: Slices)
    requires s.Valid()
    modifies s.Get(which).buf
    ensures r.Valid() && fresh(r.Buffers() - s.Buffers())
    ensures r.order.Contents() == old(s.order.Contents()) + (if which.OrderTerms? then xs else [])
    ensures r.predicates.Contents() == old(s.predicates.Contents()) + (if which.Predicates? then xs else [])
    ensures r.modifiers.Contents() == old(s.modifiers.Contents()) + (if which.Modifiers? then xs else [])
  {
    var grown := Append(s.Get(which), xs);
    r := s.With(which, grown);
  }

  /** Clone, with Go's nil receiver. */
  method CloneOf(q: Builder?) returns (c: Builder?)
    requires q != null ==> q.Valid()
    ensures c == null <==> q == null
    ensures c != null ==> c.Valid() && fresh(c.Repr) && c.View() == Cloned(q.View())
  {
    if q == null {
      return null;
    }
    c := q.Clone();
  }

  /** A call on one of two builders. */
  datatype Call = OnOriginal(op: Op) | OnClone(op: Op)

  /** The calls made on one side, in order. */
  function Side(calls: seq<Call>, original: bool): seq<Op> {
    if calls == [] then []
    else
      var before := Side(calls[..|calls| - 1], original);
      var last := calls[|calls| - 1];
      if last.OnOriginal? == original then before + [last.op] else before
  }

  lemma SideStep(calls: seq<Call>, i: nat, original: bool)
    requires i < |calls|
    ensures Side(calls[..i + 1], original)
         == if calls[i].OnOriginal? == original then Side(calls[..i], original) + [calls[i].op]
            else Side(calls[..i], original)
  {
    assert calls[..i + 1][..i] == calls[..i];
  }

  lemma AfterAllSnoc(v: BuilderView, ops: seq<Op>, op: Op)
    ensures AfterAll(v, ops + [op]) == After(AfterAll(v, ops), op)
  {
    assert (ops + [op])[..|ops|] == ops;
  }

  /** One call on one side. */
  method Use(q: Builder, c: Builder, call: Call)
    requires q.Valid()
    requires forall b | b == c :: b.Valid()
    requires q.Repr !! c.Repr
    modifies q.Repr, c.Repr
    ensures forall b | b == q || b == c :: b.Valid()
    ensures q.Repr !! c.Repr && fresh(q.Repr - old(q.Repr)) && fresh(c.Repr - old(c.Repr))
    ensures q.View() == if call.OnOriginal? then After(old(q.View()), call.op) else old(q.View())
    ensures c.View() == if call.OnOriginal? then old(c.View()) else After(old(c.View()), call.op)
  {
    hide After, Builder.View, Builder.Views;
    match call {
      case OnOriginal(op) => q.Apply(op);
      case OnClone(op) => c.Apply(op);
    }
  }

  /** Clone, then any interleaving of calls on the two builders: each ends as if the other did not exist. */
  method CloneAndUseBoth(q: Builder, calls: seq<Call>) returns (c: Builder)
    requires q.Valid()
    modifies q.Repr
    ensures q.Valid() && c.Valid() && q.Repr !! c.Repr
    ensures q.View() == AfterAll(old(q.View()), Side(calls, true))
    ensures c.View() == AfterAll(Cloned(old(q.View())), Side(calls, false))
  {
    hide Cloned, AfterAll, Side, Builder.Valid, Builder.View, Builder.Views;
    c := q.Clone();
    UseBoth(q, c, calls);
  }

  /** Any interleaving of calls on two builders that share nothing. */
  method UseBoth(q: Builder, c: Builder, calls: seq<Call>)
    requires q.Valid()
    requires forall b | b == c :: b.Valid()
    requires q.Repr !! c.Repr
    modifies q.Repr, c.Repr
    ensures forall b | b == q || b == c :: b.Valid()
    ensures q.Repr !! c.Repr
    ensures q.View() == AfterAll(old(q.View()), Side(calls, true))
    ensures c.View() == AfterAll(old(c.View()), Side(calls, false))
  {
    hide After, Builder.Valid, Builder.View, Builder.Views;
    ghost var v, w := q.View(), c.View();
    assert Side(calls[..0], true) == [] && Side(calls[..0], false) == [];
    assert AfterAll(v, []) == v && AfterAll(w, []) == w;
    hide Side, AfterAll;
    for i := 0 to |calls|
      invariant forall b | b == q || b == c :: b.Valid()
      invariant q.Repr !! c.Repr && fresh(q.Repr - old(q.Repr)) && fresh(c.Repr - old(c.Repr))
      invariant q.View() == AfterAll(v, Side(calls[..i], true))
      invariant c.View() == AfterAll(w, Side(calls[..i], false))
    {
      SideStep(calls, i, true);
      SideStep(calls, i, false);
      AfterAllSnoc(v, Side(calls[..i], true), calls[i].op);
      AfterAllSnoc(w, Side(calls[..i], false), calls[i].op);
      Use(q, c, calls[i]);
    }
    assert calls[..|calls|] == calls;
  }

  /** What Clone loses: the copy says the same as the original exactly when no builder in the tree has modifiers. */
  lemma {:induction false} CloneKeepsAllButModifiers(v: BuilderView)
    ensures Cloned(v) == v <==> NoModifiers(v)
    decreases v
  {
    forall i | 0 <= i < |v.with| && v.with[i].Some?
      ensures Cloned(v.with[i].value) == v.with[i].value <==> NoModifiers(v.with[i].value)
    {
      CloneKeepsAllButModifiers(v.with[i].value);
    }
    if Cloned(v) == v {
      forall i | 0 <= i < |v.with| && v.with[i].Some?
        ensures NoModifiers(v.with[i].value)
      {
        assert Cloned(v).with[i] == v.with[i];
      }
    }
    if NoModifiers(v) {
      assert Cloned(v).with == v.with;
    }
  }

  predicate NoModifiers(v: BuilderView) {
    v.modifiers == [] && forall i | 0 <= i < |v.with| && v.with[i].Some? :: NoModifiers(v.with[i].value)
  }

  // ---------- what a call changes ----------

  /** A new query has the client's interceptors, an empty slot for every edge, and nothing else. */
  lemma EmptyViewMeaning(edges: nat, inters: seq<Func>)
    ensures var v := EmptyView(edges, inters);
            && v.inters == inters && v.order == v.predicates == v.modifiers == []
            && v.sql == None && v.path == None
            && v.ctx.limit == None && v.ctx.offset == None && v.ctx.unique == None && v.ctx.fields == []
            && |v.with| == edges && forall i | 0 <= i < edges :: v.with[i] == None
  {
  }

  /** Limit, Offset and Unique set their part of the context, Select adds to the fields; the rest of the view stays. */
  lemma SettingsMeaning(v: BuilderView, n: int, b: bool, fields: seq<string>)
    ensures After(v, Configure(Limit(n))) == v.(ctx := v.ctx.(limit := Some(n)))
    ensures After(v, Configure(Offset(n))) == v.(ctx := v.ctx.(offset := Some(n)))
    ensures After(v, Configure(Unique(b))) == v.(ctx := v.ctx.(unique := Some(b)))
    ensures After(v, Configure(Select(fields))) == v.(ctx := v.ctx.(fields := v.ctx.fields + fields))
  {
  }

  /** Order, Where and the lock methods add to the end of their slice; WithX fills its slot if there is one. */
  lemma AppendsMeaning(v: BuilderView, xs: seq<Func>, edge: nat, edges: nat, inters: seq<Func>, opts: seq<Op>)
    ensures After(v, Op.Append(OrderTerms, xs)) == v.(order := v.order + xs)
    ensures After(v, Op.Append(Predicates, xs)) == v.(predicates := v.predicates + xs)
    ensures After(v, Op.Append(Modifiers, xs)) == v.(modifiers := v.modifiers + xs)
    ensures var w := After(v, With(edge, edges, inters, opts));
            && w == v.(with := w.with) && |w.with| == |v.with|
            && forall i | 0 <= i < |v.with| ::
                 w.with[i] == if i == edge then Some(AfterAll(EmptyView(edges, inters), opts)) else v.with[i]
  {
    hide AfterAll, EmptyView;
  }
}
