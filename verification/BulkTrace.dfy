/** What the trace of a bulk save looks like: nesting, one insert after all checks, all or nothing. */
module BulkTrace {
  import opened Collections
  import opened AccountSchema
  import opened AccountCodec
  import opened AccountCreation
  import opened BulkCreate

  // ---------- nesting ----------

  /** A hook that has been entered and not left. */
  datatype Open = Open(builder: nat, hook: nat)

  /** The hooks open after a trace, outermost first; None when a hook was left that was not the innermost one. */
  function OpenHooks(t: seq<Event>): Option<seq<Open>> {
    if t == [] then Some([]) else Step(OpenHooks(t[..|t| - 1]), t[|t| - 1])
  }

  function Step(open: Option<seq<Open>>, e: Event): Option<seq<Open>> {
    match open
    case None => None
    case Some(s) =>
      match e
      case Before(i, h) => Some(s + [Open(i, h)])
      case After(i, h) => if s != [] && s[|s| - 1] == Open(i, h) then Some(s[..|s| - 1]) else None
      case _ => Some(s)
  }

  /** The hooks of the first i builders and the first h of the next: each hook around those after it. */
  function HooksUpTo(hooks: seq<nat>, i: nat, h: nat): seq<Open>
    requires i <= |hooks|
    decreases i, h
  {
    if h > 0 then HooksUpTo(hooks, i, h - 1) + [Open(i, h - 1)]
    else if i > 0 then HooksUpTo(hooks, i - 1, hooks[i - 1])
    else []
  }

  function AllHooks(r: Run): seq<Open> {
    HooksUpTo(r.hooks, |r.hooks|, 0)
  }

  /** After `u`, all through `t`: the hooks of `base` stay open, those above are the next in order, and all are left. */
  ghost predicate Nested(all: seq<Open>, u: seq<Event>, t: seq<Event>, base: seq<Open>) {
    && (forall p | 0 <= p <= |t| ::
          OpenHooks(u + t[..p]).Some? && base <= OpenHooks(u + t[..p]).value <= all)
    && OpenHooks(u + t) == Some(base)
  }

  lemma OpenHooksSnoc(u: seq<Event>, e: Event)
    ensures OpenHooks(u + [e]) == Step(OpenHooks(u), e)
  {
    assert (u + [e])[..|u|] == u;
  }

  lemma NestedConcat(all: seq<Open>, u: seq<Event>, s: seq<Event>, t: seq<Event>, base: seq<Open>)
    requires Nested(all, u, s, base) && Nested(all, u + s, t, base)
    ensures Nested(all, u, s + t, base)
  {
    hide OpenHooks;
    assert u + (s + t) == (u + s) + t;
    forall p | 0 <= p <= |s + t|
      ensures OpenHooks(u + (s + t)[..p]).Some? && base <= OpenHooks(u + (s + t)[..p]).value <= all
    {
      if p <= |s| {
        assert (s + t)[..p] == s[..p];
      } else {
        assert u + (s + t)[..p] == (u + s) + t[..p - |s|];
      }
    }
  }

  lemma NestedPlain(all: seq<Open>, u: seq<Event>, e: Event, base: seq<Open>)
    requires OpenHooks(u) == Some(base) && base <= all
    requires !e.Before? && !e.After?
    ensures Nested(all, u, [e], base)
  {
    hide OpenHooks;
    OpenHooksSnoc(u, e);
    assert u + [e][..0] == u && [e][..1] == [e];
  }

  lemma NestedWrap(all: seq<Open>, u: seq<Event>, t: seq<Event>, base: seq<Open>, i: nat, h: nat)
    requires OpenHooks(u) == Some(base) && base + [Open(i, h)] <= all
    requires Nested(all, u + [Before(i, h)], t, base + [Open(i, h)])
    ensures Nested(all, u, [Before(i, h)] + t + [After(i, h)], base)
  {
    hide OpenHooks;
    var w := [Before(i, h)] + t + [After(i, h)];
    var u' := u + [Before(i, h)];
    OpenHooksSnoc(u' + t, After(i, h));
    assert (base + [Open(i, h)])[..|base|] == base;
    assert u + w == u' + t + [After(i, h)];
    forall p | 0 <= p <= |w|
      ensures OpenHooks(u + w[..p]).Some? && base <= OpenHooks(u + w[..p]).value <= all
    {
      if p == 0 {
        assert u + w[..0] == u;
      } else if p <= |t| + 1 {
        assert u + w[..p] == u' + t[..p - 1];
      } else {
        assert w[..p] == w;
      }
    }
  }

  lemma {:induction false} HooksUpToGrows(hooks: seq<nat>, i: nat, h: nat)
    requires i < |hooks| && h <= hooks[i]
    ensures HooksUpTo(hooks, i, h) <= HooksUpTo(hooks, |hooks|, 0)
    decreases |hooks| - i, hooks[i] - h
  {
    if h < hooks[i] {
      HooksUpToGrows(hooks, i, h + 1);
    } else if i + 1 < |hooks| {
      HooksUpToGrows(hooks, i + 1, 0);
    }
  }

  lemma {:induction false} InnerNested(r: Run, i: nat, u: seq<Event>)
    requires i < |r.data| == |r.hooks|
    requires OpenHooks(u) == Some(HooksUpTo(r.hooks, i, r.hooks[i]))
    ensures Nested(AllHooks(r), u, r.InnerTrace(i), HooksUpTo(r.hooks, i, r.hooks[i]))
    decreases |r.data| - i, 0
  {
    hide Validation, CreateSpecOf, OpenHooks, Nested;
    var base := HooksUpTo(r.hooks, i, r.hooks[i]);
    HooksUpToGrows(r.hooks, i, r.hooks[i]);
    if r.CheckOf(i).Some? {
      NestedPlain(AllHooks(r), u, Checked(i, false), base);
    } else {
      var checked := [Checked(i, true)];
      NestedPlain(AllHooks(r), u, Checked(i, true), base);
      NestedEnd(AllHooks(r), u, checked, base);
      if i + 1 < |r.data| {
        assert HooksUpTo(r.hooks, i + 1, 0) == base;
        HooksNested(r, i + 1, 0, u + checked);
      } else {
        NestedPlain(AllHooks(r), u + checked, Batch(r.Specs()), base);
      }
      var middle := r.NextTrace(i);
      NestedConcat(AllHooks(r), u, checked, middle, base);
      if r.Error(i).None? {
        NestedEnd(AllHooks(r), u, checked + middle, base);
        NestedPlain(AllHooks(r), u + (checked + middle), MarkedDone(i), base);
        NestedConcat(AllHooks(r), u, checked + middle, [MarkedDone(i)], base);
      } else {
        assert checked + middle + [] == checked + middle;
      }
    }
  }

  lemma NestedEnd(all: seq<Open>, u: seq<Event>, t: seq<Event>, base: seq<Open>)
    requires Nested(all, u, t, base)
    ensures OpenHooks(u + t) == Some(base)
  {
  }

  /** Hooks are entered in order, hooks[0] of a builder first, builder i before builder i + 1, and left in reverse. */
  lemma {:induction false} HooksNested(r: Run, i: nat, h: nat, u: seq<Event>)
    requires i < |r.data| == |r.hooks| && h <= r.hooks[i]
    requires OpenHooks(u) == Some(HooksUpTo(r.hooks, i, h))
    ensures Nested(AllHooks(r), u, r.HookTrace(i, h), HooksUpTo(r.hooks, i, h))
    decreases |r.data| - i, r.hooks[i] - h + 1
  {
    hide Validation, CreateSpecOf, Nested;
    if h == r.hooks[i] {
      InnerNested(r, i, u);
    } else {
      OpenHooksSnoc(u, Before(i, h));
      HooksUpToGrows(r.hooks, i, h + 1);
      HooksNested(r, i, h + 1, u + [Before(i, h)]);
      NestedWrap(AllHooks(r), u, r.HookTrace(i, h + 1), HooksUpTo(r.hooks, i, h), i, h);
    }
  }

  /** The trace of a whole save is well bracketed; at every moment the open hooks are an initial part of all hooks. */
  lemma SaveIsNested(r: Run)
    requires 0 < |r.data| == |r.hooks|
    ensures var t := r.HookTrace(0, 0);
            && OpenHooks(t) == Some([])
            && forall p | 0 <= p <= |t| :: OpenHooks(t[..p]).Some? && OpenHooks(t[..p]).value <= AllHooks(r)
  {
    hide Validation, CreateSpecOf;
    var t := r.HookTrace(0, 0);
    HooksNested(r, 0, 0, []);
    assert [] + t == t;
    forall p | 0 <= p <= |t|
      ensures [] + t[..p] == t[..p]
    {
    }
  }

  // ---------- the shape of a trace ----------

  function Enter(i: nat, h: nat, hooks: nat): seq<Event>
    requires h <= hooks
    decreases hooks - h
  {
    if h == hooks then [] else [Before(i, h)] + Enter(i, h + 1, hooks)
  }

  function Leave(i: nat, h: nat, hooks: nat): seq<Event>
    requires h <= hooks
    decreases hooks - h
  {
    if h == hooks then [] else Leave(i, h + 1, hooks) + [After(i, h)]
  }

  /** Going in: every builder from i to k enters its hooks and passes its check. */
  function Descent(hooks: seq<nat>, i: nat, k: nat): seq<Event>
    requires i <= k <= |hooks|
    decreases k - i
  {
    if i == k then [] else Enter(i, 0, hooks[i]) + [Checked(i, true)] + Descent(hooks, i + 1, k)
  }

  /** Coming out, in reverse: on success each is marked as done before its hooks are left. */
  function Ascent(hooks: seq<nat>, i: nat, k: nat, success: bool): seq<Event>
    requires i <= k <= |hooks|
    decreases k - i
  {
    if i == k then []
    else Ascent(hooks, i + 1, k, success) + (if success then [MarkedDone(i)] else []) + Leave(i, 0, hooks[i])
  }

  /** The first builder from i on whose check fails, or the number of builders. */
  function FirstFailing(r: Run, i: nat): (k: nat)
    requires i <= |r.data|
    ensures i <= k <= |r.data|
    ensures forall j | i <= j < k :: r.CheckOf(j).None?
    ensures k < |r.data| ==> r.CheckOf(k).Some?
    decreases |r.data| - i
  {
    if i == |r.data| || r.CheckOf(i).Some? then i else FirstFailing(r, i + 1)
  }

  /** The turning point: the insert, or the failing check between the hooks of its builder. */
  function Turn(r: Run, k: nat): seq<Event>
    requires k <= |r.data| == |r.hooks|
  {
    if k == |r.data| then [Batch(r.Specs())]
    else Enter(k, 0, r.hooks[k]) + [Checked(k, false)] + Leave(k, 0, r.hooks[k])
  }

  lemma {:induction false} HooksAround(r: Run, i: nat, h: nat)
    requires i < |r.data| == |r.hooks| && h <= r.hooks[i]
    ensures r.HookTrace(i, h) == Enter(i, h, r.hooks[i]) + r.InnerTrace(i) + Leave(i, h, r.hooks[i])
    decreases r.hooks[i] - h
  {
    hide Validation, CreateSpecOf, Run.InnerTrace;
    if h < r.hooks[i] {
      HooksAround(r, i, h + 1);
    }
  }

  /** Down to the turning point and back; the error is that of the turning point. */
  lemma {:induction false} TraceShape(r: Run, i: nat)
    requires i < |r.data| == |r.hooks|
    ensures var k := FirstFailing(r, i);
            && r.HookTrace(i, 0) == Descent(r.hooks, i, k) + Turn(r, k) + Ascent(r.hooks, i, k, r.Error(i).None?)
            && r.Error(i) == (if k == |r.data| then r.BatchError() else Some(ValidationError(r.CheckOf(k).value)))
    decreases |r.data| - i, 1
  {
    hide Validation, CreateSpecOf, Run.HookTrace, Turn, Run.Specs, Run.CheckOf, Enter, Leave;
    HooksAround(r, i, 0);
    if r.CheckOf(i).None? {
      var k := FirstFailing(r, i + 1);
      var mark := if r.Error(i).None? then [MarkedDone(i)] else [];
      NextShape(r, i);
      var enter, leave := Enter(i, 0, r.hooks[i]), Leave(i, 0, r.hooks[i]);
      var down, up := Descent(r.hooks, i + 1, k), Ascent(r.hooks, i + 1, k, r.Error(i).None?);
      Regroup(enter, [Checked(i, true)], down, Turn(r, k), up, mark, leave);
      assert r.InnerTrace(i) == [Checked(i, true)] + (down + Turn(r, k) + up) + mark;
    } else {
      EmptyWalk(r.hooks, i, r.Error(i).None?);
      TurnAround(r, i);
    }
  }

  lemma {:induction false} NextShape(r: Run, i: nat)
    requires i < |r.data| == |r.hooks|
    ensures var k := FirstFailing(r, i + 1);
            && r.NextTrace(i)
            == Descent(r.hooks, i + 1, k) + Turn(r, k) + Ascent(r.hooks, i + 1, k, r.Error(i + 1).None?)
            && r.Error(i + 1) == (if k == |r.data| then r.BatchError() else Some(ValidationError(r.CheckOf(k).value)))
    decreases |r.data| - i, 0
  {
    hide Validation, CreateSpecOf, Run.HookTrace, Run.Specs, Run.CheckOf, Enter, Leave;
    if i + 1 < |r.data| {
      TraceShape(r, i + 1);
    } else {
      EmptyWalk(r.hooks, i + 1, r.Error(i + 1).None?);
    }
  }

  lemma EmptyWalk(hooks: seq<nat>, i: nat, success: bool)
    requires i <= |hooks|
    ensures Descent(hooks, i, i) == [] && Ascent(hooks, i, i, success) == []
  {
  }

  lemma TurnAround(r: Run, i: nat)
    requires i < |r.data| == |r.hooks| && r.CheckOf(i).Some?
    ensures Turn(r, i) == Enter(i, 0, r.hooks[i]) + r.InnerTrace(i) + Leave(i, 0, r.hooks[i])
    ensures r.Error(i) == Some(ValidationError(r.CheckOf(i).value))
  {
    hide Validation, CreateSpecOf, Enter, Leave;
  }

  lemma Regroup<T>(e: seq<T>, c: seq<T>, d: seq<T>, t: seq<T>, a: seq<T>, m: seq<T>, l: seq<T>)
    ensures e + (c + (d + t + a) + m) + l == (e + c + d) + t + (a + m + l)
  {
  }

  lemma {:induction false} NoInsertInHooks(i: nat, h: nat, hooks: nat)
    requires h <= hooks
    ensures forall e | e in Enter(i, h, hooks) :: e.Before?
    ensures forall e | e in Leave(i, h, hooks) :: e.After?
    decreases hooks - h
  {
    if h < hooks {
      NoInsertInHooks(i, h + 1, hooks);
    }
  }

  lemma {:induction false} InDescent(hooks: seq<nat>, i: nat, k: nat)
    requires i <= k <= |hooks|
    ensures forall e | e in Descent(hooks, i, k) :: e.Before? || e.Checked?
    ensures forall j | i <= j < k :: Checked(j, true) in Descent(hooks, i, k)
    decreases k - i
  {
    hide Enter;
    if i < k {
      InDescent(hooks, i + 1, k);
      NoInsertInHooks(i, 0, hooks[i]);
      var first, rest := Enter(i, 0, hooks[i]) + [Checked(i, true)], Descent(hooks, i + 1, k);
      assert Descent(hooks, i, k) == first + rest && first[|first| - 1] == Checked(i, true);
      forall j | i <= j < k
        ensures Checked(j, true) in first + rest
      {
        if j > i {
          assert Checked(j, true) in rest;
        }
      }
    }
  }

  lemma {:induction false} InAscent(hooks: seq<nat>, i: nat, k: nat, success: bool)
    requires i <= k <= |hooks|
    ensures forall e | e in Ascent(hooks, i, k, success) :: e.After? || (success && e.MarkedDone?)
    ensures success ==> forall j | i <= j < k :: MarkedDone(j) in Ascent(hooks, i, k, success)
    decreases k - i
  {
    if i < k {
      InAscent(hooks, i + 1, k, success);
      NoInsertInHooks(i, 0, hooks[i]);
    }
  }

  /** No insert when a check fails; else exactly one, after all n checks, with the specs in builder order. */
  lemma OneInsertAfterAllChecks(r: Run)
    requires 0 < |r.data| == |r.hooks|
    ensures var t := r.HookTrace(0, 0);
            if exists j :: 0 <= j < |r.data| && r.CheckOf(j).Some? then
              forall e | e in t :: !e.Batch?
            else
              var p := |Descent(r.hooks, 0, |r.hooks|)|;
              && p < |t| && t[p] == Batch(r.Specs())
              && (forall q | 0 <= q < |t| && q != p :: !t[q].Batch?)
              && (forall j | 0 <= j < |r.data| :: Checked(j, true) in t[..p])
  {
    hide Validation, CreateSpecOf, Run.HookTrace, Run.Error, Run.CheckOf, Run.Specs;
    var k := FirstFailing(r, 0);
    if k < |r.data| {
      NoInsertWhenACheckFails(r);
    } else {
      TraceShape(r, 0);
      InDescent(r.hooks, 0, k);
      InAscent(r.hooks, 0, k, r.Error(0).None?);
      InsertPosition(Descent(r.hooks, 0, k), Batch(r.Specs()), Ascent(r.hooks, 0, k, r.Error(0).None?));
    }
  }

  lemma InsertPosition(down: seq<Event>, insert: Event, up: seq<Event>)
    requires forall e | e in down || e in up :: !e.Batch?
    ensures var t := down + [insert] + up;
            && t[..|down|] == down && t[|down|] == insert
            && forall q | 0 <= q < |t| && q != |down| :: !t[q].Batch?
  {
    var t := down + [insert] + up;
    forall q | 0 <= q < |t| && q != |down|
      ensures t[q] in down || t[q] in up
    {
      if q < |down| {
        assert t[q] == down[q];
      } else {
        assert t[q] == up[q - |down| - 1];
      }
    }
  }

  lemma NoInsertWhenACheckFails(r: Run)
    requires 0 < |r.data| == |r.hooks|
    requires FirstFailing(r, 0) < |r.data|
    ensures forall e | e in r.HookTrace(0, 0) :: !e.Batch?
  {
    hide Validation, CreateSpecOf, Run.HookTrace, Run.Error, Descent, Ascent, Run.CheckOf;
    var k := FirstFailing(r, 0);
    TraceShape(r, 0);
    InDescent(r.hooks, 0, k);
    InAscent(r.hooks, 0, k, r.Error(0).None?);
    NoInsertInHooks(k, 0, r.hooks[k]);
  }

  /** A failed save marks nothing as done; a successful one inserted once and marks every mutation, after the insert. */
  lemma AllOrNothing(r: Run)
    requires 0 < |r.data| == |r.hooks|
    ensures var t := r.HookTrace(0, 0);
            && (r.Error(0).Some? ==> forall e | e in t :: !e.MarkedDone?)
            && (r.Error(0).None? ==>
                  var p := |Descent(r.hooks, 0, |r.hooks|)|;
                  && p < |t| && t[p] == Batch(r.Specs())
                  && (forall j | 0 <= j < |r.data| :: MarkedDone(j) in t[p..])
                  && (forall e | e in t[..p] :: !e.MarkedDone?))
  {
    hide Validation, CreateSpecOf, Run.HookTrace, Run.Error, Descent, Ascent, Run.CheckOf;
    var k := FirstFailing(r, 0);
    TraceShape(r, 0);
    var down, up := Descent(r.hooks, 0, k), Ascent(r.hooks, 0, k, r.Error(0).None?);
    InDescent(r.hooks, 0, k);
    InAscent(r.hooks, 0, k, r.Error(0).None?);
    var t := r.HookTrace(0, 0);
    if k < |r.data| {
      NoInsertInHooks(k, 0, r.hooks[k]);
    }
    assert forall e | e in t :: e in down || e in Turn(r, k) || e in up;
    if r.Error(0).None? {
      assert t[..|down|] == down && t[|down|..] == Turn(r, k) + up;
    }
  }

  /** The batch reaches the database exactly when each builder, saved on its own, would have reached it. */
  lemma BatchIffEverySingle(r: Run, given: seq<Mutation>)
    requires |given| == |r.data|
    requires forall i | 0 <= i < |given| ::
               r.data[i] == given[i].(fields := Defaults(r.rt, DEFAULTED, given[i].fields).fields)
    ensures (forall j | 0 <= j < |r.data| :: r.CheckOf(j).None?) <==>
            forall j | 0 <= j < |given| :: SingleAccepts(r.rt, given[j].fields)
  {
    hide Validation, Defaults, SingleAccepts;
    forall j | 0 <= j < |given|
      ensures r.CheckOf(j).None? <==> SingleAccepts(r.rt, given[j].fields)
    {
      BulkAcceptsWhatSingleAccepts(r.rt, given[j].fields);
    }
  }
}
