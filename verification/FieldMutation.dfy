/** The pending field changes of an account mutation, and what builder calls leave pending for a column. */
module FieldMutation {
  import opened Collections
  import opened AccountSchema

  /** The numeric types: their columns have AddX besides SetX, and the builders' SetX resets the column first. */
  predicate Numeric(t: GoType) {
    t == TInt || t == TInt64 || t == TFloat64
  }

  function Plus(a: Scalar, b: Scalar): Scalar {
    match (a, b)
    case (VInt(x), VInt(y)) => VInt(x + y)
    case (VInt64(x), VInt64(y)) => VInt64(x + y)
    case (VFloat64(x), VFloat64(y)) => VFloat64(x + y)
    case _ => b
  }

  /** What is pending for one column. */
  datatype Pending = Pending(value: Option<Scalar>, added: Option<Scalar>, cleared: bool)

  const UNCHANGED := Pending(None, None, false)

  datatype FieldOp = SetTo(value: Scalar) | AddBy(value: Scalar) | Clear

  function Sum(a: Option<Scalar>, d: Scalar): Scalar {
    match a case Some(s) => Plus(s, d) case None => d
  }

  /** What the mutation makes of a builder call on one column. */
  function Recorded(numeric: bool, p: Pending, op: FieldOp): Pending {
    match op
    case SetTo(v) => if numeric then Pending(Some(v), None, false) else p.(value := Some(v))
    case AddBy(d) => p.(added := Some(Sum(p.added, d)))
    case Clear => Pending(None, None, true)
  }

  function RecordedAll(numeric: bool, ops: seq<FieldOp>): Pending {
    if ops == [] then UNCHANGED else Recorded(numeric, RecordedAll(numeric, ops[..|ops| - 1]), ops[|ops| - 1])
  }

  class FieldMutation {
    var values: map<Field, Scalar>
    var added: map<Field, Scalar>
    var cleared: set<Field>

    constructor ()
      ensures values == map[] && added == map[] && cleared == {}
    {
      values, added, cleared := map[], map[], {};
    }

    function PendingFor(f: Field): Pending
      reads this
    {
      Pending(if f in values then Some(values[f]) else None, if f in added then Some(added[f]) else None, f in cleared)
    }

    /** SetX of the builders: ResetX for a numeric column, then SetX of the mutation. */
    method SetField(f: Field, v: Scalar)
      modifies this
      ensures forall g :: PendingFor(g) == if g == f then Recorded(Numeric(StructType(f)), old(PendingFor(g)), SetTo(v))
                                           else old(PendingFor(g))
    {
      if Numeric(StructType(f)) {
        added, cleared := added - {f}, cleared - {f};
      }
      values := values[f := v];
    }

    /** AddX: amounts accumulate. */
    method AddField(f: Field, d: Scalar)
      modifies this
      ensures forall g :: PendingFor(g) == if g == f then Recorded(Numeric(StructType(f)), old(PendingFor(g)), AddBy(d))
                                           else old(PendingFor(g))
    {
      added := added[f := if f in added then Plus(added[f], d) else d];
    }

    /** ClearX */
    method ClearField(f: Field)
      modifies this
      ensures forall g :: PendingFor(g) == if g == f then Recorded(Numeric(StructType(f)), old(PendingFor(g)), Clear)
                                           else old(PendingFor(g))
    {
      values, added, cleared := values - {f}, added - {f}, cleared + {f};
    }
  }

  // ---------- what is pending, from the calls alone ----------

  /** The last call that is not an addition. */
  function LastWrite(ops: seq<FieldOp>): (w: Option<FieldOp>)
    ensures w.Some? ==> w.value in ops && !w.value.AddBy?
  {
    if ops == [] then None
    else if ops[|ops| - 1].AddBy? then LastWrite(ops[..|ops| - 1])
    else Some(ops[|ops| - 1])
  }

  /** The total of the additions after the last write. */
  function AddedSince(ops: seq<FieldOp>): Option<Scalar> {
    if ops == [] || !ops[|ops| - 1].AddBy? then None
    else Some(Sum(AddedSince(ops[..|ops| - 1]), ops[|ops| - 1].value))
  }

  /** Only numeric columns have AddX. */
  predicate Allowed(numeric: bool, ops: seq<FieldOp>) {
    numeric || forall op | op in ops :: !op.AddBy?
  }

  /** The last write is pending, with the total added since; a clear stays until a numeric column is set again. */
  lemma {:induction false} PendingMeaning(numeric: bool, ops: seq<FieldOp>)
    requires Allowed(numeric, ops)
    ensures var p, w := RecordedAll(numeric, ops), LastWrite(ops);
            && p.value == (if w.Some? && w.value.SetTo? then Some(w.value.value) else None)
            && p.added == AddedSince(ops)
            && (p.cleared <==> if numeric then w == Some(Clear) else Clear in ops)
  {
    hide Sum;
    if ops != [] {
      var n := |ops| - 1;
      assert ops == ops[..n] + [ops[n]] && ops[n] in ops;
      PendingMeaning(numeric, ops[..n]);
    }
  }

  /** So a column is both set and cleared exactly when it is not numeric, was cleared once, and was set last. */
  lemma SetAndClearedIff(numeric: bool, ops: seq<FieldOp>)
    requires Allowed(numeric, ops)
    ensures var p, w := RecordedAll(numeric, ops), LastWrite(ops);
            && (p.value.Some? && p.cleared <==> !numeric && Clear in ops && w.Some? && w.value.SetTo?)
            && (p.added.Some? && p.cleared <==> EndsInAddition(ops) && w == Some(Clear))
            && (p.value.Some? && p.added.Some? <==> EndsInAddition(ops) && w.Some? && w.value.SetTo?)
  {
    PendingMeaning(numeric, ops);
    assert EndsInAddition(ops) ==> ops[|ops| - 1] in ops;
  }

  predicate EndsInAddition(ops: seq<FieldOp>) {
    ops != [] && ops[|ops| - 1].AddBy?
  }

  /** Amounts of one type are summed. */
  lemma PlusMeaning(x: int, y: int, a: real, b: real)
    ensures Plus(VInt(x), VInt(y)) == VInt(x + y) && Plus(VInt64(x), VInt64(y)) == VInt64(x + y)
    ensures Plus(VFloat64(a), VFloat64(b)) == VFloat64(a + b)
  {
  }

  function Total(amounts: seq<int>): int {
    if amounts == [] then 0 else amounts[0] + Total(amounts[1..])
  }

  /** Additions of ints after a write are pending as their total. */
  lemma {:induction false} TotalIsPending(ops: seq<FieldOp>, amounts: seq<int>)
    requires amounts != [] && (ops == [] || !ops[|ops| - 1].AddBy?)
    ensures AddedSince(ops + Additions(amounts)) == Some(VInt(Total(amounts)))
  {
    var n := |amounts| - 1;
    var all := ops + Additions(amounts);
    assert all[..|all| - 1] == ops + Additions(amounts[..n]) && all[|all| - 1] == AddBy(VInt(amounts[n]));
    TotalSnoc(amounts[..n], amounts[n]);
    assert amounts == amounts[..n] + [amounts[n]];
    if n == 0 {
      assert ops + Additions(amounts[..n]) == ops;
      assert AddedSince(ops) == None;
    } else {
      TotalIsPending(ops, amounts[..n]);
    }
  }

  function Additions(amounts: seq<int>): (ops: seq<FieldOp>)
    ensures |ops| == |amounts| && forall i | 0 <= i < |amounts| :: ops[i] == AddBy(VInt(amounts[i]))
  {
    seq(|amounts|, i requires 0 <= i < |amounts| => AddBy(VInt(amounts[i])))
  }

  lemma {:induction false} TotalSnoc(amounts: seq<int>, x: int)
    ensures Total(amounts + [x]) == Total(amounts) + x
  {
    if amounts != [] {
      TotalSnoc(amounts[1..], x);
      assert (amounts + [x])[0] == amounts[0] && (amounts + [x])[1..] == amounts[1..] + [x];
    } else {
      assert amounts + [x] == [x] && [x][1..] == [];
    }
  }
}
