/** The select statement builder (include/sqlpp11/select.h). In the library
    each clause slot lives in the statement's type and every setter's
    precondition is a compile-time assertion; here the slots are `Option`
    values, the setters carry the same preconditions as `requires`, and
    `Apply` is the same check written as a decision that reports the
    library's diagnostic. Clauses whose serializers are not part of this model
    are represented by the text they produce. */
module Select {
  import opened Wrappers
  import opened From
  import opened Strings

  datatype FlagList = FlagList(text: string)
  datatype ExpressionList = ExpressionList(text: string)
  datatype Where = Where(text: string)
  datatype GroupBy = GroupBy(text: string)
  datatype Having = Having(text: string)
  datatype OrderBy = OrderBy(text: string)
  datatype Limit = Limit(text: string)
  datatype Offset = Offset(text: string)

  /** `select_t`: each optional slot is either absent (`noop`) or a clause of
      the slot's own kind. The expression list is always present. */
  datatype Statement = Statement(
    flags: Option<FlagList>,
    exprs: ExpressionList,
    from: Option<FromClause>,
    where: Option<Where>,
    groupBy: Option<GroupBy>,
    having: Option<Having>,
    orderBy: Option<OrderBy>,
    limit: Option<Limit>,
    offset: Option<Offset>)

  /** The slots a setter can fill, in grammar order. */
  datatype Slot = FromSlot | WhereSlot | GroupBySlot | HavingSlot | OrderBySlot | LimitSlot | OffsetSlot

  predicate Filled(s: Statement, k: Slot)
  {
    match k
    case FromSlot => s.from.Some?
    case WhereSlot => s.where.Some?
    case GroupBySlot => s.groupBy.Some?
    case HavingSlot => s.having.Some?
    case OrderBySlot => s.orderBy.Some?
    case LimitSlot => s.limit.Some?
    case OffsetSlot => s.offset.Some?
  }

  /** The slot that must already be filled before slot `k` may be set. */
  function Prerequisite(k: Slot): Option<Slot>
  {
    match k
    case FromSlot => None
    case HavingSlot => Some(GroupBySlot)
    case OffsetSlot => Some(LimitSlot)
    case _ => Some(FromSlot)
  }

  /** Whether the setter of slot `k` compiles on `s`: its prerequisite is
      filled and its own slot is still empty. */
  predicate CanSet(s: Statement, k: Slot)
  {
    !Filled(s, k) && (Prerequisite(k).None? || Filled(s, Prerequisite(k).value))
  }

  /** Every filled slot has its prerequisite filled. */
  predicate WellFormed(s: Statement)
  {
    forall k :: Filled(s, k) && Prerequisite(k).Some? ==> Filled(s, Prerequisite(k).value)
  }

  /** `select(...)`: flags and expressions, every optional clause absent. */
  function NewSelect(flags: FlagList, exprs: ExpressionList): (s: Statement)
    ensures s.flags == Some(flags) && s.exprs == exprs
    ensures forall k :: !Filled(s, k)
    ensures WellFormed(s)
  {
    Statement(Some(flags), exprs, None, None, None, None, None, None, None)
  }

  /** `from(tables...)`: needs an expression list, which every statement has,
      and no from clause yet. */
  function SetFrom(s: Statement, tables: TableList): (r: Statement)
    requires s.from.None?
    ensures r.from == Some(FromClause(tables))
    ensures r.(from := s.from) == s
  {
    s.(from := Some(FromClause(tables)))
  }

  /** `where(expr)`: needs a from clause and no where clause yet. */
  function SetWhere(s: Statement, w: Where): (r: Statement)
    requires s.from.Some? && s.where.None?
    ensures r.where == Some(w)
    ensures r.(where := s.where) == s
  {
    s.(where := Some(w))
  }

  /** `group_by(columns...)`: needs a from clause and no group by yet. */
  function SetGroupBy(s: Statement, g: GroupBy): (r: Statement)
    requires s.from.Some? && s.groupBy.None?
    ensures r.groupBy == Some(g)
    ensures r.(groupBy := s.groupBy) == s
  {
    s.(groupBy := Some(g))
  }

  /** `having(expr)`: needs a group by and no having yet. */
  function SetHaving(s: Statement, h: Having): (r: Statement)
    requires s.groupBy.Some? && s.having.None?
    ensures r.having == Some(h)
    ensures r.(having := s.having) == s
  {
    s.(having := Some(h))
  }

  /** `order_by(exprs...)`: needs a from clause and no order by yet. */
  function SetOrderBy(s: Statement, o: OrderBy): (r: Statement)
    requires s.from.Some? && s.orderBy.None?
    ensures r.orderBy == Some(o)
    ensures r.(orderBy := s.orderBy) == s
  {
    s.(orderBy := Some(o))
  }

  /** `limit(n)`: needs a from clause and no limit yet. */
  function SetLimit(s: Statement, l: Limit): (r: Statement)
    requires s.from.Some? && s.limit.None?
    ensures r.limit == Some(l)
    ensures r.(limit := s.limit) == s
  {
    s.(limit := Some(l))
  }

  /** `offset(n)`: needs a limit and no offset yet. */
  function SetOffset(s: Statement, o: Offset): (r: Statement)
    requires s.limit.Some? && s.offset.None?
    ensures r.offset == Some(o)
    ensures r.(offset := s.offset) == s
  {
    s.(offset := Some(o))
  }

  /** A call of one of the setters, with its argument. */
  datatype Call =
    | CallFrom(tables: TableList)
    | CallWhere(where: Where)
    | CallGroupBy(groupBy: GroupBy)
    | CallHaving(having: Having)
    | CallOrderBy(orderBy: OrderBy)
    | CallLimit(limit: Limit)
    | CallOffset(offset: Offset)
  {
    /** The slot the call fills. */
    function Slot(): Slot
    {
      match this
      case CallFrom(_) => FromSlot
      case CallWhere(_) => WhereSlot
      case CallGroupBy(_) => GroupBySlot
      case CallHaving(_) => HavingSlot
      case CallOrderBy(_) => OrderBySlot
      case CallLimit(_) => LimitSlot
      case CallOffset(_) => OffsetSlot
    }
  }

  /** The content of slot `k`, as the call that would have put it there. */
  function SlotCall(s: Statement, k: Slot): (c: Option<Call>)
    ensures c.Some? <==> Filled(s, k)
    ensures c.Some? ==> c.value.Slot() == k
  {
    match k
    case FromSlot => if s.from.Some? then Some(CallFrom(s.from.value.tables)) else None
    case WhereSlot => if s.where.Some? then Some(CallWhere(s.where.value)) else None
    case GroupBySlot => if s.groupBy.Some? then Some(CallGroupBy(s.groupBy.value)) else None
    case HavingSlot => if s.having.Some? then Some(CallHaving(s.having.value)) else None
    case OrderBySlot => if s.orderBy.Some? then Some(CallOrderBy(s.orderBy.value)) else None
    case LimitSlot => if s.limit.Some? then Some(CallLimit(s.limit.value)) else None
    case OffsetSlot => if s.offset.Some? then Some(CallOffset(s.offset.value)) else None
  }

  /** Two statements with the same flags, expressions and slot contents are equal. */
  lemma SameSlotsSameStatement(a: Statement, b: Statement)
    requires a.flags == b.flags && a.exprs == b.exprs
    requires forall k :: SlotCall(a, k) == SlotCall(b, k)
    ensures a == b
  {
    assert SlotCall(a, FromSlot) == SlotCall(b, FromSlot);
    assert SlotCall(a, WhereSlot) == SlotCall(b, WhereSlot);
    assert SlotCall(a, GroupBySlot) == SlotCall(b, GroupBySlot);
    assert SlotCall(a, HavingSlot) == SlotCall(b, HavingSlot);
    assert SlotCall(a, OrderBySlot) == SlotCall(b, OrderBySlot);
    assert SlotCall(a, LimitSlot) == SlotCall(b, LimitSlot);
    assert SlotCall(a, OffsetSlot) == SlotCall(b, OffsetSlot);
  }

  /** `r` holds the same flags, expressions and clauses as `s`, except
      possibly in slot `k`. */
  predicate AgreeExcept(s: Statement, r: Statement, k: Slot)
  {
    && r.flags == s.flags && r.exprs == s.exprs
    && (k != FromSlot ==> r.from == s.from)
    && (k != WhereSlot ==> r.where == s.where)
    && (k != GroupBySlot ==> r.groupBy == s.groupBy)
    && (k != HavingSlot ==> r.having == s.having)
    && (k != OrderBySlot ==> r.orderBy == s.orderBy)
    && (k != LimitSlot ==> r.limit == s.limit)
    && (k != OffsetSlot ==> r.offset == s.offset)
  }

  lemma AgreeExceptSlots(s: Statement, r: Statement, k: Slot)
    requires AgreeExcept(s, r, k)
    ensures forall k' :: k' != k ==> SlotCall(r, k') == SlotCall(s, k')
  {
  }

  /** The diagnostic of a setter whose prerequisite slot is empty. */
  function MissingPrerequisiteMessage(k: Slot): string
    requires Prerequisite(k).Some?
  {
    match k
    case WhereSlot => "cannot call where() without a from()"
    case GroupBySlot => "cannot call group_by() without a from()"
    case HavingSlot => "cannot call having() without a group_by"
    case OrderBySlot => "cannot call order_by() without a from()"
    case LimitSlot => "cannot call limit() without a from()"
    case OffsetSlot => "cannot call offset() without a limit"
  }

  /** The diagnostic of a setter whose own slot is already filled. */
  function RepeatedSetterMessage(k: Slot): string
  {
    match k
    case FromSlot => "cannot call from() twice for a single select"
    case WhereSlot => "cannot call where() twice for a single select"
    case GroupBySlot => "cannot call group_by() twice for a single select"
    case HavingSlot => "cannot call having() twice for a single select"
    case OrderBySlot => "cannot call order_by() twice for a single select"
    case LimitSlot => "cannot call limit() twice for a single select"
    case OffsetSlot => "cannot call offset() twice for a single select"
  }

  /** The setter of the call's slot, applied where it compiles. */
  function Fill(s: Statement, c: Call): Statement
    requires CanSet(s, c.Slot())
  {
    match c
    case CallFrom(t) => SetFrom(s, t)
    case CallWhere(w) => SetWhere(s, w)
    case CallGroupBy(g) => SetGroupBy(s, g)
    case CallHaving(h) => SetHaving(s, h)
    case CallOrderBy(o) => SetOrderBy(s, o)
    case CallLimit(l) => SetLimit(s, l)
    case CallOffset(o) => SetOffset(s, o)
  }

  /** A setter call, checked as the compiler checks it: the diagnostic of the
      first violated assertion, the prerequisite before the repetition, or
      the new statement with that one slot filled and every other slot
      copied. */
  function Apply(s: Statement, c: Call): (r: Result<Statement, string>)
    ensures r.Success? <==> CanSet(s, c.Slot())
    ensures r.Success? ==> SlotCall(r.value, c.Slot()) == Some(c)
    ensures r.Success? ==> AgreeExcept(s, r.value, c.Slot())
  {
    var k := c.Slot();
    if Prerequisite(k).Some? && !Filled(s, Prerequisite(k).value) then
      Failure(MissingPrerequisiteMessage(k))
    else if Filled(s, k) then
      Failure(RepeatedSetterMessage(k))
    else
      Success(Fill(s, c))
  }

  /** A setter that does not compile reports its missing prerequisite if
      there is one, and its filled slot otherwise. */
  lemma ApplyDiagnostic(s: Statement, c: Call)
    requires Apply(s, c).Failure?
    ensures
      var k := c.Slot();
      Prerequisite(k).Some? && !Filled(s, Prerequisite(k).value) ==>
        Apply(s, c).error == MissingPrerequisiteMessage(k)
    ensures
      var k := c.Slot();
      (Prerequisite(k).None? || Filled(s, Prerequisite(k).value)) ==>
        Filled(s, k) && Apply(s, c).error == RepeatedSetterMessage(k)
  {
  }

  /** A chain of setter calls, stopping at the first one that does not compile. */
  function ApplyAll(s: Statement, cs: seq<Call>): Result<Statement, string>
    decreases |cs|
  {
    if cs == [] then Success(s)
    else match Apply(s, cs[0])
      case Failure(e) => Failure(e)
      case Success(s') => ApplyAll(s', cs[1..])
  }

  /** The slots a chain of calls fills. */
  function SlotsOf(cs: seq<Call>): set<Slot>
  {
    set c | c in cs :: c.Slot()
  }

  /** What a chain that compiles does: no slot is set twice, every call found
      its slot empty and left its argument there, and every other slot,
      the flags and the expressions are as before. */
  lemma {:induction false} ApplyAllEffect(s: Statement, cs: seq<Call>, r: Statement)
    requires ApplyAll(s, cs) == Success(r)
    ensures r.flags == s.flags && r.exprs == s.exprs
    ensures forall c :: c in cs ==> !Filled(s, c.Slot()) && SlotCall(r, c.Slot()) == Some(c)
    ensures forall k :: k !in SlotsOf(cs) ==> SlotCall(r, k) == SlotCall(s, k)
    ensures forall i, j :: 0 <= i < j < |cs| ==> cs[i].Slot() != cs[j].Slot()
    decreases |cs|
  {
    if cs != [] {
      var s1 := Apply(s, cs[0]).value;
      var rest := cs[1..];
      var k0 := cs[0].Slot();
      ApplyAllEffect(s1, rest, r);
      AgreeExceptSlots(s, s1, k0);
      assert Filled(s1, k0);
      assert forall c :: c in rest ==> c.Slot() != k0;
      assert k0 !in SlotsOf(rest);
      forall c | c in cs
        ensures !Filled(s, c.Slot()) && SlotCall(r, c.Slot()) == Some(c)
      {
        if c != cs[0] {
          assert c in rest;
          assert SlotCall(s1, c.Slot()) == SlotCall(s, c.Slot());
        }
      }
      forall k | k !in SlotsOf(cs)
        ensures SlotCall(r, k) == SlotCall(s, k)
      {
        assert k != k0;
        assert SlotsOf(rest) <= SlotsOf(cs) by {
          forall c | c in rest ensures c in cs { }
        }
      }
      forall i, j | 0 <= i < j < |cs|
        ensures cs[i].Slot() != cs[j].Slot()
      {
        assert cs[j] == rest[j - 1];
        if i > 0 {
          assert cs[i] == rest[i - 1];
        }
      }
    }
  }

  /** The order in which compiling setter calls are written does not matter:
      the same calls in any order build the same statement. */
  lemma CallOrderIrrelevant(s: Statement, cs1: seq<Call>, cs2: seq<Call>, r1: Statement, r2: Statement)
    requires ApplyAll(s, cs1) == Success(r1) && ApplyAll(s, cs2) == Success(r2)
    requires multiset(cs1) == multiset(cs2)
    ensures r1 == r2
  {
    ApplyAllEffect(s, cs1, r1);
    ApplyAllEffect(s, cs2, r2);
    forall c ensures c in cs1 <==> c in cs2 {
      assert c in cs1 <==> c in multiset(cs1);
      assert c in cs2 <==> c in multiset(cs2);
    }
    forall k ensures SlotCall(r1, k) == SlotCall(r2, k) {
      if k in SlotsOf(cs1) {
        var c :| c in cs1 && c.Slot() == k;
        assert c in cs2;
      } else {
        assert k !in SlotsOf(cs2);
      }
    }
    SameSlotsSameStatement(r1, r2);
  }

  /** A chain that calls the same setter twice never compiles. */
  lemma RepeatedSetterRejected(s: Statement, cs: seq<Call>, i: nat, j: nat)
    requires i < j < |cs| && cs[i].Slot() == cs[j].Slot()
    ensures ApplyAll(s, cs).Failure?
  {
    if ApplyAll(s, cs).Success? {
      ApplyAllEffect(s, cs, ApplyAll(s, cs).value);
    }
  }

  /** A setter whose prerequisite is missing from the statement and is not set
      by an earlier call of the chain makes the chain fail. */
  lemma {:induction false} MissingPrerequisiteRejected(s: Statement, cs: seq<Call>, i: nat)
    requires i < |cs| && Prerequisite(cs[i].Slot()).Some?
    requires !Filled(s, Prerequisite(cs[i].Slot()).value)
    requires forall j :: 0 <= j < i ==> cs[j].Slot() != Prerequisite(cs[i].Slot()).value
    ensures ApplyAll(s, cs).Failure?
    decreases i
  {
    if i > 0 && Apply(s, cs[0]).Success? {
      var s1 := Apply(s, cs[0]).value;
      var p := Prerequisite(cs[i].Slot()).value;
      AgreeExceptSlots(s, s1, cs[0].Slot());
      assert SlotCall(s1, p) == SlotCall(s, p);
      assert cs[1..][i - 1] == cs[i];
      MissingPrerequisiteRejected(s1, cs[1..], i - 1);
    }
  }

  /** Every setter that compiles keeps each filled slot's prerequisite filled. */
  lemma ApplyKeepsWellFormed(s: Statement, c: Call)
    requires WellFormed(s) && Apply(s, c).Success?
    ensures WellFormed(Apply(s, c).value)
  {
    var r := Apply(s, c).value;
    AgreeExceptSlots(s, r, c.Slot());
    forall k | Filled(r, k) && Prerequisite(k).Some?
      ensures Filled(r, Prerequisite(k).value)
    {
      var p := Prerequisite(k).value;
      if p != c.Slot() {
        assert SlotCall(r, p) == SlotCall(s, p);
        if k != c.Slot() {
          assert SlotCall(r, k) == SlotCall(s, k);
        }
      }
    }
  }

  /** Statements built by compiling setter chains from `select(...)` are well formed. */
  lemma {:induction false} ApplyAllKeepsWellFormed(s: Statement, cs: seq<Call>)
    requires WellFormed(s) && ApplyAll(s, cs).Success?
    ensures WellFormed(ApplyAll(s, cs).value)
    decreases |cs|
  {
    if cs != [] {
      ApplyKeepsWellFormed(s, cs[0]);
      ApplyAllKeepsWellFormed(Apply(s, cs[0]).value, cs[1..]);
    }
  }

  /** The statement holds a from clause, which `run` demands. Without one,
      its `_value_type` is `no_value_t`; with one, it is the expression list's
      value type, which this model does not carry. */
  predicate HasFrom(s: Statement)
  {
    s.from.Some?
  }

  /** A well formed statement without a from clause has no optional clause. */
  lemma NoFromNoClauses(s: Statement)
    requires WellFormed(s) && !HasFrom(s)
    ensures forall k :: !Filled(s, k)
  {
    assert !Filled(s, GroupBySlot) && !Filled(s, LimitSlot) by {
      assert Filled(s, GroupBySlot) ==> Filled(s, Prerequisite(GroupBySlot).value);
      assert Filled(s, LimitSlot) ==> Filled(s, Prerequisite(LimitSlot).value);
    }
    forall k ensures !Filled(s, k) {
      assert Filled(s, k) ==> Filled(s, Prerequisite(k).value);
    }
  }

  /** The text a clause contributes once its slot holds it. */
  function ClauseText(c: Call): string
  {
    match c
    case CallFrom(t) => FromText(FromClause(t))
    case CallWhere(w) => w.text
    case CallGroupBy(g) => g.text
    case CallHaving(h) => h.text
    case CallOrderBy(o) => o.text
    case CallLimit(l) => l.text
    case CallOffset(o) => o.text
  }

  /** The text of slot `k`: nothing for `noop`. */
  function SlotText(s: Statement, k: Slot): string
  {
    match SlotCall(s, k)
    case None => ""
    case Some(c) => ClauseText(c)
  }

  function FlagsText(f: Option<FlagList>): string
  {
    match f
    case None => ""
    case Some(l) => l.text
  }

  /** `serialize`: the keyword and then each slot's text in grammar order. */
  function Serialize(s: Statement): string
  {
    "SELECT " + FlagsText(s.flags) + s.exprs.text
      + SlotText(s, FromSlot) + SlotText(s, WhereSlot) + SlotText(s, GroupBySlot)
      + SlotText(s, HavingSlot) + SlotText(s, OrderBySlot) + SlotText(s, LimitSlot)
      + SlotText(s, OffsetSlot)
  }

  /** The position of slot `k` in grammar order. */
  function Rank(k: Slot): nat
  {
    match k
    case FromSlot => 0
    case WhereSlot => 1
    case GroupBySlot => 2
    case HavingSlot => 3
    case OrderBySlot => 4
    case LimitSlot => 5
    case OffsetSlot => 6
  }

  /** The slot serialized right after `k`. */
  function Next(k: Slot): (n: Slot)
    requires k != OffsetSlot
    ensures Rank(n) == Rank(k) + 1
  {
    match k
    case FromSlot => WhereSlot
    case WhereSlot => GroupBySlot
    case GroupBySlot => HavingSlot
    case HavingSlot => OrderBySlot
    case OrderBySlot => LimitSlot
    case LimitSlot => OffsetSlot
  }

  /** Everything serialized before slot `k`. */
  function Before(s: Statement, k: Slot): string
    decreases Rank(k)
  {
    match k
    case FromSlot => "SELECT " + FlagsText(s.flags) + s.exprs.text
    case WhereSlot => Before(s, FromSlot) + SlotText(s, FromSlot)
    case GroupBySlot => Before(s, WhereSlot) + SlotText(s, WhereSlot)
    case HavingSlot => Before(s, GroupBySlot) + SlotText(s, GroupBySlot)
    case OrderBySlot => Before(s, HavingSlot) + SlotText(s, HavingSlot)
    case LimitSlot => Before(s, OrderBySlot) + SlotText(s, OrderBySlot)
    case OffsetSlot => Before(s, LimitSlot) + SlotText(s, LimitSlot)
  }

  /** Everything serialized after slot `k`. */
  function After(s: Statement, k: Slot): string
    decreases 6 - Rank(k)
  {
    if k == OffsetSlot then "" else SlotText(s, Next(k)) + After(s, Next(k))
  }

  /** Every slot's text sits between the text of the slots before it and the
      text of the slots after it. */
  lemma {:induction false} SerializeAround(s: Statement, k: Slot)
    ensures Serialize(s) == Before(s, k) + SlotText(s, k) + After(s, k)
    decreases 6 - Rank(k)
  {
    if k == OffsetSlot {
      SerializeUnfolded(s);
      var x := Before(s, k) + SlotText(s, k);
      assert x + "" == x;
    } else {
      var n := Next(k);
      SerializeAround(s, n);
      BeforeNext(s, k);
      assert After(s, k) == SlotText(s, n) + After(s, n);
      Associative(Before(s, k) + SlotText(s, k), SlotText(s, n), After(s, n));
    }
  }

  lemma SerializeUnfolded(s: Statement)
    ensures Serialize(s) == Before(s, OffsetSlot) + SlotText(s, OffsetSlot)
  {
    assert Before(s, WhereSlot) == "SELECT " + FlagsText(s.flags) + s.exprs.text + SlotText(s, FromSlot);
    assert Before(s, GroupBySlot) == Before(s, WhereSlot) + SlotText(s, WhereSlot);
    assert Before(s, HavingSlot) == Before(s, GroupBySlot) + SlotText(s, GroupBySlot);
    assert Before(s, OrderBySlot) == Before(s, HavingSlot) + SlotText(s, HavingSlot);
    assert Before(s, LimitSlot) == Before(s, OrderBySlot) + SlotText(s, OrderBySlot);
    assert Before(s, OffsetSlot) == Before(s, LimitSlot) + SlotText(s, LimitSlot);
  }

  lemma BeforeNext(s: Statement, k: Slot)
    requires k != OffsetSlot
    ensures Before(s, Next(k)) == Before(s, k) + SlotText(s, k)
  {
  }

  /** Before and after slot `k`, statements that agree outside `k` write the same text. */
  lemma {:induction false} AroundUnchanged(s: Statement, r: Statement, k: Slot)
    requires forall k' :: k' != k ==> SlotText(r, k') == SlotText(s, k')
    requires r.flags == s.flags && r.exprs == s.exprs
    ensures Before(r, k) == Before(s, k) && After(r, k) == After(s, k)
  {
    BeforeUnchanged(s, r, k, k);
    AfterUnchanged(s, r, k, k);
  }

  lemma {:induction false} BeforeUnchanged(s: Statement, r: Statement, k: Slot, j: Slot)
    requires forall k' :: k' != k ==> SlotText(r, k') == SlotText(s, k')
    requires r.flags == s.flags && r.exprs == s.exprs
    requires Rank(j) <= Rank(k)
    ensures Before(r, j) == Before(s, j)
    decreases Rank(j)
  {
    match j
    case FromSlot =>
    case WhereSlot => BeforeUnchanged(s, r, k, FromSlot);
    case GroupBySlot => BeforeUnchanged(s, r, k, WhereSlot);
    case HavingSlot => BeforeUnchanged(s, r, k, GroupBySlot);
    case OrderBySlot => BeforeUnchanged(s, r, k, HavingSlot);
    case LimitSlot => BeforeUnchanged(s, r, k, OrderBySlot);
    case OffsetSlot => BeforeUnchanged(s, r, k, LimitSlot);
  }

  lemma {:induction false} AfterUnchanged(s: Statement, r: Statement, k: Slot, j: Slot)
    requires forall k' :: k' != k ==> SlotText(r, k') == SlotText(s, k')
    requires Rank(j) >= Rank(k)
    ensures After(r, j) == After(s, j)
    decreases 6 - Rank(j)
  {
    if j != OffsetSlot {
      AfterUnchanged(s, r, k, Next(j));
    }
  }

  /** A setter that compiles inserts its clause's text at its slot's fixed
      place and leaves the rest of the output as it was. */
  lemma SetterInsertsClause(s: Statement, c: Call)
    requires Apply(s, c).Success?
    ensures Serialize(s) == Before(s, c.Slot()) + After(s, c.Slot())
    ensures Serialize(Apply(s, c).value) == Before(s, c.Slot()) + ClauseText(c) + After(s, c.Slot())
  {
    var r := Apply(s, c).value;
    var k := c.Slot();
    AgreeExceptSlots(s, r, k);
    forall k' | k' != k ensures SlotText(r, k') == SlotText(s, k') {
      assert SlotCall(r, k') == SlotCall(s, k');
    }
    AroundUnchanged(s, r, k);
    SerializeAround(s, k);
    SerializeAround(r, k);
    assert Before(s, k) + "" == Before(s, k);
  }

  /** A statement without optional clauses serializes without any clause text. */
  lemma AbsentClausesWriteNothing(flags: FlagList, exprs: ExpressionList)
    ensures Serialize(NewSelect(flags, exprs)) == "SELECT " + flags.text + exprs.text
  {
  }

  /** `run`: allowed only with a from clause; the query handed to the
      connector is the serialized statement, with the from clause at its place. */
  function Run(s: Statement): (query: string)
    requires HasFrom(s)
    ensures query == Before(s, FromSlot) + FromText(s.from.value) + After(s, FromSlot)
  {
    SerializeAround(s, FromSlot);
    Serialize(s)
  }

  /** `select(a, b).from(t).where(a = 5)` reads `SELECT a,b FROM t WHERE a=5`. */
  lemma WhereExample()
    ensures
      var r := ApplyAll(NewSelect(FlagList(""), ExpressionList("a,b")),
                        [CallFrom(["t"]), CallWhere(Where(" WHERE a=5"))]);
      r.Success? && Serialize(r.value) == "SELECT a,b FROM t WHERE a=5"
  {
    var s0 := NewSelect(FlagList(""), ExpressionList("a,b"));
    var cs := [CallFrom(["t"]), CallWhere(Where(" WHERE a=5"))];
    var s2 := Statement(Some(FlagList("")), ExpressionList("a,b"), Some(FromClause(["t"])),
                        Some(Where(" WHERE a=5")), None, None, None, None, None);
    ExampleChain(s0, cs, s2);
    ExampleText(s2);
  }

  lemma ExampleChain(s0: Statement, cs: seq<Call>, s2: Statement)
    requires s0 == NewSelect(FlagList(""), ExpressionList("a,b"))
    requires cs == [CallFrom(["t"]), CallWhere(Where(" WHERE a=5"))]
    requires s2 == Statement(Some(FlagList("")), ExpressionList("a,b"), Some(FromClause(["t"])),
                             Some(Where(" WHERE a=5")), None, None, None, None, None)
    ensures ApplyAll(s0, cs) == Success(s2)
  {
    var s1 := SetFrom(s0, ["t"]);
    assert Apply(s0, cs[0]) == Success(s1);
    assert cs[1..] == [CallWhere(Where(" WHERE a=5"))];
    assert Apply(s1, cs[1]) == Success(s2);
    assert cs[1..][1..] == [];
    assert ApplyAll(s0, cs) == ApplyAll(s1, cs[1..]) == ApplyAll(s2, []);
  }

  lemma ExampleText(s2: Statement)
    requires s2 == Statement(Some(FlagList("")), ExpressionList("a,b"), Some(FromClause(["t"])),
                             Some(Where(" WHERE a=5")), None, None, None, None, None)
    ensures Serialize(s2) == "SELECT a,b FROM t WHERE a=5"
  {
    assert FromText(FromClause(["t"])) == " FROM t";
    assert SlotText(s2, FromSlot) == " FROM t";
    assert SlotText(s2, WhereSlot) == " WHERE a=5";
    assert SlotText(s2, GroupBySlot) == SlotText(s2, HavingSlot) == SlotText(s2, OrderBySlot) == "";
    assert SlotText(s2, LimitSlot) == SlotText(s2, OffsetSlot) == "";
  }

  /** A second `where` and an `offset` before any `limit` are refused with
      the library's diagnostics. */
  lemma RejectionExamples(w: Where, o: Offset)
    ensures
      var s := NewSelect(FlagList(""), ExpressionList("a"));
      ApplyAll(s, [CallFrom(["t"]), CallWhere(w), CallWhere(w)])
        == Failure("cannot call where() twice for a single select")
    ensures
      var s := NewSelect(FlagList(""), ExpressionList("a"));
      ApplyAll(s, [CallFrom(["t"]), CallOffset(o)]) == Failure("cannot call offset() without a limit")
  {
    var s0 := NewSelect(FlagList(""), ExpressionList("a"));
    var s1 := SetFrom(s0, ["t"]);
    var s2 := SetWhere(s1, w);
    var cs := [CallFrom(["t"]), CallWhere(w), CallWhere(w)];
    assert cs[1..] == [CallWhere(w), CallWhere(w)];
    assert cs[1..][1..] == [CallWhere(w)];
    assert ApplyAll(s0, cs) == ApplyAll(s1, cs[1..]) == ApplyAll(s2, [CallWhere(w)]);
    var ds := [CallFrom(["t"]), CallOffset(o)];
    assert ds[1..] == [CallOffset(o)];
    assert ApplyAll(s0, ds) == ApplyAll(s1, [CallOffset(o)]);
  }
}
