/** The bound or unbound relation manager of pollup/managers.py
    (_PollableManager): add, remove, set and clear over the through table for
    one instance, and the query of the instance's (or the model's) polls. */
module RelationManager {
  import opened Common
  import opened Linkage
  import opened ThroughTable

  /** What the descriptor hands to a manager: the through class, the model
      the attribute was read on, and the instance (None when read on the
      class, which gives an unbound manager). */
  datatype Binding = Binding(through: ChoiceType, model: Model, instance: Option<Instance>)

  /** The rows of the through class (`through.objects`), shared by every
      manager over it. */
  class ChoiceTable {
    var rows: seq<ChoiceRecord>

    constructor (rows: seq<ChoiceRecord>)
      ensures this.rows == rows
    {
      this.rows := rows;
    }
  }

  class PollRelation {
    const through: ChoiceType
    const model: Model
    const instance: Option<Instance>
    const ct: Model -> nat  // the content-type service
    const table: ChoiceTable

    /** A bound manager's instance is saved: the descriptor refuses the rest. */
    ghost predicate Valid()
    {
      instance.Some? ==> instance.value.pk.Some?
    }

    constructor (b: Binding, ct: Model -> nat, table: ChoiceTable)
      requires b.instance.Some? ==> b.instance.value.pk.Some?
      ensures Valid()
      ensures through == b.through && model == b.model && instance == b.instance
      ensures this.ct == ct && this.table == table
    {
      through := b.through;
      model := b.model;
      instance := b.instance;
      this.ct := ct;
      this.table := table;
    }

    /** `_lookup_kwargs()`: the link this instance's rows carry. */
    function Key(): (r: Link)
      requires Valid() && instance.Some?
      ensures Selects(through.kind, ct, instance.value.model, instance, r)
      ensures forall x: Instance ::
        (x.pk.Some? && x.model == instance.value.model && Selects(through.kind, ct, x.model, Some(x), r)) ==> x == instance.value
    {
      LookupKwargs(through.kind, ct, instance.value)
    }

    /** `get_query_set()`: the polls choices_for finds. For a manager bound to
        an instance of its own model these are exactly the polls the instance
        links, each once unless a specific table repeats a row. */
    function QuerySet(): (r: multiset<PollId>)
      requires Valid()
      reads table
      ensures instance.Some? && instance.value.model == model ==>
        forall p :: p in r <==> p in LinkedPolls(table.rows, Key())
    {
      var r := ChoicesFor(table.rows, through.kind, ct, model, instance);
      if instance.Some? && instance.value.model == model then
        InstanceQuery(table.rows, through.kind, ct, instance.value);
        r
      else r
    }

    /** `add(*polls)`: get_or_create for each poll in turn. */
    method Add(polls: seq<PollId>) returns (r: Outcome)
      requires Valid()
      modifies table
      ensures instance.None? ==> r == Fail(TypeError) && table.rows == old(table.rows)
      ensures instance.Some? ==> Step(table.rows, r) == AddAll(old(table.rows), polls, Key())
    {
      if instance.None? {
        return Fail(TypeError);
      }
      var key := Key();
      var i := 0;
      while i < |polls|
        invariant 0 <= i <= |polls|
        invariant AddAll(old(table.rows), polls[..i], key) == Step(table.rows, Pass)
      {
        assert polls[..i + 1][..i] == polls[..i];
        var s := GetOrCreate(table.rows, polls[i], key);
        table.rows := s.rows;
        if s.outcome.Fail? {
          AddAllStopsAtFailure(old(table.rows), polls, i + 1, key);
          return s.outcome;
        }
        i := i + 1;
      }
      assert polls[..i] == polls;
      r := Pass;
    }

    /** `remove(*polls)`: deletes this instance's rows for those polls. */
    method Remove(polls: seq<PollId>) returns (r: Outcome)
      requires Valid()
      modifies table
      ensures instance.None? ==> r == Fail(TypeError) && table.rows == old(table.rows)
      ensures instance.Some? ==> r == Pass && table.rows == WithoutPolls(old(table.rows), Key(), polls)
    {
      if instance.None? {
        return Fail(TypeError);
      }
      table.rows := WithoutPolls(table.rows, Key(), polls);
      r := Pass;
    }

    /** `clear()`: deletes every row of this instance. */
    method Clear() returns (r: Outcome)
      requires Valid()
      modifies table
      ensures instance.None? ==> r == Fail(TypeError) && table.rows == old(table.rows)
      ensures instance.Some? ==> r == Pass && table.rows == Unlinked(old(table.rows), Key())
    {
      if instance.None? {
        return Fail(TypeError);
      }
      table.rows := Unlinked(table.rows, Key());
      r := Pass;
    }

    /** `set(*polls)`: clear, then add. */
    method Set(polls: seq<PollId>) returns (r: Outcome)
      requires Valid()
      modifies table
      ensures instance.None? ==> r == Fail(TypeError) && table.rows == old(table.rows)
      ensures instance.Some? ==> Step(table.rows, r) == SetPolls(old(table.rows), polls, Key())
    {
      if instance.None? {
        return Fail(TypeError);
      }
      var cleared := Clear();
      r := Add(polls);
    }
  }

  // ---------------------------------------------------------------------
  // What the query shows after each operation

  /** choices_for with an instance of the queried model selects exactly the
      rows carrying that instance's lookup key. */
  lemma {:induction false} SelectedPollsOfInstance(rows: seq<ChoiceRecord>, kind: LinkKind, ct: Model -> nat, x: Instance)
    requires x.pk.Some?
    ensures SelectedPolls(rows, kind, ct, x.model, Some(x)) == LinkedPolls(rows, LookupKwargs(kind, ct, x))
    decreases |rows|
  {
    if rows != [] {
      SelectedPollsOfInstance(rows[..|rows| - 1], kind, ct, x);
      SelectsInstanceIffLookup(kind, ct, x, rows[|rows| - 1].link);
    }
  }

  /** The query of a bound manager: the instance's linked polls, as a set for
      generic linkage (distinct) and one per row for specific linkage; when
      the instance links each poll once, the two agree. */
  lemma InstanceQuery(rows: seq<ChoiceRecord>, kind: LinkKind, ct: Model -> nat, x: Instance)
    requires x.pk.Some?
    ensures var lp := LinkedPolls(rows, LookupKwargs(kind, ct, x));
      && (forall p :: p in ChoicesFor(rows, kind, ct, x.model, Some(x)) <==> p in lp)
      && (kind == Specific ==> ChoicesFor(rows, kind, ct, x.model, Some(x)) == multiset(lp))
      && (NoDup(lp) ==> ChoicesFor(rows, kind, ct, x.model, Some(x)) == multiset(lp))
  {
    var lp := LinkedPolls(rows, LookupKwargs(kind, ct, x));
    SelectedPollsOfInstance(rows, kind, ct, x);
    if NoDup(lp) {
      forall p ensures ChoicesFor(rows, kind, ct, x.model, Some(x))[p] == multiset(lp)[p] {
        MultisetNoDup(lp, p);
      }
    }
  }

  /** After a successful `add`, every added poll is in the instance's query. */
  lemma AddThenQuery(rows: seq<ChoiceRecord>, kind: LinkKind, ct: Model -> nat, x: Instance, ps: seq<PollId>)
    requires x.pk.Some?
    requires AddAll(rows, ps, LookupKwargs(kind, ct, x)).outcome.Pass?
    ensures forall p :: p in ps ==>
      p in ChoicesFor(AddAll(rows, ps, LookupKwargs(kind, ct, x)).rows, kind, ct, x.model, Some(x))
  {
    var k := LookupKwargs(kind, ct, x);
    AddAllLinksEach(rows, ps, k);
    InstanceQuery(AddAll(rows, ps, k).rows, kind, ct, x);
  }

  /** After `remove`, no removed poll is in the instance's query, and every
      other poll it linked still is; for specific linkage, with as many
      entries as before. */
  lemma RemoveThenQuery(rows: seq<ChoiceRecord>, kind: LinkKind, ct: Model -> nat, x: Instance, ps: seq<PollId>)
    requires x.pk.Some?
    ensures var after := WithoutPolls(rows, LookupKwargs(kind, ct, x), ps);
      && (forall p :: p in ChoicesFor(after, kind, ct, x.model, Some(x)) <==>
            p in ChoicesFor(rows, kind, ct, x.model, Some(x)) && p !in ps)
      && (kind == Specific ==> forall p :: (ChoicesFor(after, kind, ct, x.model, Some(x))[p]
            == if p in ps then 0 else ChoicesFor(rows, kind, ct, x.model, Some(x))[p]))
  {
    var k := LookupKwargs(kind, ct, x);
    WithoutPollsLinked(rows, k, ps);
    InstanceQuery(rows, kind, ct, x);
    InstanceQuery(WithoutPolls(rows, k, ps), kind, ct, x);
  }

  /** After `clear`, the instance's query is empty. */
  lemma ClearThenQuery(rows: seq<ChoiceRecord>, kind: LinkKind, ct: Model -> nat, x: Instance)
    requires x.pk.Some?
    ensures ChoicesFor(Unlinked(rows, LookupKwargs(kind, ct, x)), kind, ct, x.model, Some(x)) == multiset{}
  {
    var k := LookupKwargs(kind, ct, x);
    UnlinkedKeepsOthers(rows, k, OtherLink(k));
    InstanceQuery(Unlinked(rows, k), kind, ct, x);
  }

  /** After `set(*ps)`, the instance's query holds each distinct poll of ps
      exactly once. */
  lemma SetThenQuery(rows: seq<ChoiceRecord>, kind: LinkKind, ct: Model -> nat, x: Instance, ps: seq<PollId>)
    requires x.pk.Some?
    ensures var after := SetPolls(rows, ps, LookupKwargs(kind, ct, x));
      && after.outcome == Pass
      && ChoicesFor(after.rows, kind, ct, x.model, Some(x)) == multiset(DedupOnto([], ps))
  {
    var k := LookupKwargs(kind, ct, x);
    SetPollsExact(rows, ps, k, OtherLink(k));
    InstanceQuery(SetPolls(rows, ps, k).rows, kind, ct, x);
  }

  /** `set(p1, p2); set(p3)`: the query then yields p3 alone. */
  lemma SetTwiceThenQuery(rows: seq<ChoiceRecord>, kind: LinkKind, ct: Model -> nat, x: Instance, p1: PollId, p2: PollId, p3: PollId)
    requires x.pk.Some?
    ensures var k := LookupKwargs(kind, ct, x);
      ChoicesFor(SetPolls(SetPolls(rows, [p1, p2], k).rows, [p3], k).rows, kind, ct, x.model, Some(x)) == multiset{p3}
  {
    var k := LookupKwargs(kind, ct, x);
    SetThenQuery(SetPolls(rows, [p1, p2], k).rows, kind, ct, x, [p3]);
    assert [p3][..0] == [];
  }

  // ---------------------------------------------------------------------
  // Type isolation

  /** Rows with a link the query does not select do not affect it. */
  lemma {:induction false} SelectedPollsIgnoresUnselected(rows: seq<ChoiceRecord>, kind: LinkKind, ct: Model -> nat, m: Model, inst: Option<Instance>, k: Link)
    requires inst.Some? ==> inst.value.pk.Some?
    requires !Selects(kind, ct, m, inst, k)
    ensures SelectedPolls(rows, kind, ct, m, inst) == SelectedPolls(Unlinked(rows, k), kind, ct, m, inst)
    decreases |rows|
  {
    if rows != [] {
      var init := rows[..|rows| - 1];
      var last := rows[|rows| - 1];
      SelectedPollsIgnoresUnselected(init, kind, ct, m, inst, k);
      if last.link != k {
        var u := Unlinked(init, k);
        assert (u + [last])[..|u|] == u;
      }
    }
  }

  /** Generic linkage isolates models: no operation on the rows of an
      instance of one model changes choices_for of another model, with or
      without an instance. */
  lemma GenericIsolation(rows: seq<ChoiceRecord>, ct: Model -> nat, x: Instance, ps: seq<PollId>, m: Model, inst: Option<Instance>)
    requires Injective(ct) && x.pk.Some? && x.model != m
    requires inst.Some? ==> inst.value.pk.Some?
    ensures var k := LookupKwargs(Generic, ct, x);
      && ChoicesFor(AddAll(rows, ps, k).rows, Generic, ct, m, inst) == ChoicesFor(rows, Generic, ct, m, inst)
      && ChoicesFor(WithoutPolls(rows, k, ps), Generic, ct, m, inst) == ChoicesFor(rows, Generic, ct, m, inst)
      && ChoicesFor(Unlinked(rows, k), Generic, ct, m, inst) == ChoicesFor(rows, Generic, ct, m, inst)
      && ChoicesFor(SetPolls(rows, ps, k).rows, Generic, ct, m, inst) == ChoicesFor(rows, Generic, ct, m, inst)
  {
    var k := LookupKwargs(Generic, ct, x);
    var k2 := OtherLink(k);
    GenericTypeIsolation(ct, m, inst, x);
    var added := AddAll(rows, ps, k).rows;
    var removed := WithoutPolls(rows, k, ps);
    var cleared := Unlinked(rows, k);
    var replaced := SetPolls(rows, ps, k).rows;
    AddAllKeepsOthers(rows, ps, k, k2);
    WithoutPollsKeepsOthers(rows, k, ps, k2);
    UnlinkedKeepsOthers(rows, k, k2);
    AddAllKeepsOthers(cleared, ps, k, k2);
    SelectedPollsIgnoresUnselected(rows, Generic, ct, m, inst, k);
    SelectedPollsIgnoresUnselected(added, Generic, ct, m, inst, k);
    SelectedPollsIgnoresUnselected(removed, Generic, ct, m, inst, k);
    SelectedPollsIgnoresUnselected(cleared, Generic, ct, m, inst, k);
    SelectedPollsIgnoresUnselected(replaced, Generic, ct, m, inst, k);
  }
}
