/** The choice linkage resolver of pollup/models.py: a choice class links a
    poll to its subject either through a plain foreign key (ChoiceBase and
    PollChoiceBase, "specific") or through a content type and an object id
    (GenericChoiceBase, "generic"). Each class answers three questions:
    lookup_kwargs, bulk_lookup_kwargs and choices_for. */
module Linkage {
  import opened Common

  /** Whether a choice class inherits GenericChoiceBase. */
  datatype LinkKind = Specific | Generic

  /** A choice (through) class: its name, the module and app it is declared
      in, whether its Meta is abstract, how it links, and the model its
      `poll` foreign key points to (None when it has no `poll` field). */
  datatype ChoiceType = ChoiceType(
    name: string,
    moduleName: string,
    appLabel: string,
    isAbstract: bool,
    kind: LinkKind,
    pollModel: Option<Model>)

  const PollModelName: Model := "Poll"

  /** PollChoice(GenericChoiceBase, PollChoiceBase): generic, and its poll
      foreign key comes from PollChoiceBase. */
  const PollChoice: ChoiceType :=
    ChoiceType("PollChoice", "pollup.models", "pollup", false, Generic, Some(PollModelName))

  /** A poll row, identified by its primary key. */
  type PollId = int

  /** What a choice row stores about its subject. */
  datatype Link =
    | GenericLink(objectId: int, contentType: nat)  // object_id, content_type
    | SpecificLink(target: Option<int>)             // the content_object foreign key column

  /** A row of the through table: the poll and the subject it links. */
  datatype ChoiceRecord = ChoiceRecord(poll: PollId, link: Link)

  /** lookup_kwargs(instance): the link that a row for this saved instance
      carries, `{object_id, content_type}` or `{content_object}`. */
  function LookupKwargs(kind: LinkKind, ct: Model -> nat, x: Instance): (r: Link)
    requires x.pk.Some?
    ensures r.GenericLink? <==> kind == Generic
    ensures r.GenericLink? ==> r.objectId == x.pk.value && r.contentType == ct(x.model)
    ensures r.SpecificLink? ==> r.target == x.pk
  {
    match kind
    case Generic => GenericLink(x.pk.value, ct(x.model))
    case Specific => SpecificLink(x.pk)
  }

  /** A lookup key identifies one saved instance: for generic linkage the
      model and the key, for a specific foreign key (which targets a single
      model) the key. */
  lemma LookupIdentifiesInstance(kind: LinkKind, ct: Model -> nat, x: Instance, y: Instance)
    requires Injective(ct) && x.pk.Some? && y.pk.Some?
    requires kind == Specific ==> x.model == y.model
    ensures LookupKwargs(kind, ct, x) == LookupKwargs(kind, ct, y) <==> x == y
  {
    if kind == Generic && LookupKwargs(kind, ct, x) == LookupKwargs(kind, ct, y) {
      assert ct(x.model) == ct(y.model);
    }
  }

  // ---------------------------------------------------------------------
  // bulk_lookup_kwargs

  /** The filter that bulk_lookup_kwargs builds. */
  datatype BulkFilter =
    | ObjectIdIn(ids: seq<Option<int>>, contentType: nat)  // object_id__in, content_type
    | ContentObjectIn(targets: seq<Option<int>>)            // content_object__in

  /** The primary keys of a list of instances, in order. */
  function Pks(xs: seq<Instance>): (r: seq<Option<int>>)
    ensures |r| == |xs|
    ensures forall i :: 0 <= i < |xs| ==> r[i] == xs[i].pk
  {
    if xs == [] then [] else [xs[0].pk] + Pks(xs[1..])
  }

  /** Whether a row's link passes a bulk filter (SQL `IN` never matches NULL). */
  predicate BulkMatches(f: BulkFilter, link: Link)
  {
    match f
    case ObjectIdIn(ids, c) => link.GenericLink? && Some(link.objectId) in ids && link.contentType == c
    case ContentObjectIn(ts) => link.SpecificLink? && link.target.Some? && link.target in ts
  }

  /** The link is the lookup key of one of the saved instances in xs. */
  predicate LinkedToAny(kind: LinkKind, ct: Model -> nat, xs: seq<Instance>, link: Link)
  {
    exists i :: 0 <= i < |xs| && xs[i].pk.Some? && link == LookupKwargs(kind, ct, xs[i])
  }

  /** All instances belong to one model. */
  predicate SameModel(xs: seq<Instance>)
  {
    forall i :: 0 <= i < |xs| ==> xs[i].model == xs[0].model
  }

  /** bulk_lookup_kwargs as written: the generic variant reads the content
      type of instances[0] only, and an empty list raises IndexError. */
  function BulkLookupKwargs(kind: LinkKind, ct: Model -> nat, xs: seq<Instance>): (r: Result<BulkFilter>)
    ensures r.Failure? <==> kind == Generic && xs == []
    ensures r.Failure? ==> r.error == IndexError
    ensures r.Success? && (kind == Specific || SameModel(xs)) ==>
      forall link :: BulkMatches(r.value, link) <==> LinkedToAny(kind, ct, xs, link)
  {
    match kind
    case Specific =>
      SpecificBulkExact(ct, xs);
      Success(ContentObjectIn(Pks(xs)))
    case Generic =>
      if xs == [] then Failure(IndexError)
      else
        if SameModel(xs) then GenericBulkExact(ct, xs); Success(ObjectIdIn(Pks(xs), ct(xs[0].model)))
        else Success(ObjectIdIn(Pks(xs), ct(xs[0].model)))
  }

  lemma SpecificBulkExact(ct: Model -> nat, xs: seq<Instance>)
    ensures forall link :: BulkMatches(ContentObjectIn(Pks(xs)), link) <==> LinkedToAny(Specific, ct, xs, link)
  {
    forall link | BulkMatches(ContentObjectIn(Pks(xs)), link)
      ensures LinkedToAny(Specific, ct, xs, link)
    {
      var i :| 0 <= i < |Pks(xs)| && Pks(xs)[i] == link.target;
      assert link == LookupKwargs(Specific, ct, xs[i]);
    }
  }

  /** On instances of one model the generic bulk filter matches exactly the
      rows of those instances. */
  lemma GenericBulkExact(ct: Model -> nat, xs: seq<Instance>)
    requires xs != [] && SameModel(xs)
    ensures forall link :: BulkMatches(ObjectIdIn(Pks(xs), ct(xs[0].model)), link) <==> LinkedToAny(Generic, ct, xs, link)
  {
    var f := ObjectIdIn(Pks(xs), ct(xs[0].model));
    forall link | BulkMatches(f, link)
      ensures LinkedToAny(Generic, ct, xs, link)
    {
      var i :| 0 <= i < |Pks(xs)| && Pks(xs)[i] == Some(link.objectId);
      assert link == LookupKwargs(Generic, ct, xs[i]);
    }
    forall link | LinkedToAny(Generic, ct, xs, link)
      ensures BulkMatches(f, link)
    {
      var i :| 0 <= i < |xs| && xs[i].pk.Some? && link == LookupKwargs(Generic, ct, xs[i]);
      assert Pks(xs)[i] == Some(link.objectId);
    }
  }

  /** With instances of two models, the as-written generic filter matches a
      row of an instance that was not asked for (model A, key 2) and misses a
      row of one that was (model B, key 2). */
  lemma BulkLookupMixesModels(ct: Model -> nat)
    requires Injective(ct)
    ensures var xs := [Instance("A", Some(1)), Instance("B", Some(2))];
      && BulkLookupKwargs(Generic, ct, xs).Success?
      && BulkMatches(BulkLookupKwargs(Generic, ct, xs).value, GenericLink(2, ct("A")))
      && !LinkedToAny(Generic, ct, xs, GenericLink(2, ct("A")))
      && LinkedToAny(Generic, ct, xs, GenericLink(2, ct("B")))
      && !BulkMatches(BulkLookupKwargs(Generic, ct, xs).value, GenericLink(2, ct("B")))
  {
    var xs := [Instance("A", Some(1)), Instance("B", Some(2))];
    assert ct("A") != ct("B") by {
      assert "A" != "B" by { assert "A"[0] != "B"[0]; }
    }
    assert Pks(xs) == [Some(1), Some(2)];
    assert LookupKwargs(Generic, ct, xs[0]) == GenericLink(1, ct("A"));
    assert LookupKwargs(Generic, ct, xs[1]) == GenericLink(2, ct("B"));
  }

  /** bulk_lookup_kwargs with the heterogeneous case refused: generic
      linkage fails with MixedModels unless every instance has the model of
      the first, and then matches exactly the rows of the given instances. */
  function BulkLookupKwargsChecked(kind: LinkKind, ct: Model -> nat, xs: seq<Instance>): (r: Result<BulkFilter>)
    ensures r.Failure? <==> kind == Generic && (xs == [] || !SameModel(xs))
    ensures r.Success? ==> forall link :: BulkMatches(r.value, link) <==> LinkedToAny(kind, ct, xs, link)
  {
    match kind
    case Specific => BulkLookupKwargs(kind, ct, xs)
    case Generic =>
      if xs == [] then Failure(IndexError)
      else if !SameModel(xs) then Failure(MixedModels)
      else
        GenericBulkExact(ct, xs);
        Success(ObjectIdIn(Pks(xs), ct(xs[0].model)))
  }

  /** Wherever the corrected resolver answers, it answers as the original
      does: the two differ only on the mixed-model lists it refuses. */
  lemma CheckedAgreesWhereDefined(kind: LinkKind, ct: Model -> nat, xs: seq<Instance>)
    ensures BulkLookupKwargsChecked(kind, ct, xs).Success? ==>
      BulkLookupKwargsChecked(kind, ct, xs) == BulkLookupKwargs(kind, ct, xs)
    ensures kind == Specific || SameModel(xs) ==>
      BulkLookupKwargsChecked(kind, ct, xs) == BulkLookupKwargs(kind, ct, xs)
  {
  }

  // ---------------------------------------------------------------------
  // choices_for

  /** The filter choices_for puts on a choice row: the generic variant keeps
      rows of model's content type (and of the instance's key when one is
      given); the specific one keeps rows pointing at the instance, or any
      row with a non-null subject. */
  predicate Selects(kind: LinkKind, ct: Model -> nat, model: Model, inst: Option<Instance>, link: Link)
    requires inst.Some? ==> inst.value.pk.Some?
    ensures Selects(kind, ct, model, inst, link) ==> (link.GenericLink? <==> kind == Generic)
    ensures Selects(kind, ct, model, inst, link) && kind == Generic ==> link.contentType == ct(model)
    ensures Selects(kind, ct, model, inst, link) && inst.Some? ==>
      (if kind == Generic then link.objectId == inst.value.pk.value else link.target == inst.value.pk)
  {
    match kind
    case Generic =>
      link.GenericLink? && link.contentType == ct(model)
      && (inst.Some? ==> link.objectId == inst.value.pk.value)
    case Specific =>
      link.SpecificLink? && if inst.Some? then link.target == inst.value.pk else link.target.Some?
  }

  /** The polls of the rows that pass the filter, one per row, in table
      order: the join of polls with their choices before any `distinct`. */
  function SelectedPolls(rows: seq<ChoiceRecord>, kind: LinkKind, ct: Model -> nat, model: Model, inst: Option<Instance>): (r: seq<PollId>)
    requires inst.Some? ==> inst.value.pk.Some?
    ensures |r| <= |rows|
    ensures forall p :: p in r <==> exists i :: 0 <= i < |rows| && rows[i].poll == p && Selects(kind, ct, model, inst, rows[i].link)
  {
    if rows == [] then []
    else
      var rest := SelectedPolls(rows[..|rows| - 1], kind, ct, model, inst);
      var last := rows[|rows| - 1];
      assert forall i :: 0 <= i < |rows| - 1 ==> rows[..|rows| - 1][i] == rows[i];
      if Selects(kind, ct, model, inst, last.link) then rest + [last.poll] else rest
  }

  /** Each element of a multiset once (`.distinct()`). */
  function Distinct(ms: multiset<PollId>): (r: multiset<PollId>)
    ensures forall p :: p in r <==> p in ms
    ensures forall p :: r[p] <= 1
  {
    multiset(set p | p in ms)
  }

  /** choices_for(model, instance): the polls having a selected choice row.
      Every variant but the specific one with an instance applies
      `distinct`; that one yields a poll once per matching row. */
  function ChoicesFor(rows: seq<ChoiceRecord>, kind: LinkKind, ct: Model -> nat, model: Model, inst: Option<Instance>): (r: multiset<PollId>)
    requires inst.Some? ==> inst.value.pk.Some?
    ensures forall p :: p in r <==> exists i :: 0 <= i < |rows| && rows[i].poll == p && Selects(kind, ct, model, inst, rows[i].link)
    ensures kind == Generic || inst.None? ==> forall p :: r[p] <= 1
    ensures kind == Specific && inst.Some? ==> |r| == |SelectedPolls(rows, kind, ct, model, inst)|
  {
    var joined := multiset(SelectedPolls(rows, kind, ct, model, inst));
    assert forall p :: p in joined <==> p in SelectedPolls(rows, kind, ct, model, inst);
    if kind == Specific && inst.Some? then joined else Distinct(joined)
  }

  /** With an instance of the queried model, the filter keeps exactly the
      rows carrying that instance's lookup key. */
  lemma SelectsInstanceIffLookup(kind: LinkKind, ct: Model -> nat, x: Instance, link: Link)
    requires x.pk.Some?
    ensures Selects(kind, ct, x.model, Some(x), link) <==> link == LookupKwargs(kind, ct, x)
  {
  }

  /** Generic linkage keeps models apart: a row written for an instance of
      one model never passes choices_for of another model. */
  lemma GenericTypeIsolation(ct: Model -> nat, m: Model, inst: Option<Instance>, x: Instance)
    requires Injective(ct) && x.pk.Some? && x.model != m
    requires inst.Some? ==> inst.value.pk.Some?
    ensures !Selects(Generic, ct, m, inst, LookupKwargs(Generic, ct, x))
  {
  }
}
