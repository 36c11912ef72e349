/** The PollableManager field of pollup/managers.py: declared on an owner
    model, it picks its through class (PollChoice by default), decides at
    class set-up whether that class links generically, guards access on
    unsaved instances, and supplies the content-type filters the ORM adds
    to queries across the relation. */
module PollableField {
  import opened Common
  import opened Linkage
  import opened ThroughTable
  import opened RelationManager
  import opened Inheritance

  /** The part of a lookup path the ORM passes in, and the filter returned. */
  datatype FilterValue = OneContentType(contentType: nat) | ContentTypes(contentTypes: seq<nat>)
  datatype ExtraFilter = ExtraFilter(lookup: string, value: FilterValue)

  /** Whether a content type passes an extra filter (`=` or `__in`). */
  predicate Accepts(f: ExtraFilter, c: nat)
  {
    match f.value
    case OneContentType(one) => c == one
    case ContentTypes(cs) => c in cs
  }

  /** Python's `s[:k]`, where a negative k counts from the end. */
  function SliceTo<T>(s: seq<T>, k: int): (r: seq<T>)
    ensures r <= s
    ensures 0 <= k ==> |r| == if k < |s| then k else |s|
    ensures k < 0 ==> |r| == if |s| + k > 0 then |s| + k else 0
  {
    if 0 <= k then (if k < |s| then s[..k] else s)
    else if |s| + k > 0 then s[..|s| + k]
    else []
  }

  /** Python's `sep.join(parts)`. */
  function Join(sep: string, parts: seq<string>): (r: string)
    ensures parts == [] ==> r == ""
    ensures |parts| == 1 ==> r == parts[0]
    ensures |parts| >= 1 ==> parts[0] <= r
  {
    if parts == [] then ""
    else if |parts| == 1 then parts[0]
    else parts[0] + sep + Join(sep, parts[1..])
  }

  /** Joining one more part puts one separator before it: the parts appear
      in order, separated, with nothing before the first or after the last. */
  lemma {:induction false} JoinSnoc(sep: string, parts: seq<string>, x: string)
    ensures Join(sep, parts + [x]) == (if parts == [] then x else Join(sep, parts) + sep + x)
    decreases |parts|
  {
    if |parts| >= 2 {
      assert (parts + [x])[1..] == parts[1..] + [x];
      JoinSnoc(sep, parts[1..], x);
    } else if |parts| == 1 {
      assert (parts + [x])[1..] == [x];
    }
  }

  /** The content types of a list of models, in order (`map(get_for_model, ...)`). */
  function ContentTypesOf(ct: Model -> nat, ms: seq<Model>): (r: seq<nat>)
    ensures |r| == |ms|
    ensures forall i :: 0 <= i < |ms| ==> r[i] == ct(ms[i])
  {
    if ms == [] then [] else [ct(ms[0])] + ContentTypesOf(ct, ms[1..])
  }

  class PollableManager {
    var through: ChoiceType
    var relatedName: Option<string>
    var blank: bool
    var name: string
    var model: Option<Model>         // the owner, set by contribute_to_class
    var useGfk: Option<bool>         // set by post_through_setup
    var relTo: Option<Model>         // rel.to: the poll model of the through class
    var pollChoicesRelation: bool    // a GenericRelation named poll_choices was added to the owner

    /** `__init__`: `through or PollChoice`. */
    constructor (through: Option<ChoiceType>, relatedName: Option<string>, blank: bool)
      ensures this.through == if through.Some? then through.value else PollChoice
      ensures this.relatedName == relatedName && this.blank == blank
      ensures model.None? && useGfk.None? && relTo.None? && !pollChoicesRelation
    {
      this.through := if through.Some? then through.value else PollChoice;
      this.relatedName := relatedName;
      this.blank := blank;
      name := "";
      model := None;
      useGfk := None;
      relTo := None;
      pollChoicesRelation := false;
    }

    /** `contribute_to_class`, with the through class already resolved: an
        abstract owner only records the field; a concrete one runs
        post_through_setup. */
    method ContributeToClass(cls: Model, clsAbstract: bool, fieldName: string) returns (r: Outcome)
      modifies this
      ensures name == fieldName && model == Some(cls) && through == old(through)
      ensures relatedName == old(relatedName) && blank == old(blank)
      ensures clsAbstract ==> (r == Pass && useGfk == old(useGfk) && relTo == old(relTo)
        && pollChoicesRelation == old(pollChoicesRelation))
      ensures !clsAbstract ==> useGfk == Some(through.kind == Generic)
      ensures !clsAbstract ==> r == (if through.pollModel.None? then Fail(FieldDoesNotExist) else Pass)
      ensures !clsAbstract && r.Pass? ==> (relTo == through.pollModel
        && pollChoicesRelation == (old(pollChoicesRelation) || through.kind == Generic))
      ensures !clsAbstract && r.Fail? ==> (relTo == old(relTo)
        && pollChoicesRelation == old(pollChoicesRelation))
    {
      name := fieldName;
      model := Some(cls);
      if clsAbstract {
        return Pass;
      }
      r := PostThroughSetup();
    }

    /** `post_through_setup`: `use_gfk` is set first; looking up the
        through class's `poll` field fails when it has none; a generic
        through class then gets its GenericRelation on the owner. */
    method PostThroughSetup() returns (r: Outcome)
      modifies this`useGfk, this`relTo, this`pollChoicesRelation
      ensures useGfk == Some(through.kind == Generic)
      ensures through.pollModel.None? ==> (r == Fail(FieldDoesNotExist) && relTo == old(relTo)
        && pollChoicesRelation == old(pollChoicesRelation))
      ensures through.pollModel.Some? ==> (r == Pass && relTo == through.pollModel
        && pollChoicesRelation == (old(pollChoicesRelation) || through.kind == Generic))
    {
      useGfk := Some(through.kind == Generic);
      if through.pollModel.None? {
        return Fail(FieldDoesNotExist);
      }
      relTo := through.pollModel;
      if through.kind == Generic {
        pollChoicesRelation := true;
      }
      r := Pass;
    }

    /** `__get__(instance, owner)`: reading the field on an unsaved instance
        raises ValueError; on the class it gives an unbound manager, on a
        saved instance one bound to it. */
    function Get(instance: Option<Instance>, owner: Model): (r: Result<Binding>)
      requires instance.Some? ==> instance.value.model == owner
      reads this
      ensures r.Failure? <==> instance.Some? && instance.value.pk.None?
      ensures r.Failure? ==> r.error == ValueError
      ensures r.Success? ==> r.value.instance == instance && r.value.model == owner && r.value.through == through
      ensures r.Success? && r.value.instance.Some? ==> r.value.instance.value.pk.Some?
    {
      if instance.Some? && instance.value.pk.None? then Failure(ValueError)
      else Success(Binding(through, owner, instance))
    }

    /** `value_from_object(instance)`: the instance's rows when its key is
        truthy (so neither None nor 0), otherwise nothing. */
    function ValueFromObject(ct: Model -> nat, instance: Instance, rows: seq<ChoiceRecord>): (r: seq<ChoiceRecord>)
      reads this
      ensures !PkTruthy(instance.pk) ==> r == []
      ensures PkTruthy(instance.pk) ==>
        var k := LookupKwargs(through.kind, ct, instance);
        |r| == |LinkedPolls(rows, k)| && forall i :: 0 <= i < |r| ==> r[i] == ChoiceRecord(LinkedPolls(rows, k)[i], k)
    {
      if PkTruthy(instance.pk) then
        var k := LookupKwargs(through.kind, ct, instance);
        LinkedRowsArePolls(rows, k);
        Linked(rows, k)
      else []
    }

    /** `extra_filters(pieces, pos, negate)`: nothing when negated or when the
        through class links specifically; otherwise a content-type filter on
        the owner and every parent-link descendant, an equality when there is
        one such model and an `__in` otherwise. */
    function ExtraFilters(meta: Meta, ghost rank: Model -> nat, ct: Model -> nat, pieces: seq<string>, pos: int, negate: bool): (r: seq<ExtraFilter>)
      reads this
      requires model.Some? && useGfk.Some? && RankedBy(meta, rank)
      ensures r == [] <==> negate || !useGfk.value
      ensures r != [] ==> |r| == 1
      ensures r != [] ==> (r[0].lookup ==
        Join("__", ["poll_choices"] + SliceTo(pieces, pos - 2))
        + (if r[0].value.OneContentType? then "__content_type" else "__content_type__in"))
      ensures r != [] ==> (r[0].value.OneContentType? <==> |Subclasses(meta, rank, model.value)| == 1)
      ensures r != [] ==> forall c :: Accepts(r[0], c) <==> exists i :: 0 <= i < |Subclasses(meta, rank, model.value)| && c == ct(Subclasses(meta, rank, model.value)[i])
    {
      if negate || !useGfk.value then []
      else
        var prefix := Join("__", ["poll_choices"] + SliceTo(pieces, pos - 2));
        var cts := ContentTypesOf(ct, Subclasses(meta, rank, model.value));
        if |cts| == 1 then
          [ExtraFilter(prefix + "__content_type", OneContentType(cts[0]))]
        else
          [ExtraFilter(prefix + "__content_type__in", ContentTypes(cts))]
    }
  }

  /** The rows carrying k are, in order, one row per linked poll. */
  lemma {:induction false} LinkedRowsArePolls(rows: seq<ChoiceRecord>, k: Link)
    ensures |Linked(rows, k)| == |LinkedPolls(rows, k)|
    ensures forall i :: 0 <= i < |Linked(rows, k)| ==> Linked(rows, k)[i] == ChoiceRecord(LinkedPolls(rows, k)[i], k)
    decreases |rows|
  {
    if rows != [] {
      LinkedRowsArePolls(rows[..|rows| - 1], k);
    }
  }

  /** A model inherits from the owner through parent links exactly when its
      content type passes the owner's extra filter (content types being
      distinct per model): the filter counts subclass rows with the base. */
  lemma ExtraFilterCoversDescendants(f: PollableManager, meta: Meta, rank: Model -> nat, ct: Model -> nat, pieces: seq<string>, pos: int, x: Model)
    requires f.model.Some? && f.useGfk == Some(true) && RankedBy(meta, rank) && Injective(ct)
    ensures var r := f.ExtraFilters(meta, rank, ct, pieces, pos, false);
      |r| == 1 && (Accepts(r[0], ct(x)) <==> Descends(meta, f.model.value, x))
  {
    var subs := Subclasses(meta, rank, f.model.value);
    SubclassesExact(meta, rank, f.model.value, x);
    if x in subs {
      var i :| 0 <= i < |subs| && subs[i] == x;
      assert ct(x) == ct(subs[i]);
    }
  }

  /** The owner gets a plain equality filter exactly when no model inherits
      from it through a parent link. */
  lemma ExtraFilterIsEqualityWithoutChildren(f: PollableManager, meta: Meta, rank: Model -> nat, ct: Model -> nat, pieces: seq<string>, pos: int)
    requires f.model.Some? && f.useGfk == Some(true) && RankedBy(meta, rank)
    ensures var r := f.ExtraFilters(meta, rank, ct, pieces, pos, false);
      |r| == 1 && (r[0].value.OneContentType? <==>
        forall i :: 0 <= i < |Fields(meta, f.model.value)| ==> !IsChildLink(Fields(meta, f.model.value)[i]))
  {
    SubclassesSingleton(meta, rank, f.model.value);
  }

  /** An instance with primary key 0 passes the descriptor's guard, but
      value_from_object treats it as unsaved. */
  lemma ZeroKeyIsBoundButEmpty(f: PollableManager, ct: Model -> nat, m: Model, rows: seq<ChoiceRecord>)
    ensures f.Get(Some(Instance(m, Some(0))), m).Success?
    ensures f.ValueFromObject(ct, Instance(m, Some(0)), rows) == []
  {
  }

  /** Generic choices_for asks for the exact content type of the model, so a
      row of a multi-table child never counts as one of its parent's; only the
      field's extra filter widens the query to the child. */
  lemma ChildRowsOnlyThroughExtraFilter(f: PollableManager, meta: Meta, rank: Model -> nat, ct: Model -> nat, pieces: seq<string>, pos: int, x: Instance, p: PollId)
    requires f.model.Some? && f.useGfk == Some(true) && RankedBy(meta, rank) && Injective(ct)
    requires x.pk.Some? && x.model != f.model.value && Descends(meta, f.model.value, x.model)
    ensures Accepts(f.ExtraFilters(meta, rank, ct, pieces, pos, false)[0], LookupKwargs(Generic, ct, x).contentType)
    ensures p !in ChoicesFor([ChoiceRecord(p, LookupKwargs(Generic, ct, x))], Generic, ct, f.model.value, None)
  {
    ExtraFilterCoversDescendants(f, meta, rank, ct, pieces, pos, x.model);
    GenericTypeIsolation(ct, f.model.value, None, x);
  }
}
