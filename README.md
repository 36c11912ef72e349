# pollup core, modelled in Dafny

pollup is a Django application that lets any model carry polls, much as a
tagging application lets a model carry tags. The owner model declares a
`PollableManager` field. The field names a *through* (choice) class, which is
`PollChoice` by default. Each row of that class links one poll to one subject
object, and the link comes in one of two shapes:

- a generic link: a content type plus an object id (`GenericChoiceBase`);
- a specific link: a plain foreign key (`ChoiceBase` / `PollChoiceBase`).

This project models the following parts of pollup:

- the relation manager that `instance.polls` returns: `add`, `remove`, `set`,
  `clear` and the query of polls, bound to one instance or unbound;
- the field itself:
  - the descriptor guard on unsaved instances;
  - `use_gfk`;
  - `value_from_object`;
  - the content-type filters `extra_filters` adds to queries;
  - the multi-table-inheritance walk `_get_subclasses`;
- the linkage resolver of each choice class: `lookup_kwargs`,
  `bulk_lookup_kwargs` and `choices_for`;
- the vote class that `ChoiceMetaClass` synthesises for every concrete choice
  class;
- `choice_field_names`, `choices` and `choice_objects` on `PollBase`.

Modules:

- `Common`: shared datatypes (instances, errors, outcomes).
- `Linkage`: choice classes, link shapes, and the three resolver questions.
- `ThroughTable`: the through table as a sequence of rows. Each ORM call the
  manager makes is a function from the old table to the new one.
- `RelationManager`: the manager as a class over a shared `ChoiceTable`
  object. Its methods are proved against the `ThroughTable` functions, and
  lemmas relate every operation to what the query then returns.
- `Inheritance`: `_get_subclasses` as a recursive function and as the
  source's loop. Both are proved equal to the set of models that descend
  through parent links.
- `PollableField`: the `PollableManager` field as a class whose set-up methods
  update its fields.
- `VoteSynthesis`: `ChoiceMetaClass` and the module namespaces it writes to.
- `PollBase`: the three collecting loops of `PollBase`.

The ORM's content-type service is a parameter `ct: Model -> nat`. Where
distinct models must get distinct content types, lemmas require it to be
injective. A "ranking" function is passed as a ghost parameter. It witnesses
that the parent-link hierarchy has no cycles, which Django guarantees.

## Model

| member | source | states |
|---|---|---|
| Linkage.LookupKwargs | pollup/models.py:178-243 | A generic class's key is (the instance's pk, its model's content type), at models.py:238-243. A specific class's key is the pk as the `content_object` column, at models.py:178-182. |
| Linkage.LookupIdentifiesInstance | pollup/models.py:238-243 | A generic lookup key (object id, content type) is equal for two saved instances exactly when they are the same instance, given distinct content types per model. A specific key (models.py:178-182) does the same within one model. |
| Linkage.BulkLookupKwargs | pollup/models.py:245-251 | As written: the generic variant fails with IndexError exactly on an empty list. The specific variant (models.py:184-188) matches exactly the rows of the given saved instances, and so does the generic one when all instances share one model. |
| Linkage.Pks | pollup/models.py:249 | `[instance.pk for instance in instances]`: one pk per instance, in order. |
| Linkage.Distinct | pollup/models.py:261 | `.distinct()`, as also at models.py:198 and 217: the same polls as the query, each at most once. |
| Linkage.SpecificBulkExact | pollup/models.py:184-188 | `content_object__in` matches a row exactly when the row's link is the lookup key of one of the given saved instances. |
| Linkage.GenericBulkExact | pollup/models.py:245-251 | When all instances belong to one model, the generic bulk filter matches exactly the rows of those instances. |
| Linkage.BulkLookupMixesModels | pollup/models.py:245-251 | With instances of two models, the filter matches a row of an instance not asked for and misses a row of one that was. |
| Linkage.BulkLookupKwargsChecked | pollup/models.py:245-251 | Corrected: fails exactly on an empty or mixed-model list. Otherwise it matches exactly the rows of the given instances. |
| Linkage.CheckedAgreesWhereDefined | pollup/models.py:245-251 | Wherever the corrected resolver succeeds, it gives the as-written result. The two agree on every specific or single-model list. |
| Linkage.Selects | pollup/models.py:190-261 | A row passing choices_for's filter has the link shape of the class's variant. A generic row has the model's content type. With an instance, the row carries that instance's pk. |
| Linkage.SelectedPolls | pollup/models.py:253-261 | The polls of the joined rows are exactly the polls of the rows that pass the choices_for filter. |
| Linkage.ChoicesFor | pollup/models.py:190-261 | A poll is returned exactly when one of its rows passes the filter of its class's variant. That is models.py:253-261 for generic classes and the identical models.py:190-198 and 209-217 for specific ones. The result is distinct, except for the specific variant with an instance, which yields one poll per matching row. |
| Linkage.SelectsInstanceIffLookup | pollup/models.py:253-261 | With an instance of the queried model, the choices_for filter keeps a row exactly when the row carries that instance's lookup_kwargs. |
| Linkage.GenericTypeIsolation | pollup/models.py:253-261 | A row written for an instance of one model never passes generic choices_for of another model. |
| ThroughTable.Linked | pollup/managers.py:100-103 | The filter by one lookup key keeps exactly the rows carrying that key. |
| ThroughTable.LinkedPolls | pollup/managers.py:146-147 | A poll is listed exactly when a row links it with the given key. |
| ThroughTable.Unlinked | pollup/managers.py:167-169 | `clear` keeps exactly the rows whose link is not this instance's key. |
| ThroughTable.WithoutPolls | pollup/managers.py:162-165 | `remove` keeps exactly the rows that do not both carry this key and point at a listed poll. |
| ThroughTable.GetOrCreate | pollup/managers.py:152-155 | get_or_create succeeds exactly when at most one row matches, and then exactly one row matches. It either leaves the table alone or appends the one missing row. |
| ThroughTable.DedupOnto | pollup/managers.py:157-160 | The first occurrences of the polls, appended to a prefix. This is what `set` links. |
| ThroughTable.AddAll | pollup/managers.py:152-155 | `add` keeps the old table as a prefix and appends at most one row per given poll. |
| ThroughTable.SetPolls | pollup/managers.py:157-160 | `set` (clear, then add) never fails. It keeps the rows of other keys as a prefix, and afterwards the key links exactly the distinct given polls, in first-occurrence order. |
| ThroughTable.AddAllAppends | pollup/managers.py:152-155 | `add` only appends rows, and each appended row carries this key and one of the given polls. |
| ThroughTable.AddAllKeepsOthers | pollup/managers.py:152-155 | `add` leaves the rows of every other key unchanged and in order. |
| ThroughTable.AddAllLinksEach | pollup/managers.py:152-155 | After a successful `add`, each given poll has exactly one row with this key. |
| ThroughTable.AddAllOfLinked | pollup/managers.py:152-155 | When every given poll already has exactly one row, `add` succeeds and changes nothing. |
| ThroughTable.AddAllIdempotent | pollup/managers.py:152-155 | Repeating a successful `add` changes nothing. |
| ThroughTable.AddAllOntoUnique | pollup/managers.py:152-155 | On a table where the key links each poll at most once, `add` succeeds and keeps the links unique. It appends exactly the polls not yet linked, in argument order. |
| ThroughTable.AddAllStopsAtFailure | pollup/managers.py:152-155 | After a get_or_create fails, the remaining polls are not tried, and the earlier rows stay. |
| ThroughTable.WithoutPollsKeepsOthers | pollup/managers.py:162-165 | `remove` leaves the rows of every other key unchanged and in order. |
| ThroughTable.WithoutPollsLinked | pollup/managers.py:162-165 | After `remove`, the key links exactly its former polls minus the removed ones. Each poll not removed keeps as many rows with the key as before, and a removed poll keeps none. Uniqueness is preserved. |
| ThroughTable.WithoutUnlinkedPolls | pollup/managers.py:162-165 | Removing polls the key does not link leaves the table unchanged. |
| ThroughTable.UnlinkedKeepsOthers | pollup/managers.py:167-169 | After `clear`, the key links nothing, and the rows of every other key are kept in order. Clearing twice is the same as clearing once. |
| ThroughTable.SetPollsExact | pollup/managers.py:157-160 | `set` never fails. Afterwards the key links each distinct given poll exactly once, in first-occurrence order, and other keys' rows are kept. |
| ThroughTable.SetTwice | pollup/managers.py:157-160 | `set(p1, p2)` followed by `set(p3)` leaves the key linked to p3 alone. |
| RelationManager.PollRelation.QuerySet | pollup/managers.py:146-147 | For a manager bound to an instance of its own model, the query returns exactly the polls that the instance's rows link. |
| RelationManager.PollRelation.Key | pollup/managers.py:149-150 | `_lookup_kwargs()` is a link that choices_for of the instance's own model selects. No other saved instance of that model is selected by it. |
| RelationManager.PollRelation.Add | pollup/managers.py:152-155 | Raises TypeError without an instance and leaves the table alone. Otherwise the new table and outcome are those of get_or_create on each poll in turn, stopping at the first failure. |
| RelationManager.PollRelation.Remove | pollup/managers.py:162-165 | Raises TypeError without an instance. Otherwise deletes exactly this instance's rows for the given polls. |
| RelationManager.PollRelation.Clear | pollup/managers.py:167-169 | Raises TypeError without an instance. Otherwise deletes exactly this instance's rows. |
| RelationManager.PollRelation.Set | pollup/managers.py:157-160 | Raises TypeError without an instance. Otherwise clears, then adds. |
| RelationManager.PollRelation.constructor | pollup/managers.py:140-144 | The manager keeps the through class, model and instance it was handed. |
| RelationManager.SelectedPollsOfInstance | pollup/managers.py:146-147 | For an instance of the queried model, the joined polls are exactly the polls linked by its lookup key, in table order. |
| RelationManager.InstanceQuery | pollup/managers.py:146-147 | A bound manager's query holds exactly the instance's linked polls. It is one per row for specific linkage, and equal to that whenever the links are unique. |
| RelationManager.AddThenQuery | pollup/managers.py:152-155 | After a successful `add`, every added poll is in the instance's query. |
| RelationManager.RemoveThenQuery | pollup/managers.py:162-165 | After `remove`, the query holds exactly the former polls minus the removed ones. For specific linkage, where the query yields one poll per row, each poll not removed appears as often as before and a removed poll not at all. |
| RelationManager.ClearThenQuery | pollup/managers.py:167-169 | After `clear`, the instance's query is empty. |
| RelationManager.SetThenQuery | pollup/managers.py:157-160 | After `set(*ps)`, the query holds each distinct poll of ps exactly once. |
| RelationManager.SetTwiceThenQuery | pollup/managers.py:157-160 | `set(p1, p2)` followed by `set(p3)`: the query then yields p3 alone. |
| RelationManager.SelectedPollsIgnoresUnselected | pollup/models.py:253-261 | Rows whose link the filter rejects have no effect on choices_for. |
| RelationManager.GenericIsolation | pollup/managers.py:152-169 | Under generic linkage, none of add, remove, clear or set on one model's instance changes choices_for of another model, with or without an instance. |
| Inheritance.Subclasses | pollup/managers.py:172-179 | The model comes first. Every later entry ranks strictly below it, so the model occurs once. |
| Inheritance.FromEntries | pollup/managers.py:174-178 | Every model the loop contributes ranks strictly below the model. |
| Inheritance.GetSubclasses | pollup/managers.py:172-179 | The loop with its recursive calls returns the same list as the recursive definition. |
| Inheritance.FromEntriesSound | pollup/managers.py:174-178 | Everything the loop contributes descends from one of the model's parent-link children. |
| Inheritance.SubclassesSound | pollup/managers.py:172-179 | Everything in the result descends from the model through parent links. |
| Inheritance.FromEntriesIncludes | pollup/managers.py:174-178 | Once the loop has passed a child's entry, the loop's output contains that child's whole result. |
| Inheritance.SubclassesComplete | pollup/managers.py:172-179 | The end of every chain of parent-link children is in the result for the chain's start. |
| Inheritance.SubclassesExact | pollup/managers.py:172-179 | A model is in the result exactly when it descends from the given model. |
| Inheritance.SubclassesSingleton | pollup/managers.py:172-179 | The result is the model alone exactly when none of its reverse relations is a parent link. |
| Inheritance.NoChildLinks | pollup/managers.py:174-178 | Without parent-link entries, the loop contributes nothing. |
| PollableField.PollableManager.constructor | pollup/managers.py:46-61 | The through class is the given one or else PollChoice. The related name and blank are kept. Nothing is set up yet. |
| PollableField.PollableManager.ContributeToClass | pollup/managers.py:72-86 | Records name and owner. An abstract owner gets nothing more. A concrete owner runs post_through_setup: on a through class without `poll` it fails and leaves rel.to and the poll_choices flag as they were. |
| PollableField.PollableManager.PostThroughSetup | pollup/managers.py:88-95 | `use_gfk` is set first, true exactly for generic through classes. A through class without a `poll` field then fails. Otherwise rel.to is the poll model, and a generic through class adds the poll_choices relation. |
| PollableField.PollableManager.Get | pollup/managers.py:63-70 | Called with the instance's own model as owner, as Python does. Fails with ValueError exactly for an instance without a primary key. Otherwise it returns a manager over the same through class, bound to the instance (or unbound on the class). |
| PollableField.PollableManager.ValueFromObject | pollup/managers.py:100-103 | No rows for a falsy key (None or 0). Otherwise one row per poll that the instance's lookup key links, in table order. |
| PollableField.PollableManager.ExtraFilters | pollup/managers.py:131-138 | No filter when negated or not generic. Otherwise one filter whose lookup is `"__".join(["poll_choices"] + pieces[:pos-2])` followed by `__content_type` for an equality or `__content_type__in` for a list. The filter is an equality exactly when the owner is its only subclass. It accepts exactly the content types of `_get_subclasses(model)`. |
| PollableField.SliceTo | pollup/managers.py:134 | Python's `pieces[:k]`: a prefix of the input, whose length handles negative k as counting from the end. |
| PollableField.ContentTypesOf | pollup/managers.py:135 | One content type per model, in order. |
| PollableField.Join | pollup/managers.py:134 | Python's `sep.join(parts)`: no parts give the empty string, a single part is returned as it is, and the first part begins the result. |
| PollableField.JoinSnoc | pollup/managers.py:134 | Joining one more part appends the separator and that part, so the parts appear in order with one separator between neighbours. |
| PollableField.LinkedRowsArePolls | pollup/managers.py:100-103 | The instance's rows are, in order, one row per poll it links. |
| PollableField.ExtraFilterCoversDescendants | pollup/managers.py:131-138 | With distinct content types, a model passes the owner's filter exactly when it descends from the owner through parent links. |
| PollableField.ExtraFilterIsEqualityWithoutChildren | pollup/managers.py:131-138 | The filter is a plain equality exactly when no reverse relation of the owner is a parent link. |
| PollableField.ChildRowsOnlyThroughExtraFilter | pollup/models.py:253-261 | Generic choices_for asks for the exact content type of the model (models.py:255), so a multi-table child's row is not among its parent's polls. Only the field's extra filter (managers.py:131-138) accepts the child's content type. |
| PollableField.ZeroKeyIsBoundButEmpty | pollup/managers.py:63-70 | An instance with primary key 0 passes the descriptor's guard, yet value_from_object (managers.py:100-103) returns nothing for it. |
| VoteSynthesis.ForeignKeyTargetAfter | pollup/models.py:110-117 | Inherited VoteBase fields that do not share a name do not change what a name's foreign key points to. |
| VoteSynthesis.SynthesizeVote | pollup/models.py:138-156 | An abstract choice class gets no vote class. A concrete one without a poll field fails. Otherwise it gets `<Name>Vote`, in its module and app, with VoteBase's fields plus `poll` to the poll model and `choice` to the choice class. |
| VoteSynthesis.VoteNameInjective | pollup/models.py:143 | Distinct choice class names give distinct vote class names. |
| VoteSynthesis.Registered | pollup/models.py:154 | The metaclass's `setattr` touches only the choice class's module. There it adds at most the name `<Name>Vote`, and every other binding of every module is unchanged. |
| VoteSynthesis.ModuleRegistry.DefineChoiceClass | pollup/models.py:138-156 | The module namespaces afterwards are the old ones with `<Name>Vote` bound in the choice class's module, and nothing else changed. |
| VoteSynthesis.RegisteredVote | pollup/models.py:153-154 | A concrete choice class's vote class is bound under its name in its own module, with both foreign keys. An abstract class changes nothing. |
| VoteSynthesis.TwoChoiceClasses | pollup/models.py:138-156 | Two concrete choice classes with different names get two vote classes, each pointing at its own choice class, even within one module. |
| PollBase.ChoiceFieldNames | pollup/models.py:59-65 | A name is returned exactly when some reverse relation from a ChoiceBase subclass, through a field of type ForeignKey itself, has that accessor. There are never more names than relations. |
| PollBase.GetChoiceFieldNames | pollup/models.py:59-65 | The loop returns the choice relations' accessors in listing order. |
| PollBase.RowsOf | pollup/models.py:69 | `getattr(poll, name).all()` holds exactly the table's rows that point at the poll. |
| PollBase.Choices | pollup/models.py:67-71 | A row is collected exactly when it points at the poll and sits in the table of one of the named relations. |
| PollBase.PollChoices | pollup/models.py:67-71 | A row is among the poll's choices exactly when it points at the poll and sits in the table of some choice relation. |
| PollBase.GetChoices | pollup/models.py:67-71 | The loop returns the poll's rows, relation after relation, in table order. |
| PollBase.ContentObjects | pollup/models.py:76 | One object per choice, in order: each choice's link. |
| PollBase.GetChoiceObjects | pollup/models.py:73-77 | The nested loop returns the object of each of the poll's choices, in the order of `choices()`. |
| PollBase.ChoiceObjectsAreLinks | pollup/models.py:73-77 | An object is among the poll's choice objects exactly when the table of some choice relation links the poll to it. |
| PollBase.AddMakesChoiceObject | pollup/models.py:73-77 | After a successful `add` on a choice relation's table (managers.py:152-155), the instance is among each added poll's choice objects. |

## Left out

- The ORM runtime is represented only by the functions above. Querysets are
  evaluated eagerly, and the specific variant's `content_object` is a bare
  key column. Database constraints, transactions and concurrent writers are
  not modelled.
- A generic `content_object` is the link itself. Resolving a dangling
  reference to a missing object is not modelled.
- Specific linkage compares only the primary key. The foreign key targets
  one model, so the key is enough, and the instance's model is not checked.
- `add_lazy_relation`: `ContributeToClass` takes the through class as already
  resolved. Naming it by a string and resolving it later is not modelled.
- GenericRelation wiring is kept as a flag (`pollChoicesRelation`). The
  relation's own behaviour belongs to Django.
- The `through is None` half of `use_gfk` is dead: the constructor stores
  `through or PollChoice`. The model keeps only the `GenericChoiceBase` test.
- The m2m hooks of the field are not modelled: `related_query_name`, the
  `m2m_*` names, `db_type`, `m2m_db_table`, `formfield` and
  `save_form_data`. They name columns or delegate to `set`.
- `PollBase.vote`, `winner` and `loser` are stubs in the source.
- `ChoiceType.pollModel` is what `ChoiceBase.poll_model()` returns
  (models.py:170-172), the lookup the metaclass makes at models.py:150. On a
  synthesised vote class, `VoteBase.poll_model()` and `choice_model()`
  (models.py:122-132) correspond to `ForeignKeyTarget(v.fields, "poll")` and
  `ForeignKeyTarget(v.fields, "choice")`. The `*_relname` lookups are not
  modelled.
- Vote uniqueness (`OneVotePerUserMixin`) is only two flags with no
  behaviour behind them, so no rule is modelled for it.
- Vote fields are listed without their form options (`blank`), translations
  or `__unicode__`. `time_stamp` keeps its `auto_now_add` flag.
- `ScheduledPollMixin` (models.py:89-94) is a Poll mixin whose
  `datetime.now()` defaults are not modelled. Neither are the other plain Poll
  fields (`title`, `slug`, `description_or_question`).
- Django version branches: the only `related_name` carried is the `voter`
  one, in its Django 1.2-and-later form. The `poll` related name of
  `PollChoiceBase` (models.py:204) and the `content_type` related name of
  `GenericChoiceBase` (models.py:231) are not modelled. The `UserModel`
  switch is reduced to a model name.
- `admin.py` and the example application are not part of this model.
- Linkage.ChoicesFor: never fails. In the source, every choices_for builds
  its lookup from `poll_relname()` (models.py:194, 197, 213, 216, 257, 260).
  A through class whose `poll` foreign key has no `related_name` would
  therefore raise FieldError on a `None__...` lookup. The model assumes a
  related name is set, as it is for `PollChoiceBase`.
- ThroughTable.SetPolls: rows have no identity in the model. In the source,
  `set` deletes and re-creates the rows of polls it keeps (managers.py:159-160).
  `remove` and `clear` delete rows that a synthesised vote class's `choice`
  foreign key (models.py:151) may point at, so Django's default cascade
  deletes those votes as well. Neither re-creation nor the cascade to votes
  is modelled. `SetPollsExact` says only which polls are linked afterwards.
- Generic choices_for matches the exact content type of `model`
  (models.py:255), so rows of a multi-table child are not among its parent's
  polls. Only `extra_filters` widens a query to subclasses. This is what the
  source does, and the model keeps it.
- Query order: without `order_by`, a Django queryset promises no order. The
  model fixes table order (rows in insertion order). So the "in table order"
  and "in first-occurrence order" readings of `SelectedPollsOfInstance`,
  `ValueFromObject`, `GetChoices`, `SetPolls` and `SetPollsExact` describe
  the model's order, not a promise of the program. Only membership and
  counts carry over.
- VoteSynthesis.SynthesizeVote: the `voter` field's `%(app_label)s_%(class)s`
  related name is kept as a template, not expanded.

## Findings

| source | as written | input that shows it | evidently intended | confidence | as-written member | corrected member |
|---|---|---|---|---|---|---|
| pollup/models.py:245-251 | generic `bulk_lookup_kwargs` filters every object id by the content type of `instances[0]` only | instances `[A(pk=1), B(pk=2)]` of two models: a row for A with pk 2 matches, and the row for B with pk 2 does not | match exactly the rows of the given instances, refusing (or grouping) mixed models | not executed | Linkage.BulkLookupMixesModels (on Linkage.BulkLookupKwargs) | Linkage.BulkLookupKwargsChecked |
