/** PollBase (pollup/models.py): a poll finds its choice relations among
    the reverse relations of its model, and collects the choice rows and
    the objects they point at across all of them. */
module PollBase {
  import opened Common
  import opened Linkage
  import opened ThroughTable

  /** The exact class of the field behind a reverse relation. A one-to-one
      field is a ForeignKey subclass but not of type ForeignKey. */
  datatype FieldClass = PlainForeignKey | OneToOne | OtherRelation

  /** A reverse relation of the poll model, as `get_all_related_objects`
      lists it: its accessor on the poll, whether the declaring model is a
      ChoiceBase subclass, and the class of the declaring field. */
  datatype RelatedObject = RelatedObject(accessorName: string, fromChoiceClass: bool, fieldClass: FieldClass)

  /** The test `choice_field_names` applies to each relation. */
  predicate IsChoiceRelation(rel: RelatedObject)
  {
    rel.fromChoiceClass && rel.fieldClass == PlainForeignKey
  }

  /** The accessors of the choice relations, in the order listed. */
  function ChoiceFieldNames(rels: seq<RelatedObject>): (r: seq<string>)
    ensures |r| <= |rels|
    ensures forall n :: n in r <==> exists i :: 0 <= i < |rels| && IsChoiceRelation(rels[i]) && rels[i].accessorName == n
  {
    if rels == [] then []
    else
      var last := rels[|rels| - 1];
      var rest := ChoiceFieldNames(rels[..|rels| - 1]);
      assert forall i :: 0 <= i < |rels| - 1 ==> rels[..|rels| - 1][i] == rels[i];
      if IsChoiceRelation(last) then rest + [last.accessorName] else rest
  }

  /** `choice_field_names()`. */
  method GetChoiceFieldNames(rels: seq<RelatedObject>) returns (names: seq<string>)
    ensures names == ChoiceFieldNames(rels)
  {
    names := [];
    var i := 0;
    while i < |rels|
      invariant 0 <= i <= |rels|
      invariant names == ChoiceFieldNames(rels[..i])
    {
      assert rels[..i + 1][..i] == rels[..i];
      if IsChoiceRelation(rels[i]) {
        names := names + [rels[i].accessorName];
      }
      i := i + 1;
    }
    assert rels[..|rels|] == rels;
  }

  /** Every choice relation's accessor leads to a through table. */
  predicate Wired(rels: seq<RelatedObject>, tables: map<string, seq<ChoiceRecord>>)
  {
    forall i :: 0 <= i < |rels| && IsChoiceRelation(rels[i]) ==> rels[i].accessorName in tables
  }

  /** `getattr(poll, name).all()`: the rows of one through table that point
      at the poll, in table order. */
  function RowsOf(rows: seq<ChoiceRecord>, poll: PollId): (r: seq<ChoiceRecord>)
    ensures forall c :: c in r <==> c in rows && c.poll == poll
  {
    if rows == [] then []
    else
      var last := rows[|rows| - 1];
      var rest := RowsOf(rows[..|rows| - 1], poll);
      assert forall c :: c in rows <==> c in rows[..|rows| - 1] || c == last;
      if last.poll == poll then rest + [last] else rest
  }

  /** The poll's rows across the named through tables, table after table. */
  function Choices(tables: map<string, seq<ChoiceRecord>>, names: seq<string>, poll: PollId): (r: seq<ChoiceRecord>)
    requires forall i :: 0 <= i < |names| ==> names[i] in tables
    ensures forall c :: c in r <==> c.poll == poll && exists i :: 0 <= i < |names| && c in tables[names[i]]
  {
    if names == [] then []
    else
      var init := names[..|names| - 1];
      var rest := Choices(tables, init, poll);
      assert forall i :: 0 <= i < |init| ==> init[i] == names[i];
      rest + RowsOf(tables[names[|names| - 1]], poll)
  }

  /** The objects the choices point at, one per choice, in order: a
      choice's `content_object` is what its link identifies. */
  function ContentObjects(cs: seq<ChoiceRecord>): (r: seq<Link>)
    ensures |r| == |cs|
    ensures forall i :: 0 <= i < |cs| ==> r[i] == cs[i].link
  {
    if cs == [] then [] else ContentObjects(cs[..|cs| - 1]) + [cs[|cs| - 1].link]
  }

  lemma ContentObjectsConcat(a: seq<ChoiceRecord>, b: seq<ChoiceRecord>)
    ensures ContentObjects(a + b) == ContentObjects(a) + ContentObjects(b)
  {
  }

  lemma ObjectsStep(tables: map<string, seq<ChoiceRecord>>, names: seq<string>, i: nat, poll: PollId)
    requires i < |names| && forall j :: 0 <= j < |names| ==> names[j] in tables
    ensures ContentObjects(Choices(tables, names[..i + 1], poll))
      == ContentObjects(Choices(tables, names[..i], poll)) + ContentObjects(RowsOf(tables[names[i]], poll))
  {
    assert names[..i + 1][..i] == names[..i];
    ContentObjectsConcat(Choices(tables, names[..i], poll), RowsOf(tables[names[i]], poll));
  }

  lemma ChoiceFieldNamesWired(rels: seq<RelatedObject>, tables: map<string, seq<ChoiceRecord>>)
    requires Wired(rels, tables)
    ensures forall i :: 0 <= i < |ChoiceFieldNames(rels)| ==> ChoiceFieldNames(rels)[i] in tables
  {
    var names := ChoiceFieldNames(rels);
    forall i | 0 <= i < |names|
      ensures names[i] in tables
    {
      assert names[i] in names;
    }
  }

  /** The poll's choices: its rows in the tables of its choice relations. */
  function PollChoices(rels: seq<RelatedObject>, tables: map<string, seq<ChoiceRecord>>, poll: PollId): (r: seq<ChoiceRecord>)
    requires Wired(rels, tables)
    ensures forall c :: c in r <==> (c.poll == poll &&
      exists i :: 0 <= i < |rels| && IsChoiceRelation(rels[i]) && c in tables[rels[i].accessorName])
  {
    ChoiceFieldNamesWired(rels, tables);
    var names := ChoiceFieldNames(rels);
    var r := Choices(tables, names, poll);
    assert forall c :: c in r <==> (c.poll == poll &&
      exists i :: 0 <= i < |rels| && IsChoiceRelation(rels[i]) && c in tables[rels[i].accessorName]) by {
      forall c | c in r
        ensures exists i :: 0 <= i < |rels| && IsChoiceRelation(rels[i]) && c in tables[rels[i].accessorName]
      {
        var n :| 0 <= n < |names| && c in tables[names[n]];
        assert names[n] in names;
      }
      forall c: ChoiceRecord | c.poll == poll && exists i :: 0 <= i < |rels| && IsChoiceRelation(rels[i]) && c in tables[rels[i].accessorName]
        ensures c in r
      {
        var i :| 0 <= i < |rels| && IsChoiceRelation(rels[i]) && c in tables[rels[i].accessorName];
        assert rels[i].accessorName in names;
        var n :| 0 <= n < |names| && names[n] == rels[i].accessorName;
        assert c in tables[names[n]];
      }
    }
    r
  }

  /** `choices()`: the poll's rows of every choice relation. */
  method GetChoices(rels: seq<RelatedObject>, tables: map<string, seq<ChoiceRecord>>, poll: PollId) returns (choices: seq<ChoiceRecord>)
    requires Wired(rels, tables)
    ensures choices == PollChoices(rels, tables, poll)
  {
    var names := GetChoiceFieldNames(rels);
    ChoiceFieldNamesWired(rels, tables);
    choices := [];
    var i := 0;
    while i < |names|
      invariant 0 <= i <= |names|
      invariant choices == Choices(tables, names[..i], poll)
    {
      assert names[..i + 1][..i] == names[..i];
      choices := choices + RowsOf(tables[names[i]], poll);
      i := i + 1;
    }
    assert names[..|names|] == names;
  }

  /** `choice_objects()`: the object of every one of the poll's choices,
      gathered relation by relation. */
  method GetChoiceObjects(rels: seq<RelatedObject>, tables: map<string, seq<ChoiceRecord>>, poll: PollId) returns (objects: seq<Link>)
    requires Wired(rels, tables)
    ensures objects == ContentObjects(PollChoices(rels, tables, poll))
  {
    var names := GetChoiceFieldNames(rels);
    ChoiceFieldNamesWired(rels, tables);
    objects := [];
    var i := 0;
    while i < |names|
      invariant 0 <= i <= |names|
      invariant objects == ContentObjects(Choices(tables, names[..i], poll))
    {
      var rows := RowsOf(tables[names[i]], poll);
      var linked := seq(|rows|, j requires 0 <= j < |rows| => rows[j].link);
      assert linked == ContentObjects(rows);
      ObjectsStep(tables, names, i, poll);
      objects := objects + linked;
      i := i + 1;
    }
    assert names[..|names|] == names;
  }

  /** A poll points at an object exactly when one of its choice relations'
      tables links the poll to it. */
  lemma ChoiceObjectsAreLinks(rels: seq<RelatedObject>, tables: map<string, seq<ChoiceRecord>>, poll: PollId, k: Link)
    requires Wired(rels, tables)
    ensures k in ContentObjects(PollChoices(rels, tables, poll)) <==>
      exists i :: 0 <= i < |rels| && IsChoiceRelation(rels[i]) && poll in LinkedPolls(tables[rels[i].accessorName], k)
  {
    ChoiceFieldNamesWired(rels, tables);
    var names := ChoiceFieldNames(rels);
    var cs := Choices(tables, names, poll);
    var objs := ContentObjects(cs);
    if k in objs {
      var j :| 0 <= j < |objs| && objs[j] == k;
      assert cs[j] in cs;
      var n :| 0 <= n < |names| && cs[j] in tables[names[n]];
      assert names[n] in names;
      var i :| 0 <= i < |rels| && IsChoiceRelation(rels[i]) && rels[i].accessorName == names[n];
      assert cs[j] == ChoiceRecord(poll, k);
    }
    if exists i :: 0 <= i < |rels| && IsChoiceRelation(rels[i]) && poll in LinkedPolls(tables[rels[i].accessorName], k) {
      var i :| 0 <= i < |rels| && IsChoiceRelation(rels[i]) && poll in LinkedPolls(tables[rels[i].accessorName], k);
      var n := rels[i].accessorName;
      assert n in names;
      var m :| 0 <= m < |names| && names[m] == n;
      var c := ChoiceRecord(poll, k);
      assert c in tables[names[m]];
      assert c in cs;
      var j :| 0 <= j < |cs| && cs[j] == c;
      assert objs[j] == k;
    }
  }

  /** Adding polls through an owner's relation manager makes the owner an
      object of each of them, and a relation not listed as a choice
      relation is never consulted. */
  lemma AddMakesChoiceObject(rels: seq<RelatedObject>, tables: map<string, seq<ChoiceRecord>>, i: nat, ps: seq<PollId>, k: Link, poll: PollId)
    requires Wired(rels, tables)
    requires i < |rels| && IsChoiceRelation(rels[i])
    requires poll in ps
    requires AddAll(tables[rels[i].accessorName], ps, k).outcome.Pass?
    ensures var after := tables[rels[i].accessorName := AddAll(tables[rels[i].accessorName], ps, k).rows];
      Wired(rels, after) && k in ContentObjects(PollChoices(rels, after, poll))
  {
    var n := rels[i].accessorName;
    var after := tables[n := AddAll(tables[n], ps, k).rows];
    AddAllLinksEach(tables[n], ps, k);
    assert poll in LinkedPolls(after[n], k);
    ChoiceObjectsAreLinks(rels, after, poll, k);
  }
}
