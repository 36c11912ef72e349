/** `_get_subclasses` of pollup/managers.py: a model followed by every model
    that inherits from it through a parent link (multi-table inheritance),
    found by walking the reverse relations listed in each model's field
    names. */
module Inheritance {
  import opened Common

  /** An entry of `model._meta.get_all_field_names()`: a forward field, or a
      reverse relation (a RelatedObject) whose field lives on `source`. */
  datatype FieldEntry = FieldEntry(name: string, isRelatedObject: bool, parentLink: bool, source: Model)

  /** Each model's field entries, in the order the ORM lists them. */
  type Meta = map<Model, seq<FieldEntry>>

  function Fields(meta: Meta, m: Model): seq<FieldEntry>
  {
    if m in meta then meta[m] else []
  }

  /** The entry is the reverse side of a child model's parent link. */
  predicate IsChildLink(e: FieldEntry)
  {
    e.isRelatedObject && e.parentLink
  }

  /** The parent-link hierarchy is acyclic: some rank drops from every model
      to each of its parent-link children. */
  ghost predicate RankedBy(meta: Meta, rank: Model -> nat)
  {
    forall m, i :: 0 <= i < |Fields(meta, m)| && IsChildLink(Fields(meta, m)[i]) ==>
      rank(Fields(meta, m)[i].source) < rank(m)
  }

  /** `_get_subclasses(m)`: m first, then the result for each parent-link
      child in field order. Every later model ranks below m, so m occurs
      once. */
  function Subclasses(meta: Meta, ghost rank: Model -> nat, m: Model): (r: seq<Model>)
    requires RankedBy(meta, rank)
    ensures |r| >= 1 && r[0] == m
    ensures forall i :: 1 <= i < |r| ==> rank(r[i]) < rank(m)
    decreases rank(m), 1, 0
  {
    [m] + FromEntries(meta, rank, m, |Fields(meta, m)|)
  }

  /** What the loop over the first j field entries of m contributes. */
  function FromEntries(meta: Meta, ghost rank: Model -> nat, m: Model, j: nat): (r: seq<Model>)
    requires RankedBy(meta, rank) && j <= |Fields(meta, m)|
    ensures forall i :: 0 <= i < |r| ==> rank(r[i]) < rank(m)
    decreases rank(m), 0, j
  {
    if j == 0 then []
    else
      var e := Fields(meta, m)[j - 1];
      FromEntries(meta, rank, m, j - 1) + (if IsChildLink(e) then Subclasses(meta, rank, e.source) else [])
  }

  /** The loop of `_get_subclasses`, with its recursive calls. */
  method GetSubclasses(meta: Meta, ghost rank: Model -> nat, m: Model) returns (subclasses: seq<Model>)
    requires RankedBy(meta, rank)
    ensures subclasses == Subclasses(meta, rank, m)
    decreases rank(m), 1, 0
  {
    subclasses := [m];
    var fields := Fields(meta, m);
    var j := 0;
    while j < |fields|
      invariant 0 <= j <= |fields|
      invariant subclasses == [m] + FromEntries(meta, rank, m, j)
    {
      var field := fields[j];
      if IsChildLink(field) {
        var more := GetSubclasses(meta, rank, field.source);
        subclasses := subclasses + more;
      }
      j := j + 1;
    }
  }

  // ---------------------------------------------------------------------
  // An independent description: chains of parent-link children

  ghost predicate ChildOf(meta: Meta, parent: Model, child: Model)
  {
    exists i :: 0 <= i < |Fields(meta, parent)| && IsChildLink(Fields(meta, parent)[i])
      && Fields(meta, parent)[i].source == child
  }

  /** p[0], p[1], ... each the parent-link child of the one before. */
  ghost predicate IsChain(meta: Meta, p: seq<Model>)
  {
    |p| >= 1 && forall i :: 0 <= i < |p| - 1 ==> ChildOf(meta, p[i], p[i + 1])
  }

  /** x is m or inherits from m through a chain of parent links. */
  ghost predicate Descends(meta: Meta, m: Model, x: Model)
  {
    exists p :: IsChain(meta, p) && p[0] == m && p[|p| - 1] == x
  }

  lemma {:induction false} FromEntriesSound(meta: Meta, rank: Model -> nat, m: Model, j: nat, x: Model)
    requires RankedBy(meta, rank) && j <= |Fields(meta, m)|
    requires x in FromEntries(meta, rank, m, j)
    ensures exists c :: ChildOf(meta, m, c) && Descends(meta, c, x)
    decreases rank(m), 0, j
  {
    var e := Fields(meta, m)[j - 1];
    if x in FromEntries(meta, rank, m, j - 1) {
      FromEntriesSound(meta, rank, m, j - 1, x);
    } else {
      assert ChildOf(meta, m, e.source);
      SubclassesSound(meta, rank, e.source, x);
    }
  }

  /** Everything `_get_subclasses(m)` returns descends from m. */
  lemma {:induction false} SubclassesSound(meta: Meta, rank: Model -> nat, m: Model, x: Model)
    requires RankedBy(meta, rank)
    requires x in Subclasses(meta, rank, m)
    ensures Descends(meta, m, x)
    decreases rank(m), 1, 0
  {
    if x == m {
      assert IsChain(meta, [m]);
    } else {
      FromEntriesSound(meta, rank, m, |Fields(meta, m)|, x);
      var c :| ChildOf(meta, m, c) && Descends(meta, c, x);
      var p :| IsChain(meta, p) && p[0] == c && p[|p| - 1] == x;
      var q := [m] + p;
      assert forall i :: 1 <= i < |q| - 1 ==> q[i] == p[i - 1] && q[i + 1] == p[i];
      assert IsChain(meta, q);
    }
  }

  /** The result for a child at entry i is part of the loop's output once
      the loop has passed entry i. */
  lemma {:induction false} FromEntriesIncludes(meta: Meta, rank: Model -> nat, m: Model, i: nat, j: nat)
    requires RankedBy(meta, rank) && i < j <= |Fields(meta, m)|
    requires IsChildLink(Fields(meta, m)[i])
    ensures forall x :: x in Subclasses(meta, rank, Fields(meta, m)[i].source) ==> x in FromEntries(meta, rank, m, j)
    decreases j
  {
    if i < j - 1 {
      FromEntriesIncludes(meta, rank, m, i, j - 1);
    }
  }

  /** Everything that descends from m is in `_get_subclasses(m)`. */
  lemma {:induction false} SubclassesComplete(meta: Meta, rank: Model -> nat, p: seq<Model>)
    requires RankedBy(meta, rank) && IsChain(meta, p)
    ensures p[|p| - 1] in Subclasses(meta, rank, p[0])
    decreases |p|
  {
    if |p| > 1 {
      var tail := p[1..];
      assert IsChain(meta, tail) by {
        forall i | 0 <= i < |tail| - 1 ensures ChildOf(meta, tail[i], tail[i + 1]) {
          assert tail[i] == p[i + 1] && tail[i + 1] == p[i + 2];
        }
      }
      SubclassesComplete(meta, rank, tail);
      assert ChildOf(meta, p[0], p[1]);
      var i :| 0 <= i < |Fields(meta, p[0])| && IsChildLink(Fields(meta, p[0])[i]) && Fields(meta, p[0])[i].source == p[1];
      FromEntriesIncludes(meta, rank, p[0], i, |Fields(meta, p[0])|);
    }
  }

  /** `_get_subclasses(m)` holds exactly the models that descend from m. */
  lemma SubclassesExact(meta: Meta, rank: Model -> nat, m: Model, x: Model)
    requires RankedBy(meta, rank)
    ensures x in Subclasses(meta, rank, m) <==> Descends(meta, m, x)
  {
    if x in Subclasses(meta, rank, m) {
      SubclassesSound(meta, rank, m, x);
    }
    if Descends(meta, m, x) {
      var p :| IsChain(meta, p) && p[0] == m && p[|p| - 1] == x;
      SubclassesComplete(meta, rank, p);
    }
  }

  /** `_get_subclasses(m)` is `[m]` alone exactly when no reverse relation
      of m is a parent link. */
  lemma {:induction false} SubclassesSingleton(meta: Meta, rank: Model -> nat, m: Model)
    requires RankedBy(meta, rank)
    ensures |Subclasses(meta, rank, m)| == 1 <==> forall i :: 0 <= i < |Fields(meta, m)| ==> !IsChildLink(Fields(meta, m)[i])
  {
    if exists i :: 0 <= i < |Fields(meta, m)| && IsChildLink(Fields(meta, m)[i]) {
      var i :| 0 <= i < |Fields(meta, m)| && IsChildLink(Fields(meta, m)[i]);
      FromEntriesIncludes(meta, rank, m, i, |Fields(meta, m)|);
      assert Fields(meta, m)[i].source in FromEntries(meta, rank, m, |Fields(meta, m)|);
    } else {
      NoChildLinks(meta, rank, m, |Fields(meta, m)|);
    }
  }

  lemma {:induction false} NoChildLinks(meta: Meta, rank: Model -> nat, m: Model, j: nat)
    requires RankedBy(meta, rank) && j <= |Fields(meta, m)|
    requires forall i :: 0 <= i < j ==> !IsChildLink(Fields(meta, m)[i])
    ensures FromEntries(meta, rank, m, j) == []
    decreases j
  {
    if j > 0 {
      NoChildLinks(meta, rank, m, j - 1);
    }
  }
}
