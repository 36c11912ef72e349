/** The vote class that ChoiceMetaClass (pollup/models.py) builds for every
    concrete choice class: `<Name>Vote`, a VoteBase subclass with a `poll`
    foreign key to the choice class's poll model and a `choice` foreign key
    to the choice class, registered in the choice class's module. */
module VoteSynthesis {
  import opened Common
  import opened Linkage

  /** A field of a synthesised model class. */
  datatype Field =
    | ForeignKey(name: string, to: Model, relatedName: Option<string>, nullable: bool)
    | IPAddressField(name: string)
    | DateTimeField(name: string, autoNowAdd: bool)

  datatype VoteType = VoteType(name: string, moduleName: string, appLabel: string, fields: seq<Field>)

  /** The user model votes point at. */
  const UserModel: Model := "User"

  /** The fields every vote class inherits from the abstract VoteBase. */
  const VoteBaseFields: seq<Field> := [
    IPAddressField("voter_ip"),
    ForeignKey("voter", UserModel, Some("%(app_label)s_%(class)s_votes"), true),
    DateTimeField("time_stamp", true)
  ]

  function FieldName(f: Field): string
  {
    match f
    case ForeignKey(n, _, _, _) => n
    case IPAddressField(n) => n
    case DateTimeField(n, _) => n
  }

  /** The model the first field called `name` points to, if it is a
      foreign key. */
  function ForeignKeyTarget(fields: seq<Field>, name: string): Option<Model>
  {
    if fields == [] then None
    else if FieldName(fields[0]) == name then
      (if fields[0].ForeignKey? then Some(fields[0].to) else None)
    else ForeignKeyTarget(fields[1..], name)
  }

  /** Fields before the first one called `name` do not decide its target. */
  lemma {:induction false} ForeignKeyTargetAfter(a: seq<Field>, b: seq<Field>, name: string)
    requires forall i :: 0 <= i < |a| ==> FieldName(a[i]) != name
    ensures ForeignKeyTarget(a + b, name) == ForeignKeyTarget(b, name)
  {
    if a == [] {
      assert a + b == b;
    } else {
      assert (a + b)[0] == a[0];
      assert (a + b)[1..] == a[1..] + b;
      assert forall i :: 0 <= i < |a[1..]| ==> a[1..][i] == a[i + 1];
      ForeignKeyTargetAfter(a[1..], b, name);
    }
  }

  /** What ChoiceMetaClass.__new__ adds for a new choice class: nothing for
      an abstract one; for a concrete one without a `poll` field the lookup
      of its poll model raises; otherwise the vote class. */
  function SynthesizeVote(c: ChoiceType): (r: Result<Option<VoteType>>)
    ensures r.Failure? <==> !c.isAbstract && c.pollModel.None?
    ensures r.Failure? ==> r.error == FieldDoesNotExist
    ensures r.Success? ==> (r.value.Some? <==> !c.isAbstract)
    ensures r.Success? && r.value.Some? ==>
      var v := r.value.value;
      && v.name == c.name + "Vote"
      && v.moduleName == c.moduleName && v.appLabel == c.appLabel
      && VoteBaseFields <= v.fields
      && ForeignKeyTarget(v.fields, "poll") == c.pollModel
      && ForeignKeyTarget(v.fields, "choice") == Some(c.name)
  {
    if c.isAbstract then Success(None)
    else if c.pollModel.None? then Failure(FieldDoesNotExist)
    else
      var own := [
        ForeignKey("poll", c.pollModel.value, None, false),
        ForeignKey("choice", c.name, None, false)
      ];
      var fields := VoteBaseFields + own;
      assert |"poll"| == 4 && |"choice"| == 6;
      ForeignKeyTargetAfter(VoteBaseFields, own, "poll");
      ForeignKeyTargetAfter(VoteBaseFields, own, "choice");
      assert own[1..] == [own[1]];
      Success(Some(VoteType(c.name + "Vote", c.moduleName, c.appLabel, fields)))
  }

  /** Distinct choice class names give distinct vote class names. */
  lemma VoteNameInjective(a: string, b: string)
    ensures a + "Vote" == b + "Vote" <==> a == b
  {
    if a + "Vote" == b + "Vote" {
      assert |a| == |b|;
      assert a == (a + "Vote")[..|a|];
      assert b == (b + "Vote")[..|b|];
    }
  }

  /** Module namespaces: for each module, the attributes the metaclass set. */
  type Namespaces = map<string, map<string, VoteType>>

  /** The namespaces after defining choice class c. */
  function Registered(ns: Namespaces, c: ChoiceType): (r: Namespaces)
    requires c.moduleName in ns
    ensures r.Keys == ns.Keys
    ensures forall m :: m in ns && m != c.moduleName ==> r[m] == ns[m]
    ensures ns[c.moduleName].Keys <= r[c.moduleName].Keys <= ns[c.moduleName].Keys + {c.name + "Vote"}
    ensures forall n :: n in ns[c.moduleName] && n != c.name + "Vote" ==> r[c.moduleName][n] == ns[c.moduleName][n]
  {
    match SynthesizeVote(c)
    case Success(Some(v)) => ns[c.moduleName := ns[c.moduleName][v.name := v]]
    case _ => ns
  }

  /** `sys.modules` as far as the metaclass touches it. */
  class ModuleRegistry {
    var namespaces: Namespaces

    constructor (namespaces: Namespaces)
      ensures this.namespaces == namespaces
    {
      this.namespaces := namespaces;
    }

    /** Defining a choice class: the module being imported is registered,
        and `setattr` binds the vote class under its name there. */
    method DefineChoiceClass(c: ChoiceType) returns (r: Result<Option<VoteType>>)
      requires c.moduleName in namespaces
      modifies this
      ensures r == SynthesizeVote(c)
      ensures namespaces == Registered(old(namespaces), c)
    {
      r := SynthesizeVote(c);
      if r.Success? && r.value.Some? {
        var v := r.value.value;
        namespaces := namespaces[c.moduleName := namespaces[c.moduleName][v.name := v]];
      }
    }
  }

  /** A concrete choice class with a poll field always gets its vote class,
      `<Name>Vote`, in its own module; an abstract one changes nothing. */
  lemma RegisteredVote(ns: Namespaces, c: ChoiceType)
    requires c.moduleName in ns
    ensures var after := Registered(ns, c);
      && c.moduleName in after
      && (c.isAbstract ==> after == ns)
      && (!c.isAbstract && c.pollModel.Some? ==>
            && c.name + "Vote" in after[c.moduleName]
            && ForeignKeyTarget(after[c.moduleName][c.name + "Vote"].fields, "choice") == Some(c.name)
            && ForeignKeyTarget(after[c.moduleName][c.name + "Vote"].fields, "poll") == c.pollModel)
  {
  }

  /** Two concrete choice classes with distinct names get two distinct vote
      classes, each pointing at its own choice class, even when both are
      declared in one module. */
  lemma TwoChoiceClasses(ns: Namespaces, c1: ChoiceType, c2: ChoiceType)
    requires c1.moduleName in ns && c2.moduleName in ns
    requires !c1.isAbstract && c1.pollModel.Some? && !c2.isAbstract && c2.pollModel.Some?
    requires c1.name != c2.name
    ensures var after := Registered(Registered(ns, c1), c2);
      && c1.moduleName in after && c2.moduleName in after
      && c1.name + "Vote" in after[c1.moduleName] && c2.name + "Vote" in after[c2.moduleName]
      && ForeignKeyTarget(after[c1.moduleName][c1.name + "Vote"].fields, "choice") == Some(c1.name)
      && ForeignKeyTarget(after[c2.moduleName][c2.name + "Vote"].fields, "choice") == Some(c2.name)
  {
    VoteNameInjective(c1.name, c2.name);
    RegisteredVote(ns, c1);
    RegisteredVote(Registered(ns, c1), c2);
  }
}
