/** The through table of choice rows and what the relation manager's ORM
    calls do to it: get_or_create for `add`, filter-and-delete for `remove`
    and `clear`. The table is a sequence of rows in insertion order; each
    operation is a function from the old table to the new one. */
module ThroughTable {
  import opened Common
  import opened Linkage

  /** The rows carrying link k, in table order. */
  function Linked(rows: seq<ChoiceRecord>, k: Link): (r: seq<ChoiceRecord>)
    ensures forall c :: c in r <==> c in rows && c.link == k
  {
    if rows == [] then []
    else
      var last := rows[|rows| - 1];
      var rest := Linked(rows[..|rows| - 1], k);
      assert forall c :: c in rows <==> c in rows[..|rows| - 1] || c == last;
      if last.link == k then rest + [last] else rest
  }

  /** The polls of the rows carrying link k, one per row, in table order. */
  function LinkedPolls(rows: seq<ChoiceRecord>, k: Link): (r: seq<PollId>)
    ensures forall p :: p in r <==> ChoiceRecord(p, k) in rows
  {
    if rows == [] then []
    else
      var last := rows[|rows| - 1];
      var rest := LinkedPolls(rows[..|rows| - 1], k);
      assert forall c :: c in rows <==> c in rows[..|rows| - 1] || c == last;
      if last.link == k then rest + [last.poll] else rest
  }

  /** The rows whose link is not k, in table order: what `clear` keeps. */
  function Unlinked(rows: seq<ChoiceRecord>, k: Link): (r: seq<ChoiceRecord>)
    ensures forall c :: c in r <==> c in rows && c.link != k
  {
    if rows == [] then []
    else
      var last := rows[|rows| - 1];
      var rest := Unlinked(rows[..|rows| - 1], k);
      assert forall c :: c in rows <==> c in rows[..|rows| - 1] || c == last;
      if last.link != k then rest + [last] else rest
  }

  /** The rows that are not (link k, poll in ps), in table order: what
      `remove(*ps)` keeps. */
  function WithoutPolls(rows: seq<ChoiceRecord>, k: Link, ps: seq<PollId>): (r: seq<ChoiceRecord>)
    ensures forall c :: c in r <==> c in rows && !(c.link == k && c.poll in ps)
  {
    if rows == [] then []
    else
      var last := rows[|rows| - 1];
      var rest := WithoutPolls(rows[..|rows| - 1], k, ps);
      assert forall c :: c in rows <==> c in rows[..|rows| - 1] || c == last;
      if last.link == k && last.poll in ps then rest else rest + [last]
  }

  predicate NoDup(s: seq<PollId>)
  {
    forall i, j :: 0 <= i < j < |s| ==> s[i] != s[j]
  }

  /** A key links each poll at most once. */
  predicate KeyUnique(rows: seq<ChoiceRecord>, k: Link)
  {
    NoDup(LinkedPolls(rows, k))
  }

  /** The table after a call, and how the call ended. */
  datatype Step = Step(rows: seq<ChoiceRecord>, outcome: Outcome)

  /** `get_or_create(poll=p, **k)`: creates the row when none matches, gets
      it when one does, and raises MultipleObjectsReturned otherwise. */
  function GetOrCreate(rows: seq<ChoiceRecord>, p: PollId, k: Link): (s: Step)
    ensures s.outcome.Pass? <==> multiset(LinkedPolls(rows, k))[p] <= 1
    ensures s.outcome.Pass? ==> multiset(LinkedPolls(s.rows, k))[p] == 1
    ensures s.rows == rows || (s.rows == rows + [ChoiceRecord(p, k)] && p !in LinkedPolls(rows, k))
  {
    var n := multiset(LinkedPolls(rows, k))[p];
    if n == 0 then
      LinkedPollsAppend(rows, ChoiceRecord(p, k), k);
      Step(rows + [ChoiceRecord(p, k)], Pass)
    else if n == 1 then Step(rows, Pass)
    else Step(rows, Fail(MultipleObjectsReturned))
  }

  /** `add(*ps)`: get_or_create for each poll in turn; the first failure
      stops the loop and keeps what the earlier calls did. */
  function AddAll(rows: seq<ChoiceRecord>, ps: seq<PollId>, k: Link): (s: Step)
    ensures rows <= s.rows && |s.rows| <= |rows| + |ps|
    decreases |ps|
  {
    if ps == [] then Step(rows, Pass)
    else
      var s := AddAll(rows, ps[..|ps| - 1], k);
      if s.outcome.Fail? then s else GetOrCreate(s.rows, ps[|ps| - 1], k)
  }

  /** `set(*ps)`: clear, then add. */
  function SetPolls(rows: seq<ChoiceRecord>, ps: seq<PollId>, k: Link): (s: Step)
    ensures s.outcome == Pass
    ensures Unlinked(rows, k) <= s.rows
    ensures LinkedPolls(s.rows, k) == DedupOnto([], ps)
  {
    UnlinkedKeepsOthers(rows, k, OtherLink(k));
    AddAllOntoUnique(Unlinked(rows, k), ps, k);
    AddAll(Unlinked(rows, k), ps, k)
  }

  /** Some link other than k. */
  function OtherLink(k: Link): (r: Link)
    ensures r != k
  {
    if k.GenericLink? then SpecificLink(None) else GenericLink(0, 0)
  }

  /** The polls of ps, first occurrences only, appended to acc where not
      already in it. */
  function DedupOnto(acc: seq<PollId>, ps: seq<PollId>): (r: seq<PollId>)
    ensures acc <= r
    ensures forall p :: p in r <==> p in acc || p in ps
    ensures NoDup(acc) ==> NoDup(r)
    decreases |ps|
  {
    if ps == [] then acc
    else
      var d := DedupOnto(acc, ps[..|ps| - 1]);
      assert forall p :: p in ps <==> p in ps[..|ps| - 1] || p == ps[|ps| - 1];
      if ps[|ps| - 1] in d then d else d + [ps[|ps| - 1]]
  }

  // ---------------------------------------------------------------------
  // Helper facts about the row filters

  lemma LinkedPollsAppend(rows: seq<ChoiceRecord>, c: ChoiceRecord, k: Link)
    ensures LinkedPolls(rows + [c], k) == LinkedPolls(rows, k) + (if c.link == k then [c.poll] else [])
  {
    assert (rows + [c])[..|rows|] == rows;
  }

  lemma LinkedAppend(rows: seq<ChoiceRecord>, c: ChoiceRecord, k: Link)
    ensures Linked(rows + [c], k) == Linked(rows, k) + (if c.link == k then [c] else [])
  {
    assert (rows + [c])[..|rows|] == rows;
  }

  lemma UnlinkedAppend(rows: seq<ChoiceRecord>, c: ChoiceRecord, k: Link)
    ensures Unlinked(rows + [c], k) == Unlinked(rows, k) + (if c.link != k then [c] else [])
  {
    assert (rows + [c])[..|rows|] == rows;
  }

  lemma NoDupAppend(s: seq<PollId>, x: PollId)
    ensures NoDup(s + [x]) <==> NoDup(s) && x !in s
  {
    var t := s + [x];
    assert forall i :: 0 <= i < |s| ==> t[i] == s[i];
    assert t[|s|] == x;
  }

  lemma {:induction false} MultisetNoDup(s: seq<PollId>, p: PollId)
    requires NoDup(s)
    ensures multiset(s)[p] == if p in s then 1 else 0
  {
    if s != [] {
      var init := s[..|s| - 1];
      assert s == init + [s[|s| - 1]];
      assert NoDup(init);
      MultisetNoDup(init, p);
    }
  }

  // ---------------------------------------------------------------------
  // add

  /** `add` only appends, and every appended row carries this instance's
      link and one of the given polls. */
  lemma {:induction false} AddAllAppends(rows: seq<ChoiceRecord>, ps: seq<PollId>, k: Link)
    ensures var s := AddAll(rows, ps, k);
      rows <= s.rows && forall i :: |rows| <= i < |s.rows| ==> s.rows[i] == ChoiceRecord(s.rows[i].poll, k) && s.rows[i].poll in ps
    decreases |ps|
  {
    if ps != [] {
      var init := ps[..|ps| - 1];
      var last := ps[|ps| - 1];
      AddAllAppends(rows, init, k);
      var s := AddAll(rows, init, k);
      var t := AddAll(rows, ps, k);
      if s.outcome.Pass? {
        assert t == GetOrCreate(s.rows, last, k);
        forall i | |rows| <= i < |t.rows|
          ensures t.rows[i] == ChoiceRecord(t.rows[i].poll, k) && t.rows[i].poll in ps
        {
          if i < |s.rows| {
            assert t.rows[i] == s.rows[i];
            assert s.rows[i].poll in init;
          } else {
            assert t.rows[i] == ChoiceRecord(last, k);
          }
        }
      } else {
        assert t == s;
        forall i | |rows| <= i < |t.rows|
          ensures t.rows[i].poll in ps
        {
          assert s.rows[i].poll in init;
        }
      }
    }
  }

  /** Rows of every other link survive `add`, in order. */
  lemma {:induction false} AddAllKeepsOthers(rows: seq<ChoiceRecord>, ps: seq<PollId>, k: Link, k2: Link)
    requires k2 != k
    ensures Linked(AddAll(rows, ps, k).rows, k2) == Linked(rows, k2)
    ensures Unlinked(AddAll(rows, ps, k).rows, k) == Unlinked(rows, k)
    decreases |ps|
  {
    if ps != [] {
      var init := ps[..|ps| - 1];
      AddAllKeepsOthers(rows, init, k, k2);
      var s := AddAll(rows, init, k);
      if s.outcome.Pass? {
        var c := ChoiceRecord(ps[|ps| - 1], k);
        LinkedAppend(s.rows, c, k2);
        UnlinkedAppend(s.rows, c, k);
      }
    }
  }

  /** After a successful `add`, each given poll has exactly one row with
      this instance's link. */
  lemma {:induction false} AddAllLinksEach(rows: seq<ChoiceRecord>, ps: seq<PollId>, k: Link)
    requires AddAll(rows, ps, k).outcome.Pass?
    ensures forall p :: p in ps ==> multiset(LinkedPolls(AddAll(rows, ps, k).rows, k))[p] == 1
    decreases |ps|
  {
    if ps != [] {
      var init := ps[..|ps| - 1];
      var last := ps[|ps| - 1];
      var s := AddAll(rows, init, k);
      AddAllLinksEach(rows, init, k);
      var t := GetOrCreate(s.rows, last, k);
      if t.rows != s.rows {
        LinkedPollsAppend(s.rows, ChoiceRecord(last, k), k);
      }
      forall p | p in ps
        ensures multiset(LinkedPolls(t.rows, k))[p] == 1
      {
        if p != last {
          assert p in init;
        }
      }
    }
  }

  /** When every given poll already has exactly one row, `add` changes
      nothing and succeeds. */
  lemma {:induction false} AddAllOfLinked(rows: seq<ChoiceRecord>, ps: seq<PollId>, k: Link)
    requires forall p :: p in ps ==> multiset(LinkedPolls(rows, k))[p] == 1
    ensures AddAll(rows, ps, k) == Step(rows, Pass)
    decreases |ps|
  {
    if ps != [] {
      var init := ps[..|ps| - 1];
      assert forall p :: p in init ==> p in ps;
      AddAllOfLinked(rows, init, k);
    }
  }

  /** `add` is idempotent: adding the same polls again after a successful
      `add` creates no row. */
  lemma AddAllIdempotent(rows: seq<ChoiceRecord>, ps: seq<PollId>, k: Link)
    requires AddAll(rows, ps, k).outcome.Pass?
    ensures AddAll(AddAll(rows, ps, k).rows, ps, k) == AddAll(rows, ps, k)
  {
    AddAllLinksEach(rows, ps, k);
    AddAllOfLinked(AddAll(rows, ps, k).rows, ps, k);
  }

  /** On a table where this instance links each poll at most once, `add`
      succeeds, appends exactly the polls not yet linked (first occurrences,
      in argument order) and keeps the links unique. */
  lemma {:induction false} AddAllOntoUnique(rows: seq<ChoiceRecord>, ps: seq<PollId>, k: Link)
    requires KeyUnique(rows, k)
    ensures AddAll(rows, ps, k).outcome == Pass
    ensures LinkedPolls(AddAll(rows, ps, k).rows, k) == DedupOnto(LinkedPolls(rows, k), ps)
    ensures KeyUnique(AddAll(rows, ps, k).rows, k)
    decreases |ps|
  {
    if ps != [] {
      var init := ps[..|ps| - 1];
      var last := ps[|ps| - 1];
      AddAllOntoUnique(rows, init, k);
      var s := AddAll(rows, init, k);
      MultisetNoDup(LinkedPolls(s.rows, k), last);
      if last !in LinkedPolls(s.rows, k) {
        LinkedPollsAppend(s.rows, ChoiceRecord(last, k), k);
      }
    }
  }

  /** Once a call of `add` fails, the rest of the polls are not tried. */
  lemma {:induction false} AddAllStopsAtFailure(rows: seq<ChoiceRecord>, ps: seq<PollId>, j: nat, k: Link)
    requires j <= |ps| && AddAll(rows, ps[..j], k).outcome.Fail?
    ensures AddAll(rows, ps, k) == AddAll(rows, ps[..j], k)
    decreases |ps| - j
  {
    if j < |ps| {
      var init := ps[..|ps| - 1];
      assert init[..j] == ps[..j];
      AddAllStopsAtFailure(rows, init, j, k);
    } else {
      assert ps[..j] == ps;
    }
  }

  // ---------------------------------------------------------------------
  // remove and clear

  /** `remove` keeps every row of every other link, in order. */
  lemma {:induction false} WithoutPollsKeepsOthers(rows: seq<ChoiceRecord>, k: Link, ps: seq<PollId>, k2: Link)
    requires k2 != k
    ensures Linked(WithoutPolls(rows, k, ps), k2) == Linked(rows, k2)
    ensures Unlinked(WithoutPolls(rows, k, ps), k) == Unlinked(rows, k)
    decreases |rows|
  {
    if rows != [] {
      var init := rows[..|rows| - 1];
      var last := rows[|rows| - 1];
      WithoutPollsKeepsOthers(init, k, ps, k2);
      if !(last.link == k && last.poll in ps) {
        LinkedAppend(WithoutPolls(init, k, ps), last, k2);
        UnlinkedAppend(WithoutPolls(init, k, ps), last, k);
      }
    }
  }

  /** After `remove(*ps)` this instance links exactly the polls it linked
      before that are not in ps, each by as many rows as before. */
  lemma {:induction false} WithoutPollsLinked(rows: seq<ChoiceRecord>, k: Link, ps: seq<PollId>)
    ensures forall p :: p in LinkedPolls(WithoutPolls(rows, k, ps), k) <==> p in LinkedPolls(rows, k) && p !in ps
    ensures forall p :: (multiset(LinkedPolls(WithoutPolls(rows, k, ps), k))[p]
      == if p in ps then 0 else multiset(LinkedPolls(rows, k))[p])
    ensures KeyUnique(rows, k) ==> KeyUnique(WithoutPolls(rows, k, ps), k)
    decreases |rows|
  {
    if rows != [] {
      var init := rows[..|rows| - 1];
      var last := rows[|rows| - 1];
      WithoutPollsLinked(init, k, ps);
      LinkedPollsAppend(init, last, k);
      assert rows == init + [last];
      if !(last.link == k && last.poll in ps) {
        LinkedPollsAppend(WithoutPolls(init, k, ps), last, k);
        if last.link == k {
          NoDupAppend(LinkedPolls(init, k), last.poll);
          NoDupAppend(LinkedPolls(WithoutPolls(init, k, ps), k), last.poll);
        }
      } else {
        NoDupAppend(LinkedPolls(init, k), last.poll);
      }
    }
  }

  /** Removing polls this instance does not link leaves the table as it was. */
  lemma {:induction false} WithoutUnlinkedPolls(rows: seq<ChoiceRecord>, k: Link, ps: seq<PollId>)
    requires forall p :: p in ps ==> p !in LinkedPolls(rows, k)
    ensures WithoutPolls(rows, k, ps) == rows
    decreases |rows|
  {
    if rows != [] {
      var init := rows[..|rows| - 1];
      var last := rows[|rows| - 1];
      assert rows == init + [last];
      assert forall c :: c in init ==> c in rows;
      WithoutUnlinkedPolls(init, k, ps);
      assert last in rows;
    }
  }

  /** `clear` removes every row of this instance and keeps every other row,
      in order. */
  lemma {:induction false} UnlinkedKeepsOthers(rows: seq<ChoiceRecord>, k: Link, k2: Link)
    requires k2 != k
    ensures LinkedPolls(Unlinked(rows, k), k) == []
    ensures Linked(Unlinked(rows, k), k2) == Linked(rows, k2)
    ensures Unlinked(Unlinked(rows, k), k) == Unlinked(rows, k)
    decreases |rows|
  {
    if rows != [] {
      var init := rows[..|rows| - 1];
      var last := rows[|rows| - 1];
      UnlinkedKeepsOthers(init, k, k2);
      if last.link != k {
        LinkedPollsAppend(Unlinked(init, k), last, k);
        LinkedAppend(Unlinked(init, k), last, k2);
        UnlinkedAppend(Unlinked(init, k), last, k);
      }
    }
  }

  // ---------------------------------------------------------------------
  // set

  /** `set(*ps)` never fails; afterwards this instance links exactly one row
      per distinct poll of ps, in first-occurrence order, and every row of
      another link is kept in order. */
  lemma SetPollsExact(rows: seq<ChoiceRecord>, ps: seq<PollId>, k: Link, k2: Link)
    requires k2 != k
    ensures SetPolls(rows, ps, k).outcome == Pass
    ensures LinkedPolls(SetPolls(rows, ps, k).rows, k) == DedupOnto([], ps)
    ensures KeyUnique(SetPolls(rows, ps, k).rows, k)
    ensures Linked(SetPolls(rows, ps, k).rows, k2) == Linked(rows, k2)
  {
    UnlinkedKeepsOthers(rows, k, k2);
    AddAllOntoUnique(Unlinked(rows, k), ps, k);
    AddAllKeepsOthers(Unlinked(rows, k), ps, k, k2);
  }

  /** `set(p1, p2); set(p3)` leaves this instance linked to p3 alone. */
  lemma SetTwice(rows: seq<ChoiceRecord>, p1: PollId, p2: PollId, p3: PollId, k: Link)
    ensures var first := SetPolls(rows, [p1, p2], k);
      LinkedPolls(SetPolls(first.rows, [p3], k).rows, k) == [p3]
  {
    SetPollsExact(SetPolls(rows, [p1, p2], k).rows, [p3], k, OtherLink(k));
    assert [p3][..0] == [];
  }
}
