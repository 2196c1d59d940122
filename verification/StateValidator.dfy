/** The independent observer of state changes (pkg/validator/state.go), for one of the machines it knows a table for. */
module StateValidator {
  import opened Outcomes

  /** What a manager's state-change callback hears. */
  datatype Announcement<S> = Announcement(id: string, from: S, to: S)

  datatype Record<S> = Record(seen: Announcement<S>, valid: bool)

  predicate Listed<S(==)>(table: set<(S, S)>, a: Announcement<S>) {
    (a.from, a.to) in table
  }

  /** The changes the table does not list, in the order they were heard. */
  function Violations<S(==)>(table: set<(S, S)>, heard: seq<Announcement<S>>): seq<Announcement<S>> {
    if heard == [] then []
    else
      var last := heard[|heard| - 1];
      Violations(table, heard[..|heard| - 1]) + if Listed(table, last) then [] else [last]
  }

  lemma {:induction false} NoViolationsIff<S>(table: set<(S, S)>, heard: seq<Announcement<S>>)
    ensures Violations(table, heard) == [] <==> forall a | a in heard :: Listed(table, a)
  {
    if heard != [] {
      var init := heard[..|heard| - 1];
      assert heard == init + [heard[|heard| - 1]];
      NoViolationsIff(table, init);
    }
  }

  class StateValidator<S(==)> {
    const table: set<(S, S)>
    var transitions: seq<Record<S>>
    var violations: seq<Announcement<S>>

    ghost function Heard(): (heard: seq<Announcement<S>>)
      reads this
      ensures |heard| == |transitions|
    {
      seq(|transitions|, i requires 0 <= i < |transitions| reads this => transitions[i].seen)
    }

    ghost predicate Valid()
      reads this
    {
      && violations == Violations(table, Heard())
      && forall r | r in transitions :: r.valid == Listed(table, r.seen)
    }

    constructor (table: set<(S, S)>)
      ensures Valid() && Heard() == [] && this.table == table
    {
      this.table := table;
      transitions, violations := [], [];
    }

    method ValidateTransition(id: string, from: S, to: S) returns (violation: Option<Announcement<S>>)
      requires Valid()
      modifies this
      ensures Valid() && Heard() == old(Heard()) + [Announcement(id, from, to)]
      ensures violation == if (from, to) in table then None else Some(Announcement(id, from, to))
    {
      ghost var before := Heard();
      var seen := Announcement(id, from, to);
      var valid := (from, to) in table;
      transitions := transitions + [Record(seen, valid)];
      ghost var heard := Heard();
      assert heard == before + [seen] && heard[..|heard| - 1] == before;
      if !valid {
        violations := violations + [seen];
        assert Heard() == heard;
        return Some(seen);
      }
      assert Violations(table, before) + [] == violations;
      violation := None;
    }

    method Reset()
      modifies this
      ensures Valid() && Heard() == []
    {
      transitions, violations := [], [];
    }
  }
}
