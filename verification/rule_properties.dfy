/**
  Properties of the grading-rule helper: which instances a grade item shows,
  their order, and how saving and deleting associations change the table.
*/
module RuleProperties {
  import opened Wrappers
  import opened RuleHelper

  /** The registry lists each enabled name once (the names are array keys). */
  ghost predicate Distinct(s: seq<string>)
  {
    forall i, j :: 0 <= i < j < |s| ==> s[i] != s[j]
  }

  /** One blank instance per enabled name, in enabled order. */
  function AllBlank(enabled: seq<string>): seq<Rule>
  {
    seq(|enabled|, i requires 0 <= i < |enabled| => Rule(enabled[i], None, None))
  }

  // ---------------------------------------------------------------------
  // Building blocks
  // ---------------------------------------------------------------------

  /** Every row read for a grade item is in use by it, so that check never
      drops a row. */
  lemma RecordsAreInUse(t: Table, g: int)
    ensures forall row :: row in GetRecords(t, g) ==> IsUsedByGradeItem(t, g, row.ruleName)
  {
    forall row | row in GetRecords(t, g) ensures IsUsedByGradeItem(t, g, row.ruleName) {
      var i :| 0 <= i < |t.rows| && t.rows[i] == row;
    }
  }

  /** The instances built from rows of grade item `gi` are exactly the rows
      naming an enabled rule. */
  lemma {:induction false} ActiveRulesFacts(enabled: seq<string>, t: Table, gi: GradeItem, raws: seq<Row>)
    requires forall raw :: raw in raws ==> raw.gradeItemId == gi.id && IsUsedByGradeItem(t, gi.id, raw.ruleName)
    ensures forall x :: x in ActiveRules(enabled, t, gi, raws) ==>
              && x.gradeItem == Some(gi) && x.ruleId.Some? && x.name in enabled
              && Row(x.ruleId.value, gi.id, x.name) in raws
    ensures forall raw :: raw in raws && raw.ruleName in enabled ==>
              Rule(raw.ruleName, Some(gi), Some(raw.id)) in ActiveRules(enabled, t, gi, raws)
    decreases |raws|
  {
    if raws != [] {
      ActiveRulesFacts(enabled, t, gi, raws[1..]);
      assert raws == [raws[0]] + raws[1..];
    }
  }

  /** The blank instances are exactly the enabled names not in `inUse`. */
  lemma {:induction false} BlankFacts(enabled: seq<string>, inUse: seq<string>)
    ensures forall x :: x in BlankInstances(enabled, inUse) ==>
              x == Rule(x.name, None, None) && x.name in enabled && x.name !in inUse
    ensures forall n :: n in enabled && n !in inUse ==> Rule(n, None, None) in BlankInstances(enabled, inUse)
    decreases |enabled|
  {
    if enabled != [] {
      BlankFacts(enabled[1..], inUse);
      assert enabled == [enabled[0]] + enabled[1..];
    }
  }

  lemma {:induction false} BlankWithNothingInUse(enabled: seq<string>)
    ensures BlankInstances(enabled, []) == AllBlank(enabled)
    decreases |enabled|
  {
    if enabled != [] {
      BlankWithNothingInUse(enabled[1..]);
      assert AllBlank(enabled) == [Rule(enabled[0], None, None)] + AllBlank(enabled[1..]);
    }
  }

  /** A name is in use by the grade item exactly when it is enabled and some
      row associates it with the grade item. */
  lemma InUseNames(enabled: seq<string>, t: Table, gi: GradeItem)
    ensures forall n :: n in Names(Active(enabled, t, gi)) <==> n in enabled && IsUsedByGradeItem(t, gi.id, n)
  {
    forall n ensures n in Names(Active(enabled, t, gi)) <==> n in enabled && IsUsedByGradeItem(t, gi.id, n) {
      if n in Names(Active(enabled, t, gi)) {
        InUseNameIsUsed(enabled, t, gi, n);
      }
      if n in enabled && IsUsedByGradeItem(t, gi.id, n) {
        UsedNameIsInUse(enabled, t, gi, n);
      }
    }
  }

  lemma InUseNameIsUsed(enabled: seq<string>, t: Table, gi: GradeItem, n: string)
    requires n in Names(Active(enabled, t, gi))
    ensures n in enabled && IsUsedByGradeItem(t, gi.id, n)
  {
    var active := Active(enabled, t, gi);
    RecordsAreInUse(t, gi.id);
    ActiveRulesFacts(enabled, t, gi, GetRecords(t, gi.id));
    var i :| 0 <= i < |active| && Names(active)[i] == n;
    assert active[i] in active;
  }

  lemma UsedNameIsInUse(enabled: seq<string>, t: Table, gi: GradeItem, n: string)
    requires n in enabled && IsUsedByGradeItem(t, gi.id, n)
    ensures n in Names(Active(enabled, t, gi))
  {
    var raws := GetRecords(t, gi.id);
    var active := Active(enabled, t, gi);
    RecordsAreInUse(t, gi.id);
    ActiveRulesFacts(enabled, t, gi, raws);
    var i :| 0 <= i < |t.rows| && t.rows[i].gradeItemId == gi.id && t.rows[i].ruleName == n;
    var row := t.rows[i];
    assert row in raws;
    var k :| 0 <= k < |active| && active[k] == Rule(n, Some(gi), Some(row.id));
    assert Names(active)[k] == n;
  }

  /** Membership in the unsorted result: an active instance for each row of
      the grade item naming an enabled rule, and, unless only active ones are
      wanted, a blank instance for each enabled name the grade item does not
      use. */
  lemma UnsortedMembers(enabled: seq<string>, t: Table, gi: GradeItem, onlyActive: bool)
    ensures forall x :: x in Unsorted(enabled, t, gi, onlyActive) && !IsBlank(x) ==>
              && x.gradeItem == Some(gi) && x.ruleId.Some? && x.name in enabled
              && Row(x.ruleId.value, gi.id, x.name) in t.rows
    ensures forall row :: row in t.rows && row.gradeItemId == gi.id && row.ruleName in enabled ==>
              Rule(row.ruleName, Some(gi), Some(row.id)) in Unsorted(enabled, t, gi, onlyActive)
    ensures forall x :: x in Unsorted(enabled, t, gi, onlyActive) && IsBlank(x) ==>
              !onlyActive && x == Rule(x.name, None, None) && x.name in enabled
              && !IsUsedByGradeItem(t, gi.id, x.name)
    ensures forall n :: !onlyActive && n in enabled && !IsUsedByGradeItem(t, gi.id, n) ==>
              Rule(n, None, None) in Unsorted(enabled, t, gi, onlyActive)
  {
    var raws := GetRecords(t, gi.id);
    var active := Active(enabled, t, gi);
    RecordsAreInUse(t, gi.id);
    ActiveRulesFacts(enabled, t, gi, raws);
    BlankFacts(enabled, Names(active));
    InUseNames(enabled, t, gi);
  }

  // ---------------------------------------------------------------------
  // The result of GetRulesForGradeItem
  // ---------------------------------------------------------------------

  /** Without a grade item every enabled rule is offered blank, in enabled
      order, whatever `onlyActive` says. */
  lemma NoGradeItem(enabled: seq<string>, t: Table, onlyActive: bool)
    ensures GetRulesForGradeItem(enabled, t, None, onlyActive) == AllBlank(enabled)
  {
    BlankWithNothingInUse(enabled);
  }

  /** With a grade item the result is a reordering of the active instances
      followed by the blank ones. */
  lemma ResultIsPermutation(enabled: seq<string>, t: Table, gi: GradeItem, onlyActive: bool)
    ensures multiset(GetRulesForGradeItem(enabled, t, Some(gi), onlyActive))
            == multiset(Unsorted(enabled, t, gi, onlyActive))
  {
  }

  /** Every applied instance carries the grade item and the id of a row that
      associates its enabled rule with that grade item; rows of rules that are
      not enabled produce nothing. Conversely every such row produces one. */
  lemma ActiveInstancesMatchRows(enabled: seq<string>, t: Table, gi: Option<GradeItem>, onlyActive: bool)
    ensures forall x :: x in GetRulesForGradeItem(enabled, t, gi, onlyActive) && !IsBlank(x) ==>
              && gi.Some? && x.gradeItem == gi && x.ruleId.Some? && x.name in enabled
              && Row(x.ruleId.value, gi.value.id, x.name) in t.rows
    ensures forall row :: gi.Some? && row in t.rows && row.gradeItemId == gi.value.id && row.ruleName in enabled ==>
              Rule(row.ruleName, gi, Some(row.id)) in GetRulesForGradeItem(enabled, t, gi, onlyActive)
  {
    if gi.None? {
      NoGradeItem(enabled, t, onlyActive);
    } else {
      UnsortedMembers(enabled, t, gi.value, onlyActive);
      SameMembers(GetRulesForGradeItem(enabled, t, gi, onlyActive), Unsorted(enabled, t, gi.value, onlyActive));
    }
  }

  /** With `onlyActive` set no blank instance is returned for a grade item. */
  lemma OnlyActiveHasNoBlank(enabled: seq<string>, t: Table, gi: GradeItem)
    ensures forall x :: x in GetRulesForGradeItem(enabled, t, Some(gi), true) ==> !IsBlank(x)
  {
    UnsortedMembers(enabled, t, gi, true);
    SameMembers(GetRulesForGradeItem(enabled, t, Some(gi), true), Unsorted(enabled, t, gi, true));
  }

  /** Without `onlyActive` the blank instances are exactly the enabled names
      the grade item does not use, no name is both applied and blank, and
      every enabled name is shown. */
  lemma BlanksAreUnusedNames(enabled: seq<string>, t: Table, gi: GradeItem)
    ensures forall n :: Rule(n, None, None) in GetRulesForGradeItem(enabled, t, Some(gi), false) <==>
              n in enabled && !IsUsedByGradeItem(t, gi.id, n)
    ensures forall x, y ::
              (&& x in GetRulesForGradeItem(enabled, t, Some(gi), false)
               && y in GetRulesForGradeItem(enabled, t, Some(gi), false)
               && !IsBlank(x) && IsBlank(y)) ==> x.name != y.name
    ensures forall n :: n in enabled ==>
              exists x :: x in GetRulesForGradeItem(enabled, t, Some(gi), false) && x.name == n
  {
    var r := GetRulesForGradeItem(enabled, t, Some(gi), false);
    UnsortedMembers(enabled, t, gi, false);
    SameMembers(r, Unsorted(enabled, t, gi, false));
    forall x, y | x in r && y in r && !IsBlank(x) && IsBlank(y) ensures x.name != y.name {
      assert IsUsedByGradeItem(t, gi.id, x.name) by {
        var row := Row(x.ruleId.value, gi.id, x.name);
        var i :| 0 <= i < |t.rows| && t.rows[i] == row;
      }
    }
    forall n | n in enabled ensures exists x :: x in r && x.name == n {
      if IsUsedByGradeItem(t, gi.id, n) {
        var i :| 0 <= i < |t.rows| && t.rows[i].gradeItemId == gi.id && t.rows[i].ruleName == n;
        assert t.rows[i] in t.rows;
        assert Rule(n, Some(gi), Some(t.rows[i].id)) in r;
      } else {
        assert Rule(n, None, None) in r;
      }
    }
  }

  /** The result is ordered by position in the enabled list. With a grade item
      this is the sort; without one it holds because each name is listed
      once. */
  lemma ResultIsOrdered(enabled: seq<string>, t: Table, gi: Option<GradeItem>, onlyActive: bool)
    ensures gi.Some? ==> SortedByPosition(enabled, GetRulesForGradeItem(enabled, t, gi, onlyActive))
    ensures Distinct(enabled) ==> SortedByPosition(enabled, GetRulesForGradeItem(enabled, t, gi, onlyActive))
  {
    if gi.None? && Distinct(enabled) {
      NoGradeItem(enabled, t, onlyActive);
      var r := AllBlank(enabled);
      forall i, j | 0 <= i < j < |r|
        ensures Position(enabled, r[i].name) <= Position(enabled, r[j].name)
      {
        PositionOfDistinct(enabled, i);
        PositionOfDistinct(enabled, j);
      }
    }
  }

  lemma PositionOfDistinct(enabled: seq<string>, i: nat)
    requires Distinct(enabled) && i < |enabled|
    ensures Position(enabled, enabled[i]) == i
  {
    PositionIsFirstIndex(enabled, enabled[i]);
  }

  lemma SameMembers(a: seq<Rule>, b: seq<Rule>)
    requires multiset(a) == multiset(b)
    ensures forall x :: x in a <==> x in b
  {
    forall x ensures x in a <==> x in b {
      assert x in a <==> x in multiset(a);
      assert x in b <==> x in multiset(b);
    }
  }

  // ---------------------------------------------------------------------
  // How often each instance is shown
  // ---------------------------------------------------------------------

  /** No instance occurs more than once. */
  ghost predicate NoRepeats(s: seq<Rule>)
  {
    forall x :: multiset(s)[x] <= 1
  }

  lemma NoRepeatsCons(h: Rule, rest: seq<Rule>)
    requires h !in rest && NoRepeats(rest)
    ensures NoRepeats([h] + rest)
  {
    assert multiset([h] + rest) == multiset{h} + multiset(rest);
  }

  lemma NoRepeatsConcat(a: seq<Rule>, b: seq<Rule>)
    requires NoRepeats(a) && NoRepeats(b)
    requires forall x :: x in a ==> x !in b
    ensures NoRepeats(a + b)
  {
    assert multiset(a + b) == multiset(a) + multiset(b);
    forall x ensures multiset(a + b)[x] <= 1 {
      if x in a {
        assert x !in multiset(b);
      } else {
        assert x !in multiset(a);
      }
    }
  }

  /** The rows read for a grade item inherit the table's unique ids. */
  lemma {:induction false} GetRecordsUnique(t: Table, g: int)
    requires UniqueIds(t.rows)
    ensures UniqueIds(GetRecords(t, g))
    decreases |t.rows|
  {
    if t.rows != [] {
      var tail := Table(t.rows[1..], t.nextId);
      assert t.rows == [t.rows[0]] + tail.rows;
      UniqueCons(t.rows[0], tail.rows);
      GetRecordsUnique(tail, g);
      if t.rows[0].gradeItemId == g {
        assert GetRecords(t, g) == [t.rows[0]] + GetRecords(tail, g);
        UniqueCons(t.rows[0], GetRecords(tail, g));
      } else {
        assert GetRecords(t, g) == GetRecords(tail, g);
      }
    }
  }

  /** Rows with distinct ids yield each applied instance once: an instance
      carries the id of the row it was built from. */
  lemma {:induction false} ActiveRulesOnce(enabled: seq<string>, t: Table, gi: GradeItem, raws: seq<Row>)
    requires UniqueIds(raws)
    ensures NoRepeats(ActiveRules(enabled, t, gi, raws))
    ensures forall x :: x in ActiveRules(enabled, t, gi, raws) ==> exists raw :: raw in raws && x.ruleId == Some(raw.id)
    decreases |raws|
  {
    if raws != [] {
      var tail := raws[1..];
      assert raws == [raws[0]] + tail;
      UniqueCons(raws[0], tail);
      ActiveRulesOnce(enabled, t, gi, tail);
      var rest := ActiveRules(enabled, t, gi, tail);
      if raws[0].ruleName in enabled && IsUsedByGradeItem(t, gi.id, raws[0].ruleName) {
        var h := Rule(raws[0].ruleName, Some(gi), Some(raws[0].id));
        assert ActiveRules(enabled, t, gi, raws) == [h] + rest;
        forall x | x in rest ensures x != h {
          var raw :| raw in tail && x.ruleId == Some(raw.id);
        }
        NoRepeatsCons(h, rest);
      } else {
        assert ActiveRules(enabled, t, gi, raws) == rest;
      }
    }
  }

  /** With each name listed once, a later name in the list sits one place
      further than in the list's tail. */
  lemma TailPosition(enabled: seq<string>, n: string)
    requires Distinct(enabled) && enabled != [] && n in enabled[1..]
    ensures n != enabled[0]
    ensures Position(enabled, n) == 1 + Position(enabled[1..], n)
  {
    var k :| 0 <= k < |enabled[1..]| && enabled[1..][k] == n;
    assert enabled[k + 1] == n;
  }

  /** With each name listed once, every blank instance is shown once. */
  lemma {:induction false} BlankInstancesOnce(enabled: seq<string>, inUse: seq<string>)
    requires Distinct(enabled)
    ensures NoRepeats(BlankInstances(enabled, inUse))
    decreases |enabled|
  {
    if enabled != [] {
      var tail := enabled[1..];
      DistinctTail(enabled);
      BlankInstancesOnce(tail, inUse);
      BlankFacts(tail, inUse);
      var rest := BlankInstances(tail, inUse);
      if enabled[0] in inUse {
        assert BlankInstances(enabled, inUse) == rest;
      } else {
        var h := Rule(enabled[0], None, None);
        assert BlankInstances(enabled, inUse) == [h] + rest;
        forall x | x in rest ensures x != h {
          TailPosition(enabled, x.name);
        }
        NoRepeatsCons(h, rest);
      }
    }
  }

  /** Strictly increasing by position in the enabled list. */
  ghost predicate StrictlyByPosition(enabled: seq<string>, rules: seq<Rule>)
  {
    forall i, j :: 0 <= i < j < |rules| ==> Position(enabled, rules[i].name) < Position(enabled, rules[j].name)
  }

  /** With each name listed once, the blank instances follow the enabled
      order. */
  lemma {:induction false} BlankInstancesInOrder(enabled: seq<string>, inUse: seq<string>)
    requires Distinct(enabled)
    ensures StrictlyByPosition(enabled, BlankInstances(enabled, inUse))
    decreases |enabled|
  {
    if enabled != [] {
      var tail := enabled[1..];
      DistinctTail(enabled);
      BlankInstancesInOrder(tail, inUse);
      BlankFacts(tail, inUse);
      var rest := BlankInstances(tail, inUse);
      forall x | x in rest ensures Position(enabled, x.name) == 1 + Position(tail, x.name) {
        TailPosition(enabled, x.name);
      }
      StrictShift(enabled, rest);
      if enabled[0] in inUse {
        assert BlankInstances(enabled, inUse) == rest;
      } else {
        var h := Rule(enabled[0], None, None);
        assert BlankInstances(enabled, inUse) == [h] + rest;
        assert Position(enabled, h.name) == 0;
        StrictCons(enabled, h, rest);
      }
    }
  }

  /** Positions one further along the list keep a strict order. */
  lemma StrictShift(enabled: seq<string>, rules: seq<Rule>)
    requires enabled != [] && StrictlyByPosition(enabled[1..], rules)
    requires forall x :: x in rules ==> Position(enabled, x.name) == 1 + Position(enabled[1..], x.name)
    ensures StrictlyByPosition(enabled, rules)
  {
    forall i, j | 0 <= i < j < |rules| ensures Position(enabled, rules[i].name) < Position(enabled, rules[j].name) {
      assert rules[i] in rules && rules[j] in rules;
    }
  }

  /** A head below every element of a strictly ordered tail keeps it strictly
      ordered. */
  lemma StrictCons(enabled: seq<string>, h: Rule, rest: seq<Rule>)
    requires StrictlyByPosition(enabled, rest)
    requires forall x :: x in rest ==> Position(enabled, h.name) < Position(enabled, x.name)
    ensures StrictlyByPosition(enabled, [h] + rest)
  {
    var b := [h] + rest;
    forall i, j | 0 <= i < j < |b| ensures Position(enabled, b[i].name) < Position(enabled, b[j].name) {
      assert b[j] == rest[j - 1];
      if i > 0 { assert b[i] == rest[i - 1]; } else { assert rest[j - 1] in rest; }
    }
  }

  lemma DistinctTail(enabled: seq<string>)
    requires Distinct(enabled) && enabled != []
    ensures Distinct(enabled[1..])
  {
    var tail := enabled[1..];
    forall i, j | 0 <= i < j < |tail| ensures tail[i] != tail[j] {
      assert tail[i] == enabled[i + 1] && tail[j] == enabled[j + 1];
    }
  }

  /** In a valid table, with each rule enabled once, no instance is shown
      twice. With the membership lemmas above this makes each applied row and
      each unused enabled name appear exactly once. */
  lemma ResultHasNoRepeats(enabled: seq<string>, t: Table, gi: Option<GradeItem>, onlyActive: bool)
    requires Valid(t) && Distinct(enabled)
    ensures NoRepeats(GetRulesForGradeItem(enabled, t, gi, onlyActive))
  {
    if gi.None? {
      BlankInstancesOnce(enabled, []);
    } else {
      var g := gi.value;
      var raws := GetRecords(t, g.id);
      var active := Active(enabled, t, g);
      GetRecordsUnique(t, g.id);
      ActiveRulesOnce(enabled, t, g, raws);
      if !onlyActive {
        var blanks := BlankInstances(enabled, Names(active));
        BlankInstancesOnce(enabled, Names(active));
        RecordsAreInUse(t, g.id);
        ActiveRulesFacts(enabled, t, g, raws);
        BlankFacts(enabled, Names(active));
        NoRepeatsConcat(active, blanks);
      }
      assert multiset(GetRulesForGradeItem(enabled, t, gi, onlyActive)) == multiset(Unsorted(enabled, t, g, onlyActive));
    }
  }

  // ---------------------------------------------------------------------
  // Saving and deleting associations
  // ---------------------------------------------------------------------

  /** In a valid table a row is found by its id exactly when it is stored. */
  lemma LookupFindsStoredRow(t: Table, id: int, row: Row)
    requires Valid(t)
    ensures Lookup(t, id) == Some(row) <==> row in t.rows && row.id == id
  {
    if row in t.rows && row.id == id {
      var found := Lookup(t, id).value;
      var i :| 0 <= i < |t.rows| && t.rows[i] == found;
      var j :| 0 <= j < |t.rows| && t.rows[j] == row;
      assert i == j;
    }
  }

  /** After a save the association is in use and its id finds it. */
  lemma SaveThenUsed(t: Table, g: int, name: string)
    requires Valid(t)
    ensures IsUsedByGradeItem(SaveRuleAssociation(t, g, name).0, g, name)
    ensures var (t', id) := SaveRuleAssociation(t, g, name);
            Lookup(t', id) == Some(Row(id, g, name)) && Valid(t')
  {
  }

  /** Deleting an id removes exactly that row: every other id finds what it
      found before, and the table stays valid. */
  lemma DeleteRemovesOnlyThatRow(t: Table, id: int)
    requires Valid(t)
    ensures Valid(DeleteRuleAssociation(t, id))
    ensures Lookup(DeleteRuleAssociation(t, id), id).None?
    ensures forall other :: other != id ==> Lookup(DeleteRuleAssociation(t, id), other) == Lookup(t, other)
  {
    var r := DeleteRuleAssociation(t, id);
    DeleteKeepsValid(t, id);
    forall other | other != id ensures Lookup(r, other) == Lookup(t, other) {
      match Lookup(t, other)
      case Some(row) =>
        LookupFindsStoredRow(t, other, row);
        LookupFindsStoredRow(r, other, row);
      case None =>
        if Lookup(r, other).Some? {
          LookupFindsStoredRow(t, other, Lookup(r, other).value);
        }
    }
  }

  lemma DeleteKeepsValid(t: Table, id: int)
    requires Valid(t)
    ensures Valid(DeleteRuleAssociation(t, id))
  {
    var r := DeleteRuleAssociation(t, id);
    DeleteKeepsUnique(t, id);
    forall i | 0 <= i < |r.rows| ensures r.rows[i].id < r.nextId {
      assert r.rows[i] in t.rows;
    }
  }

  lemma UniqueCons(h: Row, rest: seq<Row>)
    ensures UniqueIds([h] + rest) <==> (forall x :: x in rest ==> x.id != h.id) && UniqueIds(rest)
  {
    var s := [h] + rest;
    if UniqueIds(s) {
      forall x | x in rest ensures x.id != h.id {
        var k :| 0 <= k < |rest| && rest[k] == x;
        assert s[0] == h && s[k + 1] == x;
        assert s[0].id != s[k + 1].id;
      }
      forall i, j | 0 <= i < j < |rest| ensures rest[i].id != rest[j].id {
        assert s[i + 1] == rest[i] && s[j + 1] == rest[j];
      }
    }
    if (forall x :: x in rest ==> x.id != h.id) && UniqueIds(rest) {
      forall i, j | 0 <= i < j < |s| ensures s[i].id != s[j].id {
        assert s[j] == rest[j - 1];
        if i > 0 { assert s[i] == rest[i - 1]; }
      }
    }
  }

  lemma {:induction false} DeleteKeepsUnique(t: Table, id: int)
    requires UniqueIds(t.rows)
    ensures UniqueIds(DeleteRuleAssociation(t, id).rows)
    decreases |t.rows|
  {
    if t.rows != [] {
      var tail := Table(t.rows[1..], t.nextId);
      assert t.rows == [t.rows[0]] + tail.rows;
      UniqueCons(t.rows[0], tail.rows);
      DeleteKeepsUnique(tail, id);
      if t.rows[0].id != id {
        var rest := DeleteRuleAssociation(tail, id);
        UniqueCons(t.rows[0], rest.rows);
      }
    }
  }

  /** Deleting the row a save just created gives back the original rows. */
  lemma DeleteUndoesSave(t: Table, g: int, name: string)
    requires Valid(t)
    ensures DeleteRuleAssociation(SaveRuleAssociation(t, g, name).0, SaveRuleAssociation(t, g, name).1).rows == t.rows
  {
    var row := Row(t.nextId, g, name);
    assert SaveRuleAssociation(t, g, name) == (Table(t.rows + [row], t.nextId + 1), t.nextId);
    DeleteLast(t.rows, row, t.nextId + 1);
  }

  lemma {:induction false} DeleteLast(rows: seq<Row>, row: Row, nextId: int)
    requires forall i :: 0 <= i < |rows| ==> rows[i].id != row.id
    ensures DeleteRuleAssociation(Table(rows + [row], nextId), row.id).rows == rows
    decreases |rows|
  {
    if rows == [] {
      assert DeleteRuleAssociation(Table([], nextId), row.id).rows == [];
    } else {
      assert (rows + [row])[1..] == rows[1..] + [row];
      DeleteLast(rows[1..], row, nextId);
      assert rows == [rows[0]] + rows[1..];
    }
  }
}
