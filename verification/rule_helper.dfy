/**
  The grading-rule helper: which rule instances a grade item shows, and the
  table of (grade item, rule name) associations behind it.

  The plugin registry's list of enabled rule names is an input, in the order
  the registry lists them. The association table becomes a sequence of rows
  in storage order plus the next id the database would assign. A rule
  instance is what the rule factory builds from a name, an optional grade
  item and an optional row id; a blank instance has neither.
*/
module RuleHelper {
  import opened Wrappers

  datatype GradeItem = GradeItem(id: int)

  /** One row of the association table. */
  datatype Row = Row(id: int, gradeItemId: int, ruleName: string)

  /** The association table; `nextId` is the id the next insert receives. */
  datatype Table = Table(rows: seq<Row>, nextId: int)

  /** A rule instance as the factory creates it. */
  datatype Rule = Rule(name: string, gradeItem: Option<GradeItem>, ruleId: Option<int>)

  /** An instance not yet applied to any grade item. */
  predicate IsBlank(r: Rule)
  {
    r.gradeItem.None? && r.ruleId.None?
  }

  /** No two rows share an id. */
  ghost predicate UniqueIds(rows: seq<Row>)
  {
    forall i, j :: 0 <= i < j < |rows| ==> rows[i].id != rows[j].id
  }

  /** Row ids are unique and below the next id, as a primary key with an
      auto-increment sequence guarantees. */
  ghost predicate Valid(t: Table)
  {
    && UniqueIds(t.rows)
    && (forall i :: 0 <= i < |t.rows| ==> t.rows[i].id < t.nextId)
  }

  /** The row with the given id, if any. */
  function Lookup(t: Table, id: int): (r: Option<Row>)
    ensures r.Some? ==> r.value in t.rows && r.value.id == id
    ensures r.None? ==> forall row :: row in t.rows ==> row.id != id
    decreases |t.rows|
  {
    if t.rows == [] then None
    else if t.rows[0].id == id then Some(t.rows[0])
    else Lookup(Table(t.rows[1..], t.nextId), id)
  }

  // ---------------------------------------------------------------------
  // Association storage
  // ---------------------------------------------------------------------

  /** Whether some row associates the rule with the grade item. */
  predicate IsUsedByGradeItem(t: Table, gradeItemId: int, ruleName: string)
  {
    exists i :: 0 <= i < |t.rows| && t.rows[i].gradeItemId == gradeItemId && t.rows[i].ruleName == ruleName
  }

  /** Inserts an association and returns the new table and the row's id. */
  function SaveRuleAssociation(t: Table, gradeItemId: int, ruleName: string): (r: (Table, int))
    ensures IsUsedByGradeItem(r.0, gradeItemId, ruleName)
    ensures |r.0.rows| == |t.rows| + 1 && r.0.rows[..|t.rows|] == t.rows
    ensures Valid(t) ==> Valid(r.0) && Lookup(r.0, r.1) == Some(Row(r.1, gradeItemId, ruleName))
    ensures Valid(t) ==> Lookup(t, r.1).None?
  {
    var row := Row(t.nextId, gradeItemId, ruleName);
    var t' := Table(t.rows + [row], t.nextId + 1);
    assert t'.rows[|t.rows|] == row;
    var r := (t', t.nextId);
    assert Valid(t) ==> Lookup(r.0, r.1) == Some(row) by {
      if Valid(t) { LookupPastOthers(t.rows, row, t.nextId + 1); }
    }
    r
  }

  /** Deletes the rows with the given id, keeping the others in order. */
  function DeleteRuleAssociation(t: Table, id: int): (r: Table)
    ensures forall row :: row in r.rows <==> row in t.rows && row.id != id
    ensures r.nextId == t.nextId
    decreases |t.rows|
  {
    if t.rows == [] then t
    else
      var rest := DeleteRuleAssociation(Table(t.rows[1..], t.nextId), id);
      if t.rows[0].id == id then rest else Table([t.rows[0]] + rest.rows, t.nextId)
  }

  /** The rows of one grade item, in storage order. */
  function GetRecords(t: Table, gradeItemId: int): (r: seq<Row>)
    ensures forall row :: row in r <==> row in t.rows && row.gradeItemId == gradeItemId
    decreases |t.rows|
  {
    if t.rows == [] then []
    else
      (if t.rows[0].gradeItemId == gradeItemId then [t.rows[0]] else [])
      + GetRecords(Table(t.rows[1..], t.nextId), gradeItemId)
  }

  // ---------------------------------------------------------------------
  // Selecting the rule instances
  // ---------------------------------------------------------------------

  /** The instances built from `raws`, the grade item's rows: one per row
      whose rule is enabled and in use by the grade item, in row order. */
  function ActiveRules(enabled: seq<string>, t: Table, gi: GradeItem, raws: seq<Row>): (r: seq<Rule>)
    decreases |raws|
  {
    if raws == [] then []
    else
      var raw := raws[0];
      (if raw.ruleName in enabled && IsUsedByGradeItem(t, gi.id, raw.ruleName)
       then [Rule(raw.ruleName, Some(gi), Some(raw.id))]
       else [])
      + ActiveRules(enabled, t, gi, raws[1..])
  }

  /** The names of the given instances, in order. */
  function Names(rules: seq<Rule>): (r: seq<string>)
    ensures |r| == |rules| && forall i :: 0 <= i < |rules| ==> r[i] == rules[i].name
  {
    seq(|rules|, i requires 0 <= i < |rules| => rules[i].name)
  }

  /** One blank instance per enabled name not in `inUse`, in enabled order. */
  function BlankInstances(enabled: seq<string>, inUse: seq<string>): (r: seq<Rule>)
    decreases |enabled|
  {
    if enabled == [] then []
    else
      (if enabled[0] in inUse then [] else [Rule(enabled[0], None, None)])
      + BlankInstances(enabled[1..], inUse)
  }

  /** The instances built from the grade item's rows, before sorting. */
  function Active(enabled: seq<string>, t: Table, gi: GradeItem): seq<Rule>
  {
    ActiveRules(enabled, t, gi, GetRecords(t, gi.id))
  }

  /** The instances shown before sorting: the active ones, followed by the
      blank ones unless only active instances are wanted. */
  function Unsorted(enabled: seq<string>, t: Table, gi: GradeItem, onlyActive: bool): seq<Rule>
  {
    var active := Active(enabled, t, gi);
    if onlyActive then active else active + BlankInstances(enabled, Names(active))
  }

  /** The rule instances shown for a grade item, or for a grade item still to
      be created when `gi` is `None`. */
  function GetRulesForGradeItem(enabled: seq<string>, t: Table, gi: Option<GradeItem>, onlyActive: bool): seq<Rule>
  {
    if gi.None? then BlankInstances(enabled, [])
    else SortRules(enabled, Unsorted(enabled, t, gi.value, onlyActive))
  }

  // ---------------------------------------------------------------------
  // Ordering by position in the enabled list
  // ---------------------------------------------------------------------

  /** The position of the first occurrence of `name` in `enabled`. A name
      that is absent has no position; the search then yields `false`, which
      compares equal to 0 and below every other position, so it counts as 0. */
  function Position(enabled: seq<string>, name: string): nat
    decreases |enabled|
  {
    if enabled == [] then 0
    else if enabled[0] == name then 0
    else if name in enabled[1..] then 1 + Position(enabled[1..], name)
    else 0
  }

  /** Non-decreasing by position in the enabled list. */
  ghost predicate SortedByPosition(enabled: seq<string>, rules: seq<Rule>)
  {
    forall i, j :: 0 <= i < j < |rules| ==> Position(enabled, rules[i].name) <= Position(enabled, rules[j].name)
  }

  /** Inserts `x` before the first instance whose position is not below its own. */
  function Insert(enabled: seq<string>, x: Rule, sorted: seq<Rule>): (r: seq<Rule>)
    ensures multiset(r) == multiset(sorted) + multiset{x}
    ensures forall y :: y in r ==> y == x || y in sorted
    decreases |sorted|
  {
    if sorted == [] then [x]
    else if Position(enabled, x.name) <= Position(enabled, sorted[0].name) then [x] + sorted
    else
      assert sorted == [sorted[0]] + sorted[1..];
      [sorted[0]] + Insert(enabled, x, sorted[1..])
  }

  /** Sorts instances by position in the enabled list, keeping the relative
      order of instances at equal positions. */
  function SortRules(enabled: seq<string>, rules: seq<Rule>): (r: seq<Rule>)
    ensures multiset(r) == multiset(rules)
    ensures SortedByPosition(enabled, r)
    decreases |rules|
  {
    if rules == [] then []
    else
      assert rules == [rules[0]] + rules[1..];
      var rest := SortRules(enabled, rules[1..]);
      InsertKeepsSorted(enabled, rules[0], rest);
      Insert(enabled, rules[0], rest)
  }

  lemma {:induction false} InsertKeepsSorted(enabled: seq<string>, x: Rule, sorted: seq<Rule>)
    requires SortedByPosition(enabled, sorted)
    ensures SortedByPosition(enabled, Insert(enabled, x, sorted))
    decreases |sorted|
  {
    if sorted != [] && Position(enabled, x.name) > Position(enabled, sorted[0].name) {
      var tail := sorted[1..];
      var rest := Insert(enabled, x, tail);
      assert SortedByPosition(enabled, tail);
      InsertKeepsSorted(enabled, x, tail);
      HeadIsLeast(enabled, sorted);
      assert forall y :: y in rest ==> y == x || y in tail;
      ConsSorted(enabled, sorted[0], rest);
      assert Insert(enabled, x, sorted) == [sorted[0]] + rest;
    }
  }

  /** In a sorted sequence no later instance has a lower position than the head. */
  lemma HeadIsLeast(enabled: seq<string>, sorted: seq<Rule>)
    requires sorted != [] && SortedByPosition(enabled, sorted)
    ensures forall y :: y in sorted[1..] ==> Position(enabled, sorted[0].name) <= Position(enabled, y.name)
  {
    forall y | y in sorted[1..] ensures Position(enabled, sorted[0].name) <= Position(enabled, y.name) {
      var k :| 0 <= k < |sorted[1..]| && sorted[1..][k] == y;
      assert sorted[k + 1] == y;
    }
  }

  /** A head no higher than any element of a sorted tail keeps it sorted. */
  lemma ConsSorted(enabled: seq<string>, h: Rule, rest: seq<Rule>)
    requires SortedByPosition(enabled, rest)
    requires forall y :: y in rest ==> Position(enabled, h.name) <= Position(enabled, y.name)
    ensures SortedByPosition(enabled, [h] + rest)
  {
    var r := [h] + rest;
    forall i, j | 0 <= i < j < |r|
      ensures Position(enabled, r[i].name) <= Position(enabled, r[j].name)
    {
      assert r[j] == rest[j - 1];
      if i > 0 {
        assert r[i] == rest[i - 1];
      } else {
        assert rest[j - 1] in rest;
      }
    }
  }

  /** `Position` is the index of the first occurrence, and 0 for an absent name. */
  lemma {:induction false} PositionIsFirstIndex(enabled: seq<string>, name: string)
    ensures name in enabled ==> Position(enabled, name) < |enabled| && enabled[Position(enabled, name)] == name
    ensures name in enabled ==> forall j :: 0 <= j < Position(enabled, name) ==> enabled[j] != name
    ensures name !in enabled ==> Position(enabled, name) == 0
    decreases |enabled|
  {
    if enabled != [] && enabled[0] != name && name in enabled[1..] {
      PositionIsFirstIndex(enabled[1..], name);
    }
  }

  /** A row whose id is above every id of `rows` is found by id after them. */
  lemma {:induction false} LookupPastOthers(rows: seq<Row>, row: Row, nextId: int)
    requires forall i :: 0 <= i < |rows| ==> rows[i].id < row.id
    ensures Lookup(Table(rows + [row], nextId), row.id) == Some(row)
    decreases |rows|
  {
    if rows != [] {
      assert (rows + [row])[1..] == rows[1..] + [row];
      LookupPastOthers(rows[1..], row, nextId);
    }
  }
}
