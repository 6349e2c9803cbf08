/**
 * The partial-update builder that the asset, log, schedule and user services each spell out:
 * walk the optional fields in a fixed order, and for every field that counts as supplied push
 * `"<column> = $<paramIndex>"` onto `fields`, push its value onto `values` and increment
 * `paramIndex`; throw when nothing was pushed; otherwise append `updated_at = NOW()` and bind
 * the WHERE key columns to the next placeholders.
 */
module SetClause {
  import opened Wrappers
  import opened Records
  import Text

  /** A value bound to a `$n` placeholder. */
  datatype SqlValue = Null | Int(i: int) | Str(s: string) | Bool(b: bool) | Timestamp(t: int)

  /** A nullable text column's value as a parameter; `StringOf` reads it back. */
  function OfString(o: Option<string>): (v: SqlValue)
    ensures StringOf(v) == o
  {
    match o
    case Some(s) => Str(s)
    case None => Null
  }

  function StringOf(v: SqlValue): Option<string> {
    if v.Str? then Some(v.s) else None
  }

  /** A nullable integer column's value as a parameter; `IntOf` reads it back. */
  function OfInt(o: Option<int>): (v: SqlValue)
    ensures IntOf(v) == o
  {
    match o
    case Some(n) => Int(n)
    case None => Null
  }

  function IntOf(v: SqlValue): Option<int> {
    if v.Int? then Some(v.i) else None
  }

  /** A nullable timestamp column's value as a parameter; `DateOf` reads it back. */
  function OfDate(o: Option<int>): (v: SqlValue)
    ensures DateOf(v) == o
  {
    match o
    case Some(t) => Timestamp(t)
    case None => Null
  }

  function DateOf(v: SqlValue): Option<int> {
    if v.Timestamp? then Some(v.t) else None
  }

  /** One optional field of an update payload: its column, whether it counts as supplied, its value. */
  datatype Candidate = Candidate(column: string, supplied: bool, value: SqlValue)

  /** The supplied candidates, in the order the builder visits them. */
  function Supplied(cands: seq<Candidate>): (r: seq<Candidate>)
    ensures |r| <= |cands|
    ensures forall c :: c in r ==> c in cands && c.supplied
  {
    if cands == [] then []
    else
      var last := cands[|cands| - 1];
      Supplied(cands[..|cands| - 1]) + (if last.supplied then [last] else [])
  }

  /** Nothing is supplied exactly when no candidate is. */
  lemma {:induction false} SuppliedEmpty(cands: seq<Candidate>)
    ensures Supplied(cands) == [] <==> forall c :: c in cands ==> !c.supplied
  {
    if cands != [] {
      var init := cands[..|cands| - 1];
      SuppliedEmpty(init);
      assert cands == init + [cands[|cands| - 1]];
    }
  }

  /** `"<column> = $<n>"`, the text of one assignment or one key condition. */
  function Placeholder(column: string, n: nat): string {
    column + " = $" + Text.NatToString(n)
  }

  /** Extending the visited prefix by one candidate extends the supplied ones by at most that candidate. */
  lemma SuppliedPrefix(cands: seq<Candidate>, i: nat)
    requires i < |cands|
    ensures Supplied(cands[..i + 1]) == Supplied(cands[..i]) + (if cands[i].supplied then [cands[i]] else [])
  {
    assert cands[..i + 1][..i] == cands[..i];
  }

  /** The assignments `"<column> = $1"`, `"<column> = $2"`, ... for the applied candidates, in order. */
  function Assignments(applied: seq<Candidate>): (r: seq<string>)
    ensures |r| == |applied|
  {
    if applied == [] then []
    else Assignments(applied[..|applied| - 1]) + [Placeholder(applied[|applied| - 1].column, |applied|)]
  }

  /** The j-th assignment binds the j-th applied column to `$(j+1)`. */
  lemma {:induction false} AssignmentsAt(applied: seq<Candidate>, j: nat)
    requires j < |applied|
    ensures Assignments(applied)[j] == Placeholder(applied[j].column, j + 1)
    decreases |applied|
  {
    if j < |applied| - 1 {
      AssignmentsAt(applied[..|applied| - 1], j);
    }
  }

  /** The parameters bound to `$1`, `$2`, ...: the applied candidates' values, in order. */
  function ParamValues(applied: seq<Candidate>): (r: seq<SqlValue>)
    ensures |r| == |applied|
  {
    if applied == [] then []
    else ParamValues(applied[..|applied| - 1]) + [applied[|applied| - 1].value]
  }

  /** The j-th parameter is the j-th applied value. */
  lemma {:induction false} ParamValuesAt(applied: seq<Candidate>, j: nat)
    requires j < |applied|
    ensures ParamValues(applied)[j] == applied[j].value
    decreases |applied|
  {
    if j < |applied| - 1 {
      ParamValuesAt(applied[..|applied| - 1], j);
    }
  }

  /** Applying one more candidate appends its assignment, on the next placeholder, and its value. */
  lemma AppliedSnoc(applied: seq<Candidate>, c: Candidate)
    ensures Assignments(applied + [c]) == Assignments(applied) + [Placeholder(c.column, |applied| + 1)]
    ensures ParamValues(applied + [c]) == ParamValues(applied) + [c.value]
  {
    assert (applied + [c])[..|applied|] == applied;
  }

  /** The `fields`/`values`/`paramIndex` loop. */
  method BuildSetClause(cands: seq<Candidate>) returns (fields: seq<string>, values: seq<SqlValue>, paramIndex: nat)
    ensures paramIndex == |Supplied(cands)| + 1
    ensures |fields| == |values| == paramIndex - 1
    ensures forall j :: 0 <= j < |fields| ==> fields[j] == Placeholder(Supplied(cands)[j].column, j + 1)
    ensures forall j :: 0 <= j < |values| ==> values[j] == Supplied(cands)[j].value
  {
    fields, values, paramIndex := [], [], 1;
    ghost var applied: seq<Candidate> := [];
    for i := 0 to |cands|
      invariant applied == Supplied(cands[..i])
      invariant paramIndex == |applied| + 1
      invariant fields == Assignments(applied)
      invariant values == ParamValues(applied)
    {
      SuppliedPrefix(cands, i);
      if cands[i].supplied {
        AppliedSnoc(applied, cands[i]);
        fields := fields + [Placeholder(cands[i].column, paramIndex)];
        values := values + [cands[i].value];
        paramIndex := paramIndex + 1;
        applied := applied + [cands[i]];
      } else {
        assert applied + [] == applied;
      }
    }
    assert cands[..|cands|] == cands;
    forall j | 0 <= j < |fields| ensures fields[j] == Placeholder(applied[j].column, j + 1) {
      AssignmentsAt(applied, j);
    }
    forall j | 0 <= j < |values| ensures values[j] == applied[j].value {
      ParamValuesAt(applied, j);
    }
  }

  /** `UPDATE <table> SET <assignments joined by ", "> WHERE <conditions joined by " AND ">` with its parameters. */
  datatype UpdateStatement = UpdateStatement(
    table: string, assignments: seq<string>, conditions: seq<string>, params: seq<SqlValue>)

  /**
   * The statement an update runs: one `$j` assignment per supplied candidate for j = 1..k, then
   * `updated_at = NOW()`, then the key conditions on `$(k+1)`, `$(k+2)`, ...; the parameters are
   * the supplied values in order followed by the key values.
   */
  ghost predicate Describes(st: UpdateStatement, table: string, applied: seq<Candidate>,
                            keyColumns: seq<string>, keyValues: seq<SqlValue>)
  {
    var k := |applied|;
    && st.table == table
    && |st.assignments| == k + 1
    && (forall j :: 0 <= j < k ==> st.assignments[j] == Placeholder(applied[j].column, j + 1))
    && st.assignments[k] == "updated_at = NOW()"
    && |st.conditions| == |keyColumns|
    && (forall m :: 0 <= m < |keyColumns| ==> st.conditions[m] == Placeholder(keyColumns[m], k + 1 + m))
    && |st.params| == k + |keyValues|
    && (forall j :: 0 <= j < k ==> st.params[j] == applied[j].value)
    && (forall m :: 0 <= m < |keyValues| ==> st.params[k + m] == keyValues[m])
  }

  /** The whole builder: the loop, the empty-update error, `updated_at` and the WHERE placeholders. */
  method BuildUpdate(table: string, cands: seq<Candidate>, keyColumns: seq<string>, keyValues: seq<SqlValue>)
    returns (r: Result<UpdateStatement, Error>)
    requires |keyColumns| == |keyValues|
    ensures r.Failure? <==> Supplied(cands) == []
    ensures r.Failure? ==> r.error == NothingToUpdate
    ensures r.Success? ==> Describes(r.value, table, Supplied(cands), keyColumns, keyValues)
  {
    var fields, values, paramIndex := BuildSetClause(cands);
    if |fields| == 0 {
      return Failure(NothingToUpdate);
    }
    fields := fields + ["updated_at = NOW()"];
    values := values + keyValues;
    var conditions := seq(|keyColumns|, m requires 0 <= m < |keyColumns| => Placeholder(keyColumns[m], paramIndex + m));
    r := Success(UpdateStatement(table, fields, conditions, values));
  }

  /** Runs the assignments of `applied` on a row, in order; `assign` sets one column. */
  function ApplyAll<R>(row: R, assign: (R, Candidate) -> R, applied: seq<Candidate>): R
    decreases |applied|
  {
    if applied == [] then row
    else assign(ApplyAll(row, assign, applied[..|applied| - 1]), applied[|applied| - 1])
  }

  /** The builder's visit of one candidate, as it acts on a row: its assignment runs when it is supplied. */
  function Step<R>(row: R, assign: (R, Candidate) -> R, c: Candidate): R {
    if c.supplied then assign(row, c) else row
  }

  /** Visiting one more candidate: the statement's assignments so far run first, then that candidate's step. */
  lemma ApplySuppliedSnoc<R>(row: R, assign: (R, Candidate) -> R, cands: seq<Candidate>, c: Candidate)
    ensures ApplyAll(row, assign, Supplied(cands + [c])) == Step(ApplyAll(row, assign, Supplied(cands)), assign, c)
  {
    assert (cands + [c])[..|cands|] == cands;
    if c.supplied {
      var s := Supplied(cands) + [c];
      assert s[..|s| - 1] == Supplied(cands);
    } else {
      assert Supplied(cands) + [] == Supplied(cands);
    }
  }

  /** A two-field statement runs as the two steps in the builder's order. */
  lemma ApplyInOrder2<R>(row: R, assign: (R, Candidate) -> R, c0: Candidate, c1: Candidate)
    ensures ApplyAll(row, assign, Supplied([c0, c1])) == Step(Step(row, assign, c0), assign, c1)
  {
    assert [] + [c0] == [c0];
    assert [c0] + [c1] == [c0, c1];
    ApplySuppliedSnoc(row, assign, [], c0);
    ApplySuppliedSnoc(row, assign, [c0], c1);
  }

  /** A three-field statement runs as the three steps in the builder's order. */
  lemma ApplyInOrder3<R>(row: R, assign: (R, Candidate) -> R, c0: Candidate, c1: Candidate, c2: Candidate)
    ensures ApplyAll(row, assign, Supplied([c0, c1, c2])) == Step(Step(Step(row, assign, c0), assign, c1), assign, c2)
  {
    assert [c0, c1] + [c2] == [c0, c1, c2];
    ApplyInOrder2(row, assign, c0, c1);
    ApplySuppliedSnoc(row, assign, [c0, c1], c2);
  }

  /** A five-field statement runs as the five steps in the builder's order. */
  lemma ApplyInOrder5<R>(row: R, assign: (R, Candidate) -> R,
                         c0: Candidate, c1: Candidate, c2: Candidate, c3: Candidate, c4: Candidate)
    ensures ApplyAll(row, assign, Supplied([c0, c1, c2, c3, c4])) ==
      Step(Step(Step(Step(Step(row, assign, c0), assign, c1), assign, c2), assign, c3), assign, c4)
  {
    assert [c0, c1, c2] + [c3] == [c0, c1, c2, c3];
    assert [c0, c1, c2, c3] + [c4] == [c0, c1, c2, c3, c4];
    ApplyInOrder3(row, assign, c0, c1, c2);
    ApplySuppliedSnoc(row, assign, [c0, c1, c2], c3);
    ApplySuppliedSnoc(row, assign, [c0, c1, c2, c3], c4);
  }
}
