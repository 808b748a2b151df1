/**
 The dispatching configurations of a server: an in-memory list of shared objects over a
 database table keyed by context and connection string.
 */
module DispatchingTable {
  import opened Wrappers

  /** The persisted columns. */
  datatype Row = Row(connectionString: string, kind: string, forwardInternal: bool, trackId: string,
                     readReceipts: int, groups: int, broadcasts: int)

  type Table = map<(string, string), Row>

  const RABBITMQ := "rabbitmq"

  // ------------------------------------------------------------------ values

  function Find(table: Table, context: string, connectionString: string): Option<Row> {
    if (context, connectionString) in table then Some(table[(context, connectionString)]) else None
  }

  /** An update keeps the stored track id and type where the new ones are empty. */
  function Merge(existing: Option<Row>, d: Row): Row {
    if existing.None? then d
    else d.(trackId := if d.trackId == "" then existing.value.trackId else d.trackId,
            kind := if d.kind == "" then existing.value.kind else d.kind)
  }

  function Upsert(table: Table, context: string, d: Row): Table {
    table[(context, d.connectionString) := Merge(Find(table, context, d.connectionString), d)]
  }

  /** After an upsert the row has the given track id and type where these are given, and otherwise
      those it had; the other columns are the given ones, and no other row has changed. */
  lemma UpsertPreserves(table: Table, context: string, d: Row)
    ensures var after, stored := Upsert(table, context, d), Find(table, context, d.connectionString);
      && after.Keys == table.Keys + {(context, d.connectionString)}
      && (forall k :: k in table && k != (context, d.connectionString) ==> after[k] == table[k])
      && var row := after[(context, d.connectionString)];
         && row.trackId == (if d.trackId == "" && stored.Some? then stored.value.trackId else d.trackId)
         && row.kind == (if d.kind == "" && stored.Some? then stored.value.kind else d.kind)
         && row == d.(trackId := row.trackId, kind := row.kind)
  {
  }

  /** Replaces the first entry with the same connection string, or appends. */
  function Put(memory: seq<Row>, d: Row): seq<Row> {
    if memory == [] then [d]
    else if memory[0].connectionString == d.connectionString then [d] + memory[1..]
    else [memory[0]] + Put(memory[1..], d)
  }

  function Drop(memory: seq<Row>, connectionString: string): seq<Row> {
    if memory == [] then []
    else
      var front, last := memory[..|memory| - 1], memory[|memory| - 1];
      Drop(front, connectionString) + if last.connectionString == connectionString then [] else [last]
  }

  predicate Distinct(memory: seq<Row>) {
    forall i, j :: 0 <= i < j < |memory| ==> memory[i].connectionString != memory[j].connectionString
  }

  predicate Keyed(table: Table) {
    forall k :: k in table ==> table[k].connectionString == k.1
  }

  /** The list holds exactly the rows of its context, each once. */
  predicate Agree(memory: seq<Row>, table: Table, context: string) {
    && Distinct(memory)
    && (forall r :: r in memory ==> Find(table, context, r.connectionString) == Some(r))
    && (forall k :: k in table && k.0 == context ==> table[k] in memory)
  }

  lemma {:induction false} PutMembers(memory: seq<Row>, d: Row)
    requires Distinct(memory)
    ensures Distinct(Put(memory, d))
    ensures forall r :: r in Put(memory, d) <==> r == d || (r in memory && r.connectionString != d.connectionString)
  {
    if memory != [] && memory[0].connectionString != d.connectionString {
      var rest := memory[1..];
      PutMembers(rest, d);
      var longer := Put(memory, d);
      assert longer == [memory[0]] + Put(rest, d);
      assert memory == [memory[0]] + rest;
      forall r | r in Put(rest, d) ensures r.connectionString != memory[0].connectionString {
        if r in rest {
          var j :| 0 <= j < |rest| && rest[j] == r;
          assert memory[j + 1] == r;
        }
      }
    } else if memory != [] {
      var rest := memory[1..];
      assert memory == [memory[0]] + rest;
      forall r | r in rest ensures r.connectionString != d.connectionString {
        var j :| 0 <= j < |rest| && rest[j] == r;
        assert memory[j + 1] == r;
      }
    }
  }

  lemma {:induction false} PutAt(memory: seq<Row>, d: Row, index: nat)
    requires index <= |memory|
    requires forall i :: 0 <= i < index ==> memory[i].connectionString != d.connectionString
    requires index < |memory| ==> memory[index].connectionString == d.connectionString
    ensures Put(memory, d) == if index < |memory| then memory[index := d] else memory + [d]
  {
    if index == 0 {
      if memory != [] {
        assert memory[0 := d] == [d] + memory[1..];
      }
    } else {
      PutAt(memory[1..], d, index - 1);
      if index < |memory| {
        assert memory[index := d] == [memory[0]] + memory[1..][index - 1 := d];
      } else {
        assert memory + [d] == [memory[0]] + (memory[1..] + [d]);
      }
    }
  }

  lemma {:induction false} DropMembers(memory: seq<Row>, connectionString: string)
    requires Distinct(memory)
    ensures Distinct(Drop(memory, connectionString))
    ensures forall r :: r in Drop(memory, connectionString) <==> r in memory && r.connectionString != connectionString
  {
    if memory != [] {
      var front, last := memory[..|memory| - 1], memory[|memory| - 1];
      DropMembers(front, connectionString);
      assert memory == front + [last];
      forall r | r in front ensures r.connectionString != last.connectionString {
        var j :| 0 <= j < |front| && front[j] == r;
        assert memory[j] == r && memory[|memory| - 1] == last;
      }
    }
  }

  /** A successful upsert keeps list and table in agreement: the preserved fields must reach both. */
  lemma PutAgrees(memory: seq<Row>, table: Table, context: string, d: Row)
    requires Agree(memory, table, context) && Keyed(table)
    ensures Agree(Put(memory, Merge(Find(table, context, d.connectionString), d)), Upsert(table, context, d), context)
    ensures Keyed(Upsert(table, context, d))
  {
    var merged := Merge(Find(table, context, d.connectionString), d);
    PutMembers(memory, merged);
  }

  /** An entry that agrees with its row is not changed by the preservation of fields. */
  lemma MergeKeepsAgreeing(memory: seq<Row>, table: Table, context: string, d: Row)
    requires Agree(memory, table, context) && d in memory
    ensures Merge(Find(table, context, d.connectionString), d) == d
  {
  }

  lemma DropAgrees(memory: seq<Row>, table: Table, context: string, connectionString: string)
    requires Agree(memory, table, context) && Keyed(table)
    ensures Agree(Drop(memory, connectionString), table - {(context, connectionString)}, context)
  {
    DropMembers(memory, connectionString);
  }

  function Cleared(table: Table, context: string): Table {
    map k | k in table && k.0 != context :: table[k]
  }

  // ------------------------------------------------------------------ every run

  /** What the database does with one request. LosesReply: a change is made and then reported as
      failed; a read fails. */
  datatype Fault = Works | Fails | LosesReply

  datatype State = State(memory: seq<Row>, context: string, table: Table)

  datatype Op =
    | Fill(token: string, fault: Fault)
    | AddOrUpdate(d: Row, fault: Fault)
    | Remove(connectionString: string, fault: Fault)
    | Clear(fault: Fault)

  predicate Step(s: State, op: Op, t: State) {
    match op
    case Fill(token, fault) =>
      t.context == token && t.table == s.table &&
      if fault.Works? then Agree(t.memory, s.table, token) else t.memory == s.memory
    case AddOrUpdate(d, fault) =>
      if fault.Works? && d.connectionString != "" then
        t == s.(table := Upsert(s.table, s.context, d),
                memory := Put(s.memory, Merge(Find(s.table, s.context, d.connectionString), d)))
      else if fault.LosesReply? && d.connectionString != "" then t == s.(table := Upsert(s.table, s.context, d))
      else t == s
    case Remove(c, fault) =>
      if c == "" || fault.Fails? then t == s
      else if fault.LosesReply? then t == s.(table := s.table - {(s.context, c)})
      else t == s.(table := s.table - {(s.context, c)}, memory := Drop(s.memory, c))
    case Clear(fault) =>
      if fault.Fails? then t == s
      else if fault.LosesReply? then t == s.(table := Cleared(s.table, s.context))
      else t == s.(table := Cleared(s.table, s.context), memory := [])
  }

  /** Both contexts store the same rows. */
  ghost predicate SameRows(table: Table, context: string, token: string) {
    forall c :: Find(table, context, c) == Find(table, token, c)
  }

  /** How list and table part: a read fails while other rows are stored for the token, or a change
      that alters the rows of the context is made and then reported as failed. */
  ghost predicate Parts(s: State, op: Op) {
    match op
    case Fill(token, fault) => !fault.Works? && !SameRows(s.table, s.context, token)
    case AddOrUpdate(d, fault) =>
      && fault.LosesReply? && d.connectionString != ""
      && (var stored := Find(s.table, s.context, d.connectionString); stored != Some(Merge(stored, d)))
    case Remove(c, fault) => fault.LosesReply? && c != "" && (s.context, c) in s.table
    case Clear(fault) => fault.LosesReply? && exists k :: k in s.table && k.0 == s.context
  }

  /** A list that agrees with one context agrees with another exactly when both store the same rows. */
  lemma OtherContext(memory: seq<Row>, table: Table, context: string, token: string)
    requires Agree(memory, table, context) && Keyed(table)
    ensures Agree(memory, table, token) <==> SameRows(table, context, token)
  {
    if SameRows(table, context, token) {
      forall k | k in table && k.0 == token ensures table[k] in memory {
        assert Find(table, context, k.1) == Find(table, token, k.1) == Some(table[k]);
        assert table[(context, k.1)] in memory;
      }
    } else {
      var c :| Find(table, context, c) != Find(table, token, c);
      if Find(table, context, c).Some? {
        assert table[(context, c)] in memory;
      } else {
        assert (token, c) in table;
      }
    }
  }

  /** The failing case: a server just constructed whose first read fails has an empty list over the
      rows stored for its token, and its caller goes on. */
  lemma FailedFirstRead(table: Table, token: string, c: string)
    requires Keyed(table) && (token, c) in table && forall k :: k in table ==> k.0 != ""
    ensures var s := State([], "", table);
      && Agree(s.memory, s.table, s.context) && Parts(s, Fill(token, Fails))
      && exists t :: Step(s, Fill(token, Fails), t) && !Agree(t.memory, t.table, t.context)
  {
    var s, t := State([], "", table), State([], token, table);
    assert Find(table, "", c) != Find(table, token, c);
    assert Step(s, Fill(token, Fails), t);
    assert table[(token, c)] !in t.memory;
  }

  lemma StepAgreement(s: State, op: Op, t: State)
    requires Agree(s.memory, s.table, s.context) && Keyed(s.table) && Step(s, op, t)
    ensures Keyed(t.table)
    ensures Agree(t.memory, t.table, t.context) <==> !Parts(s, op)
    ensures forall k: (string, string) :: k.0 != s.context ==>
      (k in t.table <==> k in s.table) && (k in s.table ==> t.table[k] == s.table[k])
  {
    match op
    case Fill(token, fault) => OtherContext(s.memory, s.table, s.context, token);
    case AddOrUpdate(d, fault) =>
      PutAgrees(s.memory, s.table, s.context, d);
      UnseenRow(s.memory, s.table, s.context, d);
    case Remove(c, fault) =>
      DropAgrees(s.memory, s.table, s.context, c);
      LostRow(s.memory, s.table, s.context, c);
    case Clear(fault) => UnseenClear(s.memory, s.table, s.context);
  }

  /** A row stored without the list agrees with it exactly when it was stored like that before. */
  lemma UnseenRow(memory: seq<Row>, table: Table, context: string, d: Row)
    requires Agree(memory, table, context) && Keyed(table)
    ensures var stored := Find(table, context, d.connectionString);
      Agree(memory, Upsert(table, context, d), context) <==> stored == Some(Merge(stored, d))
  {
    var stored := Find(table, context, d.connectionString);
    var after := Upsert(table, context, d);
    if stored == Some(Merge(stored, d)) {
      assert after == table;
    } else {
      var merged := Merge(stored, d);
      assert after[(context, d.connectionString)] == merged;
      assert merged in memory ==> Find(table, context, d.connectionString) == Some(merged);
    }
  }

  lemma UnseenClear(memory: seq<Row>, table: Table, context: string)
    requires Agree(memory, table, context)
    ensures Agree(memory, Cleared(table, context), context) <==> !exists k :: k in table && k.0 == context
    ensures Agree([], Cleared(table, context), context)
  {
    var after := Cleared(table, context);
    assert memory != [] ==> Find(table, context, memory[0].connectionString) == Some(memory[0]);
    if k :| k in table && k.0 == context {
      assert table[k] in memory && Find(after, context, table[k].connectionString) == None;
    }
  }

  /** A row removed from the table alone is missed by the list exactly when it was there. */
  lemma LostRow(memory: seq<Row>, table: Table, context: string, connectionString: string)
    requires Agree(memory, table, context) && Keyed(table)
    ensures Agree(memory, table - {(context, connectionString)}, context) <==> (context, connectionString) !in table
  {
    var less := table - {(context, connectionString)};
    if (context, connectionString) in table {
      var r := table[(context, connectionString)];
      assert r in memory && Find(less, context, r.connectionString) == None;
    } else {
      assert less == table;
    }
  }

  lemma RowOf(memory: seq<Row>, table: Table, context: string, i: nat)
    requires Agree(memory, table, context) && i < |memory|
    ensures Find(table, context, memory[i].connectionString) == Some(memory[i])
  {
    assert memory[i] in memory;
  }

  /** An entry edited in the list first: saving it restores agreement, failing to save breaks it. */
  lemma EditedEntry(memory: seq<Row>, table: Table, context: string, i: nat, edited: Row)
    requires Agree(memory, table, context) && Keyed(table) && i < |memory|
    requires edited != memory[i] && edited.connectionString == memory[i].connectionString
    ensures Agree(memory[i := edited], table[(context, edited.connectionString) := edited], context)
    ensures !Agree(memory[i := edited], table, context)
  {
    var after := memory[i := edited];
    RowOf(memory, table, context, i);
    assert after[i] in after;
    forall k: (string, string) | k in table && k.0 == context && k.1 != edited.connectionString
      ensures table[k] in after
    {
      var j :| 0 <= j < |memory| && memory[j] == table[k];
      assert after[j] == table[k];
    }
    forall r | r in after && r != edited ensures r in memory && r.connectionString != edited.connectionString {
      var j :| 0 <= j < |after| && after[j] == r;
      assert memory[j] == r;
    }
  }

  /** Whatever the database does, no connection string is ever listed twice. */
  lemma StepDistinct(s: State, op: Op, t: State)
    requires Distinct(s.memory) && Step(s, op, t)
    ensures Distinct(t.memory)
  {
    match op
    case AddOrUpdate(d, fault) => PutMembers(s.memory, Merge(Find(s.table, s.context, d.connectionString), d));
    case Remove(c, fault) => DropMembers(s.memory, c);
    case _ =>
  }

  // ------------------------------------------------------------------ what an upsert cannot empty

  datatype Column = TrackId | Kind

  function At(r: Row, column: Column): string {
    match column
    case TrackId => r.trackId
    case Kind => r.kind
  }

  /** The row of a connection string has something in this column, and so has its entry in the list. */
  predicate Filled(s: State, connectionString: string, column: Column) {
    && (var row := Find(s.table, s.context, connectionString); row.Some? && At(row.value, column) != "")
    && forall r :: r in s.memory && r.connectionString == connectionString ==> At(r, column) != ""
  }

  /** Steps that take the row away, or turn to another context. */
  predicate TakesAway(s: State, op: Op, connectionString: string) {
    match op
    case Fill(token, _) => token != s.context
    case AddOrUpdate(_, _) => false
    case Remove(c, fault) => c == connectionString && !fault.Fails?
    case Clear(fault) => !fault.Fails?
  }

  lemma StepFilled(s: State, op: Op, t: State, connectionString: string, column: Column)
    requires Filled(s, connectionString, column) && Distinct(s.memory) && Step(s, op, t)
    requires !TakesAway(s, op, connectionString)
    ensures Filled(t, connectionString, column)
  {
    match op
    case Fill(token, fault) =>
    case AddOrUpdate(d, fault) =>
      UpsertPreserves(s.table, s.context, d);
      PutMembers(s.memory, Merge(Find(s.table, s.context, d.connectionString), d));
    case Remove(c, fault) => DropMembers(s.memory, c);
    case Clear(fault) =>
  }

  /** Once stored with a track id or a type, a connection string has one in table and list until it
      is removed, the table is cleared or the context changes, whatever updates come in between. */
  lemma {:induction false} RunFilled(states: seq<State>, ops: seq<Op>, connectionString: string, column: Column)
    requires |states| == |ops| + 1 && Distinct(states[0].memory) && Filled(states[0], connectionString, column)
    requires forall i :: 0 <= i < |ops| ==>
      Step(states[i], ops[i], states[i + 1]) && !TakesAway(states[i], ops[i], connectionString)
    ensures Filled(states[|ops|], connectionString, column)
    decreases |ops|
  {
    if ops != [] {
      var n := |ops| - 1;
      RunFilled(states[..n + 1], ops[..n], connectionString, column);
      RunDistinct(states[..n + 1], ops[..n]);
      assert Step(states[n], ops[n], states[n + 1]);
      StepFilled(states[n], ops[n], states[n + 1], connectionString, column);
    }
  }

  lemma {:induction false} RunDistinct(states: seq<State>, ops: seq<Op>)
    requires |states| == |ops| + 1 && Distinct(states[0].memory)
    requires forall i :: 0 <= i < |ops| ==> Step(states[i], ops[i], states[i + 1])
    ensures Distinct(states[|ops|].memory)
    decreases |ops|
  {
    if ops != [] {
      var n := |ops| - 1;
      RunDistinct(states[..n + 1], ops[..n]);
      assert Step(states[n], ops[n], states[n + 1]);
      StepDistinct(states[n], ops[n], states[n + 1]);
    }
  }

  /** After every run without such a step, list and table agree. */
  lemma {:induction false} RunAgrees(states: seq<State>, ops: seq<Op>)
    requires |states| == |ops| + 1 && Keyed(states[0].table)
    requires Agree(states[0].memory, states[0].table, states[0].context)
    requires forall i :: 0 <= i < |ops| ==> Step(states[i], ops[i], states[i + 1]) && !Parts(states[i], ops[i])
    ensures var s := states[|ops|]; Keyed(s.table) && Agree(s.memory, s.table, s.context)
    decreases |ops|
  {
    if ops != [] {
      var n := |ops| - 1;
      RunAgrees(states[..n + 1], ops[..n]);
      assert Step(states[n], ops[n], states[n + 1]);
      StepAgreement(states[n], ops[n], states[n + 1]);
    }
  }
}
