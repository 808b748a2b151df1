/**
 The dispatching objects: the list holds pointers, the table code edits the object it is
 given, and both must end up telling the same. Each method is tied to the functions of
 DispatchingTable, where the agreement of list and table is proved.
 */
module DispatchingObjects {
  import opened Wrappers
  import opened DispatchingTable

  class QpDispatching {
    const connectionString: string
    var kind: string
    var forwardInternal: bool
    var trackId: string
    var readReceipts: int
    var groups: int
    var broadcasts: int
    var calls: int
    var failure: Option<int>
    var success: Option<int>

    constructor (row: Row)
      ensures AsRow() == row && calls == 0 && failure == None && success == None
      ensures connectionString == row.connectionString && kind == row.kind
      ensures forwardInternal == row.forwardInternal && trackId == row.trackId
      ensures readReceipts == row.readReceipts && groups == row.groups && broadcasts == row.broadcasts
    {
      connectionString, kind := row.connectionString, row.kind;
      forwardInternal, trackId := row.forwardInternal, row.trackId;
      readReceipts, groups, broadcasts, calls := row.readReceipts, row.groups, row.broadcasts, 0;
      failure, success := None, None;
    }

    function AsRow(): Row
      reads this
    {
      Row(connectionString, kind, forwardInternal, trackId, readReceipts, groups, broadcasts)
    }

    predicate IsRabbitMQ()
      reads this
    {
      kind == RABBITMQ
    }
  }

  /** The rows a list of objects stands for. */
  function Rows(list: seq<QpDispatching>): (rows: seq<Row>)
    reads list
    ensures |rows| == |list| && forall i :: 0 <= i < |list| ==> rows[i] == list[i].AsRow()
  {
    if list == [] then [] else Rows(list[..|list| - 1]) + [list[|list| - 1].AsRow()]
  }

  /** The answer to an upsert, which reads first. */
  function Both(find: Fault, write: Fault): Fault {
    if find.Works? then write else Fails
  }

  predicate Written(connectionString: string, find: Fault, write: Fault) {
    connectionString != "" && !Both(find, write).Fails?
  }

  class QpDataServerDispatchingSql {
    var rows: Table

    constructor (rows: Table)
      ensures this.rows == rows
    {
      this.rows := rows;
    }

    /** The rows of a context, in no particular order. */
    method FindAll(context: string, fault: Fault) returns (found: Option<seq<Row>>)
      requires Keyed(rows)
      ensures found.Some? <==> fault.Works?
      ensures found.Some? ==> Agree(found.value, rows, context)
    {
      if !fault.Works? {
        return None;
      }
      var result: seq<Row> := [];
      var left := set k | k in rows && k.0 == context;
      while left != {}
        invariant left <= (set k | k in rows && k.0 == context)
        invariant ReadSoFar(result, rows, context, left)
        decreases |left|
      {
        var k :| k in left;
        ReadNext(result, rows, context, left, k);
        result := result + [rows[k]];
        left := left - {k};
      }
      ReadAll(result, rows, context);
      found := Some(result);
    }

    /** Upsert; the track id and type kept from the stored row are written into the given object. */
    method DispatchingAddOrUpdate(context: string, d: QpDispatching, find: Fault, write: Fault)
      returns (affected: Option<nat>)
      modifies this, d`trackId, d`kind
      ensures affected == if d.connectionString != "" && find.Works? && write.Works? then Some(1) else None
      ensures rows == if Written(d.connectionString, find, write) then Upsert(old(rows), context, old(d.AsRow()))
                      else old(rows)
      ensures d.AsRow() == if d.connectionString != "" && find.Works?
                           then Merge(DispatchingTable.Find(old(rows), context, d.connectionString), old(d.AsRow()))
                           else old(d.AsRow())
      ensures var stored := DispatchingTable.Find(old(rows), context, d.connectionString);
        var kept := d.connectionString != "" && find.Works? && stored.Some?;
        && d.trackId == (if kept && old(d.trackId) == "" then stored.value.trackId else old(d.trackId))
        && d.kind == (if kept && old(d.kind) == "" then stored.value.kind else old(d.kind))
      ensures affected.Some? ==>
        (context, d.connectionString) in rows && rows[(context, d.connectionString)] == d.AsRow()
    {
      if |d.connectionString| == 0 || !find.Works? {
        return None;
      }
      var existing := DispatchingTable.Find(rows, context, d.connectionString);
      if existing.Some? {
        if d.trackId == "" && existing.value.trackId != "" {
          d.trackId := existing.value.trackId;
        }
        if d.kind == "" && existing.value.kind != "" {
          d.kind := existing.value.kind;
        }
      }
      if write.Fails? {
        return None;
      }
      rows := rows[(context, d.connectionString) := d.AsRow()];
      affected := if write.LosesReply? then None else Some(1);
    }

    method DispatchingRemove(context: string, connectionString: string, fault: Fault) returns (affected: Option<nat>)
      modifies this
      ensures affected == if connectionString == "" || !fault.Works? then None
                          else Some(if (context, connectionString) in old(rows) then 1 else 0)
      ensures rows == if connectionString == "" || fault.Fails? then old(rows)
                      else old(rows) - {(context, connectionString)}
    {
      if |connectionString| == 0 || fault.Fails? {
        return None;
      }
      var count := if (context, connectionString) in rows then 1 else 0;
      rows := rows - {(context, connectionString)};
      affected := if fault.LosesReply? then None else Some(count);
    }

    method DispatchingClear(context: string, fault: Fault) returns (ok: bool)
      modifies this
      ensures ok <==> fault.Works?
      ensures rows == if fault.Fails? then old(rows) else Cleared(old(rows), context)
    {
      ok := fault.Works?;
      if !fault.Fails? {
        rows := map k | k in rows && k.0 != context :: rows[k];
      }
    }
  }

  /** The rows of a context that are not left to be read. */
  function Listed(table: Table, context: string, left: set<(string, string)>): Table {
    map k | k in table && k.0 == context && k !in left :: table[k]
  }

  predicate ReadSoFar(listed: seq<Row>, table: Table, context: string, left: set<(string, string)>) {
    Agree(listed, Listed(table, context, left), context)
  }

  lemma ReadAll(listed: seq<Row>, table: Table, context: string)
    requires ReadSoFar(listed, table, context, {})
    ensures Agree(listed, table, context)
  {
  }

  lemma ReadNext(listed: seq<Row>, table: Table, context: string, left: set<(string, string)>, k: (string, string))
    requires Keyed(table) && ReadSoFar(listed, table, context, left) && k in table && k.0 == context && k in left
    ensures ReadSoFar(listed + [table[k]], table, context, left - {k})
  {
    ListOneMore(listed, Listed(table, context, left), context, k, table[k]);
    assert Listed(table, context, left)[k := table[k]] == Listed(table, context, left - {k});
  }

  lemma ListOneMore(listed: seq<Row>, table: Table, context: string, k: (string, string), r: Row)
    requires Agree(listed, table, context) && k !in table && k == (context, r.connectionString)
    ensures Agree(listed + [r], table[k := r], context)
  {
    forall x | x in listed ensures x.connectionString != r.connectionString {
      assert Find(table, context, x.connectionString) == Some(x);
    }
  }

  lemma RowsAppend(list: seq<QpDispatching>, d: QpDispatching)
    ensures Rows(list + [d]) == Rows(list) + [d.AsRow()]
  {
    assert (list + [d])[..|list|] == list;
  }

  lemma RowsReplace(list: seq<QpDispatching>, index: nat, d: QpDispatching)
    requires index < |list|
    ensures Rows(list[index := d]) == Rows(list)[index := d.AsRow()]
  {
  }

  method NewObjects(rows: seq<Row>) returns (list: seq<QpDispatching>)
    ensures fresh(list) && Rows(list) == rows
  {
    list := [];
    for i := 0 to |rows|
      invariant |list| == i
      invariant forall k :: 0 <= k < i ==> fresh(list[k]) && list[k].AsRow() == rows[k]
    {
      var element := new QpDispatching(rows[i]);
      list := list + [element];
    }
    assert Rows(list) == rows;
  }

  // ------------------------------------------------------------------ the list

  class QpDataDispatching {
    var dispatching: seq<QpDispatching>
    var context: string
    var db: QpDataServerDispatchingSql
    var closedClients: seq<string>           // CloseRabbitMQClient calls, in order

    constructor (db: QpDataServerDispatchingSql)
      ensures dispatching == [] && context == "" && this.db == db && closedClients == []
    {
      dispatching, context, this.db, closedClients := [], "", db, [];
    }

    /** What the state machine of DispatchingTable sees of the list. */
    ghost function Snapshot(): State
      reads this, db, dispatching
    {
      State(Rows(dispatching), context, db.rows)
    }

    method DispatchingFill(token: string, fault: Fault) returns (ok: bool)
      requires Keyed(db.rows)
      modifies this
      ensures ok <==> fault.Works?
      ensures db == old(db) && closedClients == old(closedClients)
      ensures Step(old(Snapshot()), Fill(token, fault), Snapshot())
      ensures if ok then fresh(dispatching) else dispatching == old(dispatching)
    {
      context := token;
      var found := db.FindAll(token, fault);
      if found.None? {
        return false;
      }
      dispatching := NewObjects(found.value);
      ok := true;
    }

    /** Replace the entry with the same connection string by this object, or append it. */
    method PutObject(d: QpDispatching)
      modifies this`dispatching
      ensures Rows(dispatching) == Put(Rows(old(dispatching)), d.AsRow())
      ensures forall x :: x in dispatching ==> x == d || x in old(dispatching)
    {
      for index := 0 to |dispatching|
        invariant forall i :: 0 <= i < index ==> dispatching[i].connectionString != d.connectionString
        invariant dispatching == old(dispatching)
      {
        if dispatching[index].connectionString == d.connectionString {
          dispatching := dispatching[index := d];
          PutAt(Rows(old(dispatching)), d.AsRow(), index);
          RowsReplace(old(dispatching), index, d);
          return;
        }
      }
      dispatching := dispatching + [d];
      PutAt(Rows(old(dispatching)), d.AsRow(), |old(dispatching)|);
      RowsAppend(old(dispatching), d);
    }

    method SaveRow(d: QpDispatching, find: Fault, write: Fault) returns (affected: Option<nat>)
      modifies db, d`trackId, d`kind
      ensures affected == if d.connectionString != "" && find.Works? && write.Works? then Some(1) else None
      ensures db.rows == if Written(d.connectionString, find, write) then Upsert(old(db.rows), context, old(d.AsRow()))
                         else old(db.rows)
      ensures d.AsRow() == if d.connectionString != "" && find.Works?
                           then Merge(Find(old(db.rows), context, d.connectionString), old(d.AsRow()))
                           else old(d.AsRow())
      ensures d !in dispatching || d.AsRow() == old(d.AsRow()) ==> Rows(dispatching) == old(Rows(dispatching))
    {
      affected := db.DispatchingAddOrUpdate(context, d, find, write);
    }

    /** For a new object, and for a listed one that agrees with its row, this is a step of the
        state machine: the fields kept by the table reach the list through the shared object. */
    method DispatchingAddOrUpdate(d: QpDispatching, find: Fault, write: Fault) returns (affected: Option<nat>)
      modifies this`dispatching, db, d`trackId, d`kind
      ensures affected == if d.connectionString != "" && find.Works? && write.Works? then Some(1) else None
      ensures affected.Some? ==>
        && d.AsRow() == Merge(Find(old(db.rows), context, d.connectionString), old(d.AsRow()))
        && db.rows == Upsert(old(db.rows), context, old(d.AsRow()))
      ensures affected.None? ==> dispatching == old(dispatching)
      ensures !Written(d.connectionString, find, write) ==> db.rows == old(db.rows)
      ensures d.AsRow() == old(d.AsRow())
           || d.AsRow() == Merge(Find(old(db.rows), context, d.connectionString), old(d.AsRow()))
      ensures d !in old(dispatching) || d.AsRow() == old(d.AsRow()) ==>
        Step(old(Snapshot()), AddOrUpdate(old(d.AsRow()), Both(find, write)), Snapshot())
    {
      affected := SaveRow(d, find, write);
      if affected.Some? {
        PutObject(d);
      }
    }

    method Flip(d: QpDispatching, ghost i: nat)
      requires i < |dispatching| && dispatching[i] == d && Distinct(Rows(dispatching))
      modifies d`forwardInternal
      ensures d.AsRow() == old(d.AsRow()).(forwardInternal := !old(d.forwardInternal))
      ensures Rows(dispatching) == old(Rows(dispatching))[i := d.AsRow()]
    {
      OnlyOnce(dispatching, d, i);
      d.forwardInternal := !d.forwardInternal;
    }

    /** Edits the listed object before saving it. */
    method ToggleForwardInternal(d: QpDispatching, ghost i: nat, find: Fault, write: Fault) returns (ok: bool)
      requires i < |dispatching| && dispatching[i] == d
      requires Distinct(Rows(dispatching)) && Find(db.rows, context, d.connectionString) == Some(d.AsRow())
      modifies this`dispatching, db, d`forwardInternal, d`trackId, d`kind
      ensures ok <==> d.connectionString != "" && find.Works? && write.Works?
      ensures var edited := old(d.AsRow()).(forwardInternal := !old(d.forwardInternal));
        && Rows(dispatching) == old(Rows(dispatching))[i := edited]
        && db.rows == if Written(d.connectionString, find, write)
                      then old(db.rows)[(context, d.connectionString) := edited] else old(db.rows)
    {
      ghost var memory, row := Rows(dispatching), d.AsRow();
      Flip(d, i);
      ghost var s, edited := Snapshot(), d.AsRow();
      var affected := DispatchingAddOrUpdate(d, find, write);
      ok := affected.Some?;
      SavedEdit(s, Snapshot(), memory, row, edited, i, Both(find, write));
    }

    method DispatchingRemove(connectionString: string, fault: Fault) returns (affected: Option<nat>)
      modifies this`dispatching, this`closedClients, db
      ensures affected == if connectionString == "" || !fault.Works? then None
                          else Some(if (context, connectionString) in old(db.rows) then 1 else 0)
      ensures Step(old(Snapshot()), Remove(connectionString, fault), Snapshot())
      ensures closedClients == old(closedClients)
        + if affected.Some? && old(ListsQueue(dispatching, connectionString)) then [connectionString] else []
      ensures closedClients != old(closedClients) <==>
        affected.Some? && exists r :: r in old(Rows(dispatching)) && r.connectionString == connectionString
                                      && r.kind == "rabbitmq"
    {
      affected := RemoveRow(connectionString, fault);
      if affected.Some? {
        var isRabbitMQ := Forget(connectionString);
        if isRabbitMQ {
          CloseClient(connectionString);
        }
      }
    }

    method RemoveRow(connectionString: string, fault: Fault) returns (affected: Option<nat>)
      modifies db
      ensures affected == if connectionString == "" || !fault.Works? then None
                          else Some(if (context, connectionString) in old(db.rows) then 1 else 0)
      ensures Snapshot() == old(Snapshot()).(table := if connectionString == "" || fault.Fails? then old(db.rows)
                                                      else old(db.rows) - {(context, connectionString)})
      ensures ListsQueue(dispatching, connectionString) == old(ListsQueue(dispatching, connectionString))
    {
      affected := db.DispatchingRemove(context, connectionString, fault);
    }

    /** Compacts the list in place; a removed queue has its client closed by the caller. */
    method Forget(connectionString: string) returns (isRabbitMQ: bool)
      modifies this`dispatching
      ensures Snapshot() == old(Snapshot()).(memory := Drop(old(Rows(dispatching)), connectionString))
      ensures isRabbitMQ == old(ListsQueue(dispatching, connectionString))
    {
      isRabbitMQ := HasQueue(connectionString);
      Compact(connectionString);
    }

    method CloseClient(connectionString: string)
      modifies this`closedClients
      ensures closedClients == old(closedClients) + [connectionString]
      ensures Snapshot() == old(Snapshot())
    {
      closedClients := closedClients + [connectionString];
    }

    method Compact(connectionString: string)
      modifies this`dispatching
      ensures Rows(dispatching) == Drop(old(Rows(dispatching)), connectionString)
    {
      ghost var list := dispatching;
      MoveUp(connectionString);
      assert Rows(list) == old(Rows(dispatching));
      KeptRows(list, connectionString);
    }

    method HasQueue(connectionString: string) returns (found: bool)
      ensures found <==> ListsQueue(dispatching, connectionString)
    {
      for i := 0 to |dispatching|
        invariant !ListsQueue(dispatching[..i], connectionString)
      {
        assert dispatching[..i + 1] == dispatching[..i] + [dispatching[i]];
        if dispatching[i].connectionString == connectionString && dispatching[i].IsRabbitMQ() {
          return true;
        }
      }
      assert dispatching[..|dispatching|] == dispatching;
      found := false;
    }

    /** Moves the entries that stay to the front, one by one, and cuts the rest off. */
    method MoveUp(connectionString: string)
      modifies this`dispatching
      ensures dispatching == Kept(old(dispatching), connectionString)
    {
      ghost var list := dispatching;
      var i := 0;
      for j := 0 to |dispatching|
        invariant i <= j && |dispatching| == |list|
        invariant HalfMoved(dispatching, list, i, j, connectionString)
      {
        MoveNext(dispatching, list, i, j, connectionString);
        var element := dispatching[j];
        if element.connectionString != connectionString {
          dispatching := dispatching[i := element];
          i := i + 1;
        }
      }
      assert list[..|list|] == list;
      dispatching := dispatching[..i];
    }

    method CloseQueues()
      modifies this`closedClients
      ensures closedClients == old(closedClients) + Queues(dispatching)
    {
      for i := 0 to |dispatching|
        invariant closedClients == old(closedClients) + Queues(dispatching[..i])
      {
        assert dispatching[..i + 1][..i] == dispatching[..i];
        if dispatching[i].IsRabbitMQ() {
          closedClients := closedClients + [dispatching[i].connectionString];
        }
      }
      assert dispatching[..|dispatching|] == dispatching;
    }

    /** Closes the clients of all queues, whether or not the table can then be cleared. */
    method DispatchingClear(fault: Fault) returns (ok: bool)
      modifies this`dispatching, this`closedClients, db
      ensures ok <==> fault.Works?
      ensures Step(old(Snapshot()), Clear(fault), Snapshot())
      ensures dispatching == if ok then [] else old(dispatching)
      ensures closedClients == old(closedClients) + old(Queues(dispatching))
      ensures old(closedClients) <= closedClients
      ensures forall c :: c in closedClients[|old(closedClients)|..] <==>
        exists r :: r in old(Rows(dispatching)) && r.connectionString == c && r.kind == "rabbitmq"
    {
      QueuesAre(dispatching);
      CloseQueues();
      ok := db.DispatchingClear(context, fault);
      assert Rows(dispatching) == old(Rows(dispatching));
      if ok {
        dispatching := dispatching[..0];
      }
    }
  }

  /** The objects that stay when a connection string is removed. */
  function Kept(list: seq<QpDispatching>, connectionString: string): seq<QpDispatching> {
    if list == [] then []
    else
      var last := list[|list| - 1];
      Kept(list[..|list| - 1], connectionString) + if last.connectionString == connectionString then [] else [last]
  }

  /** The entries to stay among the first j are in front; those from j on are still in place. */
  predicate HalfMoved(now: seq<QpDispatching>, list: seq<QpDispatching>, i: nat, j: nat, connectionString: string)
    requires i <= j <= |list| == |now|
  {
    now[..i] == Kept(list[..j], connectionString) && now[j..] == list[j..]
  }

  lemma MoveNext(now: seq<QpDispatching>, list: seq<QpDispatching>, i: nat, j: nat, connectionString: string)
    requires i <= j < |list| == |now| && HalfMoved(now, list, i, j, connectionString)
    ensures if now[j].connectionString == connectionString then HalfMoved(now, list, i, j + 1, connectionString)
            else HalfMoved(now[i := now[j]], list, i + 1, j + 1, connectionString)
  {
    var moved := now[i := now[j]];
    assert list[j..][0] == now[j..][0];
    assert list[..j + 1][..j] == list[..j];
    assert list[j + 1..] == list[j..][1..] && now[j + 1..] == now[j..][1..];
    assert moved[j + 1..] == now[j + 1..] && moved[..i + 1] == now[..i] + [now[j]];
  }

  lemma {:induction false} KeptRows(list: seq<QpDispatching>, connectionString: string)
    ensures Rows(Kept(list, connectionString)) == Drop(Rows(list), connectionString)
  {
    if list != [] {
      var front, last := list[..|list| - 1], list[|list| - 1];
      KeptRows(front, connectionString);
      assert Rows(list)[..|list| - 1] == Rows(front);
      var kept := Kept(front, connectionString);
      assert (kept + [last])[..|kept|] == kept;
    }
  }

  lemma OnlyOnce(list: seq<QpDispatching>, d: QpDispatching, i: nat)
    requires i < |list| && list[i] == d && Distinct(Rows(list))
    ensures forall j :: 0 <= j < |list| && j != i ==> list[j] != d
  {
    forall j | 0 <= j < |list| && j != i ensures list[j] != d {
      assert Rows(list)[j].connectionString != Rows(list)[i].connectionString;
    }
  }

  lemma SavedEdit(s: State, t: State, memory: seq<Row>, row: Row, edited: Row, i: nat, fault: Fault)
    requires i < |memory| && Distinct(memory) && memory[i] == row && s.memory == memory[i := edited]
    requires edited == row.(forwardInternal := !row.forwardInternal)
    requires Find(s.table, s.context, row.connectionString) == Some(row)
    requires Step(s, AddOrUpdate(edited, fault), t)
    ensures t.memory == memory[i := edited]
    ensures t.table == if fault.Fails? || edited.connectionString == "" then s.table
                       else s.table[(s.context, edited.connectionString) := edited]
  {
    PutAt(memory[i := edited], edited, i);
    assert memory[i := edited][i := edited] == memory[i := edited];
  }

  predicate ListsQueue(list: seq<QpDispatching>, connectionString: string)
    reads list
  {
    exists d :: d in list && d.connectionString == connectionString && d.IsRabbitMQ()
  }

  /** The connection strings of the message queues in a list, in order. */
  function Queues(list: seq<QpDispatching>): seq<string>
    reads list
  {
    if list == [] then []
    else
      var last := list[|list| - 1];
      Queues(list[..|list| - 1]) + if last.IsRabbitMQ() then [last.connectionString] else []
  }

  lemma {:induction false} QueuesAre(list: seq<QpDispatching>)
    ensures forall c :: c in Queues(list) <==>
      exists r :: r in Rows(list) && r.connectionString == c && r.kind == "rabbitmq"
  {
    if list != [] {
      var front, last := list[..|list| - 1], list[|list| - 1];
      QueuesAre(front);
      assert Rows(list) == Rows(front) + [last.AsRow()];
    }
  }
}
