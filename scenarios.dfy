/**
 * Fluent `where` chains as callers write them, and what they serialise to.
 * The chains are those of the ticket list and the single-ticket lookup of
 * the ticket controller.
 */
module Scenarios {
  import opened Wrappers
  import opened Php
  import opened Filters

  /** One `->where($field, ...$args)` link of a chain. */
  datatype WhereCall = WhereCall(field: string, args: seq<Arg>)

  /** What the source demands of every call of a chain. */
  predicate ValueLists(calls: seq<WhereCall>) {
    forall i :: 0 <= i < |calls| ==> NonEmptyValue(calls[i].args)
  }

  /** A chain of `where` calls; the first one that throws ends it. */
  function Chain(w: Where, calls: seq<WhereCall>): Result<Where>
    requires ValueLists(calls)
    decreases |calls|
  {
    if calls == [] then Ok(w)
    else
      match Applied(w, calls[0].field, calls[0].args)
      case Err(e) => Err(e)
      case Ok(w') => Chain(w', calls[1..])
  }

  /** A chain throws exactly when one of its calls has neither one nor two arguments. */
  lemma {:induction false} ChainFailsOnArity(w: Where, calls: seq<WhereCall>)
    requires ValueLists(calls)
    ensures Chain(w, calls).Err? <==> exists i :: 0 <= i < |calls| && |calls[i].args| != 1 && |calls[i].args| != 2
    ensures Chain(w, calls).Err? ==> Chain(w, calls).error == InvalidArgument(ArityMessage)
    decreases |calls|
  {
    if calls != [] {
      var r := Applied(w, calls[0].field, calls[0].args);
      if r.Ok? {
        assert ValueLists(calls[1..]) by {
          forall i | 0 <= i < |calls[1..]| ensures NonEmptyValue(calls[1..][i].args) {
            assert calls[1..][i] == calls[i + 1];
          }
        }
        ChainFailsOnArity(r.value, calls[1..]);
        if Chain(w, calls).Err? {
          var i :| 0 <= i < |calls[1..]| && |calls[1..][i].args| != 1 && |calls[1..][i].args| != 2;
          assert calls[i + 1] == calls[1..][i];
        } else {
          forall i | 0 <= i < |calls| ensures |calls[i].args| == 1 || |calls[i].args| == 2 {
            if i > 0 {
              assert calls[i] == calls[1..][i - 1];
            }
          }
        }
      }
    }
  }

  /** A chain that succeeds keeps `$where` well formed. */
  lemma {:induction false} ChainWellFormed(w: Where, calls: seq<WhereCall>)
    requires ValueLists(calls)
    requires WellFormed(w)
    ensures Chain(w, calls).Ok? ==> WellFormed(Chain(w, calls).value)
    decreases |calls|
  {
    if calls != [] {
      AppliedWellFormed(w, calls[0].field, calls[0].args);
      var r := Applied(w, calls[0].field, calls[0].args);
      if r.Ok? {
        assert ValueLists(calls[1..]) by {
          forall i | 0 <= i < |calls[1..]| ensures NonEmptyValue(calls[1..][i].args) {
            assert calls[1..][i] == calls[i + 1];
          }
        }
        ChainWellFormed(r.value, calls[1..]);
      }
    }
  }

  /** A chain whose first call succeeds continues from that call's `$where`. */
  lemma ChainStep(w: Where, c: WhereCall, rest: seq<WhereCall>, w': Where)
    requires NonEmptyValue(c.args) && ValueLists(rest)
    requires Applied(w, c.field, c.args) == Ok(w')
    ensures ValueLists([c] + rest)
    ensures Chain(w, [c] + rest) == Chain(w', rest)
  {
    assert ([c] + rest)[1..] == rest;
  }

  /** What the source demands of every call from `n` on. */
  lemma ValueListsFrom(calls: seq<WhereCall>, n: nat)
    requires ValueLists(calls) && n <= |calls|
    ensures ValueLists(calls[n..])
  {
    forall i | 0 <= i < |calls[n..]| ensures NonEmptyValue(calls[n..][i].args) {
      assert calls[n..][i] == calls[n + i];
    }
  }

  /** Call `n` of a sequence, once it succeeds, hands the rest of the chain its result. */
  lemma ChainAt(w: Where, calls: seq<WhereCall>, n: nat, w': Where)
    requires ValueLists(calls) && n < |calls|
    requires Applied(w, calls[n].field, calls[n].args) == Ok(w')
    ensures ValueLists(calls[n..]) && ValueLists(calls[n + 1..])
    ensures Chain(w, calls[n..]) == Chain(w', calls[n + 1..])
  {
    ValueListsFrom(calls, n);
    ValueListsFrom(calls, n + 1);
    assert calls[n..] == [calls[n]] + calls[n + 1..];
    ChainStep(w, calls[n], calls[n + 1..], w');
  }

  /**
   * Calls that each take `$where` from one state to the next chain from
   * state `n` to the last state.
   */
  lemma {:induction false} ChainThrough(states: seq<Where>, calls: seq<WhereCall>, n: nat)
    requires |states| == |calls| + 1 && n <= |calls|
    requires ValueLists(calls)
    requires forall i {:trigger calls[i]} :: 0 <= i < |calls| ==>
      Applied(states[i], calls[i].field, calls[i].args) == Ok(states[i + 1])
    ensures ValueLists(calls[n..])
    ensures Chain(states[n], calls[n..]) == Ok(states[|calls|])
    decreases |calls| - n
  {
    ValueListsFrom(calls, n);
    if n < |calls| {
      ChainThrough(states, calls, n + 1);
      ChainAt(states[n], calls, n, states[n + 1]);
    } else {
      assert calls[n..] == [];
    }
  }

  /**
   * A call whose field is new to the bucket its first value chooses adds
   * the field at the end of that bucket, and the chain goes on from there.
   */
  lemma ChainNewField(w: Where, c: WhereCall, rest: seq<WhereCall>, values: seq<Value>, op: Arg)
    requires NonEmptyValue(c.args) && ValueLists(rest)
    requires || (|c.args| == 1 && op == Scalar(VStr("=")) && Normalize(c.args[0]) == values)
             || (|c.args| == 2 && op == c.args[0] && Normalize(c.args[1]) == values)
    requires |values| > 0
    requires c.field !in Names(w.Of(KindOf(values)))
    ensures ValueLists([c] + rest)
    ensures IsInt(values[0]) ==>
      Chain(w, [c] + rest) == Chain(Buckets(w.integerFields + [FieldClauses(c.field, [List(values), op])], w.stringFields), rest)
    ensures !IsInt(values[0]) ==>
      Chain(w, [c] + rest) == Chain(Buckets(w.integerFields, w.stringFields + [FieldClauses(c.field, [List(values), op])]), rest)
  {
    var fc := FieldClauses(c.field, [List(values), op]);
    if IsInt(values[0]) {
      ChainStep(w, c, rest, Buckets(w.integerFields + [fc], w.stringFields));
    } else {
      ChainStep(w, c, rest, Buckets(w.integerFields, w.stringFields + [fc]));
    }
  }

  const Eq: Arg := Scalar(VStr("="))
  const Neq: Arg := Scalar(VStr("!="))

  function StatusOperator(status: string): Arg {
    if status == "OPEN" then Neq else Eq
  }

  function StatusValue(status: string): Value {
    VStr(if status == "OPEN" then "CLOSED" else status)
  }

  /**
   * The ticket list: tickets of the account and its child account, of type
   * 'Account', with a mailbox, and not closed (status OPEN) or of exactly the
   * requested status.
   */
  function TicketListCalls(account: int, child: int, status: string): seq<WhereCall> {
    [ WhereCall("ticketableId", [List([VInt(account), VInt(child)])]),
      WhereCall("ticketableType", [Scalar(VStr("Account"))]),
      WhereCall("inboundMailboxId", [Neq, Scalar(VNull)]),
      WhereCall("status", [StatusOperator(status), Scalar(StatusValue(status))]) ]
  }

  /** The `$where` the ticket list chain leaves behind. */
  function TicketListWhere(account: int, child: int, status: string): Where {
    TicketListState(account, child, status, 4)
  }

  /** The ticket list's `$where` after its first `n` calls. */
  function TicketListState(account: int, child: int, status: string, n: nat): Where
    requires n <= 4
  {
    var ids := FieldClauses("ticketableId", [List([VInt(account), VInt(child)]), Eq]);
    var kind := FieldClauses("ticketableType", [List([VStr("Account")]), Eq]);
    var mailbox := FieldClauses("inboundMailboxId", [List([VNull]), Neq]);
    var st := FieldClauses("status", [List([StatusValue(status)]), StatusOperator(status)]);
    if n == 0 then EmptyWhere
    else if n == 1 then Buckets([ids], [])
    else if n == 2 then Buckets([ids], [kind])
    else if n == 3 then Buckets([ids], [kind, mailbox])
    else Buckets([ids], [kind, mailbox, st])
  }

  /** Call `n` of the ticket list takes its `$where` from state `n` to state `n + 1`. */
  lemma TicketListStep(account: int, child: int, status: string, n: nat)
    requires n < 4
    ensures NonEmptyValue(TicketListCalls(account, child, status)[n].args)
    ensures var c := TicketListCalls(account, child, status)[n];
      Applied(TicketListState(account, child, status, n), c.field, c.args) == Ok(TicketListState(account, child, status, n + 1))
  {
    var c := TicketListCalls(account, child, status)[n];
    var w := TicketListState(account, child, status, n);
    var next := TicketListState(account, child, status, n + 1);
    if n == 0 {
      AppliedNewField(w, c.field, c.args, [VInt(account), VInt(child)], Eq);
      assert w.integerFields + [next.integerFields[0]] == next.integerFields;
    } else if n == 1 {
      AppliedNewField(w, c.field, c.args, [VStr("Account")], Eq);
      assert w.stringFields + [next.stringFields[0]] == next.stringFields;
    } else if n == 2 {
      assert Names(w.stringFields) == ["ticketableType"];
      AppliedNewField(w, c.field, c.args, [VNull], Neq);
      assert w.stringFields + [next.stringFields[1]] == next.stringFields;
    } else {
      assert Names(w.stringFields) == ["ticketableType", "inboundMailboxId"];
      AppliedNewField(w, c.field, c.args, [StatusValue(status)], StatusOperator(status));
      assert w.stringFields + [next.stringFields[2]] == next.stringFields;
    }
  }

  /** The ticket list chain succeeds; the int list goes to the integer bucket, the rest to the string bucket. */
  lemma TicketListChain(account: int, child: int, status: string)
    ensures ValueLists(TicketListCalls(account, child, status))
    ensures Chain(EmptyWhere, TicketListCalls(account, child, status)) == Ok(TicketListWhere(account, child, status))
    ensures TicketListWhere(account, child, status)
      == Buckets([FieldClauses("ticketableId", [List([VInt(account), VInt(child)]), Eq])],
               [FieldClauses("ticketableType", [List([VStr("Account")]), Eq]),
                FieldClauses("inboundMailboxId", [List([VNull]), Neq]),
                FieldClauses("status", [List([StatusValue(status)]), StatusOperator(status)])])
  {
    var calls := TicketListCalls(account, child, status);
    var states := seq(5, n requires 0 <= n < 5 => TicketListState(account, child, status, n));
    assert ValueLists(calls) && forall n {:trigger calls[n]} :: 0 <= n < 4 ==>
      Applied(states[n], calls[n].field, calls[n].args) == Ok(states[n + 1])
    by {
      forall n | 0 <= n < 4
        ensures NonEmptyValue(calls[n].args)
        ensures Applied(states[n], calls[n].field, calls[n].args) == Ok(states[n + 1])
      {
        TicketListStep(account, child, status, n);
      }
    }
    ChainThrough(states, calls, 0);
    assert calls[0..] == calls;
  }

  /**
   * The ticket list sends the two account ids as EQ integer entries and
   * 'Account' as a matching string entry; the null mailbox goes out as a
   * non-matching entry, and the status matches unless it is OPEN.
   */
  lemma TicketListSearch(account: int, child: int, status: string)
    ensures SearchDefined(TicketListWhere(account, child, status))
    ensures SearchOf(TicketListWhere(account, child, status)) == Buckets(
           [IntEntry("ticketableId", VInt(account), EQ), IntEntry("ticketableId", VInt(child), EQ)],
           [StrEntry("ticketableType", VStr("Account"), true),
            StrEntry("inboundMailboxId", VNull, false),
            StrEntry("status", StatusValue(status), status != "OPEN")])
  {
    TicketListIntEntries(account, child, status);
    TicketListStrEntries(account, child, status);
  }

  /** The ticket list's integer bucket: both account ids, EQ. */
  lemma TicketListIntEntries(account: int, child: int, status: string)
    ensures SerializableBucket(IntegerFields, TicketListWhere(account, child, status).integerFields)
    ensures EntriesOf(IntegerFields, TicketListWhere(account, child, status).integerFields)
      == [IntEntry("ticketableId", VInt(account), EQ), IntEntry("ticketableId", VInt(child), EQ)]
  {
    var b := TicketListWhere(account, child, status).integerFields;
    assert SerializableBucket(IntegerFields, b);
    assert b[..0] == [];
    EntriesOfSnoc(IntegerFields, b, 0);
    assert b[..1] == b;
  }

  /** The ticket list's string bucket: the type, the mailbox and the status, in call order. */
  lemma TicketListStrEntries(account: int, child: int, status: string)
    ensures SerializableBucket(StringFields, TicketListWhere(account, child, status).stringFields)
    ensures EntriesOf(StringFields, TicketListWhere(account, child, status).stringFields)
      == [StrEntry("ticketableType", VStr("Account"), true),
          StrEntry("inboundMailboxId", VNull, false),
          StrEntry("status", StatusValue(status), status != "OPEN")]
  {
    var c := TicketListWhere(account, child, status).stringFields;
    assert SerializableBucket(StringFields, c);
    assert c[..0] == [];
    EntriesOfSnoc(StringFields, c, 0);
    EntriesOfSnoc(StringFields, c, 1);
    EntriesOfSnoc(StringFields, c, 2);
    assert c[..3] == c;
  }


  /** The single-ticket lookup: by id, restricted to the account's tickets. */
  function TicketLookupCalls(id: int, account: int, child: int): seq<WhereCall> {
    [ WhereCall("id", [Scalar(VInt(id))]),
      WhereCall("ticketableId", [List([VInt(account), VInt(child)])]),
      WhereCall("ticketableType", [Scalar(VStr("Account"))]),
      WhereCall("inboundMailboxId", [Neq, Scalar(VNull)]) ]
  }

  /** The `$where` the lookup chain leaves behind. */
  function TicketLookupWhere(id: int, account: int, child: int): Where {
    TicketLookupState(id, account, child, 4)
  }

  /** The lookup's `$where` after its first `n` calls. */
  function TicketLookupState(id: int, account: int, child: int, n: nat): Where
    requires n <= 4
  {
    var ticket := FieldClauses("id", [List([VInt(id)]), Eq]);
    var ids := FieldClauses("ticketableId", [List([VInt(account), VInt(child)]), Eq]);
    var kind := FieldClauses("ticketableType", [List([VStr("Account")]), Eq]);
    var mailbox := FieldClauses("inboundMailboxId", [List([VNull]), Neq]);
    if n == 0 then EmptyWhere
    else if n == 1 then Buckets([ticket], [])
    else if n == 2 then Buckets([ticket, ids], [])
    else if n == 3 then Buckets([ticket, ids], [kind])
    else Buckets([ticket, ids], [kind, mailbox])
  }

  /** Call `n` of the lookup takes its `$where` from state `n` to state `n + 1`. */
  lemma TicketLookupStep(id: int, account: int, child: int, n: nat)
    requires n < 4
    ensures NonEmptyValue(TicketLookupCalls(id, account, child)[n].args)
    ensures var c := TicketLookupCalls(id, account, child)[n];
      Applied(TicketLookupState(id, account, child, n), c.field, c.args) == Ok(TicketLookupState(id, account, child, n + 1))
  {
    var c := TicketLookupCalls(id, account, child)[n];
    var w := TicketLookupState(id, account, child, n);
    var next := TicketLookupState(id, account, child, n + 1);
    if n == 0 {
      AppliedNewField(w, c.field, c.args, [VInt(id)], Eq);
      assert w.integerFields + [next.integerFields[0]] == next.integerFields;
    } else if n == 1 {
      assert Names(w.integerFields) == ["id"];
      AppliedNewField(w, c.field, c.args, [VInt(account), VInt(child)], Eq);
      assert w.integerFields + [next.integerFields[1]] == next.integerFields;
    } else if n == 2 {
      AppliedNewField(w, c.field, c.args, [VStr("Account")], Eq);
      assert w.stringFields + [next.stringFields[0]] == next.stringFields;
    } else {
      assert Names(w.stringFields) == ["ticketableType"];
      AppliedNewField(w, c.field, c.args, [VNull], Neq);
      assert w.stringFields + [next.stringFields[1]] == next.stringFields;
    }
  }

  /** The lookup chain succeeds and puts `id` and then `ticketableId` in the integer bucket, in call order. */
  lemma TicketLookupChain(id: int, account: int, child: int)
    ensures ValueLists(TicketLookupCalls(id, account, child))
    ensures Chain(EmptyWhere, TicketLookupCalls(id, account, child)) == Ok(TicketLookupWhere(id, account, child))
    ensures TicketLookupWhere(id, account, child)
      == Buckets([FieldClauses("id", [List([VInt(id)]), Eq]),
                FieldClauses("ticketableId", [List([VInt(account), VInt(child)]), Eq])],
               [FieldClauses("ticketableType", [List([VStr("Account")]), Eq]),
                FieldClauses("inboundMailboxId", [List([VNull]), Neq])])
  {
    var calls := TicketLookupCalls(id, account, child);
    var states := seq(5, n requires 0 <= n < 5 => TicketLookupState(id, account, child, n));
    assert ValueLists(calls) && forall n {:trigger calls[n]} :: 0 <= n < 4 ==>
      Applied(states[n], calls[n].field, calls[n].args) == Ok(states[n + 1])
    by {
      forall n | 0 <= n < 4
        ensures NonEmptyValue(calls[n].args)
        ensures Applied(states[n], calls[n].field, calls[n].args) == Ok(states[n + 1])
      {
        TicketLookupStep(id, account, child, n);
      }
    }
    ChainThrough(states, calls, 0);
    assert calls[0..] == calls;
  }

  /** The lookup sends the id and both account ids as EQ integer entries, in that order. */
  lemma TicketLookupSearch(id: int, account: int, child: int)
    ensures SearchDefined(TicketLookupWhere(id, account, child))
    ensures SearchOf(TicketLookupWhere(id, account, child)).integerFields
      == [IntEntry("id", VInt(id), EQ),
          IntEntry("ticketableId", VInt(account), EQ), IntEntry("ticketableId", VInt(child), EQ)]
    ensures |SearchOf(TicketLookupWhere(id, account, child)).stringFields| == 2
  {
    TicketLookupIntEntries(id, account, child);
    var c := TicketLookupWhere(id, account, child).stringFields;
    assert SerializableBucket(StringFields, c);
    SearchSize(StringFields, c);
    assert FirstClauseCount(c[..1]) == 1 by {
      assert c[..1][..0] == [];
    }
    assert c[..2] == c;
  }

  /** The lookup's integer bucket: the ticket id, then both account ids, all EQ. */
  lemma TicketLookupIntEntries(id: int, account: int, child: int)
    ensures SerializableBucket(IntegerFields, TicketLookupWhere(id, account, child).integerFields)
    ensures EntriesOf(IntegerFields, TicketLookupWhere(id, account, child).integerFields)
      == [IntEntry("id", VInt(id), EQ),
          IntEntry("ticketableId", VInt(account), EQ), IntEntry("ticketableId", VInt(child), EQ)]
  {
    var b := TicketLookupWhere(id, account, child).integerFields;
    assert SerializableBucket(IntegerFields, b);
    assert b[..0] == [];
    EntriesOfSnoc(IntegerFields, b, 0);
    EntriesOfSnoc(IntegerFields, b, 1);
    assert b[..2] == b;
  }

  /** `where('id', [1, 2, 3])` then `where('id', '!=', 4)`. */
  function RepeatedFieldCalls(): seq<WhereCall> {
    [WhereCall("id", [List([VInt(1), VInt(2), VInt(3)])]), WhereCall("id", [Neq, Scalar(VInt(4))])]
  }

  /** Both clauses of the repeated field are stored, in order, in one flat list. */
  lemma RepeatedFieldChain()
    ensures ValueLists(RepeatedFieldCalls())
    ensures Chain(EmptyWhere, RepeatedFieldCalls())
      == Ok(Buckets([FieldClauses("id", [List([VInt(1), VInt(2), VInt(3)]), Eq, List([VInt(4)]), Neq])], []))
  {
    var calls := RepeatedFieldCalls();
    var c0, c1 := calls[0], calls[1];
    assert calls == [c0] + ([c1] + []);
    var values := [VInt(1), VInt(2), VInt(3)];
    var w1 := Buckets([] + [FieldClauses("id", [List(values), Eq])], []);
    var w2 := Buckets([FieldClauses("id", [List(values), Eq] + [List([VInt(4)]), Neq])], []);
    assert Applied(w1, "id", [Neq, Scalar(VInt(4))]) == Ok(w2) by {
      assert Append(w1.integerFields, "id", [List([VInt(4)]), Neq]) == w2.integerFields;
    }
    ChainStep(w1, c1, [], w2);
    ChainNewField(EmptyWhere, c0, [c1] + [], values, Eq);
    assert w2.integerFields[0].stored == [List(values), Eq, List([VInt(4)]), Neq];
  }

  /**
   * The second clause on `id` is stored but not sent: the payload holds
   * three EQ entries and no NEQ entry.
   */
  lemma RepeatedFieldKeepsFirstClause()
    ensures var w := Buckets([FieldClauses("id", [List([VInt(1), VInt(2), VInt(3)]), Eq, List([VInt(4)]), Neq])], []);
      && SearchDefined(w)
      && SearchOf(w) == Buckets([IntEntry("id", VInt(1), EQ), IntEntry("id", VInt(2), EQ), IntEntry("id", VInt(3), EQ)], [])
  {
    var w := Buckets([FieldClauses("id", [List([VInt(1), VInt(2), VInt(3)]), Eq, List([VInt(4)]), Neq])], []);
    var b := w.integerFields;
    assert SearchDefined(w);
    assert EntriesOf(IntegerFields, b) == ValueEntries(IntegerFields, "id", [VInt(1), VInt(2), VInt(3)], Eq) by {
      assert b[..0] == [];
      EntriesOfSnoc(IntegerFields, b, 0);
      assert b[..1] == b;
    }
    assert SearchOf(w).integerFields == [IntEntry("id", VInt(1), EQ), IntEntry("id", VInt(2), EQ), IntEntry("id", VInt(3), EQ)];
    assert SearchOf(w).stringFields == [];
  }

  /** `where('id', 5)` then `where('id', 'x')`. */
  function BucketPerCallCalls(): seq<WhereCall> {
    [WhereCall("id", [Scalar(VInt(5))]), WhereCall("id", [Scalar(VStr("x"))])]
  }

  /**
   * The bucket is chosen per call, not per field: `where('id', 5)` then
   * `where('id', 'x')` puts `id` in both buckets.
   */
  lemma BucketChosenPerCall()
    ensures ValueLists(BucketPerCallCalls())
    ensures Chain(EmptyWhere, BucketPerCallCalls())
      == Ok(Buckets([FieldClauses("id", [List([VInt(5)]), Eq])], [FieldClauses("id", [List([VStr("x")]), Eq])]))
  {
    var calls := BucketPerCallCalls();
    var c0, c1 := calls[0], calls[1];
    assert calls == [c0] + ([c1] + []);
    var w1 := Buckets([] + [FieldClauses("id", [List([VInt(5)]), Eq])], []);
    ChainNewField(w1, c1, [], [VStr("x")], Eq);
    ChainNewField(EmptyWhere, c0, [c1] + [], [VInt(5)], Eq);
    assert w1.stringFields + [FieldClauses("id", [List([VStr("x")]), Eq])] == [FieldClauses("id", [List([VStr("x")]), Eq])];
  }

  /** Both clauses on `id` are then sent, one in each list of the search payload. */
  lemma BucketChosenPerCallSearch()
    ensures var w := Buckets([FieldClauses("id", [List([VInt(5)]), Eq])], [FieldClauses("id", [List([VStr("x")]), Eq])]);
      && SearchDefined(w)
      && SearchOf(w) == Buckets([IntEntry("id", VInt(5), EQ)], [StrEntry("id", VStr("x"), true)])
  {
    var w := Buckets([FieldClauses("id", [List([VInt(5)]), Eq])], [FieldClauses("id", [List([VStr("x")]), Eq])]);
    var b := w.integerFields;
    var c := w.stringFields;
    assert SearchDefined(w);
    assert EntriesOf(IntegerFields, b) == [IntEntry("id", VInt(5), EQ)] by {
      assert b[..0] == [];
      EntriesOfSnoc(IntegerFields, b, 0);
      assert b[..1] == b;
    }
    assert EntriesOf(StringFields, c) == [StrEntry("id", VStr("x"), true)] by {
      assert c[..0] == [];
      EntriesOfSnoc(StringFields, c, 0);
      assert c[..1] == c;
    }
  }

  /** A new integer field filtered with "=" adds one EQ entry per value, in order. */
  lemma EqualsOnIntegerFieldIsEq(w: Where, field: string, values: seq<Value>)
    requires WellFormed(w) && SearchDefined(w)
    requires |values| > 0 && IsInt(values[0])
    requires field !in Names(w.integerFields)
    ensures SearchDefined(AddClause(w, field, values, Eq))
    ensures var before := SearchOf(w).integerFields;
      var after := SearchOf(AddClause(w, field, values, Eq)).integerFields;
      && |after| == |before| + |values|
      && after[..|before|] == before
      && forall i :: 0 <= i < |values| ==> after[|before| + i] == IntEntry(field, values[i], EQ)
  {
    NewFieldEntriesLast(w, field, values, Eq);
  }

  /** A new string field filtered with "!=" adds one non-matching entry per value, in order. */
  lemma NotEqualsOnStringFieldNeverMatches(w: Where, field: string, values: seq<Value>)
    requires WellFormed(w) && SearchDefined(w)
    requires |values| > 0 && !IsInt(values[0])
    requires field !in Names(w.stringFields)
    ensures SearchDefined(AddClause(w, field, values, Neq))
    ensures var before := SearchOf(w).stringFields;
      var after := SearchOf(AddClause(w, field, values, Neq)).stringFields;
      && |after| == |before| + |values|
      && after[..|before|] == before
      && forall i :: 0 <= i < |values| ==> after[|before| + i] == StrEntry(field, values[i], false)
  {
    NewFieldEntriesLast(w, field, values, Neq);
  }
}
