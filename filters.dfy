/**
 * The filter state of a query (`$where`) and what `where()` does to it, and
 * the search payload `buildSearchFromWhere()` renders from it.
 *
 * `$where` holds two buckets, `integer_fields` and `string_fields`. Each is a
 * PHP array keyed by field name, in the order the fields were first added,
 * and each field maps to a FLAT list that `array_merge` has grown by the pair
 * `[values, operator]` once per `where` call: `[values1, op1, values2, op2, ...]`.
 */
module Filters {
  import opened Wrappers
  import opened Php

  datatype Kind = IntegerFields | StringFields

  /** One key of a bucket and the flat list stored under it. */
  datatype FieldClauses = FieldClauses(name: string, stored: seq<Arg>)

  /** A bucket: an insertion-ordered association list from field name to its flat list. */
  type Bucket = seq<FieldClauses>

  /**
   * A PHP array with the two keys `integer_fields` and `string_fields`, in
   * that order: the shape of both `$where` and the `search` payload.
   */
  datatype Buckets<X> = Buckets(integerFields: X, stringFields: X) {
    function Of(k: Kind): X {
      if k == IntegerFields then integerFields else stringFields
    }

    function With(k: Kind, x: X): (r: Buckets<X>)
      ensures r.Of(k) == x
      ensures forall k' :: k' != k ==> r.Of(k') == Of(k')
    {
      if k == IntegerFields then this.(integerFields := x) else this.(stringFields := x)
    }
  }

  /** `$where`; its two keys are always present, `integer_fields` first. */
  type Where = Buckets<Bucket>

  /** The initial value of `$where` (both buckets empty). */
  const EmptyWhere: Where := Buckets([], [])

  function Names(b: Bucket): (r: seq<string>)
    ensures |r| == |b|
  {
    seq(|b|, i requires 0 <= i < |b| => b[i].name)
  }

  predicate Distinct(names: seq<string>) {
    forall i, j :: 0 <= i < j < |names| ==> names[i] != names[j]
  }

  /**
   * The shape `array_merge` of `[values, operator]` pairs leaves: an even,
   * non-empty list whose even positions are non-empty value lists.
   */
  predicate WellFormedClauses(stored: seq<Arg>) {
    && |stored| >= 2
    && |stored| % 2 == 0
    && forall k :: 0 <= k < |stored| && k % 2 == 0 ==> stored[k].List? && |stored[k].items| > 0
  }

  predicate WellFormedBucket(b: Bucket) {
    && Distinct(Names(b))
    && forall i :: 0 <= i < |b| ==> WellFormedClauses(b[i].stored)
  }

  predicate WellFormed(w: Where) {
    WellFormedBucket(w.integerFields) && WellFormedBucket(w.stringFields)
  }

  // ---------------------------------------------------------------------
  // where(string $field, ...$args)
  // ---------------------------------------------------------------------

  /** The operator and the value argument `where` picked from its variadic arguments. */
  datatype Call = Call(op: Arg, value: Arg)

  /** Arity dispatch: one argument is the value with operator "=", two are operator and value. */
  function Dispatch(args: seq<Arg>): (r: Result<Call>)
    ensures r.Ok? <==> |args| == 1 || |args| == 2
    ensures |args| == 1 ==> r == Ok(Call(Scalar(VStr("=")), args[0]))
    ensures |args| == 2 ==> r == Ok(Call(args[0], args[1]))
    ensures r.Err? ==> r.error == InvalidArgument(ArityMessage)
  {
    if |args| == 1 then Ok(Call(Scalar(VStr("=")), args[0]))
    else if |args| == 2 then Ok(Call(args[0], args[1]))
    else Err(InvalidArgument(ArityMessage))
  }

  /** A non-array value is wrapped as a one-element list; a list is kept. */
  function Normalize(value: Arg): (r: seq<Value>)
    ensures value.Scalar? ==> r == [value.v]
    ensures value.List? ==> r == value.items
  {
    match value
    case Scalar(v) => [v]
    case List(items) => items
  }

  /** The bucket a call goes to: `integer_fields` exactly when its first value is an int. */
  function KindOf(values: seq<Value>): (k: Kind)
    requires |values| > 0
    ensures k == IntegerFields <==> IsInt(values[0])
  {
    if IsInt(values[0]) then IntegerFields else StringFields
  }

  /** `$bucket[$field] ?? []`. */
  function Lookup(b: Bucket, field: string): seq<Arg> {
    if b == [] then []
    else if b[0].name == field then b[0].stored
    else Lookup(b[1..], field)
  }

  /** The keys of two buckets side by side. */
  lemma NamesConcat(b: Bucket, c: Bucket)
    ensures Names(b + c) == Names(b) + Names(c)
  {
  }

  /** The keys of a non-empty bucket: its first key, then the rest. */
  lemma NamesCons(b: Bucket)
    requires b != []
    ensures Names(b) == [b[0].name] + Names(b[1..])
  {
    assert b == [b[0]] + b[1..];
    NamesConcat([b[0]], b[1..]);
  }

  /**
   * `$bucket[$field] = array_merge($bucket[$field] ?? [], $items)`: an existing
   * key keeps its position and has `items` appended to its list; a new key
   * goes to the end holding just `items`.
   */
  function Append(b: Bucket, field: string, items: seq<Arg>): (r: Bucket)
    ensures Names(r) == if field in Names(b) then Names(b) else Names(b) + [field]
    ensures field !in Names(b) ==> r == b + [FieldClauses(field, items)]
  {
    if b == [] then [FieldClauses(field, items)]
    else
      var first, tail := b[0], b[1..];
      NamesCons(b);
      if first.name == field then
        var entry := FieldClauses(field, first.stored + items);
        NamesConcat([entry], tail);
        [entry] + tail
      else
        var rest := Append(tail, field, items);
        NamesConcat([first], rest);
        if field in Names(tail) then
          [first] + rest
        else
          assert [first] + rest == b + [FieldClauses(field, items)] by {
            assert b == [first] + tail;
          }
          [first] + rest
  }

  /**
   * On a bucket whose keys are distinct, `Append` changes the list of its
   * own key and no other entry.
   */
  lemma {:induction false} AppendInPlace(b: Bucket, field: string, items: seq<Arg>)
    requires Distinct(Names(b))
    ensures var r := Append(b, field, items);
      && |r| >= |b|
      && (forall i :: 0 <= i < |b| && b[i].name != field ==> r[i] == b[i])
      && (forall i :: 0 <= i < |b| && b[i].name == field ==> r[i] == FieldClauses(field, b[i].stored + items))
  {
    var r := Append(b, field, items);
    assert |Names(r)| >= |Names(b)|;
    if b != [] {
      NamesCons(b);
      if b[0].name == field {
        forall i | 1 <= i < |b| ensures b[i].name != field {
          assert Names(b)[0] == field && Names(b)[i] == b[i].name;
        }
      } else {
        assert Distinct(Names(b[1..])) by {
          assert Names(b[1..]) == Names(b)[1..];
        }
        AppendInPlace(b[1..], field, items);
        assert r[1..] == Append(b[1..], field, items);
      }
    }
  }

  /** `Append` keeps the keys of a bucket distinct. */
  lemma AppendDistinct(b: Bucket, field: string, items: seq<Arg>)
    requires Distinct(Names(b))
    ensures Distinct(Names(Append(b, field, items)))
  {
  }

  /** One `where` call that got past the arity check, applied to `$where`. */
  function AddClause(w: Where, field: string, values: seq<Value>, op: Arg): (r: Where)
    requires |values| > 0
    ensures r.Of(KindOf(values)) == Append(w.Of(KindOf(values)), field, [List(values), op])
    ensures forall k :: k != KindOf(values) ==> r.Of(k) == w.Of(k)
  {
    var k := KindOf(values);
    w.With(k, Append(w.Of(k), field, [List(values), op]))
  }

  /** What the source demands of a `where` call: a value list, when one is used, is not empty. */
  predicate NonEmptyValue(args: seq<Arg>) {
    Dispatch(args).Ok? ==> |Normalize(Dispatch(args).value.value)| > 0
  }

  /** The whole of `where`: the arity check, then the update of `$where`. */
  function Applied(w: Where, field: string, args: seq<Arg>): (r: Result<Where>)
    requires NonEmptyValue(args)
    ensures r.Err? <==> |args| != 1 && |args| != 2
    ensures r.Err? ==> r.error == InvalidArgument(ArityMessage)
    ensures |args| == 1 ==> r == Ok(AddClause(w, field, Normalize(args[0]), Scalar(VStr("="))))
    ensures |args| == 2 ==> r == Ok(AddClause(w, field, Normalize(args[1]), args[0]))
  {
    match Dispatch(args)
    case Err(e) => Err(e)
    case Ok(c) => Ok(AddClause(w, field, Normalize(c.value), c.op))
  }

  /**
   * A `where` whose field is new to the bucket its first value chooses adds
   * the field at the end of that bucket, holding `[values, operator]`, and
   * leaves the other bucket alone.
   */
  lemma AppliedNewField(w: Where, field: string, args: seq<Arg>, values: seq<Value>, op: Arg)
    requires NonEmptyValue(args)
    requires || (|args| == 1 && op == Scalar(VStr("=")) && Normalize(args[0]) == values)
             || (|args| == 2 && op == args[0] && Normalize(args[1]) == values)
    requires |values| > 0
    requires field !in Names(w.Of(KindOf(values)))
    ensures IsInt(values[0]) ==>
      Applied(w, field, args) == Ok(Buckets(w.integerFields + [FieldClauses(field, [List(values), op])], w.stringFields))
    ensures !IsInt(values[0]) ==>
      Applied(w, field, args) == Ok(Buckets(w.integerFields, w.stringFields + [FieldClauses(field, [List(values), op])]))
  {
    assert Applied(w, field, args) == Ok(AddClause(w, field, values, op));
  }

  /** Appending one `[values, operator]` pair keeps a field's list well formed. */
  lemma AppendPairWellFormed(s: seq<Arg>, values: seq<Value>, op: Arg)
    requires WellFormedClauses(s) || s == []
    requires |values| > 0
    ensures WellFormedClauses(s + [List(values), op])
  {
    var t := s + [List(values), op];
    forall j | 0 <= j < |t| && j % 2 == 0 ensures t[j].List? && |t[j].items| > 0 {
      if j < |s| { assert t[j] == s[j]; } else { assert j == |s|; }
    }
  }

  /** Appending a `[values, operator]` pair under a key keeps a bucket well formed. */
  lemma AppendWellFormed(b: Bucket, field: string, values: seq<Value>, op: Arg)
    requires WellFormedBucket(b)
    requires |values| > 0
    ensures WellFormedBucket(Append(b, field, [List(values), op]))
  {
    AppendDistinct(b, field, [List(values), op]);
    if field in Names(b) {
      AppendExistingClauses(b, field, values, op);
    } else {
      AppendPairWellFormed([], values, op);
      SnocClauses(b, FieldClauses(field, [List(values), op]));
    }
  }

  /** The clause lists of a bucket stay well formed when a pair joins a key it already has. */
  lemma AppendExistingClauses(b: Bucket, field: string, values: seq<Value>, op: Arg)
    requires WellFormedBucket(b)
    requires field in Names(b)
    requires |values| > 0
    ensures forall i :: 0 <= i < |Append(b, field, [List(values), op])| ==>
      WellFormedClauses(Append(b, field, [List(values), op])[i].stored)
  {
    var r := Append(b, field, [List(values), op]);
    AppendInPlace(b, field, [List(values), op]);
    assert |r| == |b| by {
      assert |Names(r)| == |Names(b)|;
    }
    forall i | 0 <= i < |r| ensures WellFormedClauses(r[i].stored) {
      if b[i].name == field {
        AppendPairWellFormed(b[i].stored, values, op);
      }
    }
  }

  /** The clause lists of a bucket stay well formed when a well-formed key joins at the end. */
  lemma SnocClauses(b: Bucket, fc: FieldClauses)
    requires forall i :: 0 <= i < |b| ==> WellFormedClauses(b[i].stored)
    requires WellFormedClauses(fc.stored)
    ensures forall i :: 0 <= i < |b + [fc]| ==> WellFormedClauses((b + [fc])[i].stored)
  {
    forall i | 0 <= i < |b + [fc]| ensures WellFormedClauses((b + [fc])[i].stored) {
      if i < |b| {
        assert (b + [fc])[i] == b[i];
      }
    }
  }

  /** `where` keeps the structure of `$where`: distinct keys, and well-formed lists. */
  lemma AddClauseWellFormed(w: Where, field: string, values: seq<Value>, op: Arg)
    requires WellFormed(w)
    requires |values| > 0
    ensures WellFormed(AddClause(w, field, values, op))
  {
    AppendWellFormed(w.Of(KindOf(values)), field, values, op);
  }

  /** A successful `where` keeps `$where` well formed. */
  lemma AppliedWellFormed(w: Where, field: string, args: seq<Arg>)
    requires WellFormed(w)
    requires NonEmptyValue(args)
    ensures Applied(w, field, args).Ok? ==> WellFormed(Applied(w, field, args).value)
  {
    if |args| == 1 {
      AddClauseWellFormed(w, field, Normalize(args[0]), Scalar(VStr("=")));
    } else if |args| == 2 {
      AddClauseWellFormed(w, field, Normalize(args[1]), args[0]);
    }
  }

  /**
   * `Append` grows the list `Lookup` finds under its key by `items` and
   * leaves other keys alone; both look at the first entry with a key, so
   * this holds on any bucket.
   */
  lemma {:induction false} AppendLookup(b: Bucket, field: string, items: seq<Arg>, other: string)
    requires other != field
    ensures Lookup(Append(b, field, items), field) == Lookup(b, field) + items
    ensures Lookup(Append(b, field, items), other) == Lookup(b, other)
  {
    if b != [] && b[0].name != field {
      AppendLookup(b[1..], field, items, other);
      var r := Append(b, field, items);
      assert r[1..] == Append(b[1..], field, items);
    } else if b != [] {
      var r := Append(b, field, items);
      assert r[1..] == b[1..];
    }
  }

  /**
   * A successful `where` appends exactly `[values, operator]` to the list of
   * its field in the bucket its first value chose; every other field of that
   * bucket keeps its list, and the other bucket is unchanged.
   */
  lemma AddClauseAppendsPair(w: Where, field: string, values: seq<Value>, op: Arg, other: string)
    requires |values| > 0
    requires other != field
    ensures var k := KindOf(values);
      && Lookup(AddClause(w, field, values, op).Of(k), field) == Lookup(w.Of(k), field) + [List(values), op]
      && Lookup(AddClause(w, field, values, op).Of(k), other) == Lookup(w.Of(k), other)
  {
    AppendLookup(w.Of(KindOf(values)), field, [List(values), op], other);
  }

  // ---------------------------------------------------------------------
  // buildSearchFromWhere()
  // ---------------------------------------------------------------------

  datatype IntOp = EQ | NEQ

  /** One search entry: `{attribute, search_value, operator}` or `{attribute, search_value, match}`. */
  datatype Entry =
    | IntEntry(attribute: string, searchValue: Value, operator: IntOp)
    | StrEntry(attribute: string, searchValue: Value, matches: bool)

  /** The `search` variable: its `integer_fields` and `string_fields` lists. */
  type Search = Buckets<seq<Entry>>

  /** The keys of `['=' => 'EQ', '!=' => 'NEQ']`; any other operator is an undefined key. */
  predicate OperatorDefined(op: Arg) {
    op == Scalar(VStr("=")) || op == Scalar(VStr("!="))
  }

  function IntOperator(op: Arg): (r: IntOp)
    requires OperatorDefined(op)
    ensures r == EQ <==> op == Scalar(VStr("="))
    ensures r == NEQ <==> op == Scalar(VStr("!="))
  {
    if op == Scalar(VStr("=")) then EQ else NEQ
  }

  /** The entry emitted for one value of a field's clause in bucket `k`. */
  function MakeEntry(k: Kind, name: string, v: Value, op: Arg): (e: Entry)
    requires k == IntegerFields ==> OperatorDefined(op)
    ensures e.attribute == name && e.searchValue == v
    ensures k == IntegerFields ==> e.IntEntry? && (e.operator == EQ <==> op == Scalar(VStr("=")))
    ensures k == StringFields ==> e.StrEntry? && (e.matches <==> LooselyEqualsEq(op))
  {
    if k == IntegerFields then IntEntry(name, v, IntOperator(op))
    else StrEntry(name, v, LooselyEqualsEq(op))
  }

  /** The entries for a list of values under one operator: one per value, in order. */
  function ValueEntries(k: Kind, name: string, values: seq<Value>, op: Arg): (r: seq<Entry>)
    requires k == IntegerFields ==> OperatorDefined(op)
    ensures |r| == |values|
    ensures forall i :: 0 <= i < |values| ==> r[i] == MakeEntry(k, name, values[i], op)
  {
    seq(|values|, i requires 0 <= i < |values| => MakeEntry(k, name, values[i], op))
  }

  /**
   * What serialisation needs of a field's list: `[$values, $operator] = $list`
   * reads elements 0 and 1, element 0 is iterated, and in `integer_fields`
   * element 1 must be a key of the operator table.
   */
  predicate Serializable(k: Kind, fc: FieldClauses) {
    && |fc.stored| >= 2
    && fc.stored[0].List?
    && (k == IntegerFields ==> OperatorDefined(fc.stored[1]))
  }

  predicate SerializableBucket(k: Kind, b: Bucket) {
    forall i :: 0 <= i < |b| ==> Serializable(k, b[i])
  }

  /** The source's precondition on `variables()`: every integer field's first operator is "=" or "!=". */
  predicate SearchDefined(w: Where) {
    SerializableBucket(IntegerFields, w.integerFields) && SerializableBucket(StringFields, w.stringFields)
  }

  /** The entries of one field: only its FIRST `[values, operator]` pair is read. */
  function FieldEntries(k: Kind, fc: FieldClauses): seq<Entry>
    requires Serializable(k, fc)
  {
    ValueEntries(k, fc.name, fc.stored[0].items, fc.stored[1])
  }

  function Flatten(xss: seq<seq<Entry>>): seq<Entry> {
    if xss == [] then [] else Flatten(xss[..|xss| - 1]) + xss[|xss| - 1]
  }

  function PerField(k: Kind, b: Bucket): (r: seq<seq<Entry>>)
    requires SerializableBucket(k, b)
    ensures |r| == |b|
    ensures forall i :: 0 <= i < |b| ==> r[i] == FieldEntries(k, b[i])
  {
    seq(|b|, i requires 0 <= i < |b| => FieldEntries(k, b[i]))
  }

  /** A bucket's entries: the fields in bucket order, each contributing its entries. */
  function EntriesOf(k: Kind, b: Bucket): seq<Entry>
    requires SerializableBucket(k, b)
  {
    Flatten(PerField(k, b))
  }

  /** The `search` payload `buildSearchFromWhere()` returns for `$where`. */
  function SearchOf(w: Where): Search
    requires SearchDefined(w)
  {
    Buckets(EntriesOf(IntegerFields, w.integerFields), EntriesOf(StringFields, w.stringFields))
  }

  /** Adding one more field to the prefix handled so far appends that field's entries. */
  lemma EntriesOfSnoc(k: Kind, b: Bucket, i: nat)
    requires SerializableBucket(k, b)
    requires i < |b|
    ensures EntriesOf(k, b[..i + 1]) == EntriesOf(k, b[..i]) + FieldEntries(k, b[i])
  {
    assert PerField(k, b[..i + 1])[..i] == PerField(k, b[..i]);
  }

  /** Serialising one more value of a clause appends that value's entry. */
  lemma ValueEntriesSnoc(k: Kind, name: string, values: seq<Value>, op: Arg, j: nat)
    requires k == IntegerFields ==> OperatorDefined(op)
    requires j < |values|
    ensures ValueEntries(k, name, values[..j + 1], op) == ValueEntries(k, name, values[..j], op) + [MakeEntry(k, name, values[j], op)]
  {
  }

  /** The number of values in the first clause of every field of a bucket. */
  function FirstClauseCount(b: Bucket): nat
    requires forall i :: 0 <= i < |b| ==> |b[i].stored| >= 1 && b[i].stored[0].List?
  {
    if b == [] then 0 else FirstClauseCount(b[..|b| - 1]) + |b[|b| - 1].stored[0].items|
  }

  /** A bucket serialises to exactly as many entries as its fields' first clauses hold values. */
  lemma {:induction false} SearchSize(k: Kind, b: Bucket)
    requires SerializableBucket(k, b)
    ensures |EntriesOf(k, b)| == FirstClauseCount(b)
  {
    if b != [] {
      var n := |b| - 1;
      assert b[..n + 1] == b;
      EntriesOfSnoc(k, b, n);
      SearchSize(k, b[..n]);
    }
  }

  /** Every entry of the integer bucket is an integer entry and every entry of the string bucket a string entry. */
  lemma {:induction false} EntryKinds(k: Kind, b: Bucket)
    requires SerializableBucket(k, b)
    ensures forall e :: e in EntriesOf(k, b) ==> (e.IntEntry? <==> k == IntegerFields)
  {
    if b != [] {
      var n := |b| - 1;
      assert b[..n + 1] == b;
      EntriesOfSnoc(k, b, n);
      EntryKinds(k, b[..n]);
    }
  }

  /** Two buckets whose fields serialise alike serialise alike. */
  lemma SameFieldEntries(k: Kind, b: Bucket, b': Bucket)
    requires SerializableBucket(k, b) && SerializableBucket(k, b')
    requires |b| == |b'|
    requires forall i :: 0 <= i < |b| ==> FieldEntries(k, b[i]) == FieldEntries(k, b'[i])
    ensures EntriesOf(k, b) == EntriesOf(k, b')
  {
    assert PerField(k, b) == PerField(k, b');
  }

  /** Appending to a key a bucket already has leaves every key's first pair, and so the bucket's entries, as they were. */
  lemma AppendExistingEntries(k: Kind, b: Bucket, field: string, values: seq<Value>, op: Arg)
    requires WellFormedBucket(b) && SerializableBucket(k, b)
    requires field in Names(b)
    ensures SerializableBucket(k, Append(b, field, [List(values), op]))
    ensures EntriesOf(k, Append(b, field, [List(values), op])) == EntriesOf(k, b)
  {
    var r := Append(b, field, [List(values), op]);
    AppendInPlace(b, field, [List(values), op]);
    assert |r| == |b| by {
      assert |Names(r)| == |Names(b)|;
    }
    forall i | 0 <= i < |b| ensures r[i].name == b[i].name && r[i].stored[..2] == b[i].stored[..2] {
    }
    SameFieldEntries(k, b, r);
  }

  /**
   * A `where` on a field that already has a list in the chosen bucket is
   * stored but never serialised: the search payload does not change.
   */
  lemma SecondWhereInvisible(w: Where, field: string, values: seq<Value>, op: Arg)
    requires WellFormed(w) && SearchDefined(w)
    requires |values| > 0
    requires field in Names(w.Of(KindOf(values)))
    ensures SearchDefined(AddClause(w, field, values, op))
    ensures SearchOf(AddClause(w, field, values, op)) == SearchOf(w)
  {
    var k := KindOf(values);
    AppendExistingEntries(k, w.Of(k), field, values, op);
    var w' := AddClause(w, field, values, op);
    assert w'.integerFields == w.integerFields || w'.stringFields == w.stringFields;
  }

  /**
   * A `where` on a field new to the chosen bucket adds that field's entries
   * at the end of the bucket's entry list; the other bucket is unchanged.
   */
  lemma NewFieldEntriesLast(w: Where, field: string, values: seq<Value>, op: Arg)
    requires WellFormed(w) && SearchDefined(w)
    requires |values| > 0
    requires field !in Names(w.Of(KindOf(values)))
    requires KindOf(values) == IntegerFields ==> OperatorDefined(op)
    ensures SearchDefined(AddClause(w, field, values, op))
    ensures var k := KindOf(values);
      && SearchOf(AddClause(w, field, values, op)).Of(k)
         == SearchOf(w).Of(k) + ValueEntries(k, field, values, op)
      && forall k' :: k' != k ==> SearchOf(AddClause(w, field, values, op)).Of(k') == SearchOf(w).Of(k')
  {
    var k := KindOf(values);
    SnocEntries(k, w.Of(k), FieldClauses(field, [List(values), op]));
  }

  /** A key serialisable on its own, added at the end of a bucket, adds its entries at the end. */
  lemma SnocEntries(k: Kind, b: Bucket, fc: FieldClauses)
    requires SerializableBucket(k, b) && Serializable(k, fc)
    ensures SerializableBucket(k, b + [fc])
    ensures EntriesOf(k, b + [fc]) == EntriesOf(k, b) + FieldEntries(k, fc)
  {
    var r := b + [fc];
    assert r[..|b|] == b;
    assert r[..|b| + 1] == r;
    EntriesOfSnoc(k, r, |b|);
  }

  /** `where` keeps the search payload defined unless it starts an integer field with an unknown operator. */
  lemma AddClauseSearchDefined(w: Where, field: string, values: seq<Value>, op: Arg)
    requires WellFormed(w) && SearchDefined(w)
    requires |values| > 0
    requires KindOf(values) == IntegerFields && field !in Names(w.integerFields) ==> OperatorDefined(op)
    ensures SearchDefined(AddClause(w, field, values, op))
  {
    if field in Names(w.Of(KindOf(values))) {
      SecondWhereInvisible(w, field, values, op);
    } else {
      NewFieldEntriesLast(w, field, values, op);
    }
  }
}
