/** The schema analyst: groups the field mappings by (source table, target
    table), resolves each pair against the two schema dumps and classifies
    every mapping of a resolved pair as validated, missing in the target or
    type-mismatched. The free-text analysis that a language model writes for
    each pair is supplied by the caller. */
module SchemaAnalyst {
  import opened Models

  /** The key a mapping is grouped under: its two (optional) table names. */
  datatype TablePair = TablePair(source: Option<string>, target: Option<string>)

  /** The three classification lists of one table pair, in the order the
      mappings were met. */
  datatype Buckets = Buckets(
    validated: seq<MappingPair>,
    missing: seq<string>,
    mismatches: seq<TypeMismatch>)

  /** Answers of the language model: the analysis text for a source table,
      a target table and the mappings between them. */
  type Analyst = (Schema, Schema, seq<FieldMapping>) -> string

  predicate Distinct<T(==)>(s: seq<T>)
  {
    forall i, j :: 0 <= i < j < |s| ==> s[i] != s[j]
  }

  // ---------------------------------------------------------------------
  // Grouping by table pair

  function KeyOf(m: FieldMapping): TablePair
  {
    TablePair(m.sourceTable, m.targetTable)
  }

  /** Some mapping of `ms` is grouped under `k`. */
  predicate HasKey(ms: seq<FieldMapping>, k: TablePair)
  {
    exists i :: 0 <= i < |ms| && KeyOf(ms[i]) == k
  }

  /** The position of the first mapping grouped under `k`. */
  function FirstIndex(ms: seq<FieldMapping>, k: TablePair): (i: nat)
    requires HasKey(ms, k)
    ensures i < |ms| && KeyOf(ms[i]) == k
    ensures forall j :: 0 <= j < i ==> KeyOf(ms[j]) != k
  {
    if KeyOf(ms[0]) == k then 0
    else
      var w :| 0 <= w < |ms| && KeyOf(ms[w]) == k;
      assert KeyOf(ms[1..][w - 1]) == k;
      FirstIndex(ms[1..], k) + 1
  }

  /** The distinct keys of `ms`, each where it is first met: the key order
      of the insertion-ordered dictionary the grouping loop fills. */
  function PairOrder(ms: seq<FieldMapping>): seq<TablePair>
    decreases |ms|
  {
    if ms == [] then []
    else
      var order := PairOrder(ms[..|ms| - 1]);
      var k := KeyOf(ms[|ms| - 1]);
      if k in order then order else order + [k]
  }

  /** The mappings of `ms` grouped under `k`, in input order. */
  function Group(ms: seq<FieldMapping>, k: TablePair): seq<FieldMapping>
    decreases |ms|
  {
    if ms == [] then []
    else Group(ms[..|ms| - 1], k) + (if KeyOf(ms[|ms| - 1]) == k then [ms[|ms| - 1]] else [])
  }

  /** The groups of the keys in `order`, one after the other. */
  function Concat(order: seq<TablePair>, ms: seq<FieldMapping>): seq<FieldMapping>
    decreases |order|
  {
    if order == [] then [] else Group(ms, order[0]) + Concat(order[1..], ms)
  }

  lemma {:induction false} FirstIndexOfPrefix(p: seq<FieldMapping>, m: FieldMapping, k: TablePair)
    requires HasKey(p, k)
    ensures HasKey(p + [m], k) && FirstIndex(p + [m], k) == FirstIndex(p, k)
  {
    var i := FirstIndex(p, k);
    assert (p + [m])[i] == p[i];
  }

  lemma {:induction false} FirstIndexOfNew(p: seq<FieldMapping>, m: FieldMapping)
    requires !HasKey(p, KeyOf(m))
    ensures HasKey(p + [m], KeyOf(m)) && FirstIndex(p + [m], KeyOf(m)) == |p|
  {
    assert (p + [m])[|p|] == m;
  }

  /** The key order holds exactly the keys of the mappings, each once, in
      the order of their first occurrence in the mapping list. */
  lemma {:induction false} PairOrderFirstSeen(ms: seq<FieldMapping>)
    ensures forall k :: k in PairOrder(ms) <==> HasKey(ms, k)
    ensures Distinct(PairOrder(ms))
    ensures forall i, j :: 0 <= i < j < |PairOrder(ms)| ==>
      FirstIndex(ms, PairOrder(ms)[i]) < FirstIndex(ms, PairOrder(ms)[j])
    decreases |ms|
  {
    if ms != [] {
      var p, m := ms[..|ms| - 1], ms[|ms| - 1];
      assert ms == p + [m];
      PairOrderFirstSeen(p);
      var order := PairOrder(p);
      forall k ensures HasKey(ms, k) <==> HasKey(p, k) || KeyOf(m) == k {
        if HasKey(ms, k) && KeyOf(m) != k {
          var i :| 0 <= i < |ms| && KeyOf(ms[i]) == k;
          assert ms[i] == p[i];
        }
        if HasKey(p, k) {
          var i :| 0 <= i < |p| && KeyOf(p[i]) == k;
          assert ms[i] == p[i];
        }
        if KeyOf(m) == k {
          assert KeyOf(ms[|ms| - 1]) == k;
        }
      }
      forall k | k in order ensures FirstIndex(ms, k) == FirstIndex(p, k) {
        FirstIndexOfPrefix(p, m, k);
      }
      if KeyOf(m) !in order {
        FirstIndexOfNew(p, m);
        assert PairOrder(ms) == order + [KeyOf(m)];
      }
    }
  }

  lemma {:induction false} GroupEmpty(ms: seq<FieldMapping>, k: TablePair)
    requires !HasKey(ms, k)
    ensures Group(ms, k) == []
    decreases |ms|
  {
    if ms != [] {
      var p := ms[..|ms| - 1];
      GroupEmpty(p, k);
    }
  }

  /** Grouping keeps input order: the group of a concatenation is the
      concatenation of the groups. */
  lemma {:induction false} GroupAppend(a: seq<FieldMapping>, b: seq<FieldMapping>, k: TablePair)
    ensures Group(a + b, k) == Group(a, k) + Group(b, k)
    decreases |b|
  {
    if b == [] {
      assert a + b == a;
    } else {
      var b', m := b[..|b| - 1], b[|b| - 1];
      assert (a + b)[..|a + b| - 1] == a + b';
      assert (a + b)[|a + b| - 1] == m;
      GroupAppend(a, b', k);
    }
  }

  /** Every mapping of a group is a mapping of the input grouped under the
      group's key. */
  lemma {:induction false} GroupMembers(ms: seq<FieldMapping>, k: TablePair)
    ensures forall m :: m in Group(ms, k) ==> m in ms && KeyOf(m) == k
    decreases |ms|
  {
    if ms != [] {
      var p := ms[..|ms| - 1];
      GroupMembers(p, k);
      assert forall m :: m in p ==> m in ms;
    }
  }

  lemma {:induction false} ConcatSnoc(order: seq<TablePair>, ms: seq<FieldMapping>, m: FieldMapping)
    requires Distinct(order)
    ensures multiset(Concat(order, ms + [m]))
      == multiset(Concat(order, ms)) + (if KeyOf(m) in order then multiset{m} else multiset{})
    decreases |order|
  {
    if order != [] {
      assert (ms + [m])[..|ms + [m]| - 1] == ms;
      assert (ms + [m])[|ms + [m]| - 1] == m;
      ConcatSnoc(order[1..], ms, m);
      assert KeyOf(m) == order[0] ==> KeyOf(m) !in order[1..];
      assert KeyOf(m) in order <==> KeyOf(m) == order[0] || KeyOf(m) in order[1..];
    }
  }

  lemma {:induction false} ConcatCovers(order: seq<TablePair>, ms: seq<FieldMapping>)
    requires Distinct(order)
    requires forall i :: 0 <= i < |ms| ==> KeyOf(ms[i]) in order
    ensures multiset(Concat(order, ms)) == multiset(ms)
    decreases |ms|
  {
    if ms == [] {
      ConcatOfNothing(order);
    } else {
      var p, m := ms[..|ms| - 1], ms[|ms| - 1];
      assert ms == p + [m];
      ConcatCovers(order, p);
      ConcatSnoc(order, p, m);
    }
  }

  lemma {:induction false} ConcatOfNothing(order: seq<TablePair>)
    ensures Concat(order, []) == []
    decreases |order|
  {
    if order != [] {
      ConcatOfNothing(order[1..]);
    }
  }

  /** The groups partition the mapping list: taken together they hold every
      mapping exactly as often as the input does, none dropped and none
      deduplicated. */
  lemma GroupsPartition(ms: seq<FieldMapping>)
    ensures multiset(Concat(PairOrder(ms), ms)) == multiset(ms)
  {
    PairOrderFirstSeen(ms);
    forall i | 0 <= i < |ms| ensures KeyOf(ms[i]) in PairOrder(ms) {
      assert HasKey(ms, KeyOf(ms[i]));
    }
    ConcatCovers(PairOrder(ms), ms);
  }

  /** The grouping loop: an insertion-ordered dictionary from table pair to
      the list of its mappings, modelled by its key order and its map. */
  method GroupByTablePair(ms: seq<FieldMapping>)
    returns (order: seq<TablePair>, groups: map<TablePair, seq<FieldMapping>>)
    ensures order == PairOrder(ms)
    ensures forall k :: k in groups <==> HasKey(ms, k)
    ensures forall k :: k in groups ==> groups[k] == Group(ms, k)
  {
    order, groups := [], map[];
    var i := 0;
    while i < |ms|
      invariant 0 <= i <= |ms|
      invariant order == PairOrder(ms[..i])
      invariant forall k :: k in groups <==> k in order
      invariant forall k :: k in groups ==> groups[k] == Group(ms[..i], k)
    {
      var key := KeyOf(ms[i]);
      PairOrderFirstSeen(ms[..i]);
      assert ms[..i + 1][..i] == ms[..i];
      assert ms[..i + 1][i] == ms[i];
      if key !in groups {
        GroupEmpty(ms[..i], key);
        groups := groups[key := []];
        order := order + [key];
      }
      groups := groups[key := groups[key] + [ms[i]]];
      i := i + 1;
    }
    assert ms[..|ms|] == ms;
    PairOrderFirstSeen(ms);
  }

  // ---------------------------------------------------------------------
  // Resolving a table pair

  /** The first table of `tables` whose name is `name`, if any; an absent
      name matches no table. */
  function FindTable(tables: seq<Schema>, name: Option<string>): (found: Option<Schema>)
    ensures found.Some? <==> name.Some? && exists i :: 0 <= i < |tables| && tables[i].tableName == name.value
    ensures found.Some? ==> found.value in tables && found.value.tableName == name.value
    decreases |tables|
  {
    if name.None? || tables == [] then None
    else if tables[0].tableName == name.value then Some(tables[0])
    else
      var rest := FindTable(tables[1..], name);
      assert forall i :: 1 <= i < |tables| ==> tables[i] == tables[1..][i - 1];
      assert rest.Some? ==> tables[1..][0] in tables;
      rest
  }

  /** Resolution takes the first table with the requested name. */
  lemma {:induction false} FindTableFirst(tables: seq<Schema>, name: string, i: nat)
    requires i < |tables| && tables[i].tableName == name
    requires forall j :: 0 <= j < i ==> tables[j].tableName != name
    ensures FindTable(tables, Some(name)) == Some(tables[i])
    decreases i
  {
    if i > 0 {
      FindTableFirst(tables[1..], name, i - 1);
    }
  }

  /** Both table names of `k` resolve in their schema dump. */
  predicate Resolves(source: MultiTableSchema, target: MultiTableSchema, k: TablePair)
  {
    FindTable(source.tables, k.source).Some? && FindTable(target.tables, k.target).Some?
  }

  // ---------------------------------------------------------------------
  // Classifying the mappings of one table pair

  /** The name-to-column lookup of a table, built column by column. */
  function FieldIndex(fields: seq<SchemaField>): map<string, SchemaField>
    decreases |fields|
  {
    if fields == [] then map[]
    else FieldIndex(fields[..|fields| - 1])[fields[|fields| - 1].name := fields[|fields| - 1]]
  }

  /** The lookup knows exactly the names of the table's columns, and finds
      under each name one of the columns of that name. */
  lemma {:induction false} FieldIndexKeys(fields: seq<SchemaField>)
    ensures forall n :: n in FieldIndex(fields) <==> exists i :: 0 <= i < |fields| && fields[i].name == n
    ensures forall n :: n in FieldIndex(fields) ==> FieldIndex(fields)[n] in fields && FieldIndex(fields)[n].name == n
    decreases |fields|
  {
    if fields != [] {
      var prefix, last := fields[..|fields| - 1], fields[|fields| - 1];
      FieldIndexKeys(prefix);
      assert fields == prefix + [last];
      forall n ensures n in FieldIndex(fields) <==> exists i :: 0 <= i < |fields| && fields[i].name == n {
        if n != last.name && n in FieldIndex(prefix) {
          var i :| 0 <= i < |prefix| && prefix[i].name == n;
          assert fields[i] == prefix[i];
        }
        if n != last.name && exists i :: 0 <= i < |fields| && fields[i].name == n {
          var i :| 0 <= i < |fields| && fields[i].name == n;
          assert prefix[i] == fields[i];
        }
      }
    }
  }

  /** Last wins: a column that no later column shadows is the one found
      under its name. */
  lemma {:induction false} FieldIndexLastWins(fields: seq<SchemaField>, i: nat)
    requires i < |fields|
    requires forall j :: i < j < |fields| ==> fields[j].name != fields[i].name
    ensures fields[i].name in FieldIndex(fields) && FieldIndex(fields)[fields[i].name] == fields[i]
    decreases |fields|
  {
    if i < |fields| - 1 {
      var prefix := fields[..|fields| - 1];
      assert prefix[i] == fields[i];
      FieldIndexLastWins(prefix, i);
    }
  }

  /** Both columns exist and their declared types differ. */
  predicate Mismatched(m: FieldMapping, src: map<string, SchemaField>, tgt: map<string, SchemaField>)
  {
    m.targetField in tgt && m.sourceField in src
    && src[m.sourceField].fieldType != tgt[m.targetField].fieldType
  }

  function MismatchOf(m: FieldMapping, src: map<string, SchemaField>, tgt: map<string, SchemaField>): TypeMismatch
    requires Mismatched(m, src, tgt)
  {
    TypeMismatch(m.sourceField, m.targetField, src[m.sourceField].fieldType, tgt[m.targetField].fieldType)
  }

  /** Puts one mapping into its bucket: missing target first, then a type
      mismatch, otherwise validated. */
  function Place(b: Buckets, m: FieldMapping, src: map<string, SchemaField>, tgt: map<string, SchemaField>): Buckets
  {
    if m.targetField !in tgt then b.(missing := b.missing + [m.targetField])
    else if Mismatched(m, src, tgt) then b.(mismatches := b.mismatches + [MismatchOf(m, src, tgt)])
    else b.(validated := b.validated + [MappingPair(m.sourceField, m.targetField)])
  }

  /** The buckets the classification loop fills for `ms`. */
  function Classify(ms: seq<FieldMapping>, src: map<string, SchemaField>, tgt: map<string, SchemaField>): Buckets
    decreases |ms|
  {
    if ms == [] then Buckets([], [], [])
    else Place(Classify(ms[..|ms| - 1], src, tgt), ms[|ms| - 1], src, tgt)
  }

  function Join(a: Buckets, b: Buckets): Buckets
  {
    Buckets(a.validated + b.validated, a.missing + b.missing, a.mismatches + b.mismatches)
  }

  /** Each mapping lands in exactly one bucket, so the bucket sizes add up
      to the number of mappings. */
  lemma {:induction false} ClassifyCounts(ms: seq<FieldMapping>, src: map<string, SchemaField>, tgt: map<string, SchemaField>)
    ensures var b := Classify(ms, src, tgt);
      |b.validated| + |b.missing| + |b.mismatches| == |ms|
    decreases |ms|
  {
    if ms != [] {
      ClassifyCounts(ms[..|ms| - 1], src, tgt);
    }
  }

  /** Classification is mapping by mapping and keeps input order: the
      buckets of a concatenation are the buckets of its parts, joined. */
  lemma {:induction false} ClassifyAppend(a: seq<FieldMapping>, b: seq<FieldMapping>, src: map<string, SchemaField>, tgt: map<string, SchemaField>)
    ensures Classify(a + b, src, tgt) == Join(Classify(a, src, tgt), Classify(b, src, tgt))
    decreases |b|
  {
    if b == [] {
      assert a + b == a;
    } else {
      var b', m := b[..|b| - 1], b[|b| - 1];
      assert (a + b)[..|a + b| - 1] == a + b';
      assert (a + b)[|a + b| - 1] == m;
      ClassifyAppend(a, b', src, tgt);
    }
  }

  /** A name is reported missing exactly when some mapping targets it and
      the target table has no such column, whatever the source side holds. */
  lemma {:induction false} ClassifyMissing(ms: seq<FieldMapping>, src: map<string, SchemaField>, tgt: map<string, SchemaField>, name: string)
    ensures name in Classify(ms, src, tgt).missing
      <==> exists m :: m in ms && m.targetField == name && name !in tgt
    decreases |ms|
  {
    if ms != [] {
      var p := ms[..|ms| - 1];
      assert ms == p + [ms[|ms| - 1]];
      ClassifyMissing(p, src, tgt, name);
    }
  }

  /** A mismatch record appears exactly for a mapping whose two columns both
      exist with different types; it carries both names and both types. */
  lemma {:induction false} ClassifyMismatches(ms: seq<FieldMapping>, src: map<string, SchemaField>, tgt: map<string, SchemaField>, r: TypeMismatch)
    ensures r in Classify(ms, src, tgt).mismatches
      <==> exists m :: m in ms && Mismatched(m, src, tgt) && r == MismatchOf(m, src, tgt)
    decreases |ms|
  {
    if ms != [] {
      var p := ms[..|ms| - 1];
      assert ms == p + [ms[|ms| - 1]];
      ClassifyMismatches(p, src, tgt, r);
    }
  }

  /** A pair is validated exactly for a mapping whose target column exists
      and whose source column is absent or has the same type. */
  lemma {:induction false} ClassifyValidated(ms: seq<FieldMapping>, src: map<string, SchemaField>, tgt: map<string, SchemaField>, pair: MappingPair)
    ensures pair in Classify(ms, src, tgt).validated
      <==> exists m :: m in ms && m.targetField in tgt && !Mismatched(m, src, tgt)
                       && pair == MappingPair(m.sourceField, m.targetField)
    decreases |ms|
  {
    if ms != [] {
      var p := ms[..|ms| - 1];
      assert ms == p + [ms[|ms| - 1]];
      ClassifyValidated(p, src, tgt, pair);
    }
  }

  /** The context the analyst builds for one resolved pair. */
  function ContextOf(src: Schema, tgt: Schema, maps: seq<FieldMapping>, analysis: string): MigrationContext
  {
    var b := Classify(maps, FieldIndex(src.fields), FieldIndex(tgt.fields));
    MigrationContext(src, tgt, maps, Some(analysis), b.validated, b.missing, b.mismatches)
  }

  /** The classification loop: builds the context of one resolved pair,
      appending each mapping to the list of its bucket. */
  method AnalyzeWithLlm(src: Schema, tgt: Schema, maps: seq<FieldMapping>, analysis: string)
    returns (context: MigrationContext)
    ensures context == ContextOf(src, tgt, maps, analysis)
    ensures |context.validatedMappings| + |context.missingInTarget| + |context.datatypeMismatches| == |maps|
  {
    context := MigrationContext(src, tgt, maps, Some(analysis));
    var srcFieldMap := FieldIndex(src.fields);
    var tgtFieldMap := FieldIndex(tgt.fields);
    var i := 0;
    while i < |maps|
      invariant 0 <= i <= |maps|
      invariant context.sourceSchema == src && context.targetSchema == tgt
      invariant context.mappings == maps && context.analysis == Some(analysis)
      invariant Buckets(context.validatedMappings, context.missingInTarget, context.datatypeMismatches)
        == Classify(maps[..i], srcFieldMap, tgtFieldMap)
      invariant |context.validatedMappings| + |context.missingInTarget| + |context.datatypeMismatches| == i
    {
      var m := maps[i];
      if m.targetField !in tgtFieldMap {
        context := context.(missingInTarget := context.missingInTarget + [m.targetField]);
      } else if Mismatched(m, srcFieldMap, tgtFieldMap) {
        context := context.(datatypeMismatches := context.datatypeMismatches + [MismatchOf(m, srcFieldMap, tgtFieldMap)]);
      } else {
        context := context.(validatedMappings := context.validatedMappings + [MappingPair(m.sourceField, m.targetField)]);
      }
      assert maps[..i + 1][..i] == maps[..i];
      i := i + 1;
    }
    assert maps[..|maps|] == maps;
  }

  // ---------------------------------------------------------------------
  // Reconciling all pairs

  /** The contexts built for the keys of `order`, skipping every key whose
      source or target table does not resolve. */
  function ContextsFor(order: seq<TablePair>, ms: seq<FieldMapping>, source: MultiTableSchema,
                       target: MultiTableSchema, analyst: Analyst): seq<MigrationContext>
    decreases |order|
  {
    if order == [] then []
    else
      var rest := ContextsFor(order[..|order| - 1], ms, source, target, analyst);
      var k := order[|order| - 1];
      var s := FindTable(source.tables, k.source);
      var t := FindTable(target.tables, k.target);
      if s.Some? && t.Some? then
        rest + [ContextOf(s.value, t.value, Group(ms, k), analyst(s.value, t.value, Group(ms, k)))]
      else rest
  }

  /** What the analyst returns for the two schema dumps and the mappings. */
  function Reconcile(source: MultiTableSchema, target: MultiTableSchema, ms: seq<FieldMapping>,
                     analyst: Analyst): seq<MigrationContext>
  {
    ContextsFor(PairOrder(ms), ms, source, target, analyst)
  }

  /** The table pair a context was built for, read off its two schemas. */
  function PairOf(c: MigrationContext): TablePair
  {
    TablePair(Some(c.sourceSchema.tableName), Some(c.targetSchema.tableName))
  }

  /** The context a resolved key yields. */
  predicate BuiltFor(c: MigrationContext, k: TablePair, ms: seq<FieldMapping>, source: MultiTableSchema,
                     target: MultiTableSchema, analyst: Analyst)
  {
    && Resolves(source, target, k)
    && PairOf(c) == k
    && c.sourceSchema == FindTable(source.tables, k.source).value
    && c.targetSchema == FindTable(target.tables, k.target).value
    && c == ContextOf(c.sourceSchema, c.targetSchema, Group(ms, k), analyst(c.sourceSchema, c.targetSchema, Group(ms, k)))
  }

  function IndexOf<T(==)>(s: seq<T>, x: T): (i: nat)
    requires x in s
    ensures i < |s| && s[i] == x
  {
    if s[0] == x then 0 else IndexOf(s[1..], x) + 1
  }

  lemma {:induction false} IndexOfDistinct<T>(s: seq<T>, i: nat)
    requires Distinct(s) && i < |s|
    ensures IndexOf(s, s[i]) == i
  {
  }

  /** The context built for a resolved key is built for that key. */
  lemma ContextOfKey(k: TablePair, ms: seq<FieldMapping>, source: MultiTableSchema, target: MultiTableSchema,
                     analyst: Analyst)
    requires Resolves(source, target, k)
    ensures var s, t := FindTable(source.tables, k.source).value, FindTable(target.tables, k.target).value;
      BuiltFor(ContextOf(s, t, Group(ms, k), analyst(s, t, Group(ms, k))), k, ms, source, target, analyst)
  {
  }

  /** There are at most as many contexts as keys. */
  lemma {:induction false} ContextsForLength(order: seq<TablePair>, ms: seq<FieldMapping>, source: MultiTableSchema,
                                             target: MultiTableSchema, analyst: Analyst)
    ensures |ContextsFor(order, ms, source, target, analyst)| <= |order|
    decreases |order|
  {
    if order != [] {
      ContextsForLength(order[..|order| - 1], ms, source, target, analyst);
    }
  }

  /** Every context comes from a resolved key of `order`. */
  lemma {:induction false} ContextsForBuilt(order: seq<TablePair>, ms: seq<FieldMapping>, source: MultiTableSchema,
                                            target: MultiTableSchema, analyst: Analyst)
    ensures forall c :: c in ContextsFor(order, ms, source, target, analyst) ==>
      PairOf(c) in order && BuiltFor(c, PairOf(c), ms, source, target, analyst)
    decreases |order|
  {
    if order != [] {
      var prefix, k := order[..|order| - 1], order[|order| - 1];
      ContextsForBuilt(prefix, ms, source, target, analyst);
      assert forall x :: x in prefix ==> x in order;
      if Resolves(source, target, k) {
        ContextOfKey(k, ms, source, target, analyst);
      }
    }
  }

  /** The key of `c` comes before the key of `d` in `order`. */
  predicate Precedes(order: seq<TablePair>, c: MigrationContext, d: MigrationContext)
  {
    PairOf(c) in order && PairOf(d) in order && IndexOf(order, PairOf(c)) < IndexOf(order, PairOf(d))
  }

  /** For distinct keys, the contexts come in the order of their keys. */
  lemma {:induction false} ContextsForOrdered(order: seq<TablePair>, ms: seq<FieldMapping>, source: MultiTableSchema,
                                              target: MultiTableSchema, analyst: Analyst)
    requires Distinct(order)
    ensures forall a, b :: 0 <= a < b < |ContextsFor(order, ms, source, target, analyst)| ==>
      Precedes(order, ContextsFor(order, ms, source, target, analyst)[a], ContextsFor(order, ms, source, target, analyst)[b])
    decreases |order|
  {
    if order != [] {
      var prefix, k := order[..|order| - 1], order[|order| - 1];
      var r := ContextsFor(order, ms, source, target, analyst);
      var rest := ContextsFor(prefix, ms, source, target, analyst);
      ContextsForOrdered(prefix, ms, source, target, analyst);
      ContextsForBuilt(prefix, ms, source, target, analyst);
      forall x | x in prefix ensures x in order && IndexOf(order, x) == IndexOf(prefix, x) < |prefix| {
        var i := IndexOf(prefix, x);
        assert order[i] == x;
        IndexOfDistinct(order, i);
      }
      IndexOfDistinct(order, |order| - 1);
      if Resolves(source, target, k) {
        ContextOfKey(k, ms, source, target, analyst);
        var s, t := FindTable(source.tables, k.source).value, FindTable(target.tables, k.target).value;
        var c := ContextOf(s, t, Group(ms, k), analyst(s, t, Group(ms, k)));
        assert r == rest + [c];
        forall a | 0 <= a < |rest| ensures r[a] == rest[a] && PairOf(r[a]) in prefix {
          assert rest[a] in rest;
        }
        forall a, b | 0 <= a < b < |r| ensures Precedes(order, r[a], r[b])
        {
          if b == |rest| {
            assert r[b] == c && PairOf(c) == k;
          } else {
            assert r[a] == rest[a] && r[b] == rest[b];
            assert Precedes(prefix, rest[a], rest[b]);
          }
        }
      }
    }
  }

  /** Every resolved key of `order` yields a context. */
  lemma {:induction false} ContextsForComplete(order: seq<TablePair>, ms: seq<FieldMapping>, source: MultiTableSchema,
                                               target: MultiTableSchema, analyst: Analyst, k: TablePair)
    requires k in order && Resolves(source, target, k)
    ensures exists c :: c in ContextsFor(order, ms, source, target, analyst) && PairOf(c) == k
    decreases |order|
  {
    var prefix, last := order[..|order| - 1], order[|order| - 1];
    var r := ContextsFor(order, ms, source, target, analyst);
    if k == last {
      var s := FindTable(source.tables, k.source).value;
      var t := FindTable(target.tables, k.target).value;
      var c := ContextOf(s, t, Group(ms, k), analyst(s, t, Group(ms, k)));
      assert r[|r| - 1] == c && PairOf(c) == k;
    } else {
      assert k in prefix;
      ContextsForComplete(prefix, ms, source, target, analyst, k);
      var c :| c in ContextsFor(prefix, ms, source, target, analyst) && PairOf(c) == k;
      assert c in r;
    }
  }

  /** The reconciliation result: at most one context per distinct table pair;
      a context exactly for each pair whose two tables resolve, holding the
      first matching tables, the pair's mappings in input order and their
      classification; and the contexts in the order the pairs are first met. */
  lemma ReconcileSpec(source: MultiTableSchema, target: MultiTableSchema, ms: seq<FieldMapping>, analyst: Analyst)
    ensures var r := Reconcile(source, target, ms, analyst);
      && |r| <= |PairOrder(ms)|
      && (forall c :: c in r ==> HasKey(ms, PairOf(c)) && BuiltFor(c, PairOf(c), ms, source, target, analyst))
      && (forall k :: HasKey(ms, k) && Resolves(source, target, k) ==> exists c :: c in r && PairOf(c) == k)
      && (forall a, b :: 0 <= a < b < |r| ==> FirstIndex(ms, PairOf(r[a])) < FirstIndex(ms, PairOf(r[b])))
  {
    var order := PairOrder(ms);
    var r := Reconcile(source, target, ms, analyst);
    PairOrderFirstSeen(ms);
    ContextsForLength(order, ms, source, target, analyst);
    ContextsForBuilt(order, ms, source, target, analyst);
    ContextsForOrdered(order, ms, source, target, analyst);
    forall k | HasKey(ms, k) && Resolves(source, target, k) ensures exists c :: c in r && PairOf(c) == k {
      ContextsForComplete(order, ms, source, target, analyst, k);
    }
    forall a, b | 0 <= a < b < |r| ensures FirstIndex(ms, PairOf(r[a])) < FirstIndex(ms, PairOf(r[b])) {
      assert r[a] in r && r[b] in r;
      var i, j := IndexOf(order, PairOf(r[a])), IndexOf(order, PairOf(r[b]));
      assert i < j;
    }
  }

  /** The schema analyst's entry point after the inputs are parsed: group
      the mappings by table pair, then build a context for every pair whose
      two tables resolve, skipping the others. */
  method Analyze(source: MultiTableSchema, target: MultiTableSchema, mappings: seq<FieldMapping>, analyst: Analyst)
    returns (contexts: seq<MigrationContext>)
    ensures contexts == Reconcile(source, target, mappings, analyst)
    ensures |contexts| <= |PairOrder(mappings)|
  {
    var order, groups := GroupByTablePair(mappings);
    PairOrderFirstSeen(mappings);
    contexts := [];
    var i := 0;
    while i < |order|
      invariant 0 <= i <= |order|
      invariant contexts == ContextsFor(order[..i], mappings, source, target, analyst)
    {
      var key := order[i];
      assert order[..i + 1][..i] == order[..i];
      var srcSchema := FindTable(source.tables, key.source);
      var tgtSchema := FindTable(target.tables, key.target);
      if srcSchema.Some? && tgtSchema.Some? {
        var maps := groups[key];
        var context := AnalyzeWithLlm(srcSchema.value, tgtSchema.value, maps,
          analyst(srcSchema.value, tgtSchema.value, maps));
        contexts := contexts + [context];
      }
      i := i + 1;
    }
    assert order[..|order|] == order;
    ContextsForLength(order, mappings, source, target, analyst);
  }

  // A worked example: Customers(id int, name varchar) against
  // Clients(id int, full_name varchar, email varchar), with the mappings
  // name to full_name and email to email.

  const Customers := Schema("Customers", [SchemaField("id", "int", false), SchemaField("name", "varchar", true)])
  const Clients := Schema("Clients", [SchemaField("id", "int", false), SchemaField("full_name", "varchar", true),
                                      SchemaField("email", "varchar", true)])
  const ExampleMappings := [FieldMapping("name", "full_name", "", Some("Customers"), Some("Clients")),
                            FieldMapping("email", "email", "", Some("Customers"), Some("Clients"))]

  /** The column `email` is absent from the source, but only the target side
      decides "missing", so both mappings are validated. */
  lemma ClassifyExample()
    ensures Classify(ExampleMappings, FieldIndex(Customers.fields), FieldIndex(Clients.fields))
      == Buckets([MappingPair("name", "full_name"), MappingPair("email", "email")], [], [])
  {
    var src, tgt := FieldIndex(Customers.fields), FieldIndex(Clients.fields);
    FieldIndexKeys(Customers.fields);
    FieldIndexLastWins(Customers.fields, 1);
    FieldIndexLastWins(Clients.fields, 1);
    FieldIndexLastWins(Clients.fields, 2);
    assert "email" !in src;
    var ms := ExampleMappings;
    assert ms[..1] == [ms[0]] && [ms[0]][..0] == [];
    assert Classify(ms[..1], src, tgt) == Buckets([MappingPair("name", "full_name")], [], []);
  }

  /** The example's two mappings form one group, under (Customers, Clients). */
  lemma GroupExample()
    ensures PairOrder(ExampleMappings) == [TablePair(Some("Customers"), Some("Clients"))]
    ensures Group(ExampleMappings, TablePair(Some("Customers"), Some("Clients"))) == ExampleMappings
  {
    var ms := ExampleMappings;
    assert ms[..1] == [ms[0]] && [ms[0]][..0] == [];
  }

  /** The example yields exactly one context, for (Customers, Clients). */
  lemma ReconcileExample(analyst: Analyst)
    ensures var r := Reconcile(MultiTableSchema([Customers]), MultiTableSchema([Clients]), ExampleMappings, analyst);
      && |r| == 1
      && r[0].sourceSchema == Customers && r[0].targetSchema == Clients && r[0].mappings == ExampleMappings
      && r[0].validatedMappings == [MappingPair("name", "full_name"), MappingPair("email", "email")]
      && r[0].missingInTarget == [] && r[0].datatypeMismatches == []
  {
    var ms := ExampleMappings;
    var key := TablePair(Some("Customers"), Some("Clients"));
    GroupExample();
    FindTableFirst([Customers], "Customers", 0);
    FindTableFirst([Clients], "Clients", 0);
    var source, target := MultiTableSchema([Customers]), MultiTableSchema([Clients]);
    assert [key][..0] == [];
    assert ContextsFor([key], ms, source, target, analyst)
      == [ContextOf(Customers, Clients, ms, analyst(Customers, Clients, ms))];
    ClassifyExample();
  }
}
