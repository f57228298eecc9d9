/** The hashed documents of scripts/verify_capacity_tier_fixtures.py as records
    over the canonical encoding: which records give the same bytes. */
module CapacityDocuments {
  import opened Canonical
  import opened Numbers

  // ----- documents that are one list -----

  function ListDocument(domain: Domain, rows: seq<Row>): Bytes {
    Document(domain, 1, [Items(rows)])
  }

  ghost predicate ListFits(shapes: seq<Shape>, rows: seq<Row>) {
    |rows| < Pow256(4) && forall r :: r in rows ==> FitsRow(shapes, r)
  }

  lemma {:induction false} RowsFit(shapes: seq<Shape>, rows: seq<Row>)
    requires forall r :: r in rows ==> FitsRow(shapes, r)
    ensures FitsRows(shapes, rows)
  {
    if rows != [] {
      RowsFit(shapes, rows[1..]);
    }
  }

  lemma ItemsFit(shapes: seq<Shape>, rows: seq<Row>)
    requires ListFits(shapes, rows)
    ensures FitsFields([SItems(shapes)], [Items(rows)])
  {
    hide Pow256, FitsRow, FitsRows;
    RowsFit(shapes, rows);
    assert [Items(rows)][1..] == [] && [SItems(shapes)][1..] == [];
  }

  /** A list document determines its rows, in order. */
  lemma ListUnique(domain: Domain, shapes: seq<Shape>, a: seq<Row>, b: seq<Row>)
    requires ListFits(shapes, a) && ListFits(shapes, b)
    ensures ListDocument(domain, a) == ListDocument(domain, b) <==> a == b
  {
    if ListDocument(domain, a) == ListDocument(domain, b) {
      hide Document, FitsFields, ListFits, Pow256;
      ItemsFit(shapes, a);
      ItemsFit(shapes, b);
      OneFits();
      DocumentUnique(domain, 1, [SItems(shapes)], [Items(a)], [Items(b)]);
      assert [Items(a)][0] == [Items(b)][0];
    }
  }

  lemma OneFits()
    ensures 2 < Pow256(4)
  {}

  predicate FlatShapes(shapes: seq<Shape>) {
    forall s :: s in shapes ==> !s.SItems?
  }

  lemma {:induction false} FieldsFlat(shapes: seq<Shape>, fields: seq<Field>)
    requires FlatShapes(shapes) && FitsFields(shapes, fields)
    ensures forall f :: f in fields ==> Flat(f)
  {
    if fields != [] {
      hide Pow256;
      assert shapes[0] in shapes;
      FieldsFlat(shapes[1..], fields[1..]);
    }
  }

  lemma RowFlat(shapes: seq<Shape>, k: nat, row: Row)
    requires FlatShapes(shapes) && FitsRow(shapes, row)
    ensures FlatKey(k, row)
  {
    FieldsFlat(shapes, row.fields);
  }

  lemma RowLength(shapes: seq<Shape>, row: Row)
    requires FitsRow(shapes, row)
    ensures |row.fields| == |shapes|
  {}

  lemma SortFits(shapes: seq<Shape>, k: nat, rows: seq<Row>)
    requires ListFits(shapes, rows)
    ensures ListFits(shapes, SortRows(k, rows))
  {
    hide FitsRow, SortRows, Pow256;
    SortBag(k, rows);
    forall r | r in SortRows(k, rows) ensures FitsRow(shapes, r) {
      assert r in multiset(SortRows(k, rows));
      assert r in rows;
    }
  }

  /** Sorted lists are equal exactly when the bags are, where keys decide. */
  lemma SortedListsAgree(shapes: seq<Shape>, k: nat, a: seq<Row>, b: seq<Row>)
    requires FlatShapes(shapes) && ListFits(shapes, a) && ListFits(shapes, b) && KeysDecide(k, a)
    ensures SortRows(k, a) == SortRows(k, b) <==> multiset(a) == multiset(b)
  {
    hide FitsRow, SortRows, Pow256, FlatKey, KeysDecide, FlatShapes;
    SortBag(k, a);
    SortBag(k, b);
    if multiset(a) == multiset(b) {
      forall r | r in a ensures FlatKey(k, r) {
        RowFlat(shapes, k, r);
      }
      SortForgets(k, a, b);
    }
  }

  lemma FullKeysDecide(shapes: seq<Shape>, rows: seq<Row>)
    requires forall r :: r in rows ==> FitsRow(shapes, r)
    ensures KeysDecide(|shapes|, rows)
  {
    forall r | r in rows ensures Key(r, |shapes|) == r.fields {
      RowLength(shapes, r);
    }
  }

  // ----- the policy: a list in precedence order -----

  datatype Tier = Tier(name: Bytes, residency: Byte, minReplicas: nat, lo: nat, hi: nat, warmth: nat)

  const TIER: seq<Shape> := [SStr, SRaw(1), S32, S64, S64, S64]

  function TierRow(t: Tier): Row {
    Row([Str(t.name), Raw([t.residency]), U32(t.minReplicas), U64(t.lo), U64(t.hi), U64(t.warmth)])
  }

  function PolicyBytes(tiers: seq<Tier>): Bytes {
    ListDocument(PolicyV1, MapRows(TierRow, tiers))
  }

  lemma TierRowInjective()
    ensures Injective(TierRow)
  {}

  lemma MapRowsUnique<T(!new)>(row: T -> Row, a: seq<T>, b: seq<T>)
    requires Injective(row) && MapRows(row, a) == MapRows(row, b)
    ensures a == b
  {}

  /** Two policies encode alike if and only if they are the same tiers in the
      same precedence. */
  lemma PolicyUnique(a: seq<Tier>, b: seq<Tier>)
    requires ListFits(TIER, MapRows(TierRow, a)) && ListFits(TIER, MapRows(TierRow, b))
    ensures PolicyBytes(a) == PolicyBytes(b) <==> a == b
  {
    hide ListFits, MapRows, ListDocument;
    ListUnique(PolicyV1, TIER, MapRows(TierRow, a), MapRows(TierRow, b));
    if PolicyBytes(a) == PolicyBytes(b) {
      TierRowInjective();
      MapRowsUnique(TierRow, a, b);
    }
  }

  // ----- the node registry: a set -----

  datatype Node = Node(id: Bytes, residency: Byte, eligible: Byte, domain: Bytes, total: nat, resident: nat)

  const NODE: seq<Shape> := [SStr, SRaw(1), SRaw(1), SStr, S64, S64]

  function NodeRow(n: Node): Row {
    Row([Str(n.id), Raw([n.residency]), Raw([n.eligible]), Str(n.domain), U64(n.total), U64(n.resident)])
  }

  function NodesBytes(records: seq<Node>): Bytes {
    ListDocument(NodesV1, SortRows(6, MapRows(NodeRow, records)))
  }

  lemma NodeRowInjective()
    ensures Injective(NodeRow)
  {}

  /** A list sorted by keys that decide its records encodes its bag, and nothing
      else. */
  lemma SortedByKey<T(!new)>(domain: Domain, shapes: seq<Shape>, k: nat, row: T -> Row, a: seq<T>, b: seq<T>)
    requires Injective(row) && FlatShapes(shapes) && KeysDecide(k, MapRows(row, a))
    requires ListFits(shapes, MapRows(row, a)) && ListFits(shapes, MapRows(row, b))
    ensures ListDocument(domain, SortRows(k, MapRows(row, a))) == ListDocument(domain, SortRows(k, MapRows(row, b))) <==>
            multiset(a) == multiset(b)
    ensures SortRows(k, MapRows(row, a)) == SortRows(k, MapRows(row, b)) <==> multiset(a) == multiset(b)
  {
    hide *;
    var ra, rb := MapRows(row, a), MapRows(row, b);
    SortedListsAgree(shapes, k, ra, rb);
    SortFits(shapes, k, ra);
    SortFits(shapes, k, rb);
    ListUnique(domain, shapes, SortRows(k, ra), SortRows(k, rb));
    MapBag(row, a, b);
  }

  lemma SortedRecords<T(!new)>(domain: Domain, shapes: seq<Shape>, row: T -> Row, a: seq<T>, b: seq<T>)
    requires Injective(row) && FlatShapes(shapes) && ListFits(shapes, MapRows(row, a)) && ListFits(shapes, MapRows(row, b))
    ensures ListDocument(domain, SortRows(|shapes|, MapRows(row, a))) == ListDocument(domain, SortRows(|shapes|, MapRows(row, b)))
            <==> multiset(a) == multiset(b)
    ensures SortRows(|shapes|, MapRows(row, a)) == SortRows(|shapes|, MapRows(row, b)) <==> multiset(a) == multiset(b)
  {
    FullKeysDecide(shapes, MapRows(row, a));
    hide *;
    SortedByKey(domain, shapes, |shapes|, row, a, b);
  }

  /** Two registries encode alike if and only if they hold the same records,
      whatever the input order. */
  lemma NodesUnique(a: seq<Node>, b: seq<Node>)
    requires ListFits(NODE, MapRows(NodeRow, a)) && ListFits(NODE, MapRows(NodeRow, b))
    ensures NodesBytes(a) == NodesBytes(b) <==> multiset(a) == multiset(b)
  {
    hide ListFits, MapRows, ListDocument, SortRows;
    NodeRowInjective();
    SortedRecords(NodesV1, NODE, NodeRow, a, b);
  }

  // ----- the observation set: sorted by key -----

  datatype ObsKey = ObsKey(workspace: Bytes, collection: Bytes, fingerprint: Bytes, column: Bytes, bucket: nat,
                           topology: nat, leaf: Bytes, shard: Bytes, shardGen: nat, ownerEpoch: nat, node: Bytes,
                           process: Bytes, storage: Bytes)

  datatype Obs = Obs(key: ObsKey, rows: nat, resident: nat, scans: nat, scanned: nat, p50: nat, p99: nat, last: nat,
                     windowStart: nat, windowEnd: nat, samples: nat)

  const KEY_FIELDS := 13
  const OBS_KEY: seq<Shape> :=
    [SStr, SStr, SRaw(32), SStr, S64, S64, SStr, SStr, S64, S64, SStr, SRaw(16), SRaw(16)]
  const OBS_VALUE: seq<Shape> := [S64, S64, S64, S64, S64, S64, S64, S64, S64, S32]

  function ObsShapes(): seq<Shape> {
    OBS_KEY + OBS_VALUE
  }

  function KeyFields(k: ObsKey): seq<Field> {
    [Str(k.workspace), Str(k.collection), Raw(k.fingerprint), Str(k.column), U64(k.bucket), U64(k.topology),
     Str(k.leaf), Str(k.shard), U64(k.shardGen), U64(k.ownerEpoch), Str(k.node), Raw(k.process), Raw(k.storage)]
  }

  function ValueFields(o: Obs): seq<Field> {
    [U64(o.rows), U64(o.resident), U64(o.scans), U64(o.scanned), U64(o.p50), U64(o.p99), U64(o.last),
     U64(o.windowStart), U64(o.windowEnd), U32(o.samples)]
  }

  function ObsRow(o: Obs): Row {
    Row(KeyFields(o.key) + ValueFields(o))
  }

  function ObsSetBytes(entries: seq<Obs>): Bytes {
    ListDocument(ObservationsV1, SortRows(KEY_FIELDS, MapRows(ObsRow, entries)))
  }

  lemma KeyFieldsUnique(x: ObsKey, y: ObsKey)
    requires KeyFields(x) == KeyFields(y)
    ensures x == y
  {}

  lemma ObsRowUnique(x: Obs, y: Obs)
    requires ObsRow(x) == ObsRow(y)
    ensures x == y
  {
    var a, b := ValueFields(x), ValueFields(y);
    hide KeyFields;
    RowKey(x);
    RowKey(y);
    KeyFieldsUnique(x.key, y.key);
    assert a == ObsRow(x).fields[KEY_FIELDS..] && b == ObsRow(y).fields[KEY_FIELDS..];
    assert a[0] == b[0] && a[1] == b[1] && a[2] == b[2] && a[3] == b[3] && a[4] == b[4];
    assert a[5] == b[5] && a[6] == b[6] && a[7] == b[7] && a[8] == b[8] && a[9] == b[9];
  }

  lemma RowKey(o: Obs)
    ensures |KeyFields(o.key)| == KEY_FIELDS && Key(ObsRow(o), KEY_FIELDS) == KeyFields(o.key)
  {}

  /** Entries with one key are one entry. */
  ghost predicate DistinctKeys(entries: seq<Obs>) {
    forall x, y :: x in entries && y in entries && x.key == y.key ==> x == y
  }

  lemma KeysDecideRows(entries: seq<Obs>)
    requires DistinctKeys(entries)
    ensures KeysDecide(KEY_FIELDS, MapRows(ObsRow, entries))
  {
    hide ObsRow, KeyFields, Key, MapRows;
    var rows := MapRows(ObsRow, entries);
    forall a, b | a in rows && b in rows && Key(a, KEY_FIELDS) == Key(b, KEY_FIELDS) ensures a == b {
      var i :| 0 <= i < |rows| && rows[i] == a;
      var j :| 0 <= j < |rows| && rows[j] == b;
      RowKey(entries[i]);
      RowKey(entries[j]);
      KeyFieldsUnique(entries[i].key, entries[j].key);
    }
  }

  /** Two observation sets with distinct keys encode alike if and only if they
      hold the same entries, whatever the input order. */
  lemma ObsSetUnique(a: seq<Obs>, b: seq<Obs>)
    requires ListFits(ObsShapes(), MapRows(ObsRow, a)) && ListFits(ObsShapes(), MapRows(ObsRow, b))
    requires DistinctKeys(a)
    ensures ObsSetBytes(a) == ObsSetBytes(b) <==> multiset(a) == multiset(b)
  {
    ObsFlat();
    ObsRowInjective();
    KeysDecideRows(a);
    ObsBytesAre(a);
    ObsBytesAre(b);
    hide *;
    SortedByKey(ObservationsV1, ObsShapes(), KEY_FIELDS, ObsRow, a, b);
  }

  lemma ObsBytesAre(entries: seq<Obs>)
    ensures ObsSetBytes(entries) == ListDocument(ObservationsV1, SortRows(KEY_FIELDS, MapRows(ObsRow, entries)))
  {}

  lemma ObsFlat()
    ensures FlatShapes(ObsShapes())
  {}

  lemma ObsRowInjective()
    ensures Injective(ObsRow)
  {
    hide ObsRow;
    forall x, y | ObsRow(x) == ObsRow(y) ensures x == y { ObsRowUnique(x, y); }
  }

  // ----- the observation set: where the input order shows -----

  lemma {:induction false} FieldsLeqSelf(a: seq<Field>)
    ensures FieldsLeq(a, a)
  {
    if a != [] {
      FieldsLeqSelf(a[1..]);
    }
  }

  /** The rows of one key, in order. */
  function WithKey(k: nat, key: seq<Field>, rows: seq<Row>): seq<Row> {
    if rows == [] then []
    else (if Key(rows[0], k) == key then [rows[0]] else []) + WithKey(k, key, rows[1..])
  }

  lemma WithKeyStep(k: nat, key: seq<Field>, rows: seq<Row>)
    requires rows != []
    ensures WithKey(k, key, rows) == WithKey(k, key, [rows[0]]) + WithKey(k, key, rows[1..])
  {
    hide Key;
    assert [rows[0]][1..] == [];
  }

  lemma {:induction false} InsertStable(k: nat, key: seq<Field>, x: Row, rows: seq<Row>)
    ensures WithKey(k, key, Insert(k, x, rows)) == WithKey(k, key, [x]) + WithKey(k, key, rows)
  {
    hide Key, FieldsLeq;
    FieldsLeqSelf(key);
    assert [x][1..] == [];
    assert ([x] + rows)[1..] == rows;
    if rows != [] && !RowLeq(k, x, rows[0]) {
      InsertStable(k, key, x, rows[1..]);
      var tail := Insert(k, x, rows[1..]);
      assert ([rows[0]] + tail)[1..] == tail;
    }
  }

  /** Sorting keeps the rows of one key in their input order. */
  lemma {:induction false} SortStable(k: nat, key: seq<Field>, rows: seq<Row>)
    ensures WithKey(k, key, SortRows(k, rows)) == WithKey(k, key, rows)
  {
    if rows != [] {
      WithKeyStep(k, key, rows);
      hide Key, Insert, WithKey;
      SortStable(k, key, rows[1..]);
      InsertStable(k, key, rows[0], SortRows(k, rows[1..]));
    }
  }

  lemma FirstWithKey(k: nat, x: Row, rows: seq<Row>)
    requires rows != [] && rows[0] == x
    ensures var r := WithKey(k, Key(x, k), SortRows(k, rows)); r != [] && r[0] == x
  {
    hide SortRows, Key;
    SortStable(k, Key(x, k), rows);
  }

  /** Exchanging the first two entries, where they share a key, shows in the
      bytes unless they are the same entry. */
  lemma SwapShows(x: Obs, y: Obs, rest: seq<Obs>)
    requires x.key == y.key && ListFits(ObsShapes(), MapRows(ObsRow, [x, y] + rest))
    ensures ObsSetBytes([x, y] + rest) == ObsSetBytes([y, x] + rest) <==> x == y
  {
    hide *;
    var a, b := [x, y] + rest, [y, x] + rest;
    if ObsSetBytes(a) == ObsSetBytes(b) {
      ObsBytesAre(a);
      ObsBytesAre(b);
      RowKey(x);
      RowKey(y);
      var ra, rb := MapRows(ObsRow, a), MapRows(ObsRow, b);
      SwapBag(x, y, rest);
      BagFits(a, b);
      SortFits(ObsShapes(), KEY_FIELDS, ra);
      SortFits(ObsShapes(), KEY_FIELDS, rb);
      ListUnique(ObservationsV1, ObsShapes(), SortRows(KEY_FIELDS, ra), SortRows(KEY_FIELDS, rb));
      FirstWithKey(KEY_FIELDS, ObsRow(x), ra);
      FirstWithKey(KEY_FIELDS, ObsRow(y), rb);
      ObsRowUnique(x, y);
    }
  }

  lemma SwapBag<T>(x: T, y: T, rest: seq<T>)
    ensures multiset([x, y] + rest) == multiset([y, x] + rest) == multiset(rest) + multiset{x} + multiset{y}
  {
    assert multiset([x, y]) == multiset{x} + multiset{y} == multiset([y, x]);
  }

  /** Whether a list fits does not depend on its order. */
  lemma BagFits(a: seq<Obs>, b: seq<Obs>)
    requires multiset(a) == multiset(b) && ListFits(ObsShapes(), MapRows(ObsRow, a))
    ensures ListFits(ObsShapes(), MapRows(ObsRow, b))
  {
    ObsRowInjective();
    hide ObsRow, MapRows, FitsRow, Pow256, ObsShapes;
    MapBag(ObsRow, a, b);
    var ra, rb := MapRows(ObsRow, a), MapRows(ObsRow, b);
    assert |ra| == |multiset(ra)| == |multiset(rb)| == |rb|;
    forall r | r in rb ensures FitsRow(ObsShapes(), r) {
      assert r in multiset(rb);
      assert r in ra;
    }
  }

  /** Every order of the entries gives the same bytes. */
  ghost predicate OrderForgotten(a: seq<Obs>) {
    forall b: seq<Obs> :: multiset(b) == multiset(a) ==> ObsSetBytes(b) == ObsSetBytes(a)
  }

  /** An observation set encodes alike in every input order if and only if no two
      different entries share a key. */
  lemma SharedKeyShows(a: seq<Obs>)
    requires ListFits(ObsShapes(), MapRows(ObsRow, a))
    ensures OrderForgotten(a) <==> DistinctKeys(a)
  {
    hide MapRows, ObsSetBytes, ListFits, ObsShapes, ObsRow;
    if DistinctKeys(a) {
      forall b: seq<Obs> | multiset(b) == multiset(a) ensures ObsSetBytes(b) == ObsSetBytes(a) {
        BagFits(a, b);
        ObsSetUnique(a, b);
      }
    } else {
      var x, y :| x in a && y in a && x.key == y.key && x != y;
      var rest := Without(a, x, y);
      var b, c := [x, y] + rest, [y, x] + rest;
      BagFits(a, b);
      SwapShows(x, y, rest);
      assert ObsSetBytes(b) != ObsSetBytes(a) || ObsSetBytes(c) != ObsSetBytes(a);
    }
  }

  /** The list without one occurrence of each of two of its entries. */
  lemma Without<T>(a: seq<T>, x: T, y: T) returns (rest: seq<T>)
    requires x in a && y in a && x != y
    ensures multiset([x, y] + rest) == multiset(a) == multiset([y, x] + rest)
  {
    var one := WithoutOne(a, x);
    assert y in multiset(a) && multiset(a)[y] == multiset(one)[y];
    rest := WithoutOne(one, y);
    SwapBag(x, y, rest);
  }

  lemma WithoutOne<T>(a: seq<T>, x: T) returns (rest: seq<T>)
    requires x in a
    ensures multiset(a) == multiset(rest) + multiset{x}
  {
    var i :| 0 <= i < |a| && a[i] == x;
    rest := a[..i] + a[i + 1..];
    assert a == a[..i] + [x] + a[i + 1..];
  }

  // ----- fragments: ordered, with three sets inside -----

  datatype Owner = Owner(shard: Bytes, owner: Bytes)
  datatype Copy = Copy(node: Bytes, storage: Bytes, domain: Bytes, complete: Byte, coverage: Bytes)
  datatype Partition = Partition(workspace: Bytes, collection: Bytes, fingerprint: Bytes, column: Bytes, bucket: nat,
                                 topology: nat, leaf: Bytes)
  datatype Fragment = Fragment(partition: Partition, pool: seq<Bytes>, owners: seq<Owner>, copies: seq<Copy>)

  const POOL: seq<Shape> := [SStr]
  const OWNER: seq<Shape> := [SStr, SStr]
  const COPY: seq<Shape> := [SStr, SRaw(16), SStr, SRaw(1), SRaw(32)]
  const PARTITION: seq<Shape> := [SStr, SStr, SRaw(32), SStr, S64, S64, SStr]
  const SETS: seq<Shape> := [SItems(POOL), SItems(OWNER), SItems(COPY)]

  function FragmentShapes(): seq<Shape> {
    PARTITION + SETS
  }

  function PoolRow(node: Bytes): Row {
    Row([Str(node)])
  }

  function OwnerRow(o: Owner): Row {
    Row([Str(o.shard), Str(o.owner)])
  }

  function CopyRow(c: Copy): Row {
    Row([Str(c.node), Raw(c.storage), Str(c.domain), Raw([c.complete]), Raw(c.coverage)])
  }

  function PartitionFields(p: Partition): seq<Field> {
    [Str(p.workspace), Str(p.collection), Raw(p.fingerprint), Str(p.column), U64(p.bucket), U64(p.topology), Str(p.leaf)]
  }

  function SetFields(f: Fragment): seq<Field> {
    [Items(SortRows(1, MapRows(PoolRow, f.pool))),
     Items(SortRows(2, MapRows(OwnerRow, f.owners))),
     Items(SortRows(5, MapRows(CopyRow, f.copies)))]
  }

  function FragmentRow(f: Fragment): Row {
    Row(PartitionFields(f.partition) + SetFields(f))
  }

  function FragmentsBytes(frags: seq<Fragment>): Bytes {
    ListDocument(FragmentsV1, MapRows(FragmentRow, frags))
  }

  /** The same partition with the same sets. */
  ghost predicate SameFragment(a: Fragment, b: Fragment) {
    && a.partition == b.partition && multiset(a.pool) == multiset(b.pool)
    && multiset(a.owners) == multiset(b.owners) && multiset(a.copies) == multiset(b.copies)
  }

  /** Every number and length of the fragment is in range. */
  ghost predicate FragmentFits(f: Fragment) {
    && FitsFields(PARTITION, PartitionFields(f.partition))
    && ListFits(POOL, MapRows(PoolRow, f.pool)) && ListFits(OWNER, MapRows(OwnerRow, f.owners))
    && ListFits(COPY, MapRows(CopyRow, f.copies))
  }

  lemma SetRowsInjective()
    ensures Injective(PoolRow) && Injective(OwnerRow) && Injective(CopyRow)
  {}

  lemma SetFieldsAgree(a: Fragment, b: Fragment)
    requires FragmentFits(a) && FragmentFits(b)
    ensures SetFields(a) == SetFields(b) <==>
            multiset(a.pool) == multiset(b.pool) && multiset(a.owners) == multiset(b.owners) &&
            multiset(a.copies) == multiset(b.copies)
  {
    hide ListFits, MapRows, SortRows, ListDocument, FitsFields, PartitionFields, Injective;
    SetRowsInjective();
    SortedRecords(FragmentsV1, POOL, PoolRow, a.pool, b.pool);
    SortedRecords(FragmentsV1, OWNER, OwnerRow, a.owners, b.owners);
    SortedRecords(FragmentsV1, COPY, CopyRow, a.copies, b.copies);
    var x, y := SetFields(a), SetFields(b);
    assert x == y ==> x[0] == y[0] && x[1] == y[1] && x[2] == y[2];
  }

  lemma PartitionFieldsUnique(x: Partition, y: Partition)
    requires PartitionFields(x) == PartitionFields(y)
    ensures x == y
  {}

  lemma FragmentRowsAgree(a: Fragment, b: Fragment)
    requires FragmentFits(a) && FragmentFits(b)
    ensures FragmentRow(a) == FragmentRow(b) <==> SameFragment(a, b)
  {
    hide FragmentFits, SetFields;
    SetFieldsAgree(a, b);
    var x, y := FragmentRow(a).fields, FragmentRow(b).fields;
    if FragmentRow(a) == FragmentRow(b) {
      assert x[..7] == PartitionFields(a.partition) && y[..7] == PartitionFields(b.partition);
      assert x[7..] == SetFields(a) && y[7..] == SetFields(b);
      PartitionFieldsUnique(a.partition, b.partition);
    }
  }

  lemma {:induction false} FitsJoin(sa: seq<Shape>, sb: seq<Shape>, a: seq<Field>, b: seq<Field>)
    requires FitsFields(sa, a) && FitsFields(sb, b)
    ensures FitsFields(sa + sb, a + b)
  {
    hide Fits;
    if a == [] {
      assert sa + sb == sb && a + b == b;
    } else {
      FitsJoin(sa[1..], sb, a[1..], b);
      assert (sa + sb)[1..] == sa[1..] + sb && (a + b)[1..] == a[1..] + b;
    }
  }

  lemma FragmentRowFits(f: Fragment)
    requires FragmentFits(f)
    ensures FitsRow(FragmentShapes(), FragmentRow(f))
  {
    hide MapRows, SortRows, ListFits, FitsFields;
    var p, o, c := SortRows(1, MapRows(PoolRow, f.pool)), SortRows(2, MapRows(OwnerRow, f.owners)), SortRows(5, MapRows(CopyRow, f.copies));
    SortFits(POOL, 1, MapRows(PoolRow, f.pool));
    SortFits(OWNER, 2, MapRows(OwnerRow, f.owners));
    SortFits(COPY, 5, MapRows(CopyRow, f.copies));
    ItemsFit(POOL, p);
    ItemsFit(OWNER, o);
    ItemsFit(COPY, c);
    FitsJoin([SItems(POOL)], [SItems(OWNER)], [Items(p)], [Items(o)]);
    assert [SItems(POOL)] + [SItems(OWNER)] == [SItems(POOL), SItems(OWNER)] && [Items(p)] + [Items(o)] == [Items(p), Items(o)];
    FitsJoin([SItems(POOL), SItems(OWNER)], [SItems(COPY)], [Items(p), Items(o)], [Items(c)]);
    assert [SItems(POOL), SItems(OWNER)] + [SItems(COPY)] == SETS && [Items(p), Items(o)] + [Items(c)] == SetFields(f);
    FitsJoin(PARTITION, SETS, PartitionFields(f.partition), SetFields(f));
  }

  lemma FragmentListFits(frags: seq<Fragment>)
    requires |frags| < Pow256(4) && forall f :: f in frags ==> FragmentFits(f)
    ensures ListFits(FragmentShapes(), MapRows(FragmentRow, frags))
  {
    hide FitsRow, FragmentFits, FragmentRow, Pow256, FragmentShapes, MapRows;
    var rows := MapRows(FragmentRow, frags);
    forall r | r in rows ensures FitsRow(FragmentShapes(), r) {
      var i :| 0 <= i < |rows| && rows[i] == r;
      FragmentRowFits(frags[i]);
    }
  }

  /** Two fragment lists encode alike if and only if they agree position by
      position, up to the order inside each pool, owner list and copy list. */
  lemma FragmentsUnique(a: seq<Fragment>, b: seq<Fragment>)
    requires |a| < Pow256(4) && |b| < Pow256(4)
    requires forall f :: f in a || f in b ==> FragmentFits(f)
    ensures FragmentsBytes(a) == FragmentsBytes(b) <==>
            |a| == |b| && forall i :: 0 <= i < |a| ==> SameFragment(a[i], b[i])
  {
    hide ListFits, FragmentFits, FragmentRow, ListDocument, SameFragment, Pow256, FragmentShapes, MapRows;
    var ra, rb := MapRows(FragmentRow, a), MapRows(FragmentRow, b);
    FragmentListFits(a);
    FragmentListFits(b);
    ListUnique(FragmentsV1, FragmentShapes(), ra, rb);
    if |a| == |b| {
      forall i | 0 <= i < |a| ensures ra[i] == rb[i] <==> SameFragment(a[i], b[i]) {
        FragmentRowsAgree(a[i], b[i]);
      }
    }
  }

  // ----- the plan input -----

  datatype PlanInput = PlanInput(instant: nat, maxMoves: nat, maxAge: nat, skew: nat, authority: Bytes, incarnation: Bytes,
                                 term: nat, index: nat, policy: Bytes, epoch: nat, observations: Bytes, topology: nat,
                                 tree: Bytes, workspace: Bytes, collection: Bytes, declaration: Bytes, provider: Bytes,
                                 cohortMs: nat, cohortOffset: nat, nodes: Bytes, fragments: Bytes)

  const PLAN_HEAD: seq<Shape> := [S64, S64, S64, S64, SStr, SRaw(16), S64, S64, SRaw(32), S64, SRaw(32), S64, SRaw(32)]
  const PLAN_TAIL: seq<Shape> := [SStr, SStr, SRaw(32), SRaw(32), S64, S64, SRaw(32), SRaw(32)]

  function PlanHead(p: PlanInput): seq<Field> {
    [U64(p.instant), U64(p.maxMoves), U64(p.maxAge), U64(p.skew), Str(p.authority), Raw(p.incarnation), U64(p.term),
     U64(p.index), Raw(p.policy), U64(p.epoch), Raw(p.observations), U64(p.topology), Raw(p.tree)]
  }

  function PlanTail(p: PlanInput): seq<Field> {
    [Str(p.workspace), Str(p.collection), Raw(p.declaration), Raw(p.provider), U64(p.cohortMs), U64(p.cohortOffset),
     Raw(p.nodes), Raw(p.fragments)]
  }

  function PlanInputBytes(p: PlanInput): Bytes {
    Document(PlanInputV1, 2, PlanHead(p) + PlanTail(p))
  }

  lemma PlanFieldsUnique(x: PlanInput, y: PlanInput)
    requires PlanHead(x) == PlanHead(y) && PlanTail(x) == PlanTail(y)
    ensures x == y
  {}

  /** The plan input binds every one of its inputs. */
  lemma PlanInputUnique(x: PlanInput, y: PlanInput)
    requires FitsFields(PLAN_HEAD, PlanHead(x)) && FitsFields(PLAN_TAIL, PlanTail(x))
    requires FitsFields(PLAN_HEAD, PlanHead(y)) && FitsFields(PLAN_TAIL, PlanTail(y))
    ensures PlanInputBytes(x) == PlanInputBytes(y) <==> x == y
  {
    hide FitsFields, Document, Pow256;
    if PlanInputBytes(x) == PlanInputBytes(y) {
      FitsJoin(PLAN_HEAD, PLAN_TAIL, PlanHead(x), PlanTail(x));
      FitsJoin(PLAN_HEAD, PLAN_TAIL, PlanHead(y), PlanTail(y));
      OneFits();
      var fx, fy := PlanHead(x) + PlanTail(x), PlanHead(y) + PlanTail(y);
      DocumentUnique(PlanInputV1, 2, PLAN_HEAD + PLAN_TAIL, fx, fy);
      assert fx[..13] == PlanHead(x) && fy[..13] == PlanHead(y) && fx[13..] == PlanTail(x) && fy[13..] == PlanTail(y);
      PlanFieldsUnique(x, y);
    }
  }

  // ----- the fragment rate -----

  const NANOS := 1_000_000_000_000
  const TWO_20 := 0x10_0000
  const TWO_40 := 0x100_0000_0000
  const TWO_64 := 0x1_0000_0000_0000_0000
  const TWO_124 := 0x1000_0000_0000_0000_0000_0000_0000_0000

  /** Scans per byte and millisecond, scaled and rounded down. */
  function Rate(scans: nat, windowMs: nat, bytes: nat): nat
    requires windowMs * bytes > 0
  {
    scans * NANOS / (windowMs * bytes)
  }

  lemma {:induction false} SumBound(reports: seq<nat>)
    requires forall i :: 0 <= i < |reports| ==> reports[i] < TWO_64
    ensures Sum(reports) <= |reports| * (TWO_64 - 1)
  {
    if reports != [] {
      SumBound(reports[..|reports| - 1]);
    }
  }

  /** However many reports the bounds allow, both sides of the rate stay below
      2^124, so they fit 128 bits. */
  lemma RateFits(scans: seq<nat>, bytes: seq<nat>, windowMs: nat)
    requires |scans| <= TWO_20 && |bytes| <= TWO_20 && windowMs <= TWO_40
    requires forall i :: 0 <= i < |scans| ==> scans[i] < TWO_64
    requires forall i :: 0 <= i < |bytes| ==> bytes[i] < TWO_64
    ensures Sum(scans) * NANOS < TWO_124 && windowMs * Sum(bytes) < TWO_124
  {
    hide Sum;
    SumBound(scans);
    SumBound(bytes);
    ProductBelow(NANOS, Sum(scans));
    ProductBelow(windowMs, Sum(bytes));
  }

  lemma ProductBelow(a: nat, b: nat)
    requires a <= TWO_40 && b <= TWO_20 * (TWO_64 - 1)
    ensures a * b < TWO_124
  {
    assert a * b <= TWO_40 * b;
  }

  /** The rounded rate falls in a tier's range exactly when the exact ratio does. */
  lemma RateInTier(scans: nat, windowMs: nat, bytes: nat, lo: nat, hi: nat)
    requires windowMs * bytes > 0
    ensures lo <= Rate(scans, windowMs, bytes) < hi <==>
            lo * (windowMs * bytes) <= scans * NANOS < hi * (windowMs * bytes)
  {
    Quotient(scans * NANOS, windowMs * bytes, lo);
    Quotient(scans * NANOS, windowMs * bytes, hi);
  }

  lemma Quotient(n: nat, d: nat, bound: nat)
    requires d > 0
    ensures bound <= n / d <==> bound * d <= n
  {
    var q := n / d;
    assert q * d <= n < q * d + d;
    if bound <= q {
      assert bound * d <= q * d;
    } else {
      assert (q + 1) * d <= bound * d;
    }
  }
}
