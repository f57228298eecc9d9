/** The canonical encodings of scripts/verify_capacity_tier_fixtures.py, up to
    the bytes that are hashed: little-endian integers, length-prefixed strings,
    raw digests, and lists as a count followed by their sorted elements. */
module Canonical {
  type Byte = x: int | 0 <= x < 256
  type Bytes = seq<Byte>

  // ----- fields and their bytes -----

  /** One encoded field. A string is its UTF-8 bytes. */
  datatype Field =
    | U32(n: nat)
    | U64(n: nat)
    | Raw(bytes: Bytes)
    | Str(bytes: Bytes)
    | Items(rows: seq<Row>)

  /** One record: its fields in order. */
  datatype Row = Row(fields: seq<Field>)

  datatype Shape =
    | S32
    | S64
    | SRaw(width: nat)
    | SStr
    | SItems(row: seq<Shape>)

  function Pow256(k: nat): nat {
    if k == 0 then 1 else 256 * Pow256(k - 1)
  }

  /** `struct.pack` of an unsigned integer, least byte first. */
  function Le(n: nat, k: nat): (r: Bytes)
    ensures |r| == k
  {
    if k == 0 then [] else [n % 256] + Le(n / 256, k - 1)
  }

  function FieldBytes(f: Field): Bytes
    decreases f, 0
  {
    match f
    case U32(n) => Le(n, 4)
    case U64(n) => Le(n, 8)
    case Raw(b) => b
    case Str(b) => Le(|b|, 4) + b
    case Items(rows) => Le(|rows|, 4) + RowsBytes(rows)
  }

  function FieldsBytes(fields: seq<Field>): Bytes
    decreases fields, 0
  {
    if fields == [] then [] else FieldBytes(fields[0]) + FieldsBytes(fields[1..])
  }

  function RowBytes(row: Row): Bytes
    decreases row, 0
  {
    FieldsBytes(row.fields)
  }

  function RowsBytes(rows: seq<Row>): Bytes
    decreases rows, 0
  {
    if rows == [] then [] else RowBytes(rows[0]) + RowsBytes(rows[1..])
  }

  /** The field has the shape, and every number and length is in range. */
  predicate Fits(shape: Shape, f: Field)
    decreases f, 0
  {
    match shape
    case S32 => f.U32? && f.n < Pow256(4)
    case S64 => f.U64? && f.n < Pow256(8)
    case SRaw(w) => f.Raw? && |f.bytes| == w
    case SStr => f.Str? && |f.bytes| < Pow256(4)
    case SItems(row) => f.Items? && |f.rows| < Pow256(4) && FitsRows(row, f.rows)
  }

  predicate FitsFields(shapes: seq<Shape>, fields: seq<Field>)
    decreases fields, 0
  {
    |shapes| == |fields| && (fields == [] || (Fits(shapes[0], fields[0]) && FitsFields(shapes[1..], fields[1..])))
  }

  predicate FitsRow(shapes: seq<Shape>, row: Row)
    decreases row, 0
  {
    FitsFields(shapes, row.fields)
  }

  predicate FitsRows(shapes: seq<Shape>, rows: seq<Row>)
    decreases rows, 0
  {
    rows == [] || (FitsRow(shapes, rows[0]) && FitsRows(shapes, rows[1..]))
  }

  // ----- unique decodability -----

  lemma {:induction false} LeUnique(m: nat, n: nat, k: nat)
    requires m < Pow256(k) && n < Pow256(k) && Le(m, k) == Le(n, k)
    ensures m == n
  {
    if k > 0 {
      assert Le(m, k)[0] == m % 256 && Le(n, k)[0] == n % 256;
      assert Le(m, k)[1..] == Le(m / 256, k - 1) && Le(n, k)[1..] == Le(n / 256, k - 1);
      LeUnique(m / 256, n / 256, k - 1);
    }
  }

  /** Equal concatenations with first parts of one length split equally. */
  lemma SplitEqual(a: Bytes, ra: Bytes, b: Bytes, rb: Bytes)
    requires a + ra == b + rb && |a| == |b|
    ensures a == b && ra == rb
  {
    assert a == (a + ra)[..|a|] && b == (b + rb)[..|b|];
    assert ra == (a + ra)[|a|..] && rb == (b + rb)[|b|..];
  }

  lemma Assoc(a: Bytes, b: Bytes, c: Bytes)
    ensures (a + b) + c == a + (b + c)
  {}

  /** A number prefix and what follows it are both determined. */
  lemma PrefixUnique(m: nat, n: nat, k: nat, a: Bytes, b: Bytes, ra: Bytes, rb: Bytes)
    requires m < Pow256(k) && n < Pow256(k) && (Le(m, k) + a) + ra == (Le(n, k) + b) + rb
    ensures m == n && a + ra == b + rb
  {
    Assoc(Le(m, k), a, ra);
    Assoc(Le(n, k), b, rb);
    SplitEqual(Le(m, k), a + ra, Le(n, k), b + rb);
    LeUnique(m, n, k);
  }

  /** Whatever follows, a field of a known shape is read back from its bytes in
      only one way. */
  lemma {:induction false} FieldUnique(shape: Shape, a: Field, b: Field, ra: Bytes, rb: Bytes)
    requires Fits(shape, a) && Fits(shape, b) && FieldBytes(a) + ra == FieldBytes(b) + rb
    ensures a == b && ra == rb
    decreases a, 0
  {
    hide Pow256, Le;
    match shape
    case S32 => {
      SplitEqual(FieldBytes(a), ra, FieldBytes(b), rb);
      LeUnique(a.n, b.n, 4);
    }
    case S64 => {
      SplitEqual(FieldBytes(a), ra, FieldBytes(b), rb);
      LeUnique(a.n, b.n, 8);
    }
    case SRaw(_) => {
      SplitEqual(a.bytes, ra, b.bytes, rb);
    }
    case SStr => {
      PrefixUnique(|a.bytes|, |b.bytes|, 4, a.bytes, b.bytes, ra, rb);
      SplitEqual(a.bytes, ra, b.bytes, rb);
    }
    case SItems(row) => {
      PrefixUnique(|a.rows|, |b.rows|, 4, RowsBytes(a.rows), RowsBytes(b.rows), ra, rb);
      RowsUnique(row, a.rows, b.rows, ra, rb);
    }
  }

  lemma {:induction false} FieldsUnique(shapes: seq<Shape>, a: seq<Field>, b: seq<Field>, ra: Bytes, rb: Bytes)
    requires FitsFields(shapes, a) && FitsFields(shapes, b) && FieldsBytes(a) + ra == FieldsBytes(b) + rb
    ensures a == b && ra == rb
    decreases a, 0
  {
    hide FieldBytes, Fits;
    if a == [] {
      assert [] + ra == ra && [] + rb == rb;
    } else {
      Assoc(FieldBytes(a[0]), FieldsBytes(a[1..]), ra);
      Assoc(FieldBytes(b[0]), FieldsBytes(b[1..]), rb);
      FieldUnique(shapes[0], a[0], b[0], FieldsBytes(a[1..]) + ra, FieldsBytes(b[1..]) + rb);
      FieldsUnique(shapes[1..], a[1..], b[1..], ra, rb);
      assert a == [a[0]] + a[1..] && b == [b[0]] + b[1..];
    }
  }

  lemma {:induction false} RowUnique(shapes: seq<Shape>, a: Row, b: Row, ra: Bytes, rb: Bytes)
    requires FitsRow(shapes, a) && FitsRow(shapes, b) && RowBytes(a) + ra == RowBytes(b) + rb
    ensures a == b && ra == rb
    decreases a, 0
  {
    FieldsUnique(shapes, a.fields, b.fields, ra, rb);
  }

  lemma {:induction false} RowsUnique(shapes: seq<Shape>, a: seq<Row>, b: seq<Row>, ra: Bytes, rb: Bytes)
    requires |a| == |b| && FitsRows(shapes, a) && FitsRows(shapes, b) && RowsBytes(a) + ra == RowsBytes(b) + rb
    ensures a == b && ra == rb
    decreases a, 0
  {
    hide RowBytes, FitsRow;
    if a == [] {
      assert [] + ra == ra && [] + rb == rb;
    } else {
      Assoc(RowBytes(a[0]), RowsBytes(a[1..]), ra);
      Assoc(RowBytes(b[0]), RowsBytes(b[1..]), rb);
      RowUnique(shapes, a[0], b[0], RowsBytes(a[1..]) + ra, RowsBytes(b[1..]) + rb);
      RowsUnique(shapes, a[1..], b[1..], ra, rb);
      assert a == [a[0]] + a[1..] && b == [b[0]] + b[1..];
    }
  }

  // ----- the order of records -----

  /** Byte strings in dictionary order. */
  predicate BytesLeq(a: Bytes, b: Bytes) {
    a == [] || (b != [] && (if a[0] == b[0] then BytesLeq(a[1..], b[1..]) else a[0] < b[0]))
  }

  predicate Flat(f: Field) {
    !f.Items?
  }

  function Kind(f: Field): nat {
    match f
    case U32(_) => 0
    case U64(_) => 1
    case Raw(_) => 2
    case Str(_) => 3
    case Items(_) => 4
  }

  predicate FieldLeq(a: Field, b: Field) {
    if Kind(a) != Kind(b) then Kind(a) < Kind(b)
    else if a.U32? || a.U64? then a.n <= b.n
    else if a.Raw? || a.Str? then BytesLeq(a.bytes, b.bytes)
    else true
  }

  /** Tuples in dictionary order. */
  predicate FieldsLeq(a: seq<Field>, b: seq<Field>) {
    a == [] || (b != [] && (if a[0] == b[0] then FieldsLeq(a[1..], b[1..]) else FieldLeq(a[0], b[0])))
  }

  function Key(row: Row, k: nat): seq<Field> {
    if |row.fields| <= k then row.fields else row.fields[..k]
  }

  /** The order by the first `k` fields. */
  predicate RowLeq(k: nat, a: Row, b: Row) {
    FieldsLeq(Key(a, k), Key(b, k))
  }

  ghost predicate FlatKey(k: nat, row: Row) {
    forall f :: f in Key(row, k) ==> Flat(f)
  }

  lemma {:induction false} BytesOrder(a: Bytes, b: Bytes, c: Bytes)
    ensures BytesLeq(a, b) || BytesLeq(b, a)
    ensures BytesLeq(a, b) && BytesLeq(b, a) ==> a == b
    ensures BytesLeq(a, b) && BytesLeq(b, c) ==> BytesLeq(a, c)
  {
    if a != [] && b != [] {
      BytesOrder(a[1..], b[1..], if c == [] then [] else c[1..]);
      assert a == [a[0]] + a[1..] && b == [b[0]] + b[1..];
    }
  }

  lemma FieldOrder(a: Field, b: Field, c: Field)
    requires Flat(a) && Flat(b) && Flat(c)
    ensures FieldLeq(a, b) || FieldLeq(b, a)
    ensures FieldLeq(a, b) && FieldLeq(b, a) ==> a == b
    ensures FieldLeq(a, b) && FieldLeq(b, c) ==> FieldLeq(a, c)
  {
    hide BytesLeq;
    if Kind(a) == Kind(b) && (a.Raw? || a.Str?) {
      BytesOrder(a.bytes, b.bytes, if Kind(b) == Kind(c) then c.bytes else []);
    }
  }

  lemma {:induction false} FieldsOrder(a: seq<Field>, b: seq<Field>, c: seq<Field>)
    requires forall f :: f in a || f in b || f in c ==> Flat(f)
    ensures FieldsLeq(a, b) || FieldsLeq(b, a)
    ensures FieldsLeq(a, b) && FieldsLeq(b, a) ==> a == b
    ensures FieldsLeq(a, b) && FieldsLeq(b, c) ==> FieldsLeq(a, c)
  {
    hide FieldLeq, Flat;
    if a != [] && b != [] {
      FieldsOrder(a[1..], b[1..], if c == [] then [] else c[1..]);
      FieldOrder(a[0], b[0], if c == [] then b[0] else c[0]);
      if c != [] {
        FieldOrder(b[0], c[0], a[0]);
        FieldOrder(a[0], c[0], b[0]);
      }
      assert a == [a[0]] + a[1..] && b == [b[0]] + b[1..];
    }
  }

  lemma RowOrder(k: nat, a: Row, b: Row, c: Row)
    requires FlatKey(k, a) && FlatKey(k, b) && FlatKey(k, c)
    ensures RowLeq(k, a, b) || RowLeq(k, b, a)
    ensures RowLeq(k, a, b) && RowLeq(k, b, a) ==> Key(a, k) == Key(b, k)
    ensures RowLeq(k, a, b) && RowLeq(k, b, c) ==> RowLeq(k, a, c)
  {
    hide FieldsLeq, Key;
    FieldsOrder(Key(a, k), Key(b, k), Key(c, k));
  }

  // ----- sorting -----

  function Insert(k: nat, x: Row, rows: seq<Row>): seq<Row> {
    if rows == [] || RowLeq(k, x, rows[0]) then [x] + rows else [rows[0]] + Insert(k, x, rows[1..])
  }

  /** A stable sort by the first `k` fields. */
  function SortRows(k: nat, rows: seq<Row>): seq<Row> {
    if rows == [] then [] else Insert(k, rows[0], SortRows(k, rows[1..]))
  }

  ghost predicate Sorted(k: nat, rows: seq<Row>) {
    rows == [] || ((forall r :: r in rows[1..] ==> RowLeq(k, rows[0], r)) && Sorted(k, rows[1..]))
  }

  lemma {:induction false} InsertBag(k: nat, x: Row, rows: seq<Row>)
    ensures multiset(Insert(k, x, rows)) == multiset{x} + multiset(rows)
    ensures |Insert(k, x, rows)| == |rows| + 1
  {
    hide RowLeq;
    if rows != [] {
      assert rows == [rows[0]] + rows[1..];
      InsertBag(k, x, rows[1..]);
    }
  }

  lemma {:induction false} SortBag(k: nat, rows: seq<Row>)
    ensures multiset(SortRows(k, rows)) == multiset(rows) && |SortRows(k, rows)| == |rows|
  {
    if rows != [] {
      assert rows == [rows[0]] + rows[1..];
      SortBag(k, rows[1..]);
      InsertBag(k, rows[0], SortRows(k, rows[1..]));
    }
  }

  lemma {:induction false} InsertSorted(k: nat, x: Row, rows: seq<Row>)
    requires Sorted(k, rows) && FlatKey(k, x) && forall r :: r in rows ==> FlatKey(k, r)
    ensures Sorted(k, Insert(k, x, rows))
  {
    hide RowLeq, FlatKey;
    if rows != [] {
      var y, rest := rows[0], rows[1..];
      RowOrder(k, x, y, y);
      if RowLeq(k, x, y) {
        forall r | r in rest ensures RowLeq(k, x, r) {
          RowOrder(k, x, y, r);
        }
        assert ([x] + rows)[1..] == rows;
      } else {
        InsertSorted(k, x, rest);
        InsertBag(k, x, rest);
        forall r | r in Insert(k, x, rest) ensures RowLeq(k, y, r) {
          assert r in multiset(Insert(k, x, rest));
        }
        assert ([y] + Insert(k, x, rest))[1..] == Insert(k, x, rest);
      }
    }
  }

  lemma {:induction false} SortSorted(k: nat, rows: seq<Row>)
    requires forall r :: r in rows ==> FlatKey(k, r)
    ensures Sorted(k, SortRows(k, rows))
  {
    hide FlatKey, Insert;
    if rows != [] {
      SortSorted(k, rows[1..]);
      SortBag(k, rows[1..]);
      forall r | r in SortRows(k, rows[1..]) ensures FlatKey(k, r) {
        assert r in multiset(SortRows(k, rows[1..]));
      }
      InsertSorted(k, rows[0], SortRows(k, rows[1..]));
    }
  }

  /** Rows with one key are one row. */
  ghost predicate KeysDecide(k: nat, rows: seq<Row>) {
    forall a, b :: a in rows && b in rows && Key(a, k) == Key(b, k) ==> a == b
  }

  lemma {:induction false} SortedUnique(k: nat, a: seq<Row>, b: seq<Row>)
    requires Sorted(k, a) && Sorted(k, b) && multiset(a) == multiset(b)
    requires KeysDecide(k, a) && forall r :: r in a ==> FlatKey(k, r)
    ensures a == b
  {
    hide RowLeq, Key, FlatKey;
    if a == [] {
      assert |multiset(b)| == |b|;
    } else {
      assert a[0] in multiset(a) && a[0] in multiset(b);
      assert b[0] in multiset(b) && b[0] in multiset(a);
      HeadsMeet(k, a, b);
      TailBag(a, b);
      SortedUnique(k, a[1..], b[1..]);
      assert a == [a[0]] + a[1..] && b == [b[0]] + b[1..];
    }
  }

  lemma TailBag(a: seq<Row>, b: seq<Row>)
    requires a != [] && b != [] && a[0] == b[0] && multiset(a) == multiset(b)
    ensures multiset(a[1..]) == multiset(b[1..])
  {
    assert a == [a[0]] + a[1..] && b == [b[0]] + b[1..];
    forall r ensures multiset(a[1..])[r] == multiset(b[1..])[r] {
      assert multiset(a)[r] == multiset{a[0]}[r] + multiset(a[1..])[r];
      assert multiset(b)[r] == multiset{a[0]}[r] + multiset(b[1..])[r];
    }
  }

  lemma HeadsMeet(k: nat, a: seq<Row>, b: seq<Row>)
    requires a != [] && b != [] && Sorted(k, a) && Sorted(k, b) && b[0] in a && a[0] in b
    requires KeysDecide(k, a) && FlatKey(k, a[0]) && FlatKey(k, b[0])
    ensures a[0] == b[0]
  {
    hide RowLeq, Key, FlatKey;
    assert a == [a[0]] + a[1..] && b == [b[0]] + b[1..];
    RowOrder(k, a[0], b[0], b[0]);
  }

  /** Sorting forgets the input order, where keys tell rows apart. */
  lemma SortForgets(k: nat, a: seq<Row>, b: seq<Row>)
    requires multiset(a) == multiset(b) && KeysDecide(k, a) && forall r :: r in a ==> FlatKey(k, r)
    ensures SortRows(k, a) == SortRows(k, b)
  {
    hide FlatKey, Key, Sorted, SortRows;
    SortBag(k, a);
    SortBag(k, b);
    forall r | r in b ensures r in a { assert r in multiset(b); }
    var sa, sb := SortRows(k, a), SortRows(k, b);
    forall r | r in sa ensures r in a { assert r in multiset(sa); }
    SortSorted(k, a);
    SortSorted(k, b);
    SortedUnique(k, sa, sb);
  }

  // ----- records as rows -----

  function MapRows<T>(row: T -> Row, s: seq<T>): (r: seq<Row>)
    ensures |r| == |s| && forall i :: 0 <= i < |s| ==> r[i] == row(s[i])
  {
    if s == [] then [] else [row(s[0])] + MapRows(row, s[1..])
  }

  ghost predicate Injective<T(!new)>(row: T -> Row) {
    forall x, y :: row(x) == row(y) ==> x == y
  }

  lemma {:induction false} MapCount<T(!new)>(row: T -> Row, s: seq<T>, x: T)
    requires Injective(row)
    ensures multiset(MapRows(row, s))[row(x)] == multiset(s)[x]
  {
    if s != [] {
      var y, rest := s[0], s[1..];
      MapCount(row, rest, x);
      assert s == [y] + rest && MapRows(row, s) == [row(y)] + MapRows(row, rest);
      hide MapRows;
      assert multiset(s)[x] == multiset{y}[x] + multiset(rest)[x];
      assert multiset(MapRows(row, s))[row(x)] == multiset{row(y)}[row(x)] + multiset(MapRows(row, rest))[row(x)];
    }
  }

  /** Distinct records give distinct rows, so bags of rows are bags of records. */
  lemma MapBag<T(!new)>(row: T -> Row, a: seq<T>, b: seq<T>)
    requires Injective(row)
    ensures multiset(MapRows(row, a)) == multiset(MapRows(row, b)) <==> multiset(a) == multiset(b)
  {
    hide *;
    if multiset(MapRows(row, a)) == multiset(MapRows(row, b)) {
      forall x ensures multiset(a)[x] == multiset(b)[x] {
        MapCount(row, a, x);
        MapCount(row, b, x);
      }
    }
    if multiset(a) == multiset(b) {
      forall r ensures multiset(MapRows(row, a))[r] <= multiset(MapRows(row, b))[r] {
        MapCountRow(row, a, b, r);
      }
      forall r ensures multiset(MapRows(row, b))[r] <= multiset(MapRows(row, a))[r] {
        MapCountRow(row, b, a, r);
      }
    }
  }

  lemma MapCountRow<T(!new)>(row: T -> Row, a: seq<T>, b: seq<T>, r: Row)
    requires Injective(row) && multiset(a) == multiset(b)
    ensures multiset(MapRows(row, a))[r] <= multiset(MapRows(row, b))[r]
  {
    hide *;
    var ra := MapRows(row, a);
    if r in multiset(ra) {
      assert r in ra;
      var i :| 0 <= i < |ra| && ra[i] == r;
      MapCount(row, a, a[i]);
      MapCount(row, b, a[i]);
    }
  }

  /** The five hashed documents, each under its own domain string. */
  datatype Domain = PolicyV1 | ObservationsV1 | NodesV1 | FragmentsV1 | PlanInputV1

  function DomainText(domain: Domain): string {
    match domain
    case PolicyV1 => "protomolt.capacity-tier-policy.v1\0"
    case ObservationsV1 => "protomolt.capacity-observations.v1\0"
    case NodesV1 => "protomolt.capacity-plan-nodes.v1\0"
    case FragmentsV1 => "protomolt.capacity-plan-fragments.v1\0"
    case PlanInputV1 => "protomolt.capacity-plan-input.v1\0"
  }

  function Ascii(text: string): (r: Bytes)
    ensures |r| == |text|
  {
    seq(|text|, i requires 0 <= i < |text| => text[i] as int % 256)
  }

  /** Documents of different kinds never encode to the same bytes. */
  lemma DomainsSeparate(d: Domain, e: Domain, x: Bytes, y: Bytes)
    requires d != e
    ensures Ascii(DomainText(d)) + x != Ascii(DomainText(e)) + y
  {
    var a, b := Ascii(DomainText(d)), Ascii(DomainText(e));
    var i := if d.NodesV1? || d.FragmentsV1? || d.PlanInputV1? then (if e.PolicyV1? || e.ObservationsV1? then 19 else 24) else 19;
    assert a[i] != b[i];
    assert (a + x)[i] == a[i] && (b + y)[i] == b[i];
  }

  /** A document: domain, version, then its fields. */
  function Document(domain: Domain, version: nat, fields: seq<Field>): Bytes {
    Ascii(DomainText(domain)) + FieldsBytes([U32(version)] + fields)
  }

  lemma DocumentUnique(domain: Domain, version: nat, shapes: seq<Shape>, a: seq<Field>, b: seq<Field>)
    requires version < Pow256(4) && FitsFields(shapes, a) && FitsFields(shapes, b)
    requires Document(domain, version, a) == Document(domain, version, b)
    ensures a == b
  {
    var va, vb := [U32(version)] + a, [U32(version)] + b;
    var header := Ascii(DomainText(domain));
    SplitEqual(header, FieldsBytes(va), header, FieldsBytes(vb));
    assert va[1..] == a && vb[1..] == b && ([S32] + shapes)[1..] == shapes;
    assert FitsFields([S32] + shapes, va) && FitsFields([S32] + shapes, vb);
    FieldsUnique([S32] + shapes, va, vb, [], []);
  }
}
