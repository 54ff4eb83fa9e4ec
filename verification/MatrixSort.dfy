/** The deterministic RBAC matrix: rows deduplicated by a joined key, then sorted field by field. */
module MatrixSort {
  import opened Common

  /** JavaScript strings as their UTF-16 code units, which is what `<` compares. */
  type Unit = u: int | 0 <= u < 0x1_0000
  type Text = seq<Unit>

  datatype Row = Row(permission: Text, surface: Text, surfaceType: Text, source: Text)

  /** `<` on strings. */
  predicate Less(a: Text, b: Text) {
    if b == [] then false
    else if a == [] then true
    else if a[0] != b[0] then a[0] < b[0]
    else Less(a[1..], b[1..])
  }

  /** The texts agree below `k`, where the first one ends or has the smaller code unit. */
  ghost predicate LessAt(a: Text, b: Text, k: nat) {
    k <= |a| && k < |b| && a[..k] == b[..k] && (k < |a| ==> a[k] < b[k])
  }

  lemma {:induction false} LessMeans(a: Text, b: Text)
    ensures Less(a, b) <==> exists k: nat :: LessAt(a, b, k)
  {
    if b != [] && a == [] {
      assert LessAt(a, b, 0);
    } else if b != [] && a[0] != b[0] {
      if a[0] < b[0] { assert LessAt(a, b, 0); }
      if k: nat :| LessAt(a, b, k) { assert k > 0 ==> a[..k][0] == b[..k][0]; }
    } else if b != [] {
      LessMeans(a[1..], b[1..]);
      if k: nat :| LessAt(a[1..], b[1..], k) {
        assert a[..k + 1] == [a[0]] + a[1..][..k] && b[..k + 1] == [b[0]] + b[1..][..k];
        assert LessAt(a, b, k + 1);
      }
      if k: nat :| LessAt(a, b, k) {
        assert k > 0;
        assert a[1..][..k - 1] == a[..k][1..] && b[1..][..k - 1] == b[..k][1..];
        assert LessAt(a[1..], b[1..], k - 1);
      }
    }
  }

  lemma {:induction false} LessIsStrictOrder(a: Text, b: Text, c: Text)
    ensures !(Less(a, b) && Less(b, a))
    ensures a != b ==> Less(a, b) || Less(b, a)
    ensures Less(a, b) && Less(b, c) ==> Less(a, c)
  {
    if a != [] && b != [] {
      assert a[0] == b[0] && a[1..] == b[1..] ==> a == b by {
        if a[0] == b[0] && a[1..] == b[1..] { assert a == [a[0]] + a[1..] && b == [b[0]] + b[1..]; }
      }
      LessIsStrictOrder(a[1..], b[1..], if c != [] then c[1..] else []);
    }
  }

  /** The comparator answers -1. */
  predicate RowLess(a: Row, b: Row) {
    if a.permission != b.permission then Less(a.permission, b.permission)
    else if a.surface != b.surface then Less(a.surface, b.surface)
    else if a.surfaceType != b.surfaceType then Less(a.surfaceType, b.surfaceType)
    else Less(a.source, b.source)
  }

  lemma RowLessIsStrictOrder(a: Row, b: Row, c: Row)
    ensures !(RowLess(a, b) && RowLess(b, a))
    ensures a != b ==> RowLess(a, b) || RowLess(b, a)
    ensures RowLess(a, b) && RowLess(b, c) ==> RowLess(a, c)
  {
    LessIsStrictOrder(a.permission, b.permission, c.permission);
    LessIsStrictOrder(a.surface, b.surface, c.surface);
    LessIsStrictOrder(a.surfaceType, b.surfaceType, c.surfaceType);
    LessIsStrictOrder(a.source, b.source, c.source);
  }

  const NUL: Text := [0]

  function Key(r: Row): Text {
    r.permission + NUL + (r.surface + NUL + (r.surfaceType + NUL + r.source))
  }

  lemma CutAtNul(a: Text, x: Text, b: Text, y: Text)
    requires 0 !in a && 0 !in b && a + NUL + x == b + NUL + y
    ensures a == b && x == y
  {
    var s, t := a + NUL + x, b + NUL + y;
    assert s[|a|] == 0 && t[|b|] == 0;
    assert forall i :: 0 <= i < |a| ==> s[i] == a[i];
    assert forall i :: 0 <= i < |b| ==> t[i] == b[i];
    assert s[..|a|] == a && t[..|b|] == b && s[|a| + 1..] == x && t[|b| + 1..] == y;
  }

  predicate NulFree(r: Row) {
    0 !in r.permission && 0 !in r.surface && 0 !in r.surfaceType && 0 !in r.source
  }

  /** Rows without NUL characters have distinct keys. */
  lemma NulFreeKeys(r: Row, s: Row)
    requires NulFree(r) && NulFree(s) && Key(r) == Key(s)
    ensures r == s
  {
    CutAtNul(r.permission, r.surface + NUL + (r.surfaceType + NUL + r.source), s.permission, s.surface + NUL + (s.surfaceType + NUL + s.source));
    CutAtNul(r.surface, r.surfaceType + NUL + r.source, s.surface, s.surfaceType + NUL + s.source);
    CutAtNul(r.surfaceType, r.source, s.surfaceType, s.source);
  }

  // ---- Deduplication -------------------------------------------------------------------------------

  /** The `seen` map for some key: the first row of each key. */
  function FirstByKey(rows: seq<Row>, key: Row -> Text): (m: OMap<Text, Row>)
    ensures m.Valid()
  {
    if rows == [] then Empty() else
    var before, r := FirstByKey(rows[..|rows|-1], key), rows[|rows|-1];
    if key(r) in before.vals then before else before.Put(key(r), r)
  }

  lemma {:induction false} FirstByKeyIs(rows: seq<Row>, key: Row -> Text)
    ensures forall k :: k in FirstByKey(rows, key).vals ==> FirstByKey(rows, key).vals[k] in rows && key(FirstByKey(rows, key).vals[k]) == k
    ensures forall r :: r in rows ==> key(r) in FirstByKey(rows, key).vals
  {
    if rows != [] {
      FirstByKeyIs(rows[..|rows|-1], key);
      assert rows == rows[..|rows|-1] + [rows[|rows|-1]];
    }
  }

  function Values(m: OMap<Text, Row>): seq<Row>
    requires m.Valid()
  {
    seq(|m.keys|, i requires 0 <= i < |m.keys| => m.vals[m.keys[i]])
  }

  /** A row is kept when it is the one its key stands for. */
  ghost predicate Kept(rows: seq<Row>, key: Row -> Text, r: Row) {
    r in rows && key(r) in FirstByKey(rows, key).vals && FirstByKey(rows, key).vals[key(r)] == r
  }

  lemma ValuesAre(rows: seq<Row>, key: Row -> Text)
    ensures forall r :: r in Values(FirstByKey(rows, key)) <==> Kept(rows, key, r)
    ensures Distinct(Values(FirstByKey(rows, key)))
  {
    var m := FirstByKey(rows, key);
    FirstByKeyIs(rows, key);
    forall r | Kept(rows, key, r)
      ensures r in Values(m)
    {
      var i :| 0 <= i < |m.keys| && m.keys[i] == key(r);
      assert Values(m)[i] == r;
    }
    forall i | 0 <= i < |m.keys| ensures key(Values(m)[i]) == m.keys[i] { assert m.keys[i] in m.vals; }
  }

  // ---- Sorting -------------------------------------------------------------------------------------

  ghost predicate StrictlyIncreasing(rows: seq<Row>) {
    forall i, j :: 0 <= i < j < |rows| ==> RowLess(rows[i], rows[j])
  }

  /** Only one strictly increasing list has given elements, so the sorting algorithm does not matter. */
  lemma {:induction false} SortedIsUnique(a: seq<Row>, b: seq<Row>)
    requires StrictlyIncreasing(a) && StrictlyIncreasing(b) && Elements(a) == Elements(b)
    ensures a == b
  {
    assert b != [] ==> b[0] in Elements(b);
    if a != [] {
      assert a[0] in Elements(b) && (b != [] ==> b[0] in Elements(a));
      assert forall r :: r in a <==> r in Elements(a);
      assert forall r :: r in b <==> r in Elements(b);
      var i :| 0 <= i < |b| && b[i] == a[0];
      var j :| 0 <= j < |a| && a[j] == b[0];
      RowLessIsStrictOrder(a[0], b[0], a[0]);
      assert a[0] == b[0];
      TailElements(a);
      TailElements(b);
      SortedIsUnique(a[1..], b[1..]);
      assert a == [a[0]] + a[1..] && b == [b[0]] + b[1..];
    }
  }

  lemma TailElements(a: seq<Row>)
    requires StrictlyIncreasing(a) && a != []
    ensures Elements(a[1..]) == Elements(a) - {a[0]}
  {
    assert a == [a[0]] + a[1..];
    forall i | 0 < i < |a| ensures a[i] != a[0] { RowLessIsStrictOrder(a[0], a[i], a[0]); }
  }

  function Insert(r: Row, sorted: seq<Row>): seq<Row> {
    if sorted == [] then [r]
    else if RowLess(r, sorted[0]) then [r] + sorted
    else [sorted[0]] + Insert(r, sorted[1..])
  }

  /** Stands for `Array.prototype.sort` with the comparator. */
  function Sort(rows: seq<Row>): seq<Row> {
    if rows == [] then [] else Insert(rows[|rows|-1], Sort(rows[..|rows|-1]))
  }

  lemma {:induction false} InsertSorts(r: Row, sorted: seq<Row>)
    requires StrictlyIncreasing(sorted) && r !in sorted
    ensures StrictlyIncreasing(Insert(r, sorted))
    ensures forall x :: x in Insert(r, sorted) <==> x in sorted || x == r
  {
    if sorted != [] {
      var first, rest := sorted[0], sorted[1..];
      assert sorted == [first] + rest;
      InsertSorts(r, rest);
      RowLessIsStrictOrder(r, first, r);
      if RowLess(r, first) {
        forall i | 0 <= i < |sorted| ensures RowLess(r, sorted[i]) { RowLessIsStrictOrder(r, first, sorted[i]); }
      } else {
        var tail := Insert(r, rest);
        forall i | 0 <= i < |tail| ensures RowLess(first, tail[i]) { assert tail[i] in tail; }
      }
    }
  }

  lemma {:induction false} Sorts(rows: seq<Row>)
    requires Distinct(rows)
    ensures StrictlyIncreasing(Sort(rows))
    ensures forall x :: x in Sort(rows) <==> x in rows
  {
    if rows != [] {
      var front, last := rows[..|rows|-1], rows[|rows|-1];
      Sorts(front);
      assert rows == front + [last];
      assert last !in front;
      InsertSorts(last, Sort(front));
    }
  }

  method CollectSeen(rows: seq<Row>, key: Row -> Text) returns (seen: OMap<Text, Row>)
    ensures seen == FirstByKey(rows, key)
  {
    seen := Empty();
    for i := 0 to |rows|
      invariant seen == FirstByKey(rows[..i], key)
    {
      assert rows[..i + 1][..i] == rows[..i];
      if key(rows[i]) !in seen.vals {
        seen := seen.Put(key(rows[i]), rows[i]);
      }
    }
    assert rows[..|rows|] == rows;
  }

  /** What `dedupeAndSort` returns for a key. */
  function Result(rows: seq<Row>, key: Row -> Text): seq<Row> {
    Sort(Values(FirstByKey(rows, key)))
  }

  /** `dedupeAndSort`. */
  method DedupeAndSort(rows: seq<Row>) returns (out: seq<Row>)
    ensures out == Result(rows, Key)
    ensures StrictlyIncreasing(out) && forall r :: r in out <==> Kept(rows, Key, r)
  {
    var seen := CollectSeen(rows, Key);
    ResultIs(rows, Key);
    out := Sort(Values(seen));
  }

  // ---- Main results --------------------------------------------------------------------------------

  /** Different rows have different keys. */
  ghost predicate KeysDistinct(rows: seq<Row>, key: Row -> Text) {
    forall r, s :: r in rows && s in rows && key(r) == key(s) ==> r == s
  }

  lemma NulFreeIsDistinct(rows: seq<Row>)
    requires forall r :: r in rows ==> NulFree(r)
    ensures KeysDistinct(rows, Key)
  {
    forall r, s | r in rows && s in rows && Key(r) == Key(s) ensures r == s { NulFreeKeys(r, s); }
  }

  /** The first field in which two rows differ decides: permission, then surface, surface type and source. */
  ghost predicate Precedes(a: Row, b: Row) {
    || (exists k: nat :: LessAt(a.permission, b.permission, k))
    || (a.permission == b.permission && exists k: nat :: LessAt(a.surface, b.surface, k))
    || (a.permission == b.permission && a.surface == b.surface && exists k: nat :: LessAt(a.surfaceType, b.surfaceType, k))
    || (a.permission == b.permission && a.surface == b.surface && a.surfaceType == b.surfaceType && exists k: nat :: LessAt(a.source, b.source, k))
  }

  lemma RowLessMeans(a: Row, b: Row)
    ensures RowLess(a, b) <==> Precedes(a, b)
  {
    LessMeans(a.permission, b.permission);
    LessMeans(a.surface, b.surface);
    LessMeans(a.surfaceType, b.surfaceType);
    LessMeans(a.source, b.source);
    LessIsStrictOrder(a.permission, b.permission, a.permission);
    LessIsStrictOrder(a.surface, b.surface, a.surface);
    LessIsStrictOrder(a.surfaceType, b.surfaceType, a.surfaceType);
  }

  /** The rows of the matrix ascend by permission, surface, surface type and source, in code unit order. */
  lemma ResultAscends(rows: seq<Row>, i: nat, j: nat)
    requires i < j < |Result(rows, Key)|
    ensures Precedes(Result(rows, Key)[i], Result(rows, Key)[j])
  {
    ResultIs(rows, Key);
    RowLessMeans(Result(rows, Key)[i], Result(rows, Key)[j]);
  }

  lemma ResultIs(rows: seq<Row>, key: Row -> Text)
    ensures StrictlyIncreasing(Result(rows, key))
    ensures forall r :: r in Result(rows, key) <==> Kept(rows, key, r)
  {
    ValuesAre(rows, key);
    Sorts(Values(FirstByKey(rows, key)));
  }

  /** The matrix has exactly the given rows if and only if no two different rows share a key. */
  lemma KeepsAllRowsIff(rows: seq<Row>, key: Row -> Text)
    ensures Elements(Result(rows, key)) == Elements(rows) <==> KeysDistinct(rows, key)
  {
    ResultIs(rows, key);
    FirstByKeyIs(rows, key);
    if KeysDistinct(rows, key) {
      assert forall r :: r in rows ==> Kept(rows, key, r);
    } else {
      var r, s :| r in rows && s in rows && key(r) == key(s) && r != s;
      assert r in Elements(rows) && s in Elements(rows);
      assert !(Kept(rows, key, r) && Kept(rows, key, s));
    }
  }

  lemma FirstSnoc(rows: seq<Row>, r: Row, key: Row -> Text)
    ensures FirstByKey(rows + [r], key)
         == if key(r) in FirstByKey(rows, key).vals then FirstByKey(rows, key) else FirstByKey(rows, key).Put(key(r), r)
  {
    assert (rows + [r])[..|rows|] == rows;
  }

  ghost predicate StandsFor(m: OMap<Text, Row>, k: Text, r: Row) {
    k in m.vals && m.vals[k] == r
  }

  lemma {:induction false} FirstStays(a: seq<Row>, b: seq<Row>, key: Row -> Text, k: Text, r: Row)
    requires StandsFor(FirstByKey(a, key), k, r)
    ensures StandsFor(FirstByKey(a + b, key), k, r)
  {
    if b == [] {
      assert a + b == a;
    } else {
      var front, last := b[..|b|-1], b[|b|-1];
      assert a + b == (a + front) + [last];
      FirstStays(a, front, key, k, r);
      FirstSnoc(a + front, last, key);
    }
  }

  lemma SameRowsSameResult(a: seq<Row>, b: seq<Row>, key: Row -> Text)
    requires KeysDistinct(a, key) && Elements(a) == Elements(b)
    ensures Result(a, key) == Result(b, key)
  {
    assert forall r :: r in a <==> r in Elements(a);
    assert forall r :: r in b <==> r in Elements(b);
    ResultIs(a, key);
    ResultIs(b, key);
    KeepsAllRowsIff(a, key);
    KeepsAllRowsIff(b, key);
    SortedIsUnique(Result(a, key), Result(b, key));
  }

  /** Putting first a row that lost its key to another changes the matrix. */
  lemma DroppedRowFirst(rows: seq<Row>, dropped: Row, key: Row -> Text)
    requires dropped in rows && !Kept(rows, key, dropped)
    ensures Elements([dropped] + rows) == Elements(rows) && Result([dropped] + rows, key) != Result(rows, key)
  {
    var other := [dropped] + rows;
    FirstSnoc([], dropped, key);
    assert [] + [dropped] == [dropped];
    FirstStays([dropped], rows, key, key(dropped), dropped);
    assert other[0] in other && Kept(other, key, dropped);
    ResultIs(rows, key);
    ResultIs(other, key);
  }

  lemma CollisionShows(rows: seq<Row>, key: Row -> Text) returns (other: seq<Row>)
    requires !KeysDistinct(rows, key)
    ensures Elements(other) == Elements(rows) && Result(other, key) != Result(rows, key)
  {
    var r, s :| r in rows && s in rows && key(r) == key(s) && r != s;
    var dropped := if Kept(rows, key, r) then s else r;
    other := [dropped] + rows;
    DroppedRowFirst(rows, dropped, key);
  }

  /** The matrix is the same for every list of the same rows if and only if no two different rows share a key. */
  lemma DeterministicIff(rows: seq<Row>)
    ensures KeysDistinct(rows, Key) <==> forall other :: Elements(other) == Elements(rows) ==> Result(other, Key) == Result(rows, Key)
  {
    if KeysDistinct(rows, Key) {
      forall other | Elements(other) == Elements(rows) ensures Result(other, Key) == Result(rows, Key) { SameRowsSameResult(rows, other, Key); }
    } else {
      var other := CollisionShows(rows, Key);
    }
  }

  /** The code units of "http-route". */
  const HTTP_ROUTE: Text := [104, 116, 116, 112, 45, 114, 111, 117, 116, 101]

  /** Two different rows with NUL characters and one key: the order of the input shows in the matrix. */
  lemma NulRowsCollide()
    ensures var r, s := Row([97, 0, 98], [99], HTTP_ROUTE, [101]), Row([97], [98, 0, 99], HTTP_ROUTE, [101]);
      exists other :: Elements(other) == Elements([r, s]) && Result(other, Key) != Result([r, s], Key)
  {
    var r, s := Row([97, 0, 98], [99], HTTP_ROUTE, [101]), Row([97], [98, 0, 99], HTTP_ROUTE, [101]);
    var rest := HTTP_ROUTE + NUL + [101];
    assert r.permission != s.permission;
    assert Key(r) == [97, 0, 98, 0, 99, 0] + rest;
    assert Key(s) == [97, 0, 98, 0, 99, 0] + rest;
    assert r in [r, s] && s in [r, s];
    var other := CollisionShows([r, s], Key);
  }
}
