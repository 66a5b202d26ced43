/** Collecting items in increasing order of an integer key, as the directory listing and the report entries are. */
module SortedByKey {

  datatype Keyed<T> = Keyed(key: int, item: T)

  ghost predicate Increasing<T>(s: seq<Keyed<T>>) {
    forall i, j | 0 <= i < j < |s| :: s[i].key < s[j].key
  }

  function Insert<T>(s: seq<Keyed<T>>, x: Keyed<T>): (r: seq<Keyed<T>>)
    ensures |r| == |s| + 1
  {
    if s == [] || x.key < s[0].key then [x] + s else [s[0]] + Insert(s[1..], x)
  }

  lemma {:induction false} InsertContents<T>(s: seq<Keyed<T>>, x: Keyed<T>, y: Keyed<T>)
    ensures y in Insert(s, x) <==> y in s || y == x
  {
    if !(s == [] || x.key < s[0].key) {
      InsertContents(s[1..], x, y);
      assert s == [s[0]] + s[1..];
    }
  }

  /** Inserting a new key keeps the order strict. */
  lemma {:induction false} InsertIncreasing<T>(s: seq<Keyed<T>>, x: Keyed<T>)
    requires Increasing(s) && forall y | y in s :: y.key != x.key
    ensures Increasing(Insert(s, x))
  {
    if !(s == [] || x.key < s[0].key) {
      var tail := s[1..];
      InsertIncreasing(tail, x);
      var r := Insert(tail, x);
      forall i | 0 <= i < |r| ensures s[0].key < r[i].key {
        InsertContents(tail, x, r[i]);
        assert s[0] in s;
      }
    }
  }
}
