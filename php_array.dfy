/**
 * PHP values as the custom field types see them: ordered arrays whose keys
 * are unique integers or strings, the scalars a stored record can hold, and
 * PHP's `empty()` test on each of them.
 */
module PhpArray {

  datatype Option<T> = None | Some(value: T)

  /** A PHP array key: an integer or a string. */
  datatype Key = IntKey(n: int) | StrKey(s: string)

  datatype Entry<V> = Entry(key: Key, value: V)

  /** No key occurs twice: what makes a sequence of entries a PHP array. */
  ghost predicate UniqueKeys<V>(a: seq<Entry<V>>) {
    forall i, j :: 0 <= i < j < |a| ==> a[i].key != a[j].key
  }

  /** An ordered PHP array: entries in insertion order, keys unique. */
  type PArray<V> = a: seq<Entry<V>> | UniqueKeys(a) witness []

  /** Position of key `k` in `a`, if any. */
  function Find<V>(a: seq<Entry<V>>, k: Key): (r: Option<nat>)
    ensures r.None? <==> forall i :: 0 <= i < |a| ==> a[i].key != k
    ensures r.Some? ==> r.value < |a| && a[r.value].key == k
    ensures r.Some? ==> forall i :: 0 <= i < r.value ==> a[i].key != k
  {
    if |a| == 0 then None
    else if a[0].key == k then Some(0)
    else match Find(a[1..], k)
      case None => None
      case Some(i) => Some(i + 1)
  }

  /** `isset($a[$k])` for an array whose values are never null. */
  predicate HasKey<V>(a: PArray<V>, k: Key) {
    Find(a, k).Some?
  }

  /** `$a[$k]` when it is set. */
  function Get<V>(a: PArray<V>, k: Key): (r: Option<V>)
    ensures r.None? <==> !HasKey(a, k)
    ensures forall i :: 0 <= i < |a| && a[i].key == k ==> r == Some(a[i].value)
  {
    match Find(a, k)
    case None => None
    case Some(i) => Some(a[i].value)
  }

  /** `$a[$k] = $v`: overwrites in place when `k` is present, appends otherwise. */
  function Put<V>(a: PArray<V>, k: Key, v: V): (r: PArray<V>)
    ensures Get(r, k) == Some(v)
    ensures forall k' :: k' != k ==> Get(r, k') == Get(a, k')
    ensures HasKey(a, k) ==> |r| == |a| && forall i :: 0 <= i < |a| ==> r[i].key == a[i].key
    ensures !HasKey(a, k) ==> r == a + [Entry(k, v)]
  {
    match Find(a, k)
    case Some(i) =>
      var r := a[i := Entry(k, v)];
      assert forall j :: 0 <= j < |a| ==> r[j].key == a[j].key;
      r
    case None =>
      var r := a + [Entry(k, v)];
      assert forall j :: 0 <= j < |a| ==> r[j] == a[j];
      assert r[|a|].key == k;
      r
  }

  /** `unset($a[$k])`: removes the entry for `k`, keeping the order of the rest. */
  function Unset<V>(a: PArray<V>, k: Key): (r: PArray<V>)
    ensures !HasKey(r, k)
    ensures forall k' :: k' != k ==> Get(r, k') == Get(a, k')
    ensures !HasKey(a, k) ==> r == a
    ensures HasKey(a, k) ==> |r| == |a| - 1
    ensures HasKey(a, k) ==> r == a[..Find(a, k).value] + a[Find(a, k).value + 1..]
  {
    match Find(a, k)
    case None => a
    case Some(i) =>
      var r := a[..i] + a[i + 1..];
      assert forall j :: 0 <= j < |r| ==> r[j] == if j < i then a[j] else a[j + 1];
      RemoveAtKeepsOthers(a, i);
      r
  }

  /** Removing the entry at position `i` leaves every other key's value as it was. */
  lemma RemoveAtKeepsOthers<V>(a: PArray<V>, i: nat)
    requires i < |a|
    ensures UniqueKeys(a[..i] + a[i + 1..])
    ensures forall k' :: k' != a[i].key ==> Get(a[..i] + a[i + 1..], k') == Get(a, k')
  {
    var r: PArray<V> := a[..i] + a[i + 1..];
    assert forall j :: 0 <= j < |r| ==> r[j] == if j < i then a[j] else a[j + 1];
    forall k' | k' != a[i].key
      ensures Get(r, k') == Get(a, k')
    {
      match Find(a, k')
      case None =>
      case Some(j) =>
        if j < i { assert r[j] == a[j]; } else { assert r[j - 1] == a[j]; }
    }
  }

  /** `empty()` on a string: true for "" and for "0". */
  predicate EmptyString(s: string) {
    s == "" || s == "0"
  }

  /** The scalars a stored field value or a stored table cell can be. */
  datatype Scalar = Null | Bool(b: bool) | Int(i: int) | Text(s: string)

  /** `empty()` on a scalar: null, false, 0, "" and "0". */
  predicate ScalarEmpty(x: Scalar) {
    match x
    case Null => true
    case Bool(b) => !b
    case Int(i) => i == 0
    case Text(s) => EmptyString(s)
  }

  /** A table row: column key to cell text, in column order. */
  type Row = PArray<string>

  /** An element of a stored table: normally a row, but PHP lets it be any scalar. */
  datatype Item = RowItem(row: Row) | ScalarItem(scalar: Scalar)

  /** `empty()` on a table element: an array is empty only when it has no entries. */
  predicate ItemEmpty(x: Item) {
    match x
    case RowItem(row) => row == []
    case ScalarItem(s) => ScalarEmpty(s)
  }

  /** A stored field value once decoded: an array of table elements or a lone scalar. */
  datatype FieldValue = Table(items: seq<Item>) | Plain(scalar: Scalar)

  /** `empty()` on a decoded stored value. */
  predicate FieldValueEmpty(v: FieldValue) {
    match v
    case Table(items) => items == []
    case Plain(s) => ScalarEmpty(s)
  }

  /**
   * A value of the submitted form data: the cells of a table row, a scalar,
   * or a table value already encoded for storage.
   */
  datatype PostValue = Cells(row: Row) | Posted(scalar: Scalar) | Encoded(table: FieldValue)
}
