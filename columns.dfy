/**
 * Column registration: the `manage_users_columns` and `manage_users_sortable_columns`
 * filters each write one key of a PHP array and return the array.
 *
 * A PHP array with string keys is an ordered dictionary: writing a key that is
 * present overwrites its value where it stands, writing a new key appends it.
 * It is modelled as a sequence of (key, value) pairs.
 */
module Columns {
  import opened Opt

  /** The key of the plugin's column, in the column array, the sortable array and the query's `orderby`. */
  const ColumnKey: string := "user_comments_count"

  type Entries = seq<(string, string)>

  /** The keys of an array, in order. */
  function KeysOf(cols: Entries): seq<string>
  {
    if cols == [] then [] else [cols[0].0] + KeysOf(cols[1..])
  }

  /** No key occurs twice (always true of a PHP array). */
  predicate UniqueKeys(cols: Entries)
  {
    var ks := KeysOf(cols);
    forall i, j :: 0 <= i < j < |ks| ==> ks[i] != ks[j]
  }

  /** `$cols[k]`, or None when `isset($cols[k])` is false. */
  function Get(cols: Entries, k: string): Option<string>
  {
    if cols == [] then None
    else if cols[0].0 == k then Some(cols[0].1)
    else Get(cols[1..], k)
  }

  /**
   * The array assignment `$cols[k] = v`: afterwards k maps to v, every other
   * key keeps its value, and the keys are the old keys in their old order,
   * followed by k when k was new.
   */
  function Put(cols: Entries, k: string, v: string): (r: Entries)
    ensures Get(r, k) == Some(v)
    ensures forall j :: j != k ==> Get(r, j) == Get(cols, j)
    ensures KeysOf(r) == if k in KeysOf(cols) then KeysOf(cols) else KeysOf(cols) + [k]
  {
    if cols == [] then [(k, v)]
    else if cols[0].0 == k then [(k, v)] + cols[1..]
    else
      var rest := Put(cols[1..], k, v);
      assert ([cols[0]] + rest)[1..] == rest;
      [cols[0]] + rest
  }

  /** Writing one key keeps the keys unique. */
  lemma PutKeepsKeysUnique(cols: Entries, k: string, v: string)
    ensures UniqueKeys(cols) ==> UniqueKeys(Put(cols, k, v))
  {
    var ks, rs := KeysOf(cols), KeysOf(Put(cols, k, v));
    if UniqueKeys(cols) && k !in ks {
      forall i, j | 0 <= i < j < |rs| ensures rs[i] != rs[j] {
        if j == |ks| {
          assert rs[i] == ks[i];
        }
      }
    }
  }

  /** Writing the same key and value twice is the same as writing it once. */
  lemma {:induction false} PutIdempotent(cols: Entries, k: string, v: string)
    ensures Put(Put(cols, k, v), k, v) == Put(cols, k, v)
  {
    if cols != [] && cols[0].0 != k {
      PutIdempotent(cols[1..], k, v);
      assert Put(cols, k, v)[1..] == Put(cols[1..], k, v);
    }
  }

  /**
   * `manage_users_columns`: registers the column under ColumnKey with the
   * (translated) title; the title is a parameter because translation is the host's.
   */
  function ManageUsersColumns(cols: Entries, title: string): (r: Entries)
    ensures Get(r, ColumnKey) == Some(title)
    ensures forall j :: j != ColumnKey ==> Get(r, j) == Get(cols, j)
    ensures KeysOf(r) == if ColumnKey in KeysOf(cols) then KeysOf(cols) else KeysOf(cols) + [ColumnKey]
    ensures UniqueKeys(cols) ==> UniqueKeys(r)
  {
    PutKeepsKeysUnique(cols, ColumnKey, title);
    Put(cols, ColumnKey, title)
  }

  /** `manage_users_sortable_columns`: makes the column sortable under its own key. */
  function ManageUsersSortableColumns(cols: Entries): (r: Entries)
    ensures Get(r, ColumnKey) == Some(ColumnKey)
    ensures forall j :: j != ColumnKey ==> Get(r, j) == Get(cols, j)
    ensures KeysOf(r) == if ColumnKey in KeysOf(cols) then KeysOf(cols) else KeysOf(cols) + [ColumnKey]
    ensures UniqueKeys(cols) ==> UniqueKeys(r)
  {
    PutKeepsKeysUnique(cols, ColumnKey, ColumnKey);
    Put(cols, ColumnKey, ColumnKey)
  }

  /** Running the column filter twice registers the column once. */
  lemma ManageUsersColumnsIdempotent(cols: Entries, title: string)
    ensures ManageUsersColumns(ManageUsersColumns(cols, title), title) == ManageUsersColumns(cols, title)
  {
    PutIdempotent(cols, ColumnKey, title);
  }

  /** Running the sortable-column filter twice registers the sort key once. */
  lemma ManageUsersSortableColumnsIdempotent(cols: Entries)
    ensures ManageUsersSortableColumns(ManageUsersSortableColumns(cols)) == ManageUsersSortableColumns(cols)
  {
    PutIdempotent(cols, ColumnKey, ColumnKey);
  }
}
