/** The record store behind both resources, reduced to what the handlers
    observe: a table from id to record, and queries that return the selected
    rows in ascending id order. */
module Store {

  /** A stored record together with its store-assigned id. */
  datatype Row<V> = Row(id: int, record: V)

  ghost predicate IsLeast(m: int, ids: set<int>) {
    m in ids && forall i :: i in ids ==> m <= i
  }

  lemma {:induction false} LeastExists(ids: set<int>)
    requires ids != {}
    ensures exists m :: IsLeast(m, ids)
  {
    if forall y :: y !in ids {
      assert false;
    }
    var x :| x in ids;
    if ids != {x} {
      var rest := ids - {x};
      LeastExists(rest);
      var m :| IsLeast(m, rest);
      assert ids == rest + {x};
      if x < m {
        assert IsLeast(x, ids);
      } else {
        assert IsLeast(m, ids);
      }
    } else {
      assert IsLeast(x, ids);
    }
  }

  /** The smallest id of a non-empty set. */
  function Least(ids: set<int>): (m: int)
    requires ids != {}
    ensures IsLeast(m, ids)
  {
    LeastExists(ids);
    var m :| m in ids && forall i :: i in ids ==> m <= i;
    m
  }

  predicate Increasing(s: seq<int>) {
    forall j, k :: 0 <= j < k < |s| ==> s[j] < s[k]
  }

  /** The ids of a set in ascending order. */
  function Ascending(ids: set<int>): seq<int>
    decreases ids
  {
    if ids == {} then []
    else
      var m := Least(ids);
      [m] + Ascending(ids - {m})
  }

  /** `Ascending` lists every id of the set, once each, in increasing order,
      starting with the least. */
  lemma {:induction false} AscendingSorts(ids: set<int>)
    ensures var s := Ascending(ids);
            && |s| == |ids|
            && (forall i :: i in s <==> i in ids)
            && Increasing(s)
            && (s != [] ==> IsLeast(s[0], ids))
    decreases ids
  {
    if ids != {} {
      var m := Least(ids);
      var others := ids - {m};
      AscendingSorts(others);
      var rest := Ascending(others);
      var s := [m] + rest;
      assert Ascending(ids) == s;
      assert |others| == |ids| - 1;
      forall i ensures i in s <==> i in ids {
        assert i in s <==> i == m || i in rest;
      }
      forall j, k | 0 <= j < k < |s| ensures s[j] < s[k] {
        if j == 0 {
          assert s[k] == rest[k - 1] && s[k] in others;
        } else {
          assert s[j] == rest[j - 1] && s[k] == rest[k - 1];
        }
      }
    }
  }

  /** The rows of `t` whose ids are in `ids`, in ascending id order: the
      result of a query that selects exactly those records. */
  function RowsOf<V>(t: map<int, V>, ids: set<int>): (rows: seq<Row<V>>)
    requires ids <= t.Keys
    ensures |rows| == |ids|
    ensures forall row :: row in rows ==> row.id in ids && t[row.id] == row.record
    ensures forall id :: id in ids ==> Row(id, t[id]) in rows
    ensures forall j, k :: 0 <= j < k < |rows| ==> rows[j].id < rows[k].id
    ensures rows != [] ==> IsLeast(rows[0].id, ids)
  {
    var order := Ascending(ids);
    AscendingSorts(ids);
    var rows := seq(|order|, k requires 0 <= k < |order| => Row(order[k], t[order[k]]));
    assert forall id :: id in ids ==> Row(id, t[id]) in rows by {
      forall id | id in ids ensures Row(id, t[id]) in rows {
        var k :| 0 <= k < |order| && order[k] == id;
        assert rows[k] == Row(id, t[id]);
      }
    }
    rows
  }
}
