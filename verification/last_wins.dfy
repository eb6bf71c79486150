/** A Python loop that assigns `d[key] = value` for every item that yields a
    pair, skipping the others: the dictionary it leaves behind. Both the
    frontmatter parsers and the registry builder are such loops. */
module LastWins {
  import opened Wrappers

  /** The dictionary after running the assignments of `items` in order. */
  function Collect<K(==), V>(items: seq<Option<(K, V)>>): map<K, V>
    decreases |items|
  {
    if |items| == 0 then map[]
    else
      var m := Collect(items[..|items| - 1]);
      match items[|items| - 1]
      case None => m
      case Some((k, v)) => m[k := v]
  }

  /** Item `item` assigns to key `k`. */
  predicate Assigns<K(==), V>(item: Option<(K, V)>, k: K) {
    item.Some? && item.value.0 == k
  }

  /** A key is present exactly when some item assigns it, and then it holds the
      value of the last item that does. */
  lemma {:induction false} CollectLastWins<K, V>(items: seq<Option<(K, V)>>, k: K)
    ensures k in Collect(items) <==> exists i :: 0 <= i < |items| && Assigns(items[i], k)
    ensures k in Collect(items) ==>
              exists i :: && 0 <= i < |items| && Assigns(items[i], k)
                          && Collect(items)[k] == items[i].value.1
                          && forall j :: i < j < |items| ==> !Assigns(items[j], k)
    decreases |items|
  {
    if |items| > 0 {
      var front := items[..|items| - 1];
      CollectLastWins(front, k);
      var n := |items| - 1;
      if Assigns(items[n], k) {
        assert Collect(items)[k] == items[n].value.1;
      } else {
        assert Collect(items) == Collect(front)
            || (items[n].Some? && Collect(items) == Collect(front)[items[n].value.0 := items[n].value.1]);
        assert k in Collect(items) <==> k in Collect(front);
        if k in Collect(front) {
          var i :| && 0 <= i < |front| && Assigns(front[i], k)
                   && Collect(front)[k] == front[i].value.1
                   && forall j :: i < j < |front| ==> !Assigns(front[j], k);
          assert items[i] == front[i];
          assert forall j :: i < j < |items| ==> !Assigns(items[j], k) by {
            forall j | i < j < |items| ensures !Assigns(items[j], k) {
              if j < n {
                assert items[j] == front[j];
              }
            }
          }
        }
        assert forall i :: 0 <= i < n ==> items[i] == front[i];
      }
    }
  }
}
