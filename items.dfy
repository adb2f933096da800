/**
 * The two item sets a learner can choose, and the ordered list of item labels
 * each one produces: the letters "A".."Z", or the numbers "0".."10".
 */
module Items {
  import opened Options
  import opened Numerals

  datatype ItemSet = Letters | Numbers

  /** The label of the `k`-th letter, `String.fromCharCode(65 + k)`. */
  function LetterLabel(k: nat): string
    requires k < 26
  {
    [(65 + k) as char]
  }

  /** `orderedItems` as `setupGame` builds it for the chosen item set. */
  function OrderedItems(items: ItemSet): (r: seq<string>)
    ensures |r| == if items == Letters then 26 else 11
  {
    match items
    case Letters => seq(26, k requires 0 <= k < 26 => LetterLabel(k))
    case Numbers => seq(11, k requires 0 <= k < 11 => NatToString(k))
  }

  /** No label occurs twice in an ordered item list. */
  predicate Distinct(labels: seq<string>) {
    forall i, j :: 0 <= i < j < |labels| ==> labels[i] != labels[j]
  }

  /**
   * The letters are single characters 'A'..'Z' in strictly ascending order,
   * and the numbers are the texts of 0..10, read back as their own position.
   */
  lemma OrderedItemsAscending(items: ItemSet, k: nat)
    requires k < |OrderedItems(items)|
    ensures items == Letters ==>
      |OrderedItems(items)[k]| == 1 && 'A' <= OrderedItems(items)[k][0] <= 'Z'
      && (k + 1 < 26 ==> OrderedItems(items)[k][0] < OrderedItems(items)[k + 1][0])
    ensures items == Numbers ==> ReadDigits(OrderedItems(items)[k]) == Some(k)
  {
    if items == Numbers {
      NatToStringValue(k);
    }
  }

  /** Every item appears exactly once in the ordered list. */
  lemma OrderedItemsDistinct(items: ItemSet)
    ensures Distinct(OrderedItems(items))
  {
    var r := OrderedItems(items);
    forall i, j | 0 <= i < j < |r|
      ensures r[i] != r[j]
    {
      if items == Numbers {
        if r[i] == r[j] {
          NatToStringInjective(i, j);
        }
      } else {
        assert r[i][0] != r[j][0];
      }
    }
  }

  /** A label that occurs once and only once in a list. */
  lemma {:induction false} DistinctCount(labels: seq<string>, k: nat)
    requires Distinct(labels) && k < |labels|
    ensures multiset(labels)[labels[k]] == 1
  {
    var last := |labels| - 1;
    assert labels == labels[..last] + [labels[last]];
    if k == last {
      assert labels[k] !in labels[..last];
    } else {
      assert Distinct(labels[..last]);
      DistinctCount(labels[..last], k);
      assert labels[..last][k] == labels[k];
    }
  }

  /**
   * Whatever permutation `shuffle` returns, each ordered item is carried by
   * exactly one element of it, and it has no other elements.
   */
  lemma ShuffleCoversEachOnce(items: ItemSet, shuffled: seq<string>)
    requires multiset(shuffled) == multiset(OrderedItems(items))
    ensures |shuffled| == |OrderedItems(items)|
    ensures forall k :: 0 <= k < |OrderedItems(items)| ==> multiset(shuffled)[OrderedItems(items)[k]] == 1
    ensures forall v :: v in shuffled ==> v in OrderedItems(items)
  {
    var r := OrderedItems(items);
    assert |shuffled| == |multiset(shuffled)| == |multiset(r)| == |r|;
    OrderedItemsDistinct(items);
    forall k | 0 <= k < |r|
      ensures multiset(shuffled)[r[k]] == 1
    {
      DistinctCount(r, k);
    }
    forall v | v in shuffled
      ensures v in r
    {
      assert v in multiset(shuffled);
    }
  }
}
