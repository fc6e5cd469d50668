/**
 The telemetry record: the query-string parser's multimap (each key with
 the list of values sent under it, keys in order of first appearance)
 flattened to one string per key, in the same order.
 */
module Records {
  import Text

  /** The separator `_flatten` puts between repeated values. */
  const Comma: char := ','

  /** No key appears twice: the entries are those of a dictionary. */
  predicate UniqueKeys<V>(entries: seq<(string, V)>)
  {
    forall i, j :: 0 <= i < j < |entries| ==> entries[i].0 != entries[j].0
  }

  /** What the query-string parser yields: each key with its values in arrival order. */
  type Multimap = m: seq<(string, seq<string>)> | UniqueKeys(m) witness []

  /** A flat telemetry record: one string per key, in insertion order. */
  type Record = r: seq<(string, string)> | UniqueKeys(r) witness []

  /** One key's values as a single string: the value itself when there is one, else comma-joined. */
  function FlattenValues(values: seq<string>): string
  {
    if |values| == 1 then values[0] else Text.Join(Comma, values)
  }

  /**
   The relay's `_flatten`: the same keys in the same order, nothing added or
   dropped, each mapped to its flattened values.
   */
  function Flatten(m: Multimap): (r: Record)
    ensures |r| == |m|
    ensures forall i :: 0 <= i < |m| ==> r[i].0 == m[i].0
    ensures forall i :: 0 <= i < |m| && |m[i].1| == 1 ==> r[i].1 == m[i].1[0]
  {
    seq(|m|, i requires 0 <= i < |m| => (m[i].0, FlattenValues(m[i].1)))
  }

  /** The single-value case agrees with joining: every key maps to its values joined by commas. */
  lemma FlattenIsJoin(m: Multimap)
    ensures forall i :: 0 <= i < |m| ==> Flatten(m)[i].1 == Text.Join(Comma, m[i].1)
  {
  }

  /**
   Flattening keeps every value and its order: splitting a key's string at
   the commas gives its values back, provided none of them holds a comma.
   */
  lemma FlattenSplits(m: Multimap)
    requires forall i :: 0 <= i < |m| ==> |m[i].1| > 0 && Text.SeparatorFree(m[i].1, Comma)
    ensures forall i :: 0 <= i < |m| ==> Text.Split(Flatten(m)[i].1, Comma) == m[i].1
  {
    forall i | 0 <= i < |m|
      ensures Text.Split(Flatten(m)[i].1, Comma) == m[i].1
    {
      Text.SplitJoin(Comma, m[i].1);
    }
  }

  /** Two values `"1"` and `"2"` under one key become `"1,2"`. */
  lemma FlattenRepeatedKey()
    ensures Flatten([("a", ["1", "2"])]) == [("a", "1,2")]
  {
    var values := ["1", "2"];
    assert values[1..] == ["2"];
    assert FlattenValues(values) == "1,2";
  }

  /**
   A value that itself holds a comma is indistinguishable, once flattened,
   from two values: flattening is not injective.
   */
  lemma FlattenMergesCommaValues()
    ensures Flatten([("a", ["1,2"])]) == Flatten([("a", ["1", "2"])])
  {
    FlattenRepeatedKey();
  }
}
