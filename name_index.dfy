/**
 * The recommender's name index (`_build_name_index`): a dictionary from each
 * normalised name to the position of the first row that has it. A Python dict
 * remembers insertion order, so the index is its key list plus the mapping.
 */
module NameIndex {
  import opened Text

  datatype NameIndex = NameIndex(keys: seq<string>, position: map<string, nat>)

  /** The `normalized_name` column of a list of names. */
  function NormalizedNames(names: seq<string>): (ks: seq<string>)
    ensures |ks| == |names|
    ensures forall i :: 0 <= i < |names| ==> ks[i] == Normalize(names[i])
  {
    seq(|names|, i requires 0 <= i < |names| => Normalize(names[i]))
  }

  /**
   * `idx` indexes `ks[..n]`: every key maps to the first row holding it, every
   * row's key is present, and `keys` lists the keys in the order of their first rows.
   */
  ghost predicate IndexesPrefix(idx: NameIndex, ks: seq<string>, n: nat)
    requires n <= |ks|
  {
    && (forall k :: k in idx.position ==> idx.position[k] < n && ks[idx.position[k]] == k)
    && (forall k, j :: k in idx.position && 0 <= j < idx.position[k] ==> ks[j] != k)
    && (forall j :: 0 <= j < n ==> ks[j] in idx.position)
    && (forall k :: k in idx.keys <==> k in idx.position)
    && (forall a, b :: 0 <= a < b < |idx.keys| ==> idx.position[idx.keys[a]] < idx.position[idx.keys[b]])
  }

  /** `idx` is the name index of rows whose names are `names`. */
  ghost predicate IsNameIndex(idx: NameIndex, names: seq<string>) {
    IndexesPrefix(idx, NormalizedNames(names), |names|)
  }

  /** One `setdefault` step keeps the index exact for one more row. */
  lemma SetDefaultStep(idx: NameIndex, ks: seq<string>, n: nat)
    requires n < |ks| && IndexesPrefix(idx, ks, n)
    ensures ks[n] in idx.position ==> IndexesPrefix(idx, ks, n + 1)
    ensures ks[n] !in idx.position ==>
      IndexesPrefix(NameIndex(idx.keys + [ks[n]], idx.position[ks[n] := n]), ks, n + 1)
  {
    if ks[n] !in idx.position {
      var next := NameIndex(idx.keys + [ks[n]], idx.position[ks[n] := n]);
      forall a, b | 0 <= a < b < |next.keys|
        ensures next.position[next.keys[a]] < next.position[next.keys[b]]
      {
        if b == |idx.keys| {
          assert idx.keys[a] in idx.position;
        }
      }
    }
  }

  /** `_build_name_index`: `setdefault` over the names in row order, so the first occurrence wins. */
  method BuildNameIndex(names: seq<string>) returns (idx: NameIndex)
    ensures IsNameIndex(idx, names)
  {
    ghost var ks := NormalizedNames(names);
    idx := NameIndex([], map[]);
    for p := 0 to |names|
      invariant IndexesPrefix(idx, ks, p)
    {
      var normalized := Normalize(names[p]);
      SetDefaultStep(idx, ks, p);
      if normalized !in idx.position {
        idx := NameIndex(idx.keys + [normalized], idx.position[normalized := p]);
      }
    }
  }

  /** Keys are listed once each. */
  lemma KeysDistinct(idx: NameIndex, names: seq<string>)
    requires IsNameIndex(idx, names)
    ensures forall a, b :: 0 <= a < b < |idx.keys| ==> idx.keys[a] != idx.keys[b]
  {
  }

  /** Two indexes of the same key column agree on each key: both name its first row. */
  lemma SamePosition(a: NameIndex, b: NameIndex, ks: seq<string>, k: string)
    requires IndexesPrefix(a, ks, |ks|) && IndexesPrefix(b, ks, |ks|) && k in a.position
    ensures k in b.position && a.position[k] == b.position[k]
  {
    var i := a.position[k];
    assert ks[i] == k;
    assert ks[i] in b.position;
  }

  /**
   * The index is determined by the names: two dictionaries built from the same
   * names map every key to the same row.
   */
  lemma NameIndexUnique(a: NameIndex, b: NameIndex, names: seq<string>)
    requires IsNameIndex(a, names) && IsNameIndex(b, names)
    ensures a.position == b.position
  {
    var ks := NormalizedNames(names);
    forall k | k in a.position
      ensures k in b.position && a.position[k] == b.position[k]
    {
      SamePosition(a, b, ks, k);
    }
    forall k | k in b.position
      ensures k in a.position
    {
      SamePosition(b, a, ks, k);
    }
  }

  /** Every row's key is in the index at that row or earlier; later duplicates never replace it. */
  lemma FirstOccurrenceWins(idx: NameIndex, names: seq<string>, i: nat)
    requires IsNameIndex(idx, names) && i < |names|
    ensures Normalize(names[i]) in idx.position
    ensures idx.position[Normalize(names[i])] <= i
    ensures idx.position[Normalize(names[i])] == i <==>
      forall j :: 0 <= j < i ==> Normalize(names[j]) != Normalize(names[i])
  {
    var ks := NormalizedNames(names);
    assert ks[i] == Normalize(names[i]);
  }
}
