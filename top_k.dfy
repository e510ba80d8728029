/**
 * `getTopKClasses`: picks the `topK` highest classifier scores, most
 * confident first, and labels each with its class name.
 */
module TopK {

  import opened Optional
  import opened Ranking

  /** The number of predictions the page asks for (`TOPK_PREDICTIONS`). */
  const TopKPredictions: nat := 2

  /**
   * One entry of `topClassesAndProbs`: the class name found for the index
   * (absent when the class table has no such key) and the score as a
   * percentage, before it is rounded and rendered as text.
   */
  datatype Prediction = Prediction(className: Option<string>, probability: real)

  /** `MODEL_CLASSES[index]`: the class name, or `undefined` for a missing key. */
  function ClassName(classes: map<nat, string>, index: nat): (name: Option<string>)
    ensures name.Some? <==> index in classes
    ensures name.Some? ==> name.value == classes[index]
  {
    if index in classes then Some(classes[index]) else None
  }

  /**
   * The ranking half of `getTopKClasses`: build the `{value, index}` records,
   * sort them, and copy the first `topK` into the parallel arrays `topkValues`
   * and `topkIndices`. The source reads past the end of the sorted records
   * when `topK` exceeds the number of scores, so callers keep it within.
   */
  method SelectTopK(values: seq<real>, topK: nat) returns (topkValues: seq<real>, topkIndices: seq<int>)
    requires topK <= |values|
    ensures |topkValues| == topK && |topkIndices| == topK
    // the result is the head of the stable descending sort of the scores
    ensures forall i :: 0 <= i < topK ==>
              topkValues[i] == Ranked(values)[i].value && topkIndices[i] == Ranked(values)[i].index
    // each entry is a score of `values` at a valid index
    ensures forall i :: 0 <= i < topK ==>
              0 <= topkIndices[i] < |values| && topkValues[i] == values[topkIndices[i]]
    // no index is returned twice
    ensures forall i, j :: 0 <= i < j < topK ==> topkIndices[i] != topkIndices[j]
    // most confident first
    ensures forall i, j :: 0 <= i < j < topK ==> topkValues[i] >= topkValues[j]
    // equal scores keep their original order
    ensures forall i, j :: 0 <= i < j < topK && topkValues[i] == topkValues[j] ==>
              topkIndices[i] < topkIndices[j]
    // no score left out beats one taken
    ensures forall i, m :: 0 <= i < topK && 0 <= m < |values| && m !in topkIndices ==>
              values[m] <= topkValues[i]
    // a score left out that ties one taken has a later index
    ensures forall i, m :: 0 <= i < topK && 0 <= m < |values| && m !in topkIndices ==>
              (values[m] == topkValues[i] ==> topkIndices[i] < m)
  {
    var valuesAndIndices: seq<Scored> := [];
    for i := 0 to |values|
      invariant |valuesAndIndices| == i
      invariant forall k :: 0 <= k < i ==> valuesAndIndices[k] == Scored(values[k], k)
    {
      valuesAndIndices := valuesAndIndices + [Scored(values[i], i)];
    }
    assert valuesAndIndices == Pairs(values);
    valuesAndIndices := StableSortDesc(valuesAndIndices);

    var vals := new real[topK];
    var idxs := new int[topK];
    for i := 0 to topK
      invariant forall k :: 0 <= k < i ==>
                  vals[k] == valuesAndIndices[k].value && idxs[k] == valuesAndIndices[k].index
    {
      vals[i] := valuesAndIndices[i].value;
      idxs[i] := valuesAndIndices[i].index;
    }
    topkValues, topkIndices := vals[..], idxs[..];
    RankedPrefixIsTopK(values, topK);
    CopiedTopK(values, topK, valuesAndIndices[..topK], topkValues, topkIndices);
  }

  /**
   * Parallel value and index sequences copied from a top-K selection have every
   * property the selection promises.
   */
  lemma CopiedTopK(values: seq<real>, k: nat, top: seq<Scored>, vs: seq<real>, ids: seq<int>)
    requires IsTopK(values, k, top) && |vs| == k && |ids| == k
    requires forall i :: 0 <= i < k ==> vs[i] == top[i].value && ids[i] == top[i].index
    ensures forall i :: 0 <= i < k ==> 0 <= ids[i] < |values| && vs[i] == values[ids[i]]
    ensures forall i, j :: 0 <= i < j < k ==> ids[i] != ids[j]
    ensures forall i, j :: 0 <= i < j < k ==> vs[i] >= vs[j]
    ensures forall i, j :: 0 <= i < j < k && vs[i] == vs[j] ==> ids[i] < ids[j]
    ensures forall i, m :: 0 <= i < k && 0 <= m < |values| && m !in ids ==>
              values[m] <= vs[i] && (values[m] == vs[i] ==> ids[i] < m)
  {
    forall i, j | 0 <= i < j < k ensures ids[i] != ids[j] && vs[i] >= vs[j] {
      assert Precedes(top[i], top[j]);
    }
    forall i, m | 0 <= i < k && 0 <= m < |values| && m !in ids
      ensures values[m] <= vs[i] && (values[m] == vs[i] ==> ids[i] < m)
    {
      if Scored(values[m], m) in top {
        var p :| 0 <= p < |top| && top[p] == Scored(values[m], m);
        assert ids[p] == m;
      }
      assert Precedes(top[i], Scored(values[m], m));
    }
  }

  /**
   * `getTopKClasses`: the top `topK` scores, most confident first, each with
   * its class name and its score scaled to a percentage.
   */
  method GetTopKClasses(values: seq<real>, topK: nat, classes: map<nat, string>)
    returns (preds: seq<Prediction>)
    requires topK <= |values|
    ensures |preds| == topK
    ensures forall i :: 0 <= i < topK ==>
              preds[i] == Prediction(ClassName(classes, Ranked(values)[i].index),
                                     Ranked(values)[i].value * 100.0)
    ensures forall i, j :: 0 <= i < j < topK ==> preds[i].probability >= preds[j].probability
  {
    var topkValues, topkIndices := SelectTopK(values, topK);
    preds := [];
    for i := 0 to |topkIndices|
      invariant |preds| == i
      invariant forall k :: 0 <= k < i ==>
                  preds[k] == Prediction(ClassName(classes, Ranked(values)[k].index),
                                         Ranked(values)[k].value * 100.0)
    {
      preds := preds + [Prediction(ClassName(classes, topkIndices[i]), topkValues[i] * 100.0)];
    }
  }

  /**
   * The example ranking at the page's own K: scores [0.1, 0.7, 0.05, 0.15]
   * with `TopKPredictions` give classes 1 and 3.
   */
  lemma RankingExample()
    ensures Ranked([0.1, 0.7, 0.05, 0.15])[..TopKPredictions] == [Scored(0.7, 1), Scored(0.15, 3)]
  {
    ExampleTopK([0.1, 0.7, 0.05, 0.15]);
  }

  /** The example, stated of a variable so that the solver reasons by IsTopK instead of evaluating the sort. */
  lemma ExampleTopK(values: seq<real>)
    requires values == [0.1, 0.7, 0.05, 0.15]
    ensures Ranked(values)[..TopKPredictions] == [Scored(0.7, 1), Scored(0.15, 3)]
  {
    var top := [Scored(0.7, 1), Scored(0.15, 3)];
    RankedPrefixIsTopK(values, TopKPredictions);
    assert Precedes(top[0], top[1]);
    forall i, j | 0 <= i < |top| && 0 <= j < |values| && Scored(values[j], j) !in top
      ensures Precedes(top[i], Scored(values[j], j))
    {
      assert j == 0 || j == 2;
    }
    assert IsTopK(values, TopKPredictions, top);
    TopKUnique(values, TopKPredictions, Ranked(values)[..TopKPredictions], top);
  }

}
