/** The scan shared by near-duplicate search (context/optimizer.ts) and semantic cache lookup
    (cache/semantic.ts): keep the first candidate of strictly greatest similarity. */
module BestMatch {
  import opened Options

  /** similarities[i] is None for a candidate the scan skips. */
  function Scan(similarities: seq<Option<real>>, threshold: real): (best: Option<nat>)
    ensures best.Some? ==> best.value < |similarities| && similarities[best.value].Some?
  {
    if similarities == [] then None
    else
      var n := |similarities| - 1;
      Better(similarities, threshold, Scan(similarities[..n], threshold), n)
  }

  /** One turn of the loop: candidate `i` against the best so far. */
  function Better(similarities: seq<Option<real>>, threshold: real, best: Option<nat>, i: nat): Option<nat>
    requires i < |similarities|
    requires best.Some? ==> best.value < |similarities| && similarities[best.value].Some?
  {
    match similarities[i]
    case None => best
    case Some(x) =>
      if x >= threshold && (best.None? || x > similarities[best.value].value) then Some(i) else best
  }

  ghost predicate Eligible(similarities: seq<Option<real>>, threshold: real, i: nat) {
    i < |similarities| && similarities[i].Some? && similarities[i].value >= threshold
  }

  /** The earliest of the eligible candidates with the greatest similarity. */
  ghost predicate IsBest(similarities: seq<Option<real>>, threshold: real, i: nat) {
    Eligible(similarities, threshold, i)
    && forall j: nat :: Eligible(similarities, threshold, j) ==>
         similarities[j].value <= similarities[i].value
         && (j < i ==> similarities[j].value < similarities[i].value)
  }

  lemma {:induction false} ScanFindsBest(similarities: seq<Option<real>>, threshold: real)
    ensures var best := Scan(similarities, threshold);
            (best.Some? ==> IsBest(similarities, threshold, best.value))
            && (best.None? <==> forall i: nat :: !Eligible(similarities, threshold, i))
  {
    if similarities != [] {
      var n := |similarities| - 1;
      var front := similarities[..n];
      ScanFindsBest(front, threshold);
      assert forall i: nat :: Eligible(similarities, threshold, i) && i != n ==> Eligible(front, threshold, i);
      assert forall i: nat :: Eligible(front, threshold, i) ==> Eligible(similarities, threshold, i) && i != n;
      var before := Scan(front, threshold);
      if before.Some? { assert IsBest(front, threshold, before.value); }
    }
  }
}
