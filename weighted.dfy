/** Choosing an item by weight from a uniform draw in `[0, total weight)`:
    the loop of `RngExt::weighted_choice` (src/icons/mod.rs, src/icons.rs) and
    of `Genome::choose_weighted` (identicons/src/genome.rs). Item `i` owns the
    draws in `[CumBefore(i), CumBefore(i) + weight_i)`. */
module Weighted {

  /** `choices.iter().map(|c| c.1).sum()` */
  function TotalWeight<T>(choices: seq<(T, nat)>): nat {
    if choices == [] then 0 else choices[0].1 + TotalWeight(choices[1..])
  }

  /** Every weight is at most the total, and the total is zero exactly when
      every weight is. */
  lemma {:induction false} TotalWeightBounds<T>(choices: seq<(T, nat)>)
    ensures forall i :: 0 <= i < |choices| ==> choices[i].1 <= TotalWeight(choices)
    ensures TotalWeight(choices) == 0 <==> forall i :: 0 <= i < |choices| ==> choices[i].1 == 0
  {
    if choices != [] {
      TotalWeightBounds(choices[1..]);
      assert forall i :: 1 <= i < |choices| ==> choices[i] == choices[1..][i - 1];
    }
  }

  /** The total weight of the items before index `i`. */
  function CumBefore<T>(choices: seq<(T, nat)>, i: nat): nat
    requires i <= |choices|
  {
    TotalWeight(choices[..i])
  }

  lemma {:induction false} CumStep<T>(choices: seq<(T, nat)>, i: nat)
    requires i < |choices|
    ensures CumBefore(choices, i + 1) == CumBefore(choices, i) + choices[i].1
  {
    if i > 0 {
      assert choices[..i + 1][1..] == choices[1..][..i];
      assert choices[..i][1..] == choices[1..][..i - 1];
      CumStep(choices[1..], i - 1);
    } else {
      assert choices[..1][1..] == [];
    }
  }

  lemma {:induction false} CumMonotone<T>(choices: seq<(T, nat)>, i: nat, j: nat)
    requires i <= j <= |choices|
    ensures CumBefore(choices, i) <= CumBefore(choices, j)
    decreases j - i
  {
    if i < j {
      CumStep(choices, i);
      CumMonotone(choices, i + 1, j);
    }
  }

  /** The index of the item that owns `draw`: the first one whose cumulative
      weight exceeds it. It never has weight zero. */
  function Owner<T>(choices: seq<(T, nat)>, draw: nat): (k: nat)
    requires draw < TotalWeight(choices)
    ensures k < |choices|
    ensures CumBefore(choices, k) <= draw < CumBefore(choices, k) + choices[k].1
    ensures choices[k].1 > 0
  {
    if draw < choices[0].1 then
      assert choices[..0] == [];
      0
    else
      var k := Owner(choices[1..], draw - choices[0].1);
      CumStep(choices, k);
      assert choices[..k + 1][1..] == choices[1..][..k];
      1 + k
  }

  /** Owner is the only index whose interval contains the draw: the intervals
      partition `[0, TotalWeight)` in list order. */
  lemma OwnerUnique<T>(choices: seq<(T, nat)>, draw: nat, j: nat)
    requires draw < TotalWeight(choices)
    requires j < |choices|
    requires CumBefore(choices, j) <= draw < CumBefore(choices, j) + choices[j].1
    ensures j == Owner(choices, draw)
  {
    var k := Owner(choices, draw);
    if j < k {
      CumStep(choices, j);
      CumMonotone(choices, j + 1, k);
    } else if k < j {
      CumStep(choices, k);
      CumMonotone(choices, k + 1, j);
    }
  }

  /** The weighted-choice loop: walk the list, returning the first item whose
      weight exceeds what is left of the draw, subtracting the weight otherwise.
      With a draw below the total weight the `unreachable!` after the loop is
      never reached. */
  method WeightedChoice<T>(choices: seq<(T, nat)>, draw: nat) returns (item: T)
    requires draw < TotalWeight(choices)
    ensures item == choices[Owner(choices, draw)].0
  {
    var choice: nat := draw;
    var i := 0;
    ghost var k := Owner(choices, draw);
    while i < |choices|
      invariant i <= k
      invariant choice + CumBefore(choices, i) == draw
    {
      var it, weight := choices[i].0, choices[i].1;
      CumStep(choices, i);
      if choice < weight {
        OwnerUnique(choices, draw, i);
        return it;
      }
      choice := choice - weight;
      i := i + 1;
    }
    assert false;
  }
}
