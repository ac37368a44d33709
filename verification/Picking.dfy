/** Which elements of a list were picked: the increasing list of their places. */
module Picking {
  predicate Increasing(at: seq<nat>) {
    forall j, k | 0 <= j < k < |at| :: at[j] < at[k]
  }

  /** The increasing list of the places marked. */
  ghost predicate Picks(marks: seq<bool>, at: seq<nat>) {
    && Increasing(at)
    && (forall k | 0 <= k < |at| :: at[k] < |marks| && marks[at[k]])
    && (forall i | 0 <= i < |marks| && marks[i] :: i in at)
  }

  lemma {:induction false} PicksGrow(marks: seq<bool>, mark: bool, at: seq<nat>)
    requires Picks(marks, at)
    ensures Picks(marks + [mark], if mark then at + [|marks|] else at)
  {
    var at' := if mark then at + [|marks|] else at;
    forall i | 0 <= i < |marks| + 1 && (marks + [mark])[i] ensures i in at' {
      if i < |marks| { assert marks[i]; }
    }
  }
}
