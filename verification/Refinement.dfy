/** Runs of edits, each saved before it is adopted, that follow the same run on something simpler. */
module Refinement {
  import opened Machine

  /** The edit does to the file what the update does to the model of it. */
  ghost predicate Follows<F(!new), M(!new)>(edit: F -> F, update: M -> M, represents: (F, M) -> bool) {
    forall file, model :: represents(file, model) ==> represents(edit(file), update(model))
  }

  function RunEdits<F>(w: World<F>, fails: Schedule, file: F, edits: seq<F -> F>): (World<F>, F)
    decreases |edits|
  {
    if edits == [] then (w, file)
    else
      var (w', saved) := Save(w, fails, edits[0](file));
      RunEdits(w', fails, if saved then edits[0](file) else file, edits[1..])
  }

  function RunUpdates<M>(model: M, fails: Schedule, tick: nat, updates: seq<M -> M>): M
    decreases |updates|
  {
    if updates == [] then model
    else RunUpdates(if fails(SaveEffect, tick) then model else updates[0](model), fails, tick + 1, updates[1..])
  }

  /**
   Edits that follow updates one by one follow them over a run, whichever saves fail;
   memory and disk stay together.
   */
  lemma {:induction false} RunFollows<F(!new), M(!new)>(w: World<F>, fails: Schedule, file: F, model: M,
                                                        edits: seq<F -> F>, updates: seq<M -> M>,
                                                        represents: (F, M) -> bool)
    requires represents(file, model) && |edits| == |updates|
    requires forall i | 0 <= i < |edits| :: Follows(edits[i], updates[i], represents)
    ensures var (w', file') := RunEdits(w, fails, file, edits);
            && represents(file', RunUpdates(model, fails, w.tick, updates))
            && (w.disk == Present(file) ==> w'.disk == Present(file'))
    decreases |edits|
  {
    if edits != [] {
      var (w1, saved) := Save(w, fails, edits[0](file));
      var file1 := if saved then edits[0](file) else file;
      var model1 := if saved then updates[0](model) else model;
      assert Follows(edits[0], updates[0], represents);
      forall i | 0 <= i < |edits| - 1
        ensures Follows(edits[1..][i], updates[1..][i], represents)
      {
        assert edits[1..][i] == edits[i + 1] && updates[1..][i] == updates[i + 1];
      }
      RunFollows(w1, fails, file1, model1, edits[1..], updates[1..], represents);
    }
  }
}
