/**
 Vocabulary shared by the other modules.
 */
module Common {

  datatype Option<+T> = None | Some(value: T)

  datatype Result<+T> = Ok(value: T) | Err(error: string)

  /** The identity the API server gives an object, never reused. */
  type UID = string

  /** `out` is what `xs` holds at the positions `at`, which ascend. */
  ghost predicate Picks<T>(xs: seq<T>, at: seq<nat>, out: seq<T>) {
    && |at| == |out|
    && (forall i :: 0 <= i < |at| ==> at[i] < |xs| && out[i] == xs[at[i]])
    && (forall i, j :: 0 <= i < j < |at| ==> at[i] < at[j])
  }

  lemma PicksMore<T>(xs: seq<T>, at: seq<nat>, out: seq<T>, x: T)
    requires Picks(xs, at, out)
    ensures Picks(xs + [x], at, out) && Picks(xs + [x], at + [|xs|], out + [x])
  {
  }
}
