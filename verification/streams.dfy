/** Cooperative cancellation, as every component of the pipeline sees it.
    A component loops over `select { case <-done: return; case out <- v: }`;
    the only thing the model keeps of the timing is WHICH of those selects is
    the first one to pick `done`. */
module Streams {

  /** `Never`: the `done` channel is never seen closed while the component runs.
      `After(n)`: the component completes `n` sends, and its next select picks `done`. */
  datatype Cancel = Never | After(sends: nat)

  function Min(a: int, b: int): int
  {
    if a <= b then a else b
  }

  /** What a component whose uncancelled output is `full` actually emits. */
  function Cut<T>(full: seq<T>, done: Cancel): (r: seq<T>)
    ensures r <= full
    ensures done.Never? ==> r == full
    ensures done.After? ==> |r| == Min(done.sends, |full|)
  {
    match done
    case Never => full
    case After(n) => full[..Min(n, |full|)]
  }

  /** Cancellation is exactly "stop after some prefix": every prefix of the
      uncancelled output is what some cancellation point produces. */
  lemma EveryPrefixIsACut<T>(full: seq<T>, p: seq<T>)
    requires p <= full
    ensures Cut(full, After(|p|)) == p
  {
  }

  /** A later cancellation never emits less. */
  lemma LaterCutExtends<T>(full: seq<T>, a: nat, b: nat)
    requires a <= b
    ensures Cut(full, After(a)) <= Cut(full, After(b))
    ensures Cut(full, After(b)) <= Cut(full, Never)
  {
  }
}
