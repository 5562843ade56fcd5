/**
  What several parts of the model share.
 */
module Common {

  datatype Option<+T> = None | Some(value: T)

  /** No element twice. */
  predicate NoDup<T(==)>(xs: seq<T>) { forall i, j :: 0 <= i < j < |xs| ==> xs[i] != xs[j] }

  /** The schedule `es` of a step system can be taken in `s` and leads to `t`. */
  ghost predicate Leads<S, E>(step: (S, E) --> S, s: S, es: seq<E>, t: S)
    decreases |es|
  {
    if es == [] then t == s else step.requires(s, es[0]) && Leads(step, step(s, es[0]), es[1..], t)
  }

  lemma {:induction false} LeadsOn<S, E>(step: (S, E) --> S, s: S, es: seq<E>, t: S, fs: seq<E>, u: S)
    requires Leads(step, s, es, t) && Leads(step, t, fs, u)
    ensures Leads(step, s, es + fs, u)
    decreases |es|
  {
    if es == [] {
      assert es + fs == fs;
    } else {
      LeadsOn(step, step(s, es[0]), es[1..], t, fs, u);
      assert (es + fs)[1..] == es[1..] + fs;
    }
  }
}
