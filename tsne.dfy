/**
 * The `TSNE` configuration and the floating-point library calls the engine
 * makes, which the model takes as parameters rather than defining.
 */
module Tsne {

  /** The engine's configuration; no operation changes it. */
  datatype TSNE = TSNE(perplexity: real, earlyExaggeration: bool)

  /** `TSNE::new`: the configuration stores both arguments as given. */
  function New(perplexity: real, earlyExaggeration: bool): (model: TSNE)
    ensures model.perplexity == perplexity && model.earlyExaggeration == earlyExaggeration
  {
    TSNE(perplexity, earlyExaggeration)
  }

  /**
   * `f64::exp`, `f64::log2` and `f64::exp2`. Only facts about the exponentials
   * are used: both are positive everywhere, and one lemma uses that `exp2`
   * is non-decreasing.
   */
  datatype Libm = Libm(exp: real -> real, log2: real -> real, exp2: real -> real)
  {
    ghost predicate Valid()
    {
      && (forall t :: exp(t) > 0.0)
      && (forall t :: exp2(t) > 0.0)
    }

    /** `exp2` never decreases. */
    ghost predicate Exp2Monotone()
    {
      forall a, b :: a <= b ==> exp2(a) <= exp2(b)
    }
  }

  datatype Option<T> = None | Some(value: T)
}
