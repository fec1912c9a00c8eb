/**
  The `early_stopping` class, identical in src/transformer_output.py
  (lines 15-36) and notebooks/turbulence_16_yd/transformer_output.py
  (lines 18-39). It is called once per epoch with the validation loss and
  records the best loss so far, the model that reached it, and how many
  calls in a row failed to improve on it by more than delta; after
  `patience` such calls it raises the early_stop flag. Losses are reals;
  the model is any value; the progress messages it prints are left out.
 */
module EarlyStopping {
  import opened Wrappers

  /** The four fields __call__ updates. */
  datatype StopState<M> = StopState(bestLoss: Option<real>, counter: int, earlyStop: bool, bestModel: Option<M>)

  /** The state __init__ sets: no best loss, no model, counter 0, not stopped. */
  function Initial<M>(): StopState<M>
  {
    StopState(None, 0, false, None)
  }

  /** One call of __call__(model, val_loss). */
  function Step<M>(s: StopState<M>, patience: int, delta: real, model: M, valLoss: real): StopState<M>
  {
    match s.bestLoss
    case None => s.(bestLoss := Some(valLoss))
    case Some(best) =>
      if valLoss < best - delta then s.(bestLoss := Some(valLoss), counter := 0, bestModel := Some(model))
      else s.(counter := s.counter + 1, earlyStop := s.earlyStop || s.counter + 1 == patience)
  }

  /** The effect of a sequence of calls, in order. */
  function Run<M>(s: StopState<M>, patience: int, delta: real, calls: seq<(M, real)>): StopState<M>
    decreases |calls|
  {
    if |calls| == 0 then s
    else Run(Step(s, patience, delta, calls[0].0, calls[0].1), patience, delta, calls[1..])
  }

  class EarlyStopper<M> {
    const patience: int
    const delta: real
    var earlyStop: bool
    var bestLoss: Option<real>
    var counter: int
    var bestModel: Option<M>

    function State(): StopState<M>
      reads this
    {
      StopState(bestLoss, counter, earlyStop, bestModel)
    }

    /** __init__(patience, delta). */
    constructor(patience: int, delta: real)
      ensures this.patience == patience && this.delta == delta
      ensures State() == Initial()
    {
      this.patience := patience;
      this.delta := delta;
      earlyStop := false;
      bestLoss := None;
      counter := 0;
      bestModel := None;
    }

    /** __call__(model, val_loss). */
    method Call(model: M, valLoss: real)
      modifies this
      ensures State() == Step(old(State()), patience, delta, model, valLoss)
    {
      if bestLoss.None? {
        bestLoss := Some(valLoss);
      } else if valLoss < bestLoss.value - delta {
        bestLoss := Some(valLoss);
        counter := 0;
        bestModel := Some(model);
      } else {
        counter := counter + 1;
        if counter == patience {
          earlyStop := true;
        }
      }
    }
  }

  // ---------------------------------------------------------------------
  // Transition rules
  // ---------------------------------------------------------------------

  /** The first call only records the loss: counter, early_stop and best_model are untouched. */
  lemma FirstCall<M>(s: StopState<M>, patience: int, delta: real, model: M, valLoss: real)
    requires s.bestLoss.None?
    ensures var s' := Step(s, patience, delta, model, valLoss);
            s'.bestLoss == Some(valLoss) && s'.counter == s.counter && s'.earlyStop == s.earlyStop && s'.bestModel == s.bestModel
  {
  }

  /** A loss below best_loss - delta becomes the best loss, resets the counter and keeps the model. */
  lemma Improvement<M>(s: StopState<M>, patience: int, delta: real, model: M, valLoss: real)
    requires s.bestLoss.Some? && valLoss < s.bestLoss.value - delta
    ensures var s' := Step(s, patience, delta, model, valLoss);
            s'.bestLoss == Some(valLoss) && s'.counter == 0 && s'.bestModel == Some(model) && s'.earlyStop == s.earlyStop
  {
  }

  /**
    Any other loss leaves best_loss and best_model alone and adds exactly 1
    to the counter, which may pass patience on later calls.
   */
  lemma NoImprovement<M>(s: StopState<M>, patience: int, delta: real, model: M, valLoss: real)
    requires s.bestLoss.Some? && valLoss >= s.bestLoss.value - delta
    ensures var s' := Step(s, patience, delta, model, valLoss);
            s'.bestLoss == s.bestLoss && s'.bestModel == s.bestModel && s'.counter == s.counter + 1
  {
  }

  /** early_stop is never reset, and it turns on exactly at a non-improving call that brings the counter to patience. */
  lemma EarlyStopRule<M>(s: StopState<M>, patience: int, delta: real, model: M, valLoss: real)
    ensures var s' := Step(s, patience, delta, model, valLoss);
            && (s.earlyStop ==> s'.earlyStop)
            && (!s.earlyStop && s'.earlyStop <==>
                  !s.earlyStop && s.bestLoss.Some? && valLoss >= s.bestLoss.value - delta && s.counter + 1 == patience)
  {
  }

  /** With delta >= 0 a recorded best loss never increases. */
  lemma BestNonIncreasing<M>(s: StopState<M>, patience: int, delta: real, model: M, valLoss: real)
    requires delta >= 0.0 && s.bestLoss.Some?
    ensures var s' := Step(s, patience, delta, model, valLoss);
            s'.bestLoss.Some? && s'.bestLoss.value <= s.bestLoss.value
  {
  }

  // ---------------------------------------------------------------------
  // Over many calls
  // ---------------------------------------------------------------------

  /** Once set, early_stop stays set over any further calls. */
  lemma {:induction false} RunSticky<M>(s: StopState<M>, patience: int, delta: real, calls: seq<(M, real)>)
    requires s.earlyStop
    ensures Run(s, patience, delta, calls).earlyStop
    decreases |calls|
  {
    if |calls| > 0 {
      RunSticky(Step(s, patience, delta, calls[0].0, calls[0].1), patience, delta, calls[1..]);
    }
  }

  /** With delta >= 0 the best loss after any calls is at most the best loss before them. */
  lemma {:induction false} RunBestNonIncreasing<M>(s: StopState<M>, patience: int, delta: real, calls: seq<(M, real)>)
    requires delta >= 0.0 && s.bestLoss.Some?
    ensures Run(s, patience, delta, calls).bestLoss.Some?
    ensures Run(s, patience, delta, calls).bestLoss.value <= s.bestLoss.value
    decreases |calls|
  {
    if |calls| > 0 {
      var s' := Step(s, patience, delta, calls[0].0, calls[0].1);
      RunBestNonIncreasing(s', patience, delta, calls[1..]);
    }
  }

  /** No call of the sequence improves on the best loss b by more than delta. */
  ghost predicate NoneImprove<M>(calls: seq<(M, real)>, b: real, delta: real)
  {
    forall i :: 0 <= i < |calls| ==> calls[i].1 >= b - delta
  }

  /**
    From a recorded best loss and a counter below patience, the calls that
    bring the counter to patience without improving set early_stop, and
    leave the best loss and model as they were.
   */
  lemma {:induction false} StopsAfterPatience<M>(s: StopState<M>, patience: int, delta: real, calls: seq<(M, real)>)
    requires s.bestLoss.Some? && s.counter < patience && |calls| == patience - s.counter
    requires NoneImprove(calls, s.bestLoss.value, delta)
    ensures var s' := Run(s, patience, delta, calls);
            s'.earlyStop && s'.counter == patience && s'.bestLoss == s.bestLoss && s'.bestModel == s.bestModel
    decreases |calls|
  {
    var s1 := Step(s, patience, delta, calls[0].0, calls[0].1);
    if |calls| == 1 {
      assert Run(s1, patience, delta, calls[1..]) == s1;
    } else {
      assert NoneImprove(calls[1..], s1.bestLoss.value, delta) by {
        forall i | 0 <= i < |calls[1..]|
          ensures calls[1..][i].1 >= s1.bestLoss.value - delta
        {
          assert calls[1..][i] == calls[i + 1];
        }
      }
      StopsAfterPatience(s1, patience, delta, calls[1..]);
    }
  }
}
