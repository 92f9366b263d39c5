/**
 * Branch outcomes and the 2-bit saturating counters every predictor table is
 * made of: the update on a resolved branch, the direction a counter predicts,
 * and the meta-predictor rule that trains a choice counter.
 */
module Counter {

  /** The direction of a conditional branch; `Bit` is its C encoding (NOTTAKEN = 0, TAKEN = 1). */
  datatype Outcome = NotTaken | Taken {
    function Bit(): nat
    {
      if Taken? then 1 else 0
    }
  }

  /** Strongly not-taken, weakly not-taken, weakly taken, strongly taken. */
  const SN: int := 0
  const WN: int := 1
  const WT: int := 2
  const ST: int := 3

  predicate IsCounter(c: int)
  {
    SN <= c <= ST
  }

  /** The counter has reached the end of its range in the direction of `o`. */
  predicate SaturatedToward(c: int, o: Outcome)
  {
    if o == Taken then c >= ST else c <= SN
  }

  /**
   * One training step of a 2-bit saturating counter: move one state toward
   * the outcome unless already at that end of the range.
   */
  function Update(c: int, o: Outcome): (r: int)
    ensures IsCounter(c) ==> IsCounter(r)
    ensures r == c <==> SaturatedToward(c, o)
    ensures o == Taken ==> c <= r <= c + 1
    ensures o == NotTaken ==> c - 1 <= r <= c
  {
    match o
    case Taken => if c < ST then c + 1 else c
    case NotTaken => if c > SN then c - 1 else c
  }

  /** The direction a counter predicts: its top bit, `c >> 1`. */
  function Verdict(c: int): (r: Outcome)
    requires IsCounter(c)
    ensures r == Taken <==> c >= WT
  {
    if c / 2 == 0 then NotTaken else Taken
  }

  /** Training a counter on the outcome it already predicts never flips its prediction. */
  lemma UpdateReinforces(c: int, o: Outcome)
    requires IsCounter(c) && Verdict(c) == o
    ensures Verdict(Update(c, o)) == o
  {
  }

  /**
   * A strong counter has hysteresis: one contrary outcome leaves its
   * prediction in place, a second one flips it.
   */
  lemma StrongCounterNeedsTwoMisses(c: int, o: Outcome)
    requires IsCounter(c) && SaturatedToward(c, o)
    ensures Verdict(Update(c, Flip(o))) == o
    ensures Verdict(Update(Update(c, Flip(o)), Flip(o))) == Flip(o)
  {
  }

  function Flip(o: Outcome): (r: Outcome)
    ensures r != o
  {
    if o == Taken then NotTaken else Taken
  }

  /** `n` consecutive training steps with the same outcome. */
  function UpdateRun(c: int, o: Outcome, n: nat): int
    decreases n
  {
    if n == 0 then c else UpdateRun(Update(c, o), o, n - 1)
  }

  /**
   * A run of `n` equal outcomes moves a counter `n` states toward them,
   * stopping at the saturation bound: from SN, three TAKEN reach ST and
   * further TAKEN stay there.
   */
  lemma {:induction false} UpdateRunSaturates(c: int, o: Outcome, n: nat)
    requires IsCounter(c)
    ensures o == Taken ==> UpdateRun(c, o, n) == (if c + n >= ST then ST else c + n)
    ensures o == NotTaken ==> UpdateRun(c, o, n) == (if c - n <= SN then SN else c - n)
    decreases n
  {
    if n > 0 {
      UpdateRunSaturates(Update(c, o), o, n - 1);
    }
  }

  /**
   * The choice-counter rule of the tournament and custom predictors. The
   * counter moves toward local (down) when only the local sub-prediction was
   * right, toward global (up) when only the global one was, and stays put
   * when both or neither were right or it is saturated.
   */
  function ChoiceUpdate(choice: int, local: Outcome, global: Outcome, o: Outcome): (r: int)
    ensures IsCounter(choice) ==> IsCounter(r)
    ensures r < choice <==> local == o && global != o && choice > SN
    ensures r > choice <==> global == o && local != o && choice < ST
    ensures choice - 1 <= r <= choice + 1
  {
    if local == o && global != o && choice > SN then choice - 1
    else if global == o && local != o && choice < ST then choice + 1
    else choice
  }

  /** When the sub-predictions agree the choice counter does not learn anything. */
  lemma ChoiceIgnoresAgreement(choice: int, local: Outcome, global: Outcome, o: Outcome)
    requires local == global
    ensures ChoiceUpdate(choice, local, global, o) == choice
  {
  }

  /** `n` rounds in which the local sub-predictor was right and the global one wrong. */
  function LocalWinsRun(choice: int, o: Outcome, n: nat): int
    decreases n
  {
    if n == 0 then choice else LocalWinsRun(ChoiceUpdate(choice, o, Flip(o), o), o, n - 1)
  }

  /**
   * Repeated local wins drive the choice counter down one state per round
   * until it saturates at SN; from the reset value WT a single round brings it
   * to WN, where the choice trusts the local sub-predictor.
   */
  lemma {:induction false} LocalWinsDriveChoiceDown(choice: int, o: Outcome, n: nat)
    requires IsCounter(choice)
    ensures LocalWinsRun(choice, o, n) == (if choice - n <= SN then SN else choice - n)
    decreases n
  {
    if n > 0 {
      LocalWinsDriveChoiceDown(ChoiceUpdate(choice, o, Flip(o), o), o, n - 1);
    }
  }
}
