/**
 * Properties that relate several calls of the predictor: what a freshly
 * configured predictor says, what survives any sequence of training steps,
 * how gshare aliases addresses, and a worked gshare run.
 */
module PredictorProperties {
  import opened Bits
  import opened Counter
  import opened History
  import opened BranchPredictor

  /** One resolved conditional branch as the trace driver supplies it. */
  datatype Branch = Branch(pc: Word, outcome: Outcome)

  /** Train on every branch of `trace` in order. */
  function TrainTrace(p: Predictor, trace: seq<Branch>): (r: Predictor)
    requires Valid(p)
    ensures Valid(r)
    ensures r.StaticState? == p.StaticState? && r.NoState? == p.NoState?
    ensures r.GshareState? == p.GshareState? && (r.GshareState? ==> r.g.gBits == p.g.gBits)
    ensures r.TournamentState? == p.TournamentState? && r.CustomState? == p.CustomState?
    ensures r.TournamentState? || r.CustomState? ==>
      r.t.g.gBits == p.t.g.gBits && r.t.l.lBits == p.t.l.lBits && r.t.l.pcBits == p.t.l.pcBits
    decreases |trace|
  {
    if |trace| == 0 then p
    else TrainTrace(TrainPredictor(p, trace[0].pc, trace[0].outcome), trace[1..])
  }

  /** The predict-then-train loop: the prediction made for each branch before it is learned. */
  function Predictions(p: Predictor, trace: seq<Branch>): (r: seq<Outcome>)
    requires Valid(p)
    ensures |r| == |trace|
    decreases |trace|
  {
    if |trace| == 0 then []
    else
      [MakePrediction(p, trace[0].pc)]
      + Predictions(TrainPredictor(p, trace[0].pc, trace[0].outcome), trace[1..])
  }

  /**
   * After any number of training steps every counter is still within SN..ST
   * and every history still fits its width: the global history below
   * `2^ghistoryBits`, each local history below `2^lhistoryBits`.
   */
  lemma HistoriesStayMasked(scheme: Scheme, cfg: Config, trace: seq<Branch>)
    requires WidthsOk(scheme, cfg)
    ensures var r := TrainTrace(InitPredictor(scheme, cfg), trace);
      && (r.GshareState? ==> r.g.ghr < Pow2(cfg.ghistoryBits) && CountersOk(r.g.ght))
      && (r.TournamentState? ==>
            && r.t.g.ghr < Pow2(cfg.ghistoryBits)
            && (forall i :: 0 <= i < |r.t.l.lhr| ==> r.t.l.lhr[i] < Pow2(cfg.lhistoryBits))
            && CountersOk(r.t.g.ght) && CountersOk(r.t.cht) && CountersOk(r.t.l.pht))
      && (r.CustomState? ==>
            && r.t.g.ghr < Pow2(CustomBits)
            && (forall i :: 0 <= i < |r.t.l.lhr| ==> r.t.l.lhr[i] < Pow2(CustomBits))
            && CountersOk(r.t.g.ght) && CountersOk(r.t.cht) && CountersOk(r.t.l.pht))
  {
  }

  /** The static predictor says TAKEN for every branch of every trace. */
  lemma {:induction false} StaticAlwaysTaken(trace: seq<Branch>)
    ensures forall k :: 0 <= k < |trace| ==> Predictions(StaticState, trace)[k] == Taken
    decreases |trace|
  {
    if |trace| > 0 {
      StaticAlwaysTaken(trace[1..]);
      var rest := Predictions(StaticState, trace[1..]);
      assert Predictions(StaticState, trace) == [Taken] + rest;
    }
  }

  /** An unknown scheme says NOT TAKEN for every branch of every trace. */
  lemma {:induction false} UnknownNeverTaken(trace: seq<Branch>)
    ensures forall k :: 0 <= k < |trace| ==> Predictions(NoState, trace)[k] == NotTaken
    decreases |trace|
  {
    if |trace| > 0 {
      UnknownNeverTaken(trace[1..]);
      var rest := Predictions(NoState, trace[1..]);
      assert Predictions(NoState, trace) == [NotTaken] + rest;
    }
  }

  /**
   * Before any training, every table-driven scheme predicts NOT TAKEN for
   * every address: counters start at WN, and the choice counters' WT sends
   * the hybrids to their global sub-predictor, whose counters are WN too.
   */
  lemma FreshPredictorSaysNotTaken(scheme: Scheme, cfg: Config, pc: Word)
    requires WidthsOk(scheme, cfg) && scheme != Static
    ensures MakePrediction(InitPredictor(scheme, cfg), pc) == NotTaken
  {
  }

  /**
   * Gshare aliasing: for a fixed history, two addresses that agree in their
   * low `ghistoryBits` bits read the same counter and get the same prediction.
   */
  lemma GshareAliasing(g: Global, pc1: Word, pc2: Word)
    requires GlobalOk(g)
    requires pc1 % Pow2(g.gBits) == pc2 % Pow2(g.gBits)
    ensures GshareIndex(g, pc1) == GshareIndex(g, pc2)
    ensures GsharePred(g, pc1) == GsharePred(g, pc2)
  {
    XorLowBits(g.ghr, pc1, g.gBits);
    XorLowBits(g.ghr, pc2, g.gBits);
  }

  /**
   * In a tournament context whose choice counter is at its reset value WT, one
   * branch on which only the local sub-predictor was right brings that
   * context's choice counter down to WN, where it selects the local verdict.
   */
  lemma TournamentLearnsToTrustLocal(t: Hybrid, pc: Word, o: Outcome)
    requires HybridOk(t)
    requires t.cht[t.g.ghr] == WT
    requires LocalPred(t.l, pc) == o && GlobalPred(t.g) != o
    ensures TrainTournament(t, pc, o).cht[t.g.ghr] == WN
  {
  }

  /**
   * A worked gshare run with `ghistoryBits = 2`: the history is folded into
   * the index, so after one TAKEN branch at address 0 the same address reads
   * a different, still weakly not-taken counter.
   */
  lemma GshareTwoBitRun()
    ensures var p0 := InitPredictor(Gshare, Config(2, 0, 0));
      && MakePrediction(p0, 0) == NotTaken
      && var p1 := TrainPredictor(p0, 0, Taken);
      && p1.g.ght[0] == WT && p1.g.ghr == 1
      && GshareIndex(p1.g, 0) == 1
      && p1.g.ght[1] == WN
      && MakePrediction(p1, 0) == NotTaken
  {
    var g0 := InitGshare(2);
    assert Pow2(2) == 4;
    assert InitPredictor(Gshare, Config(2, 0, 0)) == GshareState(g0);
    assert g0.ght[GshareIndex(g0, 0)] == WN;
    assert Xor(0, 0) == 0 && GshareIndex(g0, 0) == 0;
    var g1 := TrainGshare(g0, 0, Taken);
    assert TrainPredictor(GshareState(g0), 0, Taken) == GshareState(g1);
    assert g1.ghr == 1;
    assert g1.ght[0] == Update(WN, Taken) == WT;
    assert g1.ght[1] == g0.ght[1] == WN;
    assert Xor(1, 0) == 1 && GshareIndex(g1, 0) == 1;
  }
}
