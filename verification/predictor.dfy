/**
 * The branch-direction predictor: its state for each scheme, the
 * configuration step that resets it, the read-only prediction for a branch
 * address, and the training step that learns the resolved outcome.
 *
 * The C program keeps the tables and histories in process-wide variables;
 * here they are the fields of an immutable `Predictor` value, and the index
 * masks are recomputed from the widths the state records.
 */
module BranchPredictor {
  import opened Bits
  import opened Counter
  import opened History

  /** The scheme selector `bpType`; `Unknown` stands for any other value. */
  datatype Scheme = Static | Gshare | Tournament | Custom | Unknown

  /** The bit widths chosen at configuration time. */
  datatype Config = Config(ghistoryBits: nat, lhistoryBits: nat, pcIndexBits: nat)

  /** The custom predictor ignores the configured widths and uses this one for all three. */
  const CustomBits: nat := 15

  /** Global history register `ghr` and global counter table `ght` of `2^gBits` entries. */
  datatype Global = Global(gBits: nat, ghr: nat, ght: seq<int>)

  /**
   * Local history table `lhr` of `2^pcBits` entries, each an `lBits`-bit
   * history, and the pattern table `pht` of `2^lBits` counters it indexes.
   */
  datatype Local = Local(lBits: nat, pcBits: nat, lhr: seq<nat>, pht: seq<int>)

  /** A local and a global sub-predictor with the choice table `cht` that arbitrates between them. */
  datatype Hybrid = Hybrid(g: Global, cht: seq<int>, l: Local)

  /** The state of the configured predictor; each scheme carries only the tables it uses. */
  datatype Predictor =
    | StaticState
    | GshareState(g: Global)
    | TournamentState(t: Hybrid)
    | CustomState(t: Hybrid)
    | NoState

  // ---------------------------------------------------------------------
  // Well-formedness
  // ---------------------------------------------------------------------

  predicate CountersOk(s: seq<int>)
  {
    forall i :: 0 <= i < |s| ==> IsCounter(s[i])
  }

  predicate GlobalOk(g: Global)
  {
    && g.gBits <= MaxBits
    && g.ghr < Pow2(g.gBits)
    && |g.ght| == Pow2(g.gBits)
    && CountersOk(g.ght)
  }

  predicate LocalOk(l: Local)
  {
    && l.lBits <= MaxBits
    && l.pcBits <= MaxBits
    && |l.lhr| == Pow2(l.pcBits)
    && (forall i :: 0 <= i < |l.lhr| ==> l.lhr[i] < Pow2(l.lBits))
    && |l.pht| == Pow2(l.lBits)
    && CountersOk(l.pht)
  }

  predicate HybridOk(t: Hybrid)
  {
    && GlobalOk(t.g)
    && LocalOk(t.l)
    && |t.cht| == Pow2(t.g.gBits)
    && CountersOk(t.cht)
  }

  predicate HasCustomWidths(t: Hybrid)
  {
    t.g.gBits == CustomBits && t.l.lBits == CustomBits && t.l.pcBits == CustomBits
  }

  /**
   * The invariant the configuration step establishes and training keeps:
   * tables have `2^bits` entries, counters are within SN..ST, histories fit
   * their widths, and the custom predictor's widths are all 15.
   */
  predicate Valid(p: Predictor)
  {
    match p
    case GshareState(g) => GlobalOk(g)
    case TournamentState(t) => HybridOk(t)
    case CustomState(t) => HybridOk(t) && HasCustomWidths(t)
    case _ => true
  }

  // ---------------------------------------------------------------------
  // Configuration
  // ---------------------------------------------------------------------

  /** The widths a scheme allocates tables for must keep `1 << bits` within a C `int`. */
  predicate WidthsOk(scheme: Scheme, cfg: Config)
  {
    match scheme
    case Gshare => cfg.ghistoryBits <= MaxBits
    case Tournament =>
      cfg.ghistoryBits <= MaxBits && cfg.lhistoryBits <= MaxBits && cfg.pcIndexBits <= MaxBits
    case _ => true
  }

  /** All histories zero, global and pattern counters WN, choice counters WT. */
  predicate IsReset(t: Hybrid)
  {
    && t.g.ghr == 0
    && (forall i :: 0 <= i < |t.g.ght| ==> t.g.ght[i] == WN)
    && (forall i :: 0 <= i < |t.cht| ==> t.cht[i] == WT)
    && (forall i :: 0 <= i < |t.l.lhr| ==> t.l.lhr[i] == 0)
    && (forall i :: 0 <= i < |t.l.pht| ==> t.l.pht[i] == WN)
  }

  function InitGshare(gBits: nat): (g: Global)
    requires gBits <= MaxBits
    ensures GlobalOk(g) && g.gBits == gBits
    ensures g.ghr == 0
    ensures forall i :: 0 <= i < |g.ght| ==> g.ght[i] == WN
  {
    Global(gBits, 0, seq(Pow2(gBits), _ => WN))
  }

  /** The tables shared by the tournament and custom predictors, freshly reset. */
  function InitHybrid(gBits: nat, lBits: nat, pcBits: nat): (t: Hybrid)
    requires gBits <= MaxBits && lBits <= MaxBits && pcBits <= MaxBits
    ensures HybridOk(t) && IsReset(t)
    ensures t.g.gBits == gBits && t.l.lBits == lBits && t.l.pcBits == pcBits
  {
    Hybrid(
      InitGshare(gBits),
      seq(Pow2(gBits), _ => WT),
      Local(lBits, pcBits, seq(Pow2(pcBits), _ => 0), seq(Pow2(lBits), _ => WN)))
  }

  function InitTournament(cfg: Config): (t: Hybrid)
    requires WidthsOk(Tournament, cfg)
    ensures HybridOk(t) && IsReset(t)
    ensures t.g.gBits == cfg.ghistoryBits && t.l.lBits == cfg.lhistoryBits && t.l.pcBits == cfg.pcIndexBits
  {
    InitHybrid(cfg.ghistoryBits, cfg.lhistoryBits, cfg.pcIndexBits)
  }

  function InitCustom(): (t: Hybrid)
    ensures HybridOk(t) && IsReset(t) && HasCustomWidths(t)
  {
    InitHybrid(CustomBits, CustomBits, CustomBits)
  }

  /**
   * Configure the predictor for `scheme`: the static and unknown schemes
   * allocate nothing, the others reset every table and history they use.
   */
  function InitPredictor(scheme: Scheme, cfg: Config): (p: Predictor)
    requires WidthsOk(scheme, cfg)
    ensures Valid(p)
    ensures scheme == Static <==> p.StaticState?
    ensures scheme == Unknown <==> p.NoState?
    ensures scheme == Gshare <==> p.GshareState?
    ensures p.GshareState? ==>
      && p.g.gBits == cfg.ghistoryBits && p.g.ghr == 0
      && forall i :: 0 <= i < |p.g.ght| ==> p.g.ght[i] == WN
    ensures scheme == Tournament <==> p.TournamentState?
    ensures p.TournamentState? ==>
      && IsReset(p.t) && p.t.g.gBits == cfg.ghistoryBits
      && p.t.l.lBits == cfg.lhistoryBits && p.t.l.pcBits == cfg.pcIndexBits
    ensures scheme == Custom <==> p.CustomState?
    ensures p.CustomState? ==> IsReset(p.t) && HasCustomWidths(p.t)
  {
    match scheme
    case Static => StaticState
    case Gshare => GshareState(InitGshare(cfg.ghistoryBits))
    case Tournament => TournamentState(InitTournament(cfg))
    case Custom => CustomState(InitCustom())
    case Unknown => NoState
  }

  // ---------------------------------------------------------------------
  // Table indices
  // ---------------------------------------------------------------------

  /** `(ghr ^ pc) & gMask`: the gshare index, folding the branch address into the history. */
  function GshareIndex(g: Global, pc: Word): (i: nat)
    requires GlobalOk(g)
    ensures i < |g.ght|
    ensures i == Xor(g.ghr, pc) % Pow2(g.gBits)
  {
    LowBits(Xor(g.ghr, pc), g.gBits)
  }

  /** `ghr & gMask`: the global history alone; since `ghr` already fits its width, the index is `ghr`. */
  function GlobalIndex(g: Global): (i: nat)
    requires GlobalOk(g)
    ensures i < |g.ght|
    ensures i == g.ghr
  {
    LowBits(g.ghr, g.gBits)
  }

  /** `pc & pcMask`: the local history slot of a branch address. */
  function LocalSlot(l: Local, pc: Word): (i: nat)
    requires LocalOk(l)
    ensures i < |l.lhr|
    ensures i == pc % Pow2(l.pcBits)
  {
    LowBits(pc, l.pcBits)
  }

  /** `lhr[pc & pcMask] & lMask`: the pattern-table index, which is the slot's local history itself. */
  function PatternIndex(l: Local, pc: Word): (i: nat)
    requires LocalOk(l)
    ensures i < |l.pht|
    ensures i == l.lhr[LocalSlot(l, pc)]
  {
    LowBits(l.lhr[LocalSlot(l, pc)], l.lBits)
  }

  // ---------------------------------------------------------------------
  // Prediction
  // ---------------------------------------------------------------------

  /** The local sub-prediction: the pattern counter selected by the branch's own history. */
  function LocalPred(l: Local, pc: Word): (r: Outcome)
    requires LocalOk(l)
    ensures r == Taken <==> l.pht[l.lhr[LocalSlot(l, pc)]] >= WT
  {
    Verdict(l.pht[PatternIndex(l, pc)])
  }

  /** The tournament's global sub-prediction: the counter selected by the global history alone. */
  function GlobalPred(g: Global): (r: Outcome)
    requires GlobalOk(g)
    ensures r == Taken <==> g.ght[g.ghr] >= WT
  {
    Verdict(g.ght[GlobalIndex(g)])
  }

  /** The gshare prediction: the counter selected by history XOR address. */
  function GsharePred(g: Global, pc: Word): (r: Outcome)
    requires GlobalOk(g)
    ensures r == Taken <==> g.ght[GshareIndex(g, pc)] >= WT
  {
    Verdict(g.ght[GshareIndex(g, pc)])
  }

  /**
   * The tournament prediction: a choice counter whose top bit is clear (SN or
   * WN) trusts the local sub-predictor, otherwise the global one; the choice
   * table is indexed by the history alone.
   */
  function TournamentPred(t: Hybrid, pc: Word): (r: Outcome)
    requires HybridOk(t)
    ensures r == (if t.cht[t.g.ghr] <= WN then LocalPred(t.l, pc) else GlobalPred(t.g))
  {
    if t.cht[GlobalIndex(t.g)] / 2 == 0 then LocalPred(t.l, pc) else GlobalPred(t.g)
  }

  /**
   * The custom prediction: the tournament's choice between local and global,
   * but both the choice table and the global table are indexed by history
   * XOR address.
   */
  function CustomPred(t: Hybrid, pc: Word): (r: Outcome)
    requires HybridOk(t)
    ensures r == (if t.cht[GshareIndex(t.g, pc)] <= WN
                  then LocalPred(t.l, pc) else GsharePred(t.g, pc))
  {
    if t.cht[GshareIndex(t.g, pc)] / 2 == 0 then LocalPred(t.l, pc) else GsharePred(t.g, pc)
  }

  /** The prediction for the branch at `pc` under the configured scheme. */
  function MakePrediction(p: Predictor, pc: Word): (r: Outcome)
    requires Valid(p)
    ensures p.StaticState? ==> r == Taken
    ensures p.NoState? ==> r == NotTaken
    ensures p.GshareState? ==>
      (r == Taken <==> p.g.ght[GshareIndex(p.g, pc)] >= WT)
    ensures p.TournamentState? ==>
      r == (if p.t.cht[p.t.g.ghr] <= WN then LocalPred(p.t.l, pc) else GlobalPred(p.t.g))
    ensures p.CustomState? ==>
      r == (if p.t.cht[GshareIndex(p.t.g, pc)] <= WN
            then LocalPred(p.t.l, pc) else GsharePred(p.t.g, pc))
  {
    match p
    case StaticState => Taken
    case GshareState(g) => GsharePred(g, pc)
    case TournamentState(t) => TournamentPred(t, pc)
    case CustomState(t) => CustomPred(t, pc)
    case NoState => NotTaken
  }

  // ---------------------------------------------------------------------
  // What one training step is allowed to change
  // ---------------------------------------------------------------------

  /** `s'` has the length of `s` and agrees with it everywhere except possibly at `i`. */
  predicate SameExcept(s: seq<int>, s': seq<int>, i: int)
  {
    |s'| == |s| && forall j :: 0 <= j < |s| && j != i ==> s'[j] == s[j]
  }

  /** Exactly the counter at `i` took one saturating step toward `o`. */
  predicate CounterTrained(s: seq<int>, s': seq<int>, i: nat, o: Outcome)
  {
    i < |s| && SameExcept(s, s', i) && s'[i] == Update(s[i], o)
  }

  /** The global history took in `o` and only the global counter at `i` was trained. */
  predicate GlobalStep(g: Global, g': Global, i: nat, o: Outcome)
  {
    && g'.gBits == g.gBits
    && g'.ghr == (2 * g.ghr + o.Bit()) % Pow2(g.gBits)
    && CounterTrained(g.ght, g'.ght, i, o)
  }

  /**
   * Only the history in `slot` took in `o`, and only the pattern counter it
   * selected before the shift was trained.
   */
  predicate LocalStep(l: Local, l': Local, slot: nat, o: Outcome)
  {
    && l'.lBits == l.lBits && l'.pcBits == l.pcBits
    && slot < |l.lhr|
    && SameExcept(l.lhr, l'.lhr, slot)
    && l'.lhr[slot] == (2 * l.lhr[slot] + o.Bit()) % Pow2(l.lBits)
    && CounterTrained(l.pht, l'.pht, l.lhr[slot], o)
  }

  /** Only the choice counter at `i` moved, by the choice rule applied to the given sub-predictions. */
  predicate ChoiceStep(cht: seq<int>, cht': seq<int>, i: nat, local: Outcome, global: Outcome, o: Outcome)
  {
    i < |cht| && SameExcept(cht, cht', i) && cht'[i] == ChoiceUpdate(cht[i], local, global, o)
  }

  /**
   * A tournament step: choice, global counter and global history all keyed
   * by the pre-shift `ghr`; the choice judged by the sub-predictions made
   * before any table changed.
   */
  predicate TournamentStep(t: Hybrid, t': Hybrid, pc: Word, o: Outcome)
    requires HybridOk(t)
  {
    && ChoiceStep(t.cht, t'.cht, t.g.ghr, LocalPred(t.l, pc), GlobalPred(t.g), o)
    && GlobalStep(t.g, t'.g, t.g.ghr, o)
    && LocalStep(t.l, t'.l, LocalSlot(t.l, pc), o)
  }

  /** A custom step: as the tournament's, but choice and global counter keyed by pre-shift `ghr` XOR `pc`. */
  predicate CustomStep(t: Hybrid, t': Hybrid, pc: Word, o: Outcome)
    requires HybridOk(t)
  {
    var i := GshareIndex(t.g, pc);
    && ChoiceStep(t.cht, t'.cht, i, LocalPred(t.l, pc), GsharePred(t.g, pc), o)
    && GlobalStep(t.g, t'.g, i, o)
    && LocalStep(t.l, t'.l, LocalSlot(t.l, pc), o)
  }

  // ---------------------------------------------------------------------
  // Training
  // ---------------------------------------------------------------------

  /** The saturating step on the counter at `i` of a table, leaving every other counter as it was. */
  function TrainCounter(s: seq<int>, i: nat, o: Outcome): (s': seq<int>)
    requires CountersOk(s) && i < |s|
    ensures CountersOk(s') && CounterTrained(s, s', i, o)
  {
    s[i := Update(s[i], o)]
  }

  /** The choice rule on the counter at `i` of the choice table, leaving every other counter as it was. */
  function TrainChoice(cht: seq<int>, i: nat, local: Outcome, global: Outcome, o: Outcome): (s': seq<int>)
    requires CountersOk(cht) && i < |cht|
    ensures CountersOk(s') && ChoiceStep(cht, s', i, local, global, o)
  {
    cht[i := ChoiceUpdate(cht[i], local, global, o)]
  }

  /** The masked shift of the history in `slot` of the local history table, leaving every other slot as it was. */
  function ShiftSlot(lhr: seq<nat>, slot: nat, o: Outcome, bits: nat): (r: seq<nat>)
    requires bits <= MaxBits && slot < |lhr|
    requires forall j :: 0 <= j < |lhr| ==> lhr[j] < Pow2(bits)
    ensures forall j :: 0 <= j < |r| ==> r[j] < Pow2(bits)
    ensures SameExcept(lhr, r, slot)
    ensures r[slot] == (2 * lhr[slot] + o.Bit()) % Pow2(bits)
  {
    lhr[slot := Shift(lhr[slot], o, bits)]
  }

  function TrainGshare(g: Global, pc: Word, o: Outcome): (r: Global)
    requires GlobalOk(g)
    ensures GlobalOk(r)
    ensures GlobalStep(g, r, GshareIndex(g, pc), o)
  {
    Global(g.gBits, Shift(g.ghr, o, g.gBits), TrainCounter(g.ght, GshareIndex(g, pc), o))
  }

  function TrainGlobal(g: Global, o: Outcome): (r: Global)
    requires GlobalOk(g)
    ensures GlobalOk(r)
    ensures GlobalStep(g, r, g.ghr, o)
  {
    Global(g.gBits, Shift(g.ghr, o, g.gBits), TrainCounter(g.ght, GlobalIndex(g), o))
  }

  function TrainLocal(l: Local, pc: Word, o: Outcome): (r: Local)
    requires LocalOk(l)
    ensures LocalOk(r)
    ensures LocalStep(l, r, LocalSlot(l, pc), o)
  {
    var slot := LocalSlot(l, pc);
    var i := PatternIndex(l, pc);
    assert i == l.lhr[slot];
    Local(l.lBits, l.pcBits, ShiftSlot(l.lhr, slot, o, l.lBits), TrainCounter(l.pht, i, o))
  }

  function TrainTournament(t: Hybrid, pc: Word, o: Outcome): (r: Hybrid)
    requires HybridOk(t)
    ensures HybridOk(r)
    ensures TournamentStep(t, r, pc, o)
  {
    var cht := TrainChoice(t.cht, GlobalIndex(t.g), LocalPred(t.l, pc), GlobalPred(t.g), o);
    Hybrid(TrainGlobal(t.g, o), cht, TrainLocal(t.l, pc, o))
  }

  function TrainCustom(t: Hybrid, pc: Word, o: Outcome): (r: Hybrid)
    requires HybridOk(t)
    ensures HybridOk(r)
    ensures CustomStep(t, r, pc, o)
  {
    var cht := TrainChoice(t.cht, GshareIndex(t.g, pc), LocalPred(t.l, pc), GsharePred(t.g, pc), o);
    Hybrid(TrainGshare(t.g, pc, o), cht, TrainLocal(t.l, pc, o))
  }

  /**
   * Learn the resolved outcome `o` of the branch at `pc`. The static and
   * unknown schemes keep no state; the others train exactly the entries the
   * prediction for this branch read, then shift the histories.
   */
  function TrainPredictor(p: Predictor, pc: Word, o: Outcome): (r: Predictor)
    requires Valid(p)
    ensures Valid(r)
    ensures p.StaticState? || p.NoState? ==> r == p
    ensures p.GshareState? ==>
      r.GshareState? && GlobalStep(p.g, r.g, GshareIndex(p.g, pc), o)
    ensures p.TournamentState? ==> r.TournamentState? && TournamentStep(p.t, r.t, pc, o)
    ensures p.CustomState? ==> r.CustomState? && CustomStep(p.t, r.t, pc, o)
  {
    match p
    case StaticState => p
    case GshareState(g) => GshareState(TrainGshare(g, pc, o))
    case TournamentState(t) => TournamentState(TrainTournament(t, pc, o))
    case CustomState(t) => CustomState(TrainCustom(t, pc, o))
    case NoState => p
  }
}
