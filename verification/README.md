# Branch-direction predictor model

A Dafny model of the conditional-branch direction predictor in
`src/predictor.c`. The predictor is a deterministic state machine. For a
branch address (PC) it predicts TAKEN or NOT TAKEN, and after the branch
resolves it learns the real outcome. There are four schemes:

- **static**: always TAKEN.
- **gshare**: one table of 2-bit saturating counters indexed by
  `(ghr ^ pc) & gMask`.
- **tournament**: a local predictor (`pht[lhr[pc & pcMask] & lMask]`) and a
  global predictor (`ght[ghr & gMask]`), arbitrated by a choice counter
  `cht[ghr & gMask]`.
- **custom**: the tournament structure with all widths fixed at 15, whose
  global table and choice table are both indexed the gshare way.

The C program keeps its tables and histories in process-wide variables. The
model holds them in an immutable `Predictor` value with one variant per
scheme: `StaticState`, `GshareState`, `TournamentState`, `CustomState`, and
`NoState` for an unrecognised scheme selector. `MakePrediction` is a pure
function of the state, so prediction cannot change any table or history.
`TrainPredictor` returns the next state. Repeating the same configuration
and the same branch sequence therefore always gives the same predictions.

Files:

- `bits.dfy` (module `Bits`): bitwise `And` and `Xor` on naturals. It also
  models the 32-bit two's-complement operations behind the mask
  `~((-1) << bits)`, and proves that masking keeps the low bits.
- `counter.dfy` (module `Counter`): the outcome type, the 2-bit saturating
  counter, its top-bit verdict, and the choice-counter rule.
- `history.dfy` (module `History`): the masked shift
  `((h << 1) + outcome) & mask`.
- `predictor.dfy` (module `BranchPredictor`): the state, the `init_*`
  functions, the index computations, the predictors and the training
  functions. It also defines the predicates that state exactly which entries
  one training step may change.
- `properties.dfy` (module `PredictorProperties`): facts that span several
  calls, such as traces of training steps, the fresh-state predictions,
  gshare aliasing, and a worked gshare run.

Assumptions:

- The constants come from `predictor.h`, which is not part of this model.
  They are taken as TAKEN = 1, NOTTAKEN = 0 and SN, WN, WT, ST = 0, 1, 2, 3.
  This agrees with the comment at `src/predictor.c:62` and with the
  comparisons `pred == outcome`.
- Outcomes have exactly two values.
- Table widths are at most 30 bits, so that `1 << bits` and `ghr << 1` stay
  within a C `int`.

Behaviour of the code worth knowing:

- An outcome other than 0 or 1 is not a no-op. The counter updates skip
  it, but `ghr` and `lhr` still shift in `+ outcome`
  (src/predictor.c:215, 230, 253). The model admits only the two outcomes.
- `free_predictor` frees the tables without clearing the pointers, so a
  second call frees them again (src/predictor.c:146-152). Teardown is not
  modelled.
- The history update uses `+`, which equals `|` for outcomes 0 and 1. The
  model uses `+`.

## Model

| member | source | states |
|---|---|---|
| Bits.Mask | src/predictor.c:92-94 | The mask `~((-1) << bits)`, computed on 32-bit words, equals `2^bits - 1` for every shift count 0..31. |
| Bits.LowBits | src/predictor.c:161-163 | `x & mask` is `x mod 2^bits`. It is always below the table size `2^bits`, and it is `x` itself when `x` already fits. |
| Bits.AndLowOnes | src/predictor.c:155-162 | For every `x` and `n`, the bitwise AND of `x` with `2^n - 1` is `x mod 2^n` (proved by induction on `n`). |
| Bits.XorLowBits | src/predictor.c:162 | The low `n` bits of `ghr ^ pc` depend only on the low `n` bits of `ghr` and of `pc`. |
| Counter.Update | src/predictor.c:200-213 | A counter in SN..ST stays in SN..ST. TAKEN raises it by at most one and NOTTAKEN lowers it by at most one. It is unchanged exactly when it is already saturated toward the outcome. |
| Counter.Verdict | src/predictor.c:161-163 | The top bit `c >> 1` of a 2-bit counter means TAKEN exactly when the counter is WT or ST. |
| Counter.UpdateReinforces | src/predictor.c:222-227 | Training a counter on the outcome it already predicts never changes its prediction. |
| Counter.StrongCounterNeedsTwoMisses | src/predictor.c:238-251 | A counter saturated toward an outcome keeps predicting it after one contrary outcome. A second contrary outcome flips the prediction. |
| Counter.UpdateRunSaturates | src/predictor.c:200-213 | `n` equal outcomes move a counter `n` states toward them and stop at the bound. From SN, three TAKEN reach ST, and more TAKEN leave it at ST. |
| Counter.ChoiceUpdate | src/predictor.c:264-270 | The choice counter decreases exactly when local was right, global was wrong and it is above SN. It increases exactly when global was right, local was wrong and it is below ST. It moves by at most one and stays in range. |
| Counter.ChoiceIgnoresAgreement | src/predictor.c:285-291 | When the local and global sub-predictions agree, the choice counter is unchanged, whatever the outcome. |
| Counter.LocalWinsDriveChoiceDown | src/predictor.c:265-267 | `n` rounds of "local right, global wrong" lower the choice counter to `max(choice - n, SN)`. |
| History.Shift | src/predictor.c:215 | The new history is `(2*h + outcome) mod 2^bits`. It is below `2^bits`, its low bit is the newest outcome, and the remaining bits are the older history with the oldest bit dropped. |
| BranchPredictor.InitGshare | src/predictor.c:53-68 | The fresh gshare state has `ghr = 0` and `2^ghistoryBits` counters, all WN. |
| BranchPredictor.InitHybrid | src/predictor.c:75-90 | The fresh tournament/custom tables are well-formed: zero global and local histories, every global and pattern counter WN, and every choice counter WT. |
| BranchPredictor.InitTournament | src/predictor.c:70-95 | The tournament tables are freshly reset, with the configured widths. |
| BranchPredictor.InitCustom | src/predictor.c:97-125 | The custom tables are freshly reset, with all three widths forced to 15. |
| BranchPredictor.InitPredictor | src/predictor.c:129-144 | Configuration yields a valid state of the selected scheme. Static and unknown selectors allocate nothing. Gshare, tournament and custom are reset as above. |
| BranchPredictor.GshareIndex | src/predictor.c:197 | The gshare index is `(ghr XOR pc) mod 2^ghistoryBits`, always within the table. |
| BranchPredictor.GlobalIndex | src/predictor.c:235 | The tournament's global index `ghr & gMask` is `ghr` itself, always within the table. |
| BranchPredictor.LocalSlot | src/predictor.c:230 | The local-history slot is `pc mod 2^pcIndexBits`, always within the local history table. |
| BranchPredictor.PatternIndex | src/predictor.c:221 | The pattern-table index is the slot's local history, always within the pattern table. |
| BranchPredictor.LocalPred | src/predictor.c:154-156 | The local prediction is TAKEN exactly when the pattern counter selected by the branch's local history is WT or ST. |
| BranchPredictor.GlobalPred | src/predictor.c:157-160 | The tournament's global prediction is TAKEN exactly when `ght[ghr]` is WT or ST. It does not depend on the PC. |
| BranchPredictor.GsharePred | src/predictor.c:161-163 | The gshare prediction is TAKEN exactly when `ght[(ghr XOR pc) mod 2^G]` is WT or ST. |
| BranchPredictor.TournamentPred | src/predictor.c:180 | The tournament verdict is the local prediction when the choice counter at `ghr` is SN or WN (its top bit is clear), and the global prediction otherwise. |
| BranchPredictor.CustomPred | src/predictor.c:182 | The custom verdict is the local prediction when the choice counter at `(ghr XOR pc) mod 2^G` is SN or WN, and the gshare prediction otherwise. |
| BranchPredictor.MakePrediction | src/predictor.c:172-189 | Static predicts TAKEN and an unknown scheme predicts NOTTAKEN. Gshare reads the history-XOR-address counter. Tournament and custom return the local verdict when their choice counter is SN or WN, and the global or gshare verdict otherwise. Tournament uses the index `ghr`; custom uses `(ghr XOR pc) mod 2^G`. |
| BranchPredictor.TrainCounter | src/predictor.c:197-213 | Training one table entry keeps every counter in SN..ST, moves only the entry at the index by the saturating rule, and keeps the table length. |
| BranchPredictor.TrainChoice | src/predictor.c:262-270 | Training the choice table keeps every counter in SN..ST and moves only the entry at the index, by the choice rule. |
| BranchPredictor.ShiftSlot | src/predictor.c:230 | Shifting one local-history slot keeps every history below `2^bits`, leaves every other slot unchanged, and sets the slot to `(2*h + outcome) mod 2^bits`. |
| BranchPredictor.TrainGshare | src/predictor.c:195-216 | Gshare training keeps the state valid and sets `ghr` to `(2*ghr + outcome) mod 2^G`. It trains exactly one counter, at the index computed from the pre-shift history, and leaves every other counter unchanged. |
| BranchPredictor.TrainGlobal | src/predictor.c:233-254 | Global training sets `ghr` the same way and trains only `ght[old ghr]`. |
| BranchPredictor.TrainLocal | src/predictor.c:218-231 | Local training shifts only the branch's local-history slot, using the same law with `lhistoryBits`. It trains only the pattern counter selected by the pre-shift history. |
| BranchPredictor.TrainTournament | src/predictor.c:256-275 | Tournament training changes at most one choice, one global, one pattern and one local-history entry, plus `ghr`. The choice counter moves by the choice rule, applied to the sub-predictions made before any table changed, at the pre-shift `ghr`. |
| BranchPredictor.TrainCustom | src/predictor.c:277-296 | Custom training is the tournament's rule, but the choice entry and the global entry are both keyed by the pre-shift `(ghr XOR pc) mod 2^G`, and the global sub-prediction is the gshare one. |
| BranchPredictor.TrainPredictor | src/predictor.c:298-315 | Training preserves validity and the scheme. Static and unknown states are unchanged, and each table-driven scheme takes exactly its own step. |
| PredictorProperties.TrainTrace | src/predictor.c:298-315 | Any sequence of training steps preserves validity, the scheme and all widths. |
| PredictorProperties.HistoriesStayMasked | src/predictor.c:215 | After any trace from a fresh state, every history is below `2^width` and every counter is within SN..ST. |
| PredictorProperties.StaticAlwaysTaken | src/predictor.c:175-176 | In the predict-then-train loop, the static predictor says TAKEN for every branch of every trace. |
| PredictorProperties.UnknownNeverTaken | src/predictor.c:183-188 | With an unknown scheme, every prediction of every trace is NOTTAKEN. |
| PredictorProperties.FreshPredictorSaysNotTaken | src/predictor.c:82-90 | Before any training, gshare, tournament and custom predict NOTTAKEN for every address. |
| PredictorProperties.GshareAliasing | src/predictor.c:161-163 | For a fixed history, two addresses that agree in their low `ghistoryBits` bits share a gshare counter and get the same prediction. |
| PredictorProperties.TournamentLearnsToTrustLocal | src/predictor.c:262-267 | A choice counter at WT, trained on a branch where only local was right, becomes WN, so that context now selects local. |
| PredictorProperties.GshareTwoBitRun | src/predictor.c:195-216 | With `ghistoryBits = 2` from a fresh state: PC 0 predicts NOTTAKEN. After `train(0, TAKEN)`, `ght[0] = WT` and `ghr = 1`. PC 0 then reads index 1, which is still WN, so it again predicts NOTTAKEN. |

## Left out

- Memory management: the `calloc` calls in the init functions and `free_predictor` (src/predictor.c:146-152). Tables are values, so there is nothing to allocate or release.
- Student information and display globals: `studentName`, `bpName`, `verbose`, `DEBUG`. They are only used for output.
- `custom_pred`: it is never called, and `make_prediction` computes the custom prediction inline.
- Outcome values other than TAKEN and NOTTAKEN: `Outcome` has exactly two values.
- C `int` overflow: `WidthsOk` excludes widths above 30 bits. Beyond that width, `1 << bits` or `ghr << 1` would leave the range of a C `int`.
- Negative widths: the source declares the widths as `int` (src/predictor.c:28-30), but `Config` uses naturals. In C, `1 << bits` with a negative `bits` is undefined.
- Bits.Mask: the model gives `(-1) << bits` its 32-bit two's-complement value. In C, left-shifting a negative value is undefined at every shift count (section 6.5.7 of ISO C11), so the mask's value is an assumption about the compiler, not a guarantee of the language.
- The side effect of `init_custom` on the global width variables: the custom state records its widths of 15 instead.
- The trace driver, its accuracy accounting and its report. `PredictorProperties.Predictions` only models the order in which the driver predicts and then trains.
