# CAST: trial design and gamepad responses, modelled in Dafny

CAST is an attention experiment built on the klibs framework. On each trial a
target fish appears left or right of fixation. It may have flanker fish, and
it is preceded by an exogenous (peripheral flash) or endogenous (central
arrow) cue. The participant answers with a gamepad trigger or a key. This
project models the parts of the program that decide what happens, and proves
properties of them:

- `KLStructure` (kl_structure.dfy) covers the factorial design engine:
  - factor sets and their combinations, which are the Cartesian product of
    the level lists with the first factor slowest;
  - `override`, `set_length` and blocks;
  - `get_trials`, which concatenates freshly shuffled copies of the
    combination list until a block holds exactly its trial count.
- `ExpStructure` (exp_structure.dfy) covers the CAST design:
  - the exogenous factor set (48 combinations) and the endogenous set
    derived from it (72 combinations);
  - the four blocks, the two twelve-block orders, and the choice between the
    orders by condition.
- `KLGamepad` (kl_gamepad.dfy) covers the gamepad response listener:
  - the name normalisation used for axis and button lookup;
  - the parser that turns a user mapping into per-label button and axis
    conditions;
  - the listener object, which resets its state, applies event batches,
    records trigger samples and resolves the first satisfied label.
- `Experiment` (experiment.py's logic, in experiment.dfy) covers:
  - in `generate_trials`: the practice filter, the per-block truncation and
    the column widths of the trial dump;
  - in `trial_prep`: the placement and flanker choice, the SOA and event
    schedule, and the break rule;
  - the trigger summary and the timeout handling at the end of `trial()`;
  - `trigger_pressed`.
- `Shuffling` (random.dfy) models Python's `random.shuffle` as a Fisher–Yates
  pass driven by an integer source. Only the fact that it permutes is relied
  on.
- `Results` (results.dfy) holds the `Option` and `Result` types. These
  errors of the source are modelled as a `Failure` or an error value:
  - the `ValueError` of `override` and of the name lookups;
  - the `RuntimeError` of `init`;
  - the `IndexError` of an empty axis dictionary;
  - the `KeyError` of `listen` when a trigger moved and a trigger has no
    state entry.

  Two error paths are not modelled, and "## Left out" says why:
  - the `KeyError` of `listen`'s label loop when `init` was not called, which
    the precondition `Armed` excludes;
  - mapping values of a type other than a button name, an axis dictionary or
    a list of these.

Source paths below are relative to the repository root.

## Model

| member | source | states |
|---|---|---|
| KLStructure.Names | ExpAssets/Resources/code/KLStructure.py:47-50 | `names` lists the factor names, one per factor, in insertion order |
| KLStructure.Combinations | ExpAssets/Resources/code/KLStructure.py:18-25 | the number of combinations is the product of the level-list lengths |
| KLStructure.SetLength | ExpAssets/Resources/code/KLStructure.py:52-55 | `set_length` equals the product of the level-list lengths |
| KLStructure.EmptySetLength | ExpAssets/Resources/code/KLStructure.py:18-25 | the empty factor set has exactly one combination, the empty trial, so `set_length` is 1 |
| KLStructure.SetLengthPositive | ExpAssets/Resources/code/KLStructure.py:52-55 | `set_length` is positive iff every factor has at least one level |
| KLStructure.Bind | ExpAssets/Resources/code/KLStructure.py:23-24 | binding one level into every tail combination keeps their number and order, each tail gaining that one key |
| KLStructure.Expand | ExpAssets/Resources/code/KLStructure.py:22-24 | the product of a level list with the tail combinations has \|levels\|·\|tails\| entries |
| KLStructure.JoinCombination | ExpAssets/Resources/code/KLStructure.py:22-24 | a combination of the remaining factors with a level of the first factor bound is a combination of all factors |
| KLStructure.SplitCombination | ExpAssets/Resources/code/KLStructure.py:22-24 | a combination of all factors is a level of the first factor bound into a combination of the remaining ones |
| KLStructure.ExpandAt | ExpAssets/Resources/code/KLStructure.py:22-24 | in the product of one level list with the tail combinations, position i*\|tails\|+j holds tail j with level i bound |
| KLStructure.CombinationAt | ExpAssets/Resources/code/KLStructure.py:19-24 | lexicographic order, first factor slowest: position i*(size of the rest)+j binds the first factor to its i-th level and is the rest's j-th combination |
| KLStructure.ExpandMember | ExpAssets/Resources/code/KLStructure.py:22-24 | a trial is in the product of a level list with the tails iff it is some tail with one of the levels bound |
| KLStructure.CombinationsSound | ExpAssets/Resources/code/KLStructure.py:19-24 | every combination has exactly the factor names as keys, and each value is one of that factor's levels |
| KLStructure.CombinationsComplete | ExpAssets/Resources/code/KLStructure.py:19-24 | every such assignment of levels to names is among the combinations |
| KLStructure.Coerced | ExpAssets/Resources/code/KLStructure.py:7-8 | a value that is not iterable (a string included) becomes a one-element level list |
| KLStructure.Replace | ExpAssets/Resources/code/KLStructure.py:36-42 | replacing one factor's levels in the copy keeps the names and their order |
| KLStructure.Override | ExpAssets/Resources/code/KLStructure.py:27-45 | `override` succeeds iff every key of the mask is a factor name; on success the names and their order are unchanged |
| KLStructure.OverrideFailure | ExpAssets/Resources/code/KLStructure.py:37-44 | a failed override raises for the first key, in mask order, that is not a factor name, and names that key |
| KLStructure.OverrideLevels | ExpAssets/Resources/code/KLStructure.py:36-42 | a successful override gives each masked factor its coerced new levels and leaves every other factor's levels unchanged |
| KLStructure.OverrideScalar | ExpAssets/Resources/code/KLStructure.py:40-41 | overriding a factor with a single value yields the one-element level list of that value |
| KLStructure.MakeBlock | ExpAssets/Resources/code/KLStructure.py:64-70 | `trialcount` is `trials` when that is given and non-zero, and `set_length` otherwise; label, factors and practice flag are kept |
| KLStructure.BlockFactors | ExpAssets/Resources/code/KLStructure.py:90-93 | `Block.factors` lists the block's factor names in order |
| KLStructure.ChunkedPrefix | ExpAssets/Resources/code/KLStructure.py:81-82 | cutting a list of shuffled draws short keeps it a list of shuffled draws |
| KLStructure.ChunkedAppend | ExpAssets/Resources/code/KLStructure.py:77-83 | appending one whole shuffled copy, or a shuffled copy cut short, to whole copies keeps the chunk shape |
| KLStructure.MultipleOf | ExpAssets/Resources/code/KLStructure.py:77-83 | k*n is a chunk boundary for chunks of n |
| KLStructure.ChunkAtBoundary | ExpAssets/Resources/code/KLStructure.py:77-83 | the chunk starting at any chunk boundary is a permutation of all combinations |
| KLStructure.ChunkIsPermutation | ExpAssets/Resources/code/KLStructure.py:77-83 | without `full_shuffle`, the k-th chunk of `set_length` trials is a permutation of all combinations |
| KLStructure.LastChunkIsSubset | ExpAssets/Resources/code/KLStructure.py:81-83 | the trailing partial chunk is a sub-multiset of one copy of the combinations |
| KLStructure.ChunkedMembers | ExpAssets/Resources/code/KLStructure.py:77-83 | every generated trial is one of the block's combinations |
| KLStructure.Draw | ExpAssets/Resources/code/KLStructure.py:78-82 | one loop pass yields a shuffled copy of all combinations, cut to the trials still missing |
| KLStructure.GetTrials | ExpAssets/Resources/code/KLStructure.py:72-88 | exactly `trialcount` trials (none when not positive), each a combination; chunked into shuffled copies without `full_shuffle`, a permutation of such a list with it |
| Shuffling.Random.Below | ExpAssets/Resources/code/KLStructure.py:80 | the random index `random.shuffle` draws is below its bound |
| Shuffling.Shuffle | ExpAssets/Resources/code/KLStructure.py:80 | `random.shuffle` permutes the list in place |
| Shuffling.Shuffled | ExpAssets/Resources/code/KLStructure.py:85-86 | shuffling a list yields a permutation of the same length |
| ExpStructure.EndoOverrideSucceeds | ExpAssets/Resources/code/exp_structure.py:37-40 | the endogenous override names only existing factors, so it does not raise |
| ExpStructure.EndoFactors | ExpAssets/Resources/code/exp_structure.py:37-40 | `endo_factors` is the value of a successful `override` of `exo_factors` by the cue-type and trial-type mask |
| ExpStructure.Blocks | ExpAssets/Resources/code/exp_structure.py:51-58 | a block order lists, position by position, the blocks its entries name |
| ExpStructure.Structure | ExpAssets/Resources/code/exp_structure.py:63-66 | `structure` is `exo_first` iff the condition is "exo", and `endo_first` for any other condition |
| ExpStructure.EndoSameNames | ExpAssets/Resources/code/exp_structure.py:28-40 | the endogenous set has the exogenous set's factor names in the same order |
| ExpStructure.EndoLevels | ExpAssets/Resources/code/exp_structure.py:37-40 | the endogenous set differs from the exogenous one only in `cue_type` (valid, valid, invalid) and `trial_type` (endo) |
| ExpStructure.ExoSetLength | ExpAssets/Resources/code/exp_structure.py:28-35 | the exogenous set has 2·2·2·2·3·1 = 48 combinations |
| ExpStructure.ProductFrom | ExpAssets/Resources/code/KLStructure.py:22 | the product over a suffix of the factors is the first factor's level count times the product over the rest |
| ExpStructure.EndoShapeProduct | ExpAssets/Resources/code/exp_structure.py:37-40 | six factors of 2, 3, 2, 2, 3 and 1 levels have 72 combinations |
| ExpStructure.EndoSetLength | ExpAssets/Resources/code/exp_structure.py:37-40 | the endogenous set has 2·3·2·2·3·1 = 72 combinations |
| ExpStructure.BlockSizes | ExpAssets/Resources/code/exp_structure.py:45-49 | practice blocks have 24 trials and are practice; the full blocks have 48 and 72 trials and are not |
| ExpStructure.PracticeKinds | ExpAssets/Resources/code/exp_structure.py:45-49 | a block is a practice block iff it is `exo_practice` or `endo_practice` |
| ExpStructure.PracticePosition | ExpAssets/Resources/code/exp_structure.py:51-58 | in both orders, position i names a practice block iff i is a multiple of 3 |
| ExpStructure.OrderShape | ExpAssets/Resources/code/exp_structure.py:51-58 | both orders have 12 blocks, with practice blocks exactly at positions 0, 3, 6 and 9 |
| ExpStructure.MirrorPosition | ExpAssets/Resources/code/exp_structure.py:51-58 | each position of `endo_first` names the other task's block of the same kind as `exo_first`, and the reverse |
| ExpStructure.OrdersMirror | ExpAssets/Resources/code/exp_structure.py:51-58 | `endo_first` is `exo_first` with exo and endo blocks swapped position by position, and the reverse |
| KLGamepad.Lower | ExpAssets/Resources/code/KLGamepad.py:60 | `.lower()` on one character: upper-case letters move to lower case and everything else is unchanged |
| KLGamepad.Normalize | ExpAssets/Resources/code/KLGamepad.py:60 | the normalised name is no longer than the raw one and holds no whitespace, `_`, `-` or upper-case letter |
| KLGamepad.NormalizeIdempotent | ExpAssets/Resources/code/KLGamepad.py:60 | normalising a normalised name changes nothing |
| KLGamepad.NormalizeAppend | ExpAssets/Resources/code/KLGamepad.py:60 | normalisation works character by character: normalising a concatenation concatenates the normalised parts |
| KLGamepad.NormalizeIgnoresCase | ExpAssets/Resources/code/KLGamepad.py:60 | an upper-case letter normalises as its lower-case form |
| KLGamepad.NormalizeOne | ExpAssets/Resources/code/KLGamepad.py:60 | one character normalises to nothing if stripped, else to its lower-case form |
| KLGamepad.NormalizeIgnoresSeparator | ExpAssets/Resources/code/KLGamepad.py:60 | inserting whitespace, `_` or `-` does not change the normalised name |
| KLGamepad.GetAxis | ExpAssets/Resources/code/KLGamepad.py:59-65 | `_get_axis` succeeds iff the normalised name is a known axis, returns its identifier, and otherwise raises naming the raw name |
| KLGamepad.GetButton | ExpAssets/Resources/code/KLGamepad.py:67-72 | `_get_button` succeeds iff the normalised name is a known button, returns its identifier, and otherwise raises naming the raw name |
| KLGamepad.LookupInsensitive | ExpAssets/Resources/code/KLGamepad.py:59-72 | two spellings with the same normalised form find the same axis and the same button |
| KLGamepad.Truncate | ExpAssets/Resources/code/KLGamepad.py:86 | Python's `int()` truncates toward zero: the result lies within 1 of the input, on the zero side |
| KLGamepad.ScaleThreshold | ExpAssets/Resources/code/KLGamepad.py:86 | a threshold in [-1, 1] scales to an integer in [-32767, 32767] with the threshold's sign |
| KLGamepad.ParseItems | ExpAssets/Resources/code/KLGamepad.py:83-89 | one label's items parse iff every item is a known button or a non-empty dictionary whose first key is a known axis; otherwise the error is the first invalid item's |
| KLGamepad.ParsedItemsNonEmpty | ExpAssets/Resources/code/KLGamepad.py:84-85 | a parse that succeeded read a first entry from every dictionary item |
| KLGamepad.ParseItemsButtons | ExpAssets/Resources/code/KLGamepad.py:88-89 | the parsed buttons are the looked-up button names, one per string item, in item order |
| KLGamepad.ParseItemsAxes | ExpAssets/Resources/code/KLGamepad.py:84-87 | the parsed axes are the looked-up first keys of the dictionary items with `int(threshold*32767)`, in item order |
| KLGamepad.ParseItemsAxesFrom | ExpAssets/Resources/code/KLGamepad.py:84-87 | the parsed axis conditions and the dictionaries' first entries agree position by position, looked up and scaled |
| KLGamepad.ParseMappings | ExpAssets/Resources/code/KLGamepad.py:74-91 | `_parse_mappings` succeeds iff every label parses, then gives one entry per label in order with that label's conditions; otherwise it raises the first failing label's error |
| KLGamepad.ParseSingleButton | ExpAssets/Resources/code/KLGamepad.py:81-82 | a string mapping becomes exactly one button and no axis |
| KLGamepad.AxisDictShape | ExpAssets/Resources/code/KLGamepad.py:79-80 | a dictionary mapping becomes one single-entry item per key, in order, none of them a button |
| KLGamepad.ParseAxisDict | ExpAssets/Resources/code/KLGamepad.py:79-87 | a dictionary of known axes becomes one axis condition per key with the scaled threshold, and no button |
| KLGamepad.ButtonUnsetKept | ExpAssets/Resources/code/KLGamepad.py:118-122 | a button that no event of the batch sets keeps its old entry, or its absence |
| KLGamepad.ButtonLastSet | ExpAssets/Resources/code/KLGamepad.py:118-122 | after a batch, a button holds the state of the last button event on it |
| KLGamepad.AxisUnsetKept | ExpAssets/Resources/code/KLGamepad.py:123-124 | an axis with no motion event in the batch keeps its old entry, or its absence |
| KLGamepad.AxisLastSet | ExpAssets/Resources/code/KLGamepad.py:123-124 | after a batch, an axis holds the value of the last motion event on it |
| KLGamepad.ApplyButtonsKeys | ExpAssets/Resources/code/KLGamepad.py:118-122 | after a batch a button has a state entry iff it had one before or some button event of the batch set it |
| KLGamepad.ApplyAxesKeys | ExpAssets/Resources/code/KLGamepad.py:123-124 | after a batch an axis has a state entry iff it had one before or some motion event of the batch set it |
| KLGamepad.TriggerMovedSnoc | ExpAssets/Resources/code/KLGamepad.py:117-126 | `trigger_update` after one more event is set iff it was already set or the event is motion on either trigger |
| KLGamepad.TriggerUnmovedKept | ExpAssets/Resources/code/KLGamepad.py:117-126 | a batch with no trigger motion leaves both trigger entries, and their absence, as they were |
| KLGamepad.ApplyKeepsKeys | ExpAssets/Resources/code/KLGamepad.py:118-124 | applying a batch never removes a state entry |
| KLGamepad.FirstSatisfied | ExpAssets/Resources/code/KLGamepad.py:136-159 | the answer is a label whose buttons are all nonzero and whose axes all meet their thresholds, with no such label before it; no answer iff no label qualifies |
| KLGamepad.Meets | ExpAssets/Resources/code/KLGamepad.py:146-150 | a met axis condition with a non-zero threshold puts the axis on the threshold's side of zero |
| KLGamepad.ZeroStateSatisfied | ExpAssets/Resources/code/KLGamepad.py:136-153 | on a state of zeros, as `_reset_state` leaves it, a label is satisfied iff it has no button and all its axis thresholds are 0 |
| KLGamepad.FirstSatisfiedAt | ExpAssets/Resources/code/KLGamepad.py:136-156 | a satisfied label with no satisfied label before it is the answer |
| KLGamepad.FirstSatisfiedNone | ExpAssets/Resources/code/KLGamepad.py:136-159 | if no label is satisfied, there is no answer |
| KLGamepad.MappedContains | ExpAssets/Resources/code/KLGamepad.py:97-101 | every button and axis of a label is among those the map mentions |
| KLGamepad.FindResponse | ExpAssets/Resources/code/KLGamepad.py:136-157 | the label loop of `listen` (buttons first, then axes, stopping at the first failure) returns exactly the first satisfied label |
| KLGamepad.ZeroButtons | ExpAssets/Resources/code/KLGamepad.py:98-99 | each of a label's buttons gets a zero entry, and all entries stay zero |
| KLGamepad.ZeroAxes | ExpAssets/Resources/code/KLGamepad.py:100-101 | each of a label's axes gets a zero entry, and all entries stay zero |
| KLGamepad.GamepadResponse.constructor | ExpAssets/Resources/code/KLGamepad.py:45-54 | a new listener has no map, no state and no trigger samples |
| KLGamepad.GamepadResponse.SetResponseMap | ExpAssets/Resources/code/KLGamepad.py:169-172 | the setter stores the parsed map and the user map; on a parse error it raises and nothing changes |
| KLGamepad.GamepadResponse.ResetState | ExpAssets/Resources/code/KLGamepad.py:93-101 | afterwards exactly the mapped buttons and axes have state, all of it 0, and the trigger-sample list is empty |
| KLGamepad.GamepadResponse.Init | ExpAssets/Resources/code/KLGamepad.py:103-111 | `init` resets the state, and raises iff the parsed map is empty |
| KLGamepad.GamepadResponse.Listen | ExpAssets/Resources/code/KLGamepad.py:113-159 | the state becomes the batch applied in order; the `KeyError` of lines 131-132 is returned iff a trigger moved and a trigger entry is missing, and then no sample is added; otherwise one sample with the post-batch trigger values is appended iff a trigger moved, and the answer is the first satisfied label with the elapsed time, or none |
| Experiment.Kept | experiment.py:165-168 | the practice filter keeps at most the structure's blocks |
| Experiment.KeptMembers | experiment.py:165-168 | a block is run iff it is in the structure and practice is on or it is not a practice block |
| Experiment.KeptAll | experiment.py:165-168 | with practice on, every block is run in the structure's order |
| Experiment.KeptNoPractice | experiment.py:165-168 | with practice off, exactly the non-practice blocks are run |
| Experiment.SliceLength | experiment.py:171 | the length of `s[:m]`: m when 0 ≤ m ≤ len, len when m is larger, and len+m floored at 0 when m is negative |
| Experiment.Head | experiment.py:171 | `s[:m]` is the prefix of `s` of that length |
| Experiment.BlockLength | experiment.py:169-171 | a run block's length is its trial count, cut to `max_trials_per_block` when that is set |
| Experiment.MaxWidthIsMax | experiment.py:180-182 | the width loop over levels reaches the maximum of the start width and every level's `len(str(level))`, and attains one of them |
| Experiment.Widen | experiment.py:178-182 | one factor's step adds its name as a key, leaves other entries alone, never narrows the entry, and makes it at least `len(str(level))` for each level |
| Experiment.PadAfterKeys | experiment.py:177-179 | `col_pad` gains exactly the factor names as keys |
| Experiment.PadAfterWide | experiment.py:178-182 | every entry stays at least as wide as its name |
| Experiment.PadAfterGrows | experiment.py:178-182 | entries only grow, and names outside the block keep their widths |
| Experiment.NameSetSnoc | experiment.py:177 | the names of the factors plus one more are the old names plus its name |
| Experiment.PadAfterCovers | experiment.py:177-182 | `col_pad[f]` is at least `len(f)` and at least `len(str(level))` for every level of `f` |
| Experiment.PadAfterAttained | experiment.py:177-182 | each width is the initial one or the length of a name or of one of its levels, so `col_pad` holds the maxima |
| Experiment.WidenFactor | experiment.py:178-182 | the loop for one factor computes the widened entry |
| Experiment.UpdateColPad | experiment.py:176-182 | the loop over a block's factors computes the widened table |
| Experiment.CoversGrow | experiment.py:176-182 | a table that covers some factors still covers them after it grows |
| Experiment.PadAfterBlocksCovers | experiment.py:165-182 | the final table covers every factor of every run block, and every entry is as wide as its name |
| Experiment.KeptStep | experiment.py:165-168 | one more structure block is run, or skipped if it is practice and practice is off |
| Experiment.GeneratedSkip | experiment.py:166-167 | skipping a practice block leaves labels, trial lists and widths unchanged |
| Experiment.RunsAppend | experiment.py:168-194 | a run block appends its label and trial list in lockstep |
| Experiment.PadAfterBlocksSnoc | experiment.py:176-182 | one more block's table is the previous table widened by its factors |
| Experiment.GeneratedKeep | experiment.py:168-194 | a run block appends its label and truncated trial list and widens the table |
| Experiment.BlockTrials | experiment.py:169-171 | a run block's trials number `BlockLength`, and are chunked into shuffled copies of its combinations |
| Experiment.GenerateBlock | experiment.py:165-194 | one pass of the block loop keeps labels, trial lists and widths in step with the blocks run so far |
| Experiment.GenerateTrials | experiment.py:152-202 | `block_labels` and `block_set` have one entry per run block in order; each trial list has the truncated length and is chunked into shuffled copies; `col_pad` is the table over the run blocks' factors |
| Experiment.KindTerminates | ExpAssets/Resources/code/exp_structure.py:45-49 | each CAST block can be generated: a positive trial count comes with a non-empty factor set |
| Experiment.OrderTerminates | ExpAssets/Resources/code/exp_structure.py:51-58 | every block of a CAST order can be generated |
| Experiment.StructureTerminates | ExpAssets/Resources/code/exp_structure.py:63-66 | every block of the chosen structure can be generated, for any condition |
| Experiment.Opposite | experiment.py:272-283 | the other fish is never the same fish |
| Experiment.TargetSide | experiment.py:262-267 | the target goes on the left iff `target_location` is "left" |
| Experiment.TargetFish | experiment.py:270-279 | the target fish faces left iff `target_direction` is "left" |
| Experiment.FlankerFish | experiment.py:269-285 | the flanker is the target's fish when congruent, the opposite fish when incongruent, and none otherwise |
| Experiment.Soa | experiment.py:296 | the SOA is 200 iff the trial type is "exo", and 1000 otherwise |
| Experiment.Schedule | experiment.py:296-300 | three events: warning_on at `onset_delay`, warning_off 100 ms after it and target_on `soa` after it, in increasing order whenever `soa` exceeds 100 |
| Experiment.ScheduleOrdered | experiment.py:296-300 | the events are warning_on at `onset_delay`, warning_off 100 ms later and target_on SOA ms after warning_on, in increasing order |
| Experiment.BreakDue | experiment.py:305-306 | a break is shown iff the trial number is 24k+1 for some k ≥ 1, i.e. above 1 and one more than a multiple of 24 |
| Experiment.BreakSpacing | experiment.py:305-306 | after a break, the next one comes exactly 24 trials later |
| Experiment.CastTrial.Prep | experiment.py:259-306 | `trial_prep` sets placement, fish, flanker, SOA and schedule as above, and shows a break iff one is due |
| Experiment.SummarizeTriggers | experiment.py:314-377 | each trigger maximum starts at 0, is at least every sample and is 0 or one of them; the last values are the final sample's, or 0 when there is none |
| Experiment.TrialOutcome | experiment.py:365-389 | NA iff timeout; otherwise accuracy is 1 iff the response matches the target direction, and the non-responding trigger is the right one for "left" and the left one otherwise (0 without a gamepad) |
| Experiment.TriggerPressed | experiment.py:703-715 | true iff some event is motion on either trigger with value/32767 above the threshold |
| Experiment.DefaultThresholdRaw | experiment.py:703-712 | with the default threshold 0.1, a trigger event counts iff ten times its raw value exceeds 32767 |
| Experiment.TriggerPressedByDefault | experiment.py:703-715 | `trigger_pressed(q)` without a threshold is true iff some trigger motion event's raw value exceeds a tenth of 32767 |

## Left out

- Rendering, text, audio and the pink-noise generation are left out. They are foreign graphics and audio libraries working on floats.
- The event-pump wait loops, `check_anticipatory`, `wait_for_input` and `wait_msg` are left out. They poll SDL's event system.
- The fixation delay drawn with `random.expovariate` is left out. `CastTrial.Prep` takes the resulting `onset_delay` as an integer input.
- The writing of `trial_dump.txt` and the `ljust` formatting are left out; only the `col_pad` numbers are modelled. `P.blocks_per_experiment` is the length of the returned `blockSet`.
- `Experiment.GenerateTrials`: a run block's entry is its trial list. The `TrialIterator` wrapper and its `practice` flag are not modelled.
- `Experiment.GenerateTrials`: the precondition that every block terminates stands for the source looping forever when a block asks for trials from an empty product. `StructureTerminates` proves the CAST structure meets it.
- `KLStructure.GetTrials`: the precondition that a positive trial count needs a non-empty product states the source's non-termination in that case.
- The SDL name lookups `SDL_GameControllerGet*FromString` are modelled as a catalog of maps from normalised names to identifiers. `pad.update()` and controller discovery are left out.
- `KLGamepad.Normalize`: removes the ASCII whitespace characters, `_` and `-`, and lower-cases ASCII letters only. Python's Unicode-aware `\s` and `.lower()` are not modelled.
- `KLGamepad.ScaleThreshold`: thresholds and the `trigger_pressed` test are exact reals, not binary floating point.
- `Experiment.SummarizeTriggers`: works on raw trigger values. `TriggerData.left`/`right` divide by 32767, which does not change which sample is largest, so the maxima and last values are the normalised ones times 32767.
- `TriggerData.timestamp` is left out. It returns `self.time`, which is never set (only `_time` is).
- The clock `evm.trial_time_ms - _rc_start` is one `elapsed` parameter of `Listen`. It serves both as the sample time and as the reaction time.
- `KLGamepad.GamepadResponse.Listen`: requires that every mapped button and axis has a state entry, as `init` leaves it. The framework calls `init` before `listen`; without it the source raises `KeyError` in the label loop.
- `KLGamepad.GamepadResponse.Listen`: the `KeyError` raised when a trigger moves while the other trigger has no state entry is the result `MissingTriggerState`. That path appends no sample and resolves no label.
- `KLGamepad.GamepadResponse.constructor`: `__init__(mapping)` is the constructor followed by `SetResponseMap`. The `trigger_data` and `response_map` getters are reads of the fields `rawTriggerData` and `userMap`.
- `KLGamepad.GamepadResponse.ResetState`: builds the new state maps in locals and then assigns them, where the source clears the fields and fills them in place.
- `Shuffling.Random.Below`: a linear congruential generator stands in for Python's generator. Only its range is relied on, so the model says nothing about which permutation a shuffle picks.
- `ExpAssets/Config/CASTRedux_params.py` and `ExpAssets/Config/CASTRedux_independent_variables.py` are not part of this model. `condition`, `run_practice_blocks` and `max_trials_per_block` are parameters.
- The klibs classes `ResponseListener`, `TrialIterator`, `evm` and `Response` are not part of this model. The keypress branch of `trial()` is the `gamepad` flag of `TrialOutcome`.
- The mapping parser accepts button names, axis dictionaries and lists of these. Python values of other types, which the source would reject or mishandle, are not modelled.
