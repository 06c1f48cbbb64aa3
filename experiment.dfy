/** The decision logic of the CAST experiment runner: which blocks are run and
    how long each is, the column widths of the trial dump, the per-trial
    stimulus choices and event schedule, the break rule, the summary of a
    trial's trigger samples, and the trigger check used while waiting. */
module Experiment {
  import opened Results
  import opened KLStructure
  import opened ExpStructure
  import Shuffling
  import KLGamepad

  // ---------------------------------------------------------------------
  // generate_trials

  /** `get_trials` ends on this block: a positive trial count needs a
      non-empty factorial set to draw from. */
  predicate Terminates(b: Block)
  {
    b.trialcount > 0 ==> SetLength(b.factors) > 0
  }

  /** The blocks `generate_trials` keeps, in order: practice blocks are
      skipped when practice is not run. */
  function Kept(structure: seq<Block>, runPractice: bool): (r: seq<Block>)
    ensures |r| <= |structure|
  {
    if structure == [] then []
    else
      var last := structure[|structure| - 1];
      Kept(structure[..|structure| - 1], runPractice) + (if last.practice && !runPractice then [] else [last])
  }

  /** A block is kept exactly when it is in the structure and is either a
      full block or practice is run. */
  lemma {:induction false} KeptMembers(structure: seq<Block>, runPractice: bool)
    ensures forall b :: b in Kept(structure, runPractice) <==> b in structure && (runPractice || !b.practice)
  {
    if structure != [] {
      var init := structure[..|structure| - 1];
      var last := structure[|structure| - 1];
      KeptMembers(init, runPractice);
      assert structure == init + [last];
    }
  }

  /** With practice on, every block is run, in the structure's order. */
  lemma {:induction false} KeptAll(structure: seq<Block>)
    ensures Kept(structure, true) == structure
  {
    if structure != [] {
      KeptAll(structure[..|structure| - 1]);
      assert structure == structure[..|structure| - 1] + [structure[|structure| - 1]];
    }
  }

  /** The length of Python's `s[:m]` for a list of length `n`: a negative
      `m` counts from the end, and the result is never negative. */
  function SliceLength(n: nat, m: int): (r: nat)
    ensures r <= n
    ensures 0 <= m <= n ==> r == m
    ensures m > n ==> r == n
    ensures m < 0 ==> r == (if n + m > 0 then n + m else 0)
  {
    if m >= 0 then (if m <= n then m else n)
    else if n + m > 0 then n + m else 0
  }

  /** Python's `s[:m]`. */
  function Head<T>(s: seq<T>, m: int): (r: seq<T>)
    ensures |r| == SliceLength(|s|, m)
    ensures r == s[..|r|]
  {
    if m >= 0 then (if m <= |s| then s[..m] else s)
    else if |s| + m > 0 then s[..|s| + m] else []
  }

  /** How many trials a kept block runs: its trial count (none when it is
      not positive), cut to the per-block maximum when one is set. */
  function BlockLength(b: Block, maxTrials: Option<int>): (r: nat)
    ensures maxTrials.None? ==> r == (if b.trialcount > 0 then b.trialcount else 0)
    ensures maxTrials.Some? ==> r == SliceLength(if b.trialcount > 0 then b.trialcount else 0, maxTrials.value)
  {
    var n: nat := if b.trialcount > 0 then b.trialcount else 0;
    if maxTrials.Some? then SliceLength(n, maxTrials.value) else n
  }

  /** A width table covers the factors `factors[..upTo]`: each name has an
      entry at least as wide as the name and as every level written out. */
  predicate Covers(colPad: map<string, nat>, factors: seq<Factor>, upTo: nat)
    requires upTo <= |factors|
  {
    forall n :: 0 <= n < upTo ==>
      factors[n].name in colPad
      && colPad[factors[n].name] >= |factors[n].name|
      && forall l :: l in factors[n].levels ==> colPad[factors[n].name] >= |Str(l)|
  }

  /** `w` is the width of name `k` or of one of its levels, for a factor
      among `factors[..upTo]`. */
  predicate Reaches(w: nat, k: string, factors: seq<Factor>, upTo: nat)
    requires upTo <= |factors|
  {
    exists n :: 0 <= n < upTo && factors[n].name == k
      && (w == |k| || exists l :: l in factors[n].levels && w == |Str(l)|)
  }

  /** Every entry is at least as wide as its name, as the table is built. */
  predicate WideEnough(colPad: map<string, nat>)
  {
    forall k :: k in colPad ==> colPad[k] >= |k|
  }

  /** The widest of `w` and the written-out levels. */
  function MaxWidth(w: nat, levels: seq<Level>): nat
  {
    if levels == [] then w
    else
      var m := MaxWidth(w, levels[..|levels| - 1]);
      var v := |Str(levels[|levels| - 1])|;
      if v > m then v else m
  }

  /** The `col_pad` step for one factor: an entry as wide as the name the
      first time the name is seen, then widened to each wider level. */
  function Widen(colPad: map<string, nat>, f: Factor): (r: map<string, nat>)
    ensures r.Keys == colPad.Keys + {f.name}
    ensures forall n :: n in colPad && n != f.name ==> r[n] == colPad[n]
    ensures r[f.name] >= (if f.name in colPad then colPad[f.name] else |f.name|)
    ensures forall l :: l in f.levels ==> r[f.name] >= |Str(l)|
  {
    var w0 := if f.name in colPad then colPad[f.name] else |f.name|;
    MaxWidthIsMax(w0, f.levels);
    colPad[f.name := MaxWidth(w0, f.levels)]
  }

  /** The `col_pad` table after the factors, in order. */
  function PadAfter(colPad: map<string, nat>, factors: seq<Factor>): map<string, nat>
  {
    if factors == [] then colPad
    else Widen(PadAfter(colPad, factors[..|factors| - 1]), factors[|factors| - 1])
  }

  /** The widest level is at least `w` and every level, and is `w` or one of
      them. */
  lemma {:induction false} MaxWidthIsMax(w: nat, levels: seq<Level>)
    ensures MaxWidth(w, levels) >= w
    ensures forall l :: l in levels ==> MaxWidth(w, levels) >= |Str(l)|
    ensures MaxWidth(w, levels) == w || exists l :: l in levels && MaxWidth(w, levels) == |Str(l)|
  {
    if levels != [] {
      var init := levels[..|levels| - 1];
      MaxWidthIsMax(w, init);
      assert levels == init + [levels[|levels| - 1]];
      if MaxWidth(w, levels) != w && MaxWidth(w, levels) == MaxWidth(w, init) {
        var l :| l in init && MaxWidth(w, init) == |Str(l)|;
        assert l in levels;
      }
    }
  }

  /** The table gains exactly the factor names as keys. */
  lemma {:induction false} PadAfterKeys(colPad: map<string, nat>, factors: seq<Factor>)
    ensures PadAfter(colPad, factors).Keys == colPad.Keys + NameSet(factors)
  {
    if factors != [] {
      var init := factors[..|factors| - 1];
      var f := factors[|factors| - 1];
      PadAfterKeys(colPad, init);
      NameSetSnoc(init, f);
      assert factors == init + [f];
    }
  }

  /** A table built this way stays at least as wide as its names. */
  lemma {:induction false} PadAfterWide(colPad: map<string, nat>, factors: seq<Factor>)
    requires WideEnough(colPad)
    ensures WideEnough(PadAfter(colPad, factors))
  {
    if factors != [] {
      var init := factors[..|factors| - 1];
      var f := factors[|factors| - 1];
      PadAfterWide(colPad, init);
      var before := PadAfter(colPad, init);
      MaxWidthIsMax(if f.name in before then before[f.name] else |f.name|, f.levels);
    }
  }

  /** Entries only grow, and names outside the factors keep their widths. */
  lemma {:induction false} PadAfterGrows(colPad: map<string, nat>, factors: seq<Factor>)
    ensures forall k :: k in colPad ==> k in PadAfter(colPad, factors) && PadAfter(colPad, factors)[k] >= colPad[k]
    ensures forall k :: k in colPad && k !in NameSet(factors) ==> PadAfter(colPad, factors)[k] == colPad[k]
  {
    if factors != [] {
      var init := factors[..|factors| - 1];
      var f := factors[|factors| - 1];
      PadAfterGrows(colPad, init);
      var before := PadAfter(colPad, init);
      MaxWidthIsMax(if f.name in before then before[f.name] else |f.name|, f.levels);
      NameSetSnoc(init, f);
      assert factors == init + [f];
    }
  }

  lemma NameSetSnoc(init: seq<Factor>, f: Factor)
    ensures NameSet(init + [f]) == NameSet(init) + {f.name}
  {
    var s := init + [f];
    forall k | k in NameSet(s) ensures k in NameSet(init) + {f.name} {
      var g :| g in s && g.name == k;
      if g != f {
        assert g in init;
      }
    }
    forall k | k in NameSet(init) + {f.name} ensures k in NameSet(s) {
      if k != f.name {
        var g :| g in init && g.name == k;
        assert g in s;
      } else {
        assert f in s;
      }
    }
  }

  /** The table covers every factor: as wide as its name and every level. */
  lemma {:induction false} PadAfterCovers(colPad: map<string, nat>, factors: seq<Factor>)
    requires WideEnough(colPad)
    ensures Covers(PadAfter(colPad, factors), factors, |factors|)
  {
    if factors != [] {
      var init := factors[..|factors| - 1];
      var f := factors[|factors| - 1];
      PadAfterCovers(colPad, init);
      PadAfterWide(colPad, init);
      var before := PadAfter(colPad, init);
      var r := PadAfter(colPad, factors);
      MaxWidthIsMax(if f.name in before then before[f.name] else |f.name|, f.levels);
      forall n | 0 <= n < |factors|
        ensures factors[n].name in r && r[factors[n].name] >= |factors[n].name|
          && forall l :: l in factors[n].levels ==> r[factors[n].name] >= |Str(l)|
      {
        if n < |init| {
          assert factors[n] == init[n];
        }
      }
    }
  }

  /** Every width the table holds is one it started with, or that of a
      name or a level of the factors: the table holds the maxima. */
  lemma {:induction false} PadAfterAttained(colPad: map<string, nat>, factors: seq<Factor>)
    ensures forall k :: k in PadAfter(colPad, factors) ==>
      (k in colPad && PadAfter(colPad, factors)[k] == colPad[k])
      || Reaches(PadAfter(colPad, factors)[k], k, factors, |factors|)
  {
    if factors != [] {
      var init := factors[..|factors| - 1];
      var f := factors[|factors| - 1];
      PadAfterAttained(colPad, init);
      var before := PadAfter(colPad, init);
      var r := PadAfter(colPad, factors);
      var w0 := if f.name in before then before[f.name] else |f.name|;
      MaxWidthIsMax(w0, f.levels);
      forall k | k in r
        ensures (k in colPad && r[k] == colPad[k]) || Reaches(r[k], k, factors, |factors|)
      {
        if k != f.name || (f.name in before && r[k] == before[k]) {
          if !(k in colPad && r[k] == colPad[k]) {
            var n :| 0 <= n < |init| && init[n].name == k
              && (before[k] == |k| || exists l :: l in init[n].levels && before[k] == |Str(l)|);
            assert factors[n] == init[n];
          }
        } else if r[k] == |k| {
          assert factors[|factors| - 1].name == k;
        } else {
          var l :| l in f.levels && r[k] == |Str(l)|;
          assert factors[|factors| - 1].name == k;
        }
      }
    }
  }

  /** The `col_pad` step for one factor, as `Widen` describes it. */
  method WidenFactor(colPad: map<string, nat>, f: Factor) returns (r: map<string, nat>)
    ensures r == Widen(colPad, f)
  {
    r := colPad;
    if f.name !in r {
      r := r[f.name := |f.name|];
    }
    ghost var start := r;
    var j := 0;
    while j < |f.levels|
      invariant 0 <= j <= |f.levels|
      invariant r == start[f.name := MaxWidth(start[f.name], f.levels[..j])]
    {
      assert f.levels[..j + 1][..j] == f.levels[..j];
      var w := |Str(f.levels[j])|;
      if w > r[f.name] {
        r := r[f.name := w];
      }
      j := j + 1;
    }
    assert f.levels[..j] == f.levels;
  }

  /** The `col_pad` loop for one block: the table `PadAfter` describes. */
  method UpdateColPad(colPad: map<string, nat>, fs: FactorSet) returns (r: map<string, nat>)
    ensures r == PadAfter(colPad, fs.factors)
  {
    var factors := fs.factors;
    r := colPad;
    var i := 0;
    while i < |factors|
      invariant 0 <= i <= |factors|
      invariant r == PadAfter(colPad, factors[..i])
    {
      assert factors[..i + 1][..i] == factors[..i];
      r := WidenFactor(r, factors[i]);
      i := i + 1;
    }
    assert factors[..i] == factors;
  }

  /** The width table after the blocks' factors, block by block. */
  function PadAfterBlocks(colPad: map<string, nat>, blocks: seq<Block>): map<string, nat>
  {
    if blocks == [] then colPad
    else PadAfter(PadAfterBlocks(colPad, blocks[..|blocks| - 1]), blocks[|blocks| - 1].factors.factors)
  }

  /** A table that covers some factors still covers them once it has grown. */
  lemma CoversGrow(a: map<string, nat>, b: map<string, nat>, factors: seq<Factor>)
    requires Covers(a, factors, |factors|)
    requires forall k :: k in a ==> k in b && b[k] >= a[k]
    ensures Covers(b, factors, |factors|)
  {
  }

  /** The finished table covers every factor of every kept block, and is
      at least as wide as every name it holds. */
  lemma {:induction false} PadAfterBlocksCovers(blocks: seq<Block>)
    ensures WideEnough(PadAfterBlocks(map[], blocks))
    ensures forall i :: 0 <= i < |blocks| ==>
      Covers(PadAfterBlocks(map[], blocks), blocks[i].factors.factors, |blocks[i].factors.factors|)
  {
    if blocks != [] {
      var init := blocks[..|blocks| - 1];
      var last := blocks[|blocks| - 1].factors.factors;
      PadAfterBlocksCovers(init);
      var before := PadAfterBlocks(map[], init);
      var after := PadAfterBlocks(map[], blocks);
      PadAfterWide(before, last);
      PadAfterCovers(before, last);
      PadAfterGrows(before, last);
      forall i | 0 <= i < |blocks|
        ensures Covers(after, blocks[i].factors.factors, |blocks[i].factors.factors|)
      {
        if i < |init| {
          assert blocks[i] == init[i];
          CoversGrow(before, after, blocks[i].factors.factors);
        }
      }
    }
  }

  /** The runs built for the kept blocks: one label and one trial list per
      block, in order, each list as long as `BlockLength` says and made of
      shuffled whole copies of the block's combinations. */
  ghost predicate Runs(blockSet: seq<seq<Trial>>, blockLabels: seq<string>, kept: seq<Block>, maxTrials: Option<int>)
  {
    && |blockSet| == |kept|
    && |blockLabels| == |kept|
    && forall i :: 0 <= i < |kept| ==>
      && blockLabels[i] == kept[i].blockLabel
      && |blockSet[i]| == BlockLength(kept[i], maxTrials)
      && Chunked(blockSet[i], Combinations(kept[i].factors.factors))
  }

  /** The state `generate_trials` has reached after the first `n` blocks of
      the structure. */
  ghost predicate Generated(structure: seq<Block>, runPractice: bool, maxTrials: Option<int>, n: nat,
                            blockSet: seq<seq<Trial>>, blockLabels: seq<string>, colPad: map<string, nat>)
  {
    && n <= |structure|
    && Runs(blockSet, blockLabels, Kept(structure[..n], runPractice), maxTrials)
    && colPad == PadAfterBlocks(map[], Kept(structure[..n], runPractice))
  }

  lemma KeptStep(structure: seq<Block>, runPractice: bool, n: nat)
    requires n < |structure|
    ensures structure[n].practice && !runPractice ==>
      Kept(structure[..n + 1], runPractice) == Kept(structure[..n], runPractice)
    ensures !(structure[n].practice && !runPractice) ==>
      Kept(structure[..n + 1], runPractice) == Kept(structure[..n], runPractice) + [structure[n]]
  {
    assert structure[..n + 1][..n] == structure[..n];
  }

  /** Skipping a practice block changes nothing but the position. */
  lemma GeneratedSkip(structure: seq<Block>, runPractice: bool, maxTrials: Option<int>, n: nat,
                      blockSet: seq<seq<Trial>>, blockLabels: seq<string>, colPad: map<string, nat>)
    requires n < |structure| && structure[n].practice && !runPractice
    requires Generated(structure, runPractice, maxTrials, n, blockSet, blockLabels, colPad)
    ensures Generated(structure, runPractice, maxTrials, n + 1, blockSet, blockLabels, colPad)
  {
    KeptStep(structure, runPractice, n);
  }

  /** Appending one block's run keeps the runs in step with the blocks. */
  lemma RunsAppend(blockSet: seq<seq<Trial>>, blockLabels: seq<string>, kept: seq<Block>, maxTrials: Option<int>,
                   tmp: seq<Trial>, block: Block)
    requires Runs(blockSet, blockLabels, kept, maxTrials)
    requires |tmp| == BlockLength(block, maxTrials)
    requires Chunked(tmp, Combinations(block.factors.factors))
    ensures Runs(blockSet + [tmp], blockLabels + [block.blockLabel], kept + [block], maxTrials)
  {
    var set', labels', kept' := blockSet + [tmp], blockLabels + [block.blockLabel], kept + [block];
    forall i | 0 <= i < |kept'|
      ensures labels'[i] == kept'[i].blockLabel
      ensures |set'[i]| == BlockLength(kept'[i], maxTrials)
      ensures Chunked(set'[i], Combinations(kept'[i].factors.factors))
    {
      if i < |kept| {
        assert set'[i] == blockSet[i] && labels'[i] == blockLabels[i] && kept'[i] == kept[i];
      } else {
        assert set'[i] == tmp && labels'[i] == block.blockLabel && kept'[i] == block;
      }
    }
  }

  /** The column table of one more block is the old table widened by it. */
  lemma PadAfterBlocksSnoc(blocks: seq<Block>, block: Block)
    ensures PadAfterBlocks(map[], blocks + [block]) == PadAfter(PadAfterBlocks(map[], blocks), block.factors.factors)
  {
    assert (blocks + [block])[..|blocks|] == blocks;
  }

  /** Keeping a block appends its label and trial list and widens the
      column table by its factors. */
  lemma GeneratedKeep(structure: seq<Block>, runPractice: bool, maxTrials: Option<int>, n: nat,
                      blockSet: seq<seq<Trial>>, blockLabels: seq<string>, colPad: map<string, nat>,
                      tmp: seq<Trial>, colPad': map<string, nat>)
    requires n < |structure| && !(structure[n].practice && !runPractice)
    requires Generated(structure, runPractice, maxTrials, n, blockSet, blockLabels, colPad)
    requires |tmp| == BlockLength(structure[n], maxTrials)
    requires Chunked(tmp, Combinations(structure[n].factors.factors))
    requires colPad' == PadAfter(colPad, structure[n].factors.factors)
    ensures Generated(structure, runPractice, maxTrials, n + 1, blockSet + [tmp],
                      blockLabels + [structure[n].blockLabel], colPad')
  {
    KeptStep(structure, runPractice, n);
    var kept := Kept(structure[..n], runPractice);
    RunsAppend(blockSet, blockLabels, kept, maxTrials, tmp, structure[n]);
    PadAfterBlocksSnoc(kept, structure[n]);
  }

  /** One kept block's trial list: `get_trials` without the full shuffle,
      cut to the per-block maximum when one is set. */
  method BlockTrials(block: Block, maxTrials: Option<int>, rng: Shuffling.Random) returns (tmp: seq<Trial>)
    requires Terminates(block)
    modifies rng
    ensures |tmp| == BlockLength(block, maxTrials)
    ensures Chunked(tmp, Combinations(block.factors.factors))
  {
    tmp := GetTrials(block, false, rng);
    if maxTrials.Some? {
      ChunkedPrefix(tmp, Combinations(block.factors.factors), SliceLength(|tmp|, maxTrials.value));
      tmp := Head(tmp, maxTrials.value);
    }
  }

  /** One pass of the block loop of `generate_trials`: a practice block is
      skipped when practice is not run; any other block adds its label, its
      trial list and its factors' widths. */
  method GenerateBlock(structure: seq<Block>, runPractice: bool, maxTrials: Option<int>, n: nat,
                       blockSet: seq<seq<Trial>>, blockLabels: seq<string>, colPad: map<string, nat>,
                       rng: Shuffling.Random)
    returns (blockSet': seq<seq<Trial>>, blockLabels': seq<string>, colPad': map<string, nat>)
    requires n < |structure| && Terminates(structure[n])
    requires Generated(structure, runPractice, maxTrials, n, blockSet, blockLabels, colPad)
    modifies rng
    ensures Generated(structure, runPractice, maxTrials, n + 1, blockSet', blockLabels', colPad')
  {
    var block := structure[n];
    if block.practice && !runPractice {
      GeneratedSkip(structure, runPractice, maxTrials, n, blockSet, blockLabels, colPad);
      blockSet', blockLabels', colPad' := blockSet, blockLabels, colPad;
    } else {
      var tmp := BlockTrials(block, maxTrials, rng);
      colPad' := UpdateColPad(colPad, block.factors);
      GeneratedKeep(structure, runPractice, maxTrials, n, blockSet, blockLabels, colPad, tmp, colPad');
      blockSet' := blockSet + [tmp];
      blockLabels' := blockLabels + [block.blockLabel];
    }
  }

  /** `generate_trials`: for each block of the structure that is kept, its
      label, its trial list cut to the per-block maximum, and the dump's
      column widths.  `get_trials` is called without the full shuffle. */
  method GenerateTrials(structure: seq<Block>, runPractice: bool, maxTrials: Option<int>, rng: Shuffling.Random)
    returns (blockSet: seq<seq<Trial>>, blockLabels: seq<string>, colPad: map<string, nat>)
    requires forall i :: 0 <= i < |structure| ==> Terminates(structure[i])
    modifies rng
    ensures Runs(blockSet, blockLabels, Kept(structure, runPractice), maxTrials)
    ensures colPad == PadAfterBlocks(map[], Kept(structure, runPractice))
  {
    blockSet := [];
    blockLabels := [];
    colPad := map[];
    var n: nat := 0;
    while n < |structure|
      invariant Generated(structure, runPractice, maxTrials, n, blockSet, blockLabels, colPad)
    {
      blockSet, blockLabels, colPad := GenerateBlock(structure, runPractice, maxTrials, n, blockSet, blockLabels, colPad, rng);
      n := n + 1;
    }
    assert structure[..n] == structure;
  }

  /** Without practice, the kept blocks are exactly the full blocks of the
      structure; with it, the whole structure. */
  lemma KeptNoPractice(structure: seq<Block>)
    ensures forall b :: b in Kept(structure, false) ==> !b.practice
    ensures forall b :: b in structure && !b.practice ==> b in Kept(structure, false)
  {
    KeptMembers(structure, false);
  }

  lemma KindTerminates(k: BlockKind)
    ensures Terminates(BlockOf(k))
  {
    match k
    case ExoPracticeBlock | ExoBlock =>
      ExoSetLength();
      assert BlockOf(k).factors == ExoFactors;
    case EndoPracticeBlock | EndoBlock =>
      EndoSetLength();
      assert BlockOf(k).factors == EndoFactors();
  }

  lemma OrderTerminates(order: seq<BlockKind>)
    ensures forall i :: 0 <= i < |Blocks(order)| ==> Terminates(Blocks(order)[i])
  {
    var s := Blocks(order);
    forall i | 0 <= i < |s| ensures Terminates(s[i]) {
      KindTerminates(order[i]);
    }
  }

  /** Every block of the CAST structure lets `get_trials` finish. */
  lemma StructureTerminates(condition: string)
    ensures forall i :: 0 <= i < |Structure(condition)| ==> Terminates(Structure(condition)[i])
  {
    OrderTerminates(ExoFirstOrder);
    OrderTerminates(EndoFirstOrder);
  }

  // ---------------------------------------------------------------------
  // trial_prep

  /** Which side of fixation the target, and its flankers, are drawn on. */
  datatype Side = LeftSide | RightSide

  /** The two fish images, by the way they face. */
  datatype Fish = LeftFish | RightFish

  /** An event-manager ticket: an event name and its onset in ms from trial start. */
  datatype Ticket = Ticket(event: string, onset: int)

  function Opposite(f: Fish): (r: Fish)
    ensures r != f
  {
    if f == LeftFish then RightFish else LeftFish
  }

  /** The target and its flankers are placed on the left exactly when the
      trial's target location is "left". */
  function TargetSide(targetLocation: string): (r: Side)
    ensures r == LeftSide <==> targetLocation == "left"
  {
    if targetLocation == "left" then LeftSide else RightSide
  }

  /** The target fish faces left exactly when the target direction is
      "left". */
  function TargetFish(targetDirection: string): (r: Fish)
    ensures r == LeftFish <==> targetDirection == "left"
  {
    if targetDirection == "left" then LeftFish else RightFish
  }

  /** The flanker fish: the target's own fish when congruent, the other one
      when incongruent, none otherwise. */
  function FlankerFish(targetDirection: string, flankerType: string): (r: Option<Fish>)
    ensures flankerType == "congruent" ==> r == Some(TargetFish(targetDirection))
    ensures flankerType == "incongruent" ==> r == Some(Opposite(TargetFish(targetDirection)))
    ensures r.None? <==> flankerType != "congruent" && flankerType != "incongruent"
  {
    if targetDirection == "left" then
      if flankerType == "congruent" then Some(LeftFish)
      else if flankerType == "incongruent" then Some(RightFish)
      else None
    else
      if flankerType == "congruent" then Some(RightFish)
      else if flankerType == "incongruent" then Some(LeftFish)
      else None
  }

  /** Cue-target onset asynchrony: 200 ms for exogenous trials, 1000 ms for
      every other trial type. */
  function Soa(trialType: string): (r: int)
    ensures r == 200 <==> trialType == "exo"
    ensures r == 1000 <==> trialType != "exo"
  {
    if trialType == "exo" then 200 else 1000
  }

  /** The three tickets of a trial: warning on, warning off 100 ms later,
      target on `soa` ms after the warning. */
  function Schedule(onsetDelay: int, soa: int): (r: seq<Ticket>)
    ensures |r| == 3
    ensures r[0].event == "warning_on" && r[1].event == "warning_off" && r[2].event == "target_on"
    ensures r[0].onset == onsetDelay
    ensures r[1].onset - r[0].onset == 100 && r[2].onset - r[0].onset == soa
    ensures soa > 100 ==> r[0].onset < r[1].onset < r[2].onset
  {
    [Ticket("warning_on", onsetDelay), Ticket("warning_off", onsetDelay + 100), Ticket("target_on", onsetDelay + soa)]
  }

  /** For either trial type the schedule is the warning, its end 100 ms
      later, then the target, at strictly increasing times, with the target
      `Soa` after the warning. */
  lemma ScheduleOrdered(onsetDelay: int, trialType: string)
    ensures var s := Schedule(onsetDelay, Soa(trialType));
      && |s| == 3
      && s[0].event == "warning_on" && s[1].event == "warning_off" && s[2].event == "target_on"
      && s[0].onset == onsetDelay
      && s[1].onset == onsetDelay + 100
      && s[0].onset < s[1].onset < s[2].onset
      && s[2].onset - s[0].onset == Soa(trialType)
  {
  }

  /** A break comes before trials 25, 49, 73, ...: when the trial number is
      above 1 and one more than a multiple of 24. */
  function BreakDue(trialNumber: int): (r: bool)
    ensures r <==> exists k :: k >= 1 && trialNumber == 24 * k + 1
  {
    var due := trialNumber > 1 && (trialNumber - 1) % 24 == 0;
    assert due ==> trialNumber == 24 * ((trialNumber - 1) / 24) + 1 && (trialNumber - 1) / 24 >= 1;
    assert (exists k :: k >= 1 && trialNumber == 24 * k + 1) ==> due by {
      if exists k :: k >= 1 && trialNumber == 24 * k + 1 {
        var k :| k >= 1 && trialNumber == 24 * k + 1;
        assert (trialNumber - 1) % 24 == (24 * k) % 24 == 0;
      }
    }
    due
  }

  /** Breaks are 24 trials apart: after one, the next 23 trials have none and
      the 24th has one. */
  lemma BreakSpacing(n: int, j: int)
    requires BreakDue(n) && 0 < j <= 24
    ensures BreakDue(n + j) <==> j == 24
  {
    var k :| k >= 1 && n == 24 * k + 1;
    if j == 24 {
      assert n + j == 24 * (k + 1) + 1;
    } else {
      forall k' | k' >= 1 ensures n + j != 24 * k' + 1 {
        if k' <= k {
          assert 24 * k' <= 24 * k;
        } else {
          assert 24 * k' >= 24 * (k + 1);
        }
      }
    }
  }

  /** The trial attributes `trial_prep` sets, from the trial's factor levels. */
  class CastTrial {
    const targetLocation: string
    const targetDirection: string
    const flankerType: string
    const trialType: string

    var targetSide: Side
    var target: Fish
    var flanker: Option<Fish>
    var onsetDelay: int
    var soa: int
    var tickets: seq<Ticket>

    constructor (targetLocation: string, targetDirection: string, flankerType: string, trialType: string)
      ensures this.targetLocation == targetLocation && this.targetDirection == targetDirection
      ensures this.flankerType == flankerType && this.trialType == trialType
      ensures tickets == []
    {
      this.targetLocation := targetLocation;
      this.targetDirection := targetDirection;
      this.flankerType := flankerType;
      this.trialType := trialType;
      targetSide := LeftSide;
      target := LeftFish;
      flanker := None;
      onsetDelay := 0;
      soa := 0;
      tickets := [];
    }

    /** `trial_prep`: placement, fish, SOA and schedule from the factor
        levels, and whether the break prompt is due before this trial.
        `onsetDelay` is the fixation period already drawn, in ms. */
    method Prep(onsetDelay: int, trialNumber: int) returns (showBreak: bool)
      modifies this
      ensures targetSide == TargetSide(targetLocation)
      ensures target == TargetFish(targetDirection)
      ensures flanker == FlankerFish(targetDirection, flankerType)
      ensures this.onsetDelay == onsetDelay
      ensures soa == Soa(trialType)
      ensures tickets == Schedule(onsetDelay, soa)
      ensures showBreak == BreakDue(trialNumber)
    {
      if targetLocation == "left" {
        targetSide := LeftSide;
      } else {
        targetSide := RightSide;
      }
      if targetDirection == "left" {
        target := LeftFish;
        if flankerType == "congruent" {
          flanker := Some(LeftFish);
        } else if flankerType == "incongruent" {
          flanker := Some(RightFish);
        } else {
          flanker := None;
        }
      } else {
        target := RightFish;
        if flankerType == "congruent" {
          flanker := Some(RightFish);
        } else if flankerType == "incongruent" {
          flanker := Some(LeftFish);
        } else {
          flanker := None;
        }
      }
      this.onsetDelay := onsetDelay;
      soa := if trialType == "exo" then 200 else 1000;
      tickets := [];
      tickets := tickets + [Ticket("warning_on", onsetDelay)];
      tickets := tickets + [Ticket("warning_off", onsetDelay + 100)];
      tickets := tickets + [Ticket("target_on", onsetDelay + soa)];
      showBreak := trialNumber > 1 && (trialNumber - 1) % 24 == 0;
    }
  }

  // ---------------------------------------------------------------------
  // The trial summary in trial()

  /** `m` is the running maximum of the values started at 0: at least 0 and
      every value, and 0 or one of them. */
  predicate MaxFromZero(m: int, values: seq<int>)
  {
    m >= 0 && (forall v :: v in values ==> v <= m) && (m == 0 || m in values)
  }

  function Lefts(samples: seq<KLGamepad.TriggerSample>): seq<int>
  {
    seq(|samples|, i requires 0 <= i < |samples| => samples[i].left)
  }

  function Rights(samples: seq<KLGamepad.TriggerSample>): seq<int>
  {
    seq(|samples|, i requires 0 <= i < |samples| => samples[i].right)
  }

  /** The maxima and the last values of the two triggers over a trial. */
  datatype TriggerTotals = TriggerTotals(maxLeft: int, maxRight: int, lastLeft: int, lastRight: int)

  /** The trigger loop of `trial()`: the maxima start at 0 and rise to every
      sample; the last values are the final sample's, 0 when there is none. */
  method SummarizeTriggers(samples: seq<KLGamepad.TriggerSample>) returns (t: TriggerTotals)
    ensures MaxFromZero(t.maxLeft, Lefts(samples))
    ensures MaxFromZero(t.maxRight, Rights(samples))
    ensures samples == [] ==> t.lastLeft == 0 && t.lastRight == 0
    ensures samples != [] ==>
      t.lastLeft == samples[|samples| - 1].left && t.lastRight == samples[|samples| - 1].right
  {
    var maxL, maxR := 0, 0;
    var lastL, lastR := 0, 0;
    var i := 0;
    while i < |samples|
      invariant 0 <= i <= |samples|
      invariant MaxFromZero(maxL, Lefts(samples[..i]))
      invariant MaxFromZero(maxR, Rights(samples[..i]))
    {
      assert Lefts(samples[..i + 1]) == Lefts(samples[..i]) + [samples[i].left];
      assert Rights(samples[..i + 1]) == Rights(samples[..i]) + [samples[i].right];
      if samples[i].left > maxL {
        maxL := samples[i].left;
      }
      if samples[i].right > maxR {
        maxR := samples[i].right;
      }
      i := i + 1;
    }
    assert samples[..i] == samples;
    if |samples| > 0 {
      lastL := samples[|samples| - 1].left;
      lastR := samples[|samples| - 1].right;
    }
    t := TriggerTotals(maxL, maxR, lastL, lastR);
  }

  /** The response time the listener reports: a time, or its timeout
      marker. */
  datatype Rt = Timed(ms: int) | TimedOut

  /** The logged outcome of a trial: the response with its accuracy, time
      and the non-responding trigger's values, or 'NA' for all five. */
  datatype Outcome =
    | Answered(response: string, accuracy: int, rt: int, nonrespMax: int, nonrespLast: int)
    | NotAnswered

  /** The trial summary: accuracy is 1 exactly when the response matches the
      target direction; the non-responding trigger is the right one for a
      "left" response and the left one otherwise (0 without a gamepad); a
      timeout turns everything into 'NA'. */
  function TrialOutcome(response: string, rt: Rt, targetDirection: string, gamepad: bool, t: TriggerTotals)
    : (o: Outcome)
    ensures o.NotAnswered? <==> rt.TimedOut?
    ensures o.Answered? ==> o.response == response && o.rt == rt.ms
    ensures o.Answered? ==> (o.accuracy == 1 <==> response == targetDirection)
    ensures o.Answered? ==> (o.accuracy == 0 <==> response != targetDirection)
    ensures o.Answered? && gamepad && response == "left" ==>
      o.nonrespMax == t.maxRight && o.nonrespLast == t.lastRight
    ensures o.Answered? && gamepad && response != "left" ==>
      o.nonrespMax == t.maxLeft && o.nonrespLast == t.lastLeft
    ensures o.Answered? && !gamepad ==> o.nonrespMax == 0 && o.nonrespLast == 0
  {
    if rt.TimedOut? then NotAnswered
    else
      var accuracy := if response == targetDirection then 1 else 0;
      var nonrespMax := if !gamepad then 0 else if response == "left" then t.maxRight else t.maxLeft;
      var nonrespLast := if !gamepad then 0 else if response == "left" then t.lastRight else t.lastLeft;
      Answered(response, accuracy, rt.ms, nonrespMax, nonrespLast)
  }

  // ---------------------------------------------------------------------
  // trigger_pressed

  /** The threshold `trigger_pressed` uses when none is given, as the
      anticipation check in `trial()` calls it. */
  const DefaultTriggerThreshold: real := 0.1

  /** A controller motion event on either trigger past the threshold, with
      the value normalised by 32767. */
  predicate TriggerAbove(e: KLGamepad.Event, threshold: real)
  {
    && e.AxisMotion?
    && (e.axis == KLGamepad.TriggerLeft || e.axis == KLGamepad.TriggerRight)
    && e.value as real / KLGamepad.TriggerMax as real > threshold
  }

  /** `trigger_pressed`: whether some event of the queue pressed a trigger
      past the threshold; the scan stops at the first one. */
  method TriggerPressed(queue: seq<KLGamepad.Event>, threshold: real) returns (pressed: bool)
    ensures pressed <==> exists k :: 0 <= k < |queue| && TriggerAbove(queue[k], threshold)
  {
    pressed := false;
    var i := 0;
    while i < |queue|
      invariant 0 <= i <= |queue|
      invariant forall k :: 0 <= k < i ==> !TriggerAbove(queue[k], threshold)
    {
      var e := queue[i];
      if e.AxisMotion? {
        if e.axis == KLGamepad.TriggerLeft || e.axis == KLGamepad.TriggerRight {
          if e.value as real / 32767.0 > threshold {
            pressed := true;
            break;
          }
        }
      }
      i := i + 1;
    }
  }

  /** A trigger motion event whose raw value exceeds a tenth of the
      trigger's full range. */
  predicate RawTriggerPress(e: KLGamepad.Event)
  {
    && e.AxisMotion?
    && (e.axis == KLGamepad.TriggerLeft || e.axis == KLGamepad.TriggerRight)
    && 10 * e.value > KLGamepad.TriggerMax
  }

  /** With the default threshold, a trigger event counts as a press iff its
      raw value exceeds a tenth of the trigger's full range. */
  lemma DefaultThresholdRaw(e: KLGamepad.Event)
    ensures TriggerAbove(e, DefaultTriggerThreshold) <==> RawTriggerPress(e)
  {
    if e.AxisMotion? {
      var v := e.value as real;
      assert v / 32767.0 > 0.1 <==> 10.0 * v > 32767.0;
    }
  }

  /** `trigger_pressed(q)` with its default threshold, as the anticipation
      check calls it: true iff some trigger event's raw value exceeds
      3276.7. */
  method TriggerPressedByDefault(queue: seq<KLGamepad.Event>) returns (pressed: bool)
    ensures pressed <==> exists k :: 0 <= k < |queue| && RawTriggerPress(queue[k])
  {
    pressed := TriggerPressed(queue, DefaultTriggerThreshold);
    forall k | 0 <= k < |queue|
      ensures TriggerAbove(queue[k], DefaultTriggerThreshold) <==> RawTriggerPress(queue[k])
    {
      DefaultThresholdRaw(queue[k]);
    }
  }
}
