/** The CAST task's design: the exogenous factor set, the endogenous set
    derived from it by an override, the four block kinds, the two fixed
    twelve-block orders and the choice between them by condition. */
module ExpStructure {
  import opened Results
  import opened KLStructure

  const ExoFactors: FactorSet := FactorSet([
    Factor("alerting_trial", [Flag(true), Flag(false)]),
    Factor("cue_type", [Text("valid"), Text("invalid")]),
    Factor("target_location", [Text("left"), Text("right")]),
    Factor("target_direction", [Text("left"), Text("right")]),
    Factor("flanker_type", [Text("congruent"), Text("incongruent"), Text("none")]),
    Factor("trial_type", [Text("exo")])
  ])

  /** Endogenous cues are valid on two trials in three, and the trial type
      changes; nothing else does. */
  const EndoMask: Mask := [
    ("cue_type", Many([Text("valid"), Text("valid"), Text("invalid")])),
    ("trial_type", Many([Text("endo")]))
  ]

  lemma EndoOverrideSucceeds()
    ensures Override(ExoFactors, EndoMask).Success?
  {
    assert Names(ExoFactors)[1] == "cue_type";
    assert Names(ExoFactors)[5] == "trial_type";
  }

  /** `exo_factors.override(...)`. */
  function EndoFactors(): (r: FactorSet)
    ensures Override(ExoFactors, EndoMask) == Success(r)
  {
    EndoOverrideSucceeds();
    Override(ExoFactors, EndoMask).value
  }

  const ExoPractice: Block := MakeBlock(ExoFactors, "exo", Some(24), true)
  const Exo: Block := MakeBlock(ExoFactors, "exo", None, false)
  const EndoPractice: Block := MakeBlock(EndoFactors(), "endo", Some(24), true)
  const Endo: Block := MakeBlock(EndoFactors(), "endo", None, false)

  /** The four block objects the orders are made of. */
  datatype BlockKind = ExoPracticeBlock | ExoBlock | EndoPracticeBlock | EndoBlock

  function BlockOf(k: BlockKind): Block
  {
    match k
    case ExoPracticeBlock => ExoPractice
    case ExoBlock => Exo
    case EndoPracticeBlock => EndoPractice
    case EndoBlock => Endo
  }

  /** `exo_first`, as the block each position refers to. */
  const ExoFirstOrder: seq<BlockKind> := [
    ExoPracticeBlock, ExoBlock, ExoBlock, EndoPracticeBlock, EndoBlock, EndoBlock,
    ExoPracticeBlock, ExoBlock, ExoBlock, EndoPracticeBlock, EndoBlock, EndoBlock
  ]

  /** `endo_first`, as the block each position refers to. */
  const EndoFirstOrder: seq<BlockKind> := [
    EndoPracticeBlock, EndoBlock, EndoBlock, ExoPracticeBlock, ExoBlock, ExoBlock,
    EndoPracticeBlock, EndoBlock, EndoBlock, ExoPracticeBlock, ExoBlock, ExoBlock
  ]

  function Blocks(order: seq<BlockKind>): (r: seq<Block>)
    ensures |r| == |order|
    ensures forall i :: 0 <= i < |order| ==> r[i] == BlockOf(order[i])
  {
    seq(|order|, i requires 0 <= i < |order| => BlockOf(order[i]))
  }

  const ExoFirst: seq<Block> := Blocks(ExoFirstOrder)
  const EndoFirst: seq<Block> := Blocks(EndoFirstOrder)

  /** `structure`: the exo-first order exactly when the condition is "exo",
      the endo-first order for any other condition. */
  function Structure(condition: string): (s: seq<Block>)
    ensures s == ExoFirst <==> condition == "exo"
    ensures s == EndoFirst <==> condition != "exo"
  {
    assert ExoFirst[0] != EndoFirst[0] by {
      assert ExoFirst[0].blockLabel == "exo" && EndoFirst[0].blockLabel == "endo";
    }
    if condition == "exo" then ExoFirst else EndoFirst
  }

  /** The endogenous set has the exogenous set's factor names, in the same
      order. */
  lemma EndoSameNames()
    ensures Names(EndoFactors()) == Names(ExoFactors)
  {
    EndoOverrideSucceeds();
  }

  /** The endogenous set differs from the exogenous set only in the levels of
      `cue_type` and `trial_type`. */
  lemma EndoLevels()
    ensures |EndoFactors().factors| == 6
    ensures EndoFactors().factors[1].levels == [Text("valid"), Text("valid"), Text("invalid")]
    ensures EndoFactors().factors[5].levels == [Text("endo")]
    ensures forall i :: 0 <= i < 6 && i != 1 && i != 5 ==>
      EndoFactors().factors[i] == ExoFactors.factors[i]
  {
    EndoOverrideSucceeds();
    OverrideLevels(ExoFactors, EndoMask);
    var e := EndoFactors();
    assert Names(e) == Names(ExoFactors);
    forall i | 0 <= i < 6
      ensures e.factors[i].name == ExoFactors.factors[i].name
    {
      assert Names(e)[i] == Names(ExoFactors)[i];
    }
    assert MaskLookup(EndoMask, "cue_type") == Some(EndoMask[0].1);
    assert MaskLookup(EndoMask, "trial_type") == Some(EndoMask[1].1);
    forall i | 0 <= i < 6 && i != 1 && i != 5
      ensures e.factors[i] == ExoFactors.factors[i]
    {
      assert MaskLookup(EndoMask, ExoFactors.factors[i].name) == None;
    }
  }

  /** 2 * 2 * 2 * 2 * 3 * 1 exogenous combinations. */
  lemma ExoSetLength()
    ensures SetLength(ExoFactors) == 48
  {
    var x := ExoFactors.factors;
    assert LevelProduct(x[5..]) == 1;
    assert LevelProduct(x[4..]) == 3;
    assert LevelProduct(x[3..]) == 6;
    assert LevelProduct(x[2..]) == 12;
    assert LevelProduct(x[1..]) == 24;
    assert LevelProduct(x) == 48;
  }

  /** One step of the product over a suffix of the factors. */
  lemma ProductFrom(fs: seq<Factor>, k: nat)
    requires k < |fs|
    ensures LevelProduct(fs[k..]) == |fs[k].levels| * LevelProduct(fs[k + 1..])
  {
    assert fs[k..][1..] == fs[k + 1..];
  }

  /** Six factors of 2, 3, 2, 2, 3 and 1 levels make 72 combinations. */
  lemma EndoShapeProduct(fs: seq<Factor>)
    requires |fs| == 6
    requires |fs[0].levels| == 2 && |fs[1].levels| == 3 && |fs[2].levels| == 2
    requires |fs[3].levels| == 2 && |fs[4].levels| == 3 && |fs[5].levels| == 1
    ensures LevelProduct(fs) == 72
  {
    assert fs[6..] == [];
    ProductFrom(fs, 5);
    ProductFrom(fs, 4);
    ProductFrom(fs, 3);
    ProductFrom(fs, 2);
    ProductFrom(fs, 1);
    ProductFrom(fs, 0);
    assert fs[0..] == fs;
  }

  /** 2 * 3 * 2 * 2 * 3 * 1 endogenous combinations. */
  lemma EndoSetLength()
    ensures SetLength(EndoFactors()) == 72
  {
    EndoLevels();
    var e := EndoFactors().factors;
    var x := ExoFactors.factors;
    assert e[0] == x[0] && e[2] == x[2] && e[3] == x[3] && e[4] == x[4];
    EndoShapeProduct(e);
  }

  /** Practice blocks hold 24 trials; full blocks hold one whole factorial
      set. */
  lemma BlockSizes()
    ensures ExoPractice.trialcount == 24 && ExoPractice.practice
    ensures EndoPractice.trialcount == 24 && EndoPractice.practice
    ensures Exo.trialcount == 48 && !Exo.practice
    ensures Endo.trialcount == 72 && !Endo.practice
  {
    ExoSetLength();
    EndoSetLength();
  }

  /** A block is a practice block exactly when it is one of the two
      practice objects. */
  lemma PracticeKinds(k: BlockKind)
    ensures BlockOf(k).practice <==> k == ExoPracticeBlock || k == EndoPracticeBlock
  {
    BlockSizes();
  }

  lemma PracticePosition(i: nat)
    requires i < 12
    ensures ExoFirstOrder[i] in {ExoPracticeBlock, EndoPracticeBlock} <==> i % 3 == 0
    ensures EndoFirstOrder[i] in {ExoPracticeBlock, EndoPracticeBlock} <==> i % 3 == 0
  {
  }

  /** Both orders hold twelve blocks with the practice blocks at positions
      0, 3, 6 and 9. */
  lemma OrderShape()
    ensures |ExoFirst| == 12 && |EndoFirst| == 12
    ensures forall i :: 0 <= i < 12 ==> (ExoFirst[i].practice <==> i % 3 == 0)
    ensures forall i :: 0 <= i < 12 ==> (EndoFirst[i].practice <==> i % 3 == 0)
  {
    forall i | 0 <= i < 12
      ensures ExoFirst[i].practice <==> i % 3 == 0
      ensures EndoFirst[i].practice <==> i % 3 == 0
    {
      PracticePosition(i);
      PracticeKinds(ExoFirstOrder[i]);
      PracticeKinds(EndoFirstOrder[i]);
    }
  }

  /** The block of the other task, of the same kind (practice or full). */
  function OtherTask(k: BlockKind): BlockKind
  {
    match k
    case ExoPracticeBlock => EndoPracticeBlock
    case ExoBlock => EndoBlock
    case EndoPracticeBlock => ExoPracticeBlock
    case EndoBlock => ExoBlock
  }

  lemma MirrorPosition(i: nat)
    requires i < 12
    ensures EndoFirstOrder[i] == OtherTask(ExoFirstOrder[i])
    ensures ExoFirstOrder[i] == OtherTask(EndoFirstOrder[i])
  {
  }

  /** The endo-first order is the exo-first order with the exogenous and
      endogenous blocks exchanged position by position. */
  lemma OrdersMirror()
    ensures forall i :: 0 <= i < 12 ==> EndoFirst[i] == BlockOf(OtherTask(ExoFirstOrder[i]))
    ensures forall i :: 0 <= i < 12 ==> ExoFirst[i] == BlockOf(OtherTask(EndoFirstOrder[i]))
  {
    forall i | 0 <= i < 12
      ensures EndoFirst[i] == BlockOf(OtherTask(ExoFirstOrder[i]))
      ensures ExoFirst[i] == BlockOf(OtherTask(EndoFirstOrder[i]))
    {
      MirrorPosition(i);
    }
  }
}
