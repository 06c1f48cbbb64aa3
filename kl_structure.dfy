/** The factorial design engine: a factor set maps factor names to lists of
    levels, its combinations are the Cartesian product of those lists, and a
    block turns the combinations into a trial list of a requested length by
    drawing freshly shuffled copies of the whole set. */
module KLStructure {
  import opened Results
  import Shuffling

  /** A factor level.  The experiment uses booleans and strings. */
  datatype Level = Flag(b: bool) | Text(s: string)

  /** Python's `str(level)`. */
  function Str(l: Level): string
  {
    match l
    case Flag(b) => if b then "True" else "False"
    case Text(s) => s
  }

  /** One factor: its name and its levels, in declaration order.  A level may
      occur more than once, which weights the product toward it. */
  datatype Factor = Factor(name: string, levels: seq<Level>)

  /** A factor set, in the insertion order of the dictionary it was built
      from. */
  datatype FactorSet = FactorSet(factors: seq<Factor>)

  /** One realised trial: factor name to level. */
  type Trial = map<string, Level>

  /** A dictionary cannot hold a name twice. */
  predicate DistinctNames(factors: seq<Factor>)
  {
    forall i, j :: 0 <= i < j < |factors| ==> factors[i].name != factors[j].name
  }

  /** `FactorSet.names`: the factor names in insertion order. */
  function Names(fs: FactorSet): (r: seq<string>)
    ensures |r| == |fs.factors|
    ensures forall i :: 0 <= i < |r| ==> r[i] == fs.factors[i].name
  {
    seq(|fs.factors|, i requires 0 <= i < |fs.factors| => fs.factors[i].name)
  }

  function NameSet(factors: seq<Factor>): set<string>
  {
    set f | f in factors :: f.name
  }

  /** The product of the level counts: the reference definition of the size
      of a factor set. */
  function LevelProduct(factors: seq<Factor>): nat
  {
    if factors == [] then 1 else |factors[0].levels| * LevelProduct(factors[1..])
  }

  /** `t` is a trial of the factor set: exactly the factor names as keys, and
      each value one of that factor's levels. */
  ghost predicate IsCombination(t: Trial, factors: seq<Factor>)
  {
    && t.Keys == NameSet(factors)
    && forall f :: f in factors ==> t[f.name] in f.levels
  }

  /** Every tail combination with `name` bound to `l`, in the tails' order. */
  function Bind(name: string, l: Level, tails: seq<Trial>): (r: seq<Trial>)
    ensures |r| == |tails|
    ensures forall j :: 0 <= j < |tails| ==> r[j] == tails[j][name := l]
  {
    seq(|tails|, j requires 0 <= j < |tails| => tails[j][name := l])
  }

  /** For each level in turn (the slower index), every tail combination
      (the faster index). */
  function Expand(name: string, levels: seq<Level>, tails: seq<Trial>): (r: seq<Trial>)
    ensures |r| == |levels| * |tails|
  {
    if levels == [] then []
    else Bind(name, levels[0], tails) + Expand(name, levels[1..], tails)
  }

  /** `FactorSet._get_combinations`: `itertools.product` over the level
      lists, first factor slowest, each tuple zipped with the names. */
  function Combinations(factors: seq<Factor>): (r: seq<Trial>)
    ensures |r| == LevelProduct(factors)
  {
    if factors == [] then [map[]]
    else Expand(factors[0].name, factors[0].levels, Combinations(factors[1..]))
  }

  /** `FactorSet.set_length`: the number of combinations, which is the
      product of the level counts. */
  function SetLength(fs: FactorSet): (n: nat)
    ensures n == LevelProduct(fs.factors)
  {
    |Combinations(fs.factors)|
  }

  // ---------------------------------------------------------------------
  // Properties of the product

  /** The empty factor set has exactly one (empty) combination. */
  lemma EmptySetLength()
    ensures SetLength(FactorSet([])) == 1
    ensures Combinations([]) == [map[]]
  {
  }

  /** The product is non-empty exactly when every factor has a level. */
  lemma {:induction false} SetLengthPositive(factors: seq<Factor>)
    ensures LevelProduct(factors) > 0 <==> forall f :: f in factors ==> |f.levels| > 0
  {
    if factors != [] {
      SetLengthPositive(factors[1..]);
      assert forall f :: f in factors ==> f == factors[0] || f in factors[1..];
      var a, b := |factors[0].levels|, LevelProduct(factors[1..]);
      assert a * b > 0 <==> a > 0 && b > 0;
    }
  }

  lemma {:induction false} ExpandAt(name: string, levels: seq<Level>, tails: seq<Trial>, i: nat, j: nat)
    requires i < |levels| && j < |tails|
    ensures i * |tails| + j < |Expand(name, levels, tails)|
    ensures Expand(name, levels, tails)[i * |tails| + j] == tails[j][name := levels[i]]
  {
    var r := Expand(name, levels, tails);
    assert |r| == |levels| * |tails|;
    if i == 0 {
    } else {
      ExpandAt(name, levels[1..], tails, i - 1, j);
      var k := i * |tails| + j;
      assert k == |tails| + ((i - 1) * |tails| + j);
      assert r[k] == Expand(name, levels[1..], tails)[(i - 1) * |tails| + j];
    }
  }

  /** Lexicographic order, first factor slowest: the combination at position
      i * (size of the rest) + j binds the first factor to its i-th level and
      agrees with the j-th combination of the remaining factors. */
  lemma CombinationAt(factors: seq<Factor>, i: nat, j: nat)
    requires factors != []
    requires i < |factors[0].levels| && j < LevelProduct(factors[1..])
    ensures i * LevelProduct(factors[1..]) + j < |Combinations(factors)|
    ensures Combinations(factors)[i * LevelProduct(factors[1..]) + j]
         == Combinations(factors[1..])[j][factors[0].name := factors[0].levels[i]]
  {
    ExpandAt(factors[0].name, factors[0].levels, Combinations(factors[1..]), i, j);
  }

  lemma {:induction false} ExpandMember(name: string, levels: seq<Level>, tails: seq<Trial>, t: Trial)
    ensures t in Expand(name, levels, tails) <==>
            exists l, c :: l in levels && c in tails && t == c[name := l]
  {
    if levels != [] {
      ExpandMember(name, levels[1..], tails, t);
      var b := Bind(name, levels[0], tails);
      var e := Expand(name, levels[1..], tails);
      assert Expand(name, levels, tails) == b + e;
      if t in b {
        var j :| 0 <= j < |b| && b[j] == t;
        assert levels[0] in levels && tails[j] in tails;
      } else if t in e {
        var l, c :| l in levels[1..] && c in tails && t == c[name := l];
        assert l in levels;
      }
      if exists l, c :: l in levels && c in tails && t == c[name := l] {
        var l, c :| l in levels && c in tails && t == c[name := l];
        if l == levels[0] {
          var j :| 0 <= j < |tails| && tails[j] == c;
          assert b[j] == t;
        } else {
          assert l in levels[1..];
        }
      }
    }
  }

  lemma NameSetSplit(factors: seq<Factor>)
    requires factors != []
    ensures NameSet(factors) == {factors[0].name} + NameSet(factors[1..])
  {
    assert forall f :: f in factors <==> f == factors[0] || f in factors[1..];
  }

  /** Binding the first factor's name to one of its levels in a
      combination of the remaining factors gives a combination of all. */
  lemma JoinCombination(factors: seq<Factor>, c: Trial, l: Level)
    requires factors != [] && DistinctNames(factors)
    requires IsCombination(c, factors[1..]) && l in factors[0].levels
    ensures IsCombination(c[factors[0].name := l], factors)
  {
    var f0, rest, t := factors[0], factors[1..], c[factors[0].name := l];
    NameSetSplit(factors);
    forall f | f in factors ensures t[f.name] in f.levels {
      var k :| 0 <= k < |factors| && factors[k] == f;
      if k > 0 {
        assert f in rest && f.name != f0.name;
      }
    }
  }

  /** No fabricated levels: every combination assigns each factor one of its
      own levels, and nothing else. */
  lemma {:induction false} CombinationsSound(factors: seq<Factor>, t: Trial)
    requires DistinctNames(factors)
    requires t in Combinations(factors)
    ensures IsCombination(t, factors)
  {
    if factors != [] {
      var f0, rest := factors[0], factors[1..];
      ExpandMember(f0.name, f0.levels, Combinations(rest), t);
      var l, c :| l in f0.levels && c in Combinations(rest) && t == c[f0.name := l];
      assert DistinctNames(rest) by {
        forall i, j | 0 <= i < j < |rest| ensures rest[i].name != rest[j].name {
          assert rest[i] == factors[i + 1] && rest[j] == factors[j + 1];
        }
      }
      CombinationsSound(rest, c);
      JoinCombination(factors, c, l);
    }
  }

  /** A combination of a non-empty factor list is a combination of the
      remaining factors with the first factor's name bound to one of its
      levels. */
  lemma SplitCombination(factors: seq<Factor>, t: Trial)
    requires factors != [] && DistinctNames(factors)
    requires IsCombination(t, factors)
    ensures DistinctNames(factors[1..])
    ensures IsCombination(t - {factors[0].name}, factors[1..])
    ensures factors[0].name in t && t[factors[0].name] in factors[0].levels
    ensures t == (t - {factors[0].name})[factors[0].name := t[factors[0].name]]
  {
    var f0, rest := factors[0], factors[1..];
    NameSetSplit(factors);
    forall f | f in rest ensures f.name != f0.name {
      var k :| 0 <= k < |rest| && rest[k] == f;
      assert factors[k + 1] == f;
    }
    assert f0.name !in NameSet(rest);
    var c := t - {f0.name};
    assert c.Keys == NameSet(rest);
    forall f | f in rest ensures c[f.name] in f.levels {
      assert f in factors;
    }
    assert f0 in factors;
  }

  /** No omissions: every assignment of levels to the factor names is among
      the combinations. */
  lemma {:induction false} CombinationsComplete(factors: seq<Factor>, t: Trial)
    requires DistinctNames(factors)
    requires IsCombination(t, factors)
    ensures t in Combinations(factors)
  {
    if factors == [] {
      assert t == map[];
    } else {
      var f0, rest := factors[0], factors[1..];
      SplitCombination(factors, t);
      var c := t - {f0.name};
      CombinationsComplete(rest, c);
      ExpandMember(f0.name, f0.levels, Combinations(rest), t);
    }
  }

  // ---------------------------------------------------------------------
  // override

  /** An override value: a list of levels, or a single value.  Strings are
      single values (they have `upper`, so `is_iterable` rejects them). */
  datatype LevelSpec = Scalar(value: Level) | Many(levels: seq<Level>)

  /** `is_iterable`. */
  predicate IsIterable(v: LevelSpec)
  {
    v.Many?
  }

  /** A non-iterable value becomes a one-element level list. */
  function Coerced(v: LevelSpec): (r: seq<Level>)
    ensures !IsIterable(v) ==> |r| == 1 && r[0] == v.value
  {
    if IsIterable(v) then v.levels else [v.value]
  }

  /** An override mask, a dictionary from factor name to new levels. */
  type Mask = seq<(string, LevelSpec)>

  datatype StructureError = UnknownFactor(name: string)

  /** The value the mask gives `name`; when a name occurs twice the later
      entry is the one that stays. */
  function MaskLookup(mask: Mask, name: string): Option<LevelSpec>
  {
    if mask == [] then None
    else
      match MaskLookup(mask[1..], name)
      case Some(v) => Some(v)
      case None => if mask[0].0 == name then Some(mask[0].1) else None
  }

  /** A copy of the set with the levels of factor `name` replaced. */
  function Replace(fs: FactorSet, name: string, levels: seq<Level>): (r: FactorSet)
    ensures Names(r) == Names(fs)
  {
    FactorSet(seq(|fs.factors|, i requires 0 <= i < |fs.factors| =>
      if fs.factors[i].name == name then Factor(name, levels) else fs.factors[i]))
  }

  /** `FactorSet.override`: replaces the levels of the named factors in a
      copy.  It succeeds exactly when every key of the mask is a factor name,
      and then the names and their order are unchanged.  `OverrideFailure`
      and `OverrideLevels` state the rest. */
  function Override(fs: FactorSet, mask: Mask): (r: Result<FactorSet, StructureError>)
    ensures r.Success? <==> forall k :: 0 <= k < |mask| ==> mask[k].0 in Names(fs)
    ensures r.Success? ==> Names(r.value) == Names(fs)
    decreases |mask|
  {
    if mask == [] then Success(fs)
    else if mask[0].0 !in Names(fs) then Failure(UnknownFactor(mask[0].0))
    else Override(Replace(fs, mask[0].0, Coerced(mask[0].1)), mask[1..])
  }

  /** An override that fails names the first key, in mask order, that is
      not a factor name. */
  lemma {:induction false} OverrideFailure(fs: FactorSet, mask: Mask)
    requires Override(fs, mask).Failure?
    ensures exists k :: (0 <= k < |mask| && Override(fs, mask).error == UnknownFactor(mask[k].0)
                         && mask[k].0 !in Names(fs)
                         && forall k' :: 0 <= k' < k ==> mask[k'].0 in Names(fs))
    decreases |mask|
  {
    if mask[0].0 in Names(fs) {
      var fs' := Replace(fs, mask[0].0, Coerced(mask[0].1));
      var rest := mask[1..];
      OverrideFailure(fs', rest);
      var k :| 0 <= k < |rest| && Override(fs', rest).error == UnknownFactor(rest[k].0)
        && rest[k].0 !in Names(fs')
        && forall k' :: 0 <= k' < k ==> rest[k'].0 in Names(fs');
      assert mask[k + 1] == rest[k];
      forall k' | 0 <= k' < k + 1 ensures mask[k'].0 in Names(fs) {
        if k' > 0 {
          assert mask[k'] == rest[k' - 1];
        }
      }
    }
  }

  /** An override that succeeds gives every factor the coerced levels the
      mask holds for it (its last entry wins), and leaves every other
      factor's levels as they were. */
  lemma {:induction false} OverrideLevels(fs: FactorSet, mask: Mask)
    requires Override(fs, mask).Success?
    ensures forall i :: 0 <= i < |fs.factors| ==>
      Override(fs, mask).value.factors[i].levels ==
        match MaskLookup(mask, fs.factors[i].name)
        case Some(v) => Coerced(v)
        case None => fs.factors[i].levels
    decreases |mask|
  {
    if mask != [] {
      var fs' := Replace(fs, mask[0].0, Coerced(mask[0].1));
      OverrideLevels(fs', mask[1..]);
      assert Names(fs') == Names(fs);
      forall i | 0 <= i < |fs.factors|
        ensures Override(fs, mask).value.factors[i].levels ==
          match MaskLookup(mask, fs.factors[i].name)
          case Some(v) => Coerced(v)
          case None => fs.factors[i].levels
      {
        assert Names(fs')[i] == Names(fs)[i];
        assert fs'.factors[i].name == fs.factors[i].name;
      }
    }
  }

  /** A scalar override, a string included, becomes a one-level factor. */
  lemma OverrideScalar(fs: FactorSet, name: string, value: Level, i: nat)
    requires i < |fs.factors| && fs.factors[i].name == name
    ensures Override(fs, [(name, Scalar(value))]).Success?
    ensures Override(fs, [(name, Scalar(value))]).value.factors[i].levels == [value]
  {
    assert Names(fs)[i] == name;
    OverrideLevels(fs, [(name, Scalar(value))]);
  }

  // ---------------------------------------------------------------------
  // Block

  /** `Block`: a factor set with a label, a practice flag and a trial count. */
  datatype Block = Block(factors: FactorSet, blockLabel: string, trialcount: int, practice: bool)

  /** `Block.__init__`: `trials` is used when it is truthy (given and not 0);
      otherwise the block holds one full factorial set. */
  function MakeBlock(factors: FactorSet, blockLabel: string, trials: Option<int>, practice: bool): (b: Block)
    ensures b.factors == factors && b.blockLabel == blockLabel && b.practice == practice
    ensures trials.Some? && trials.value != 0 ==> b.trialcount == trials.value
    ensures trials.None? || trials.value == 0 ==> b.trialcount == LevelProduct(factors.factors)
  {
    var count := if trials.Some? && trials.value != 0 then trials.value else SetLength(factors);
    Block(factors, blockLabel, count, practice)
  }

  /** `Block.factors`: the names of the block's factors. */
  function BlockFactors(b: Block): (r: seq<string>)
    ensures |r| == |b.factors.factors|
    ensures forall i :: 0 <= i < |r| ==> r[i] == b.factors.factors[i].name
  {
    Names(b.factors)
  }

  /** The shape of a trial list built from draws of `c`: consecutive chunks
      of |c| trials, each a permutation of `c`, then at most one shorter
      chunk that is part of one. */
  ghost predicate Chunked<T>(t: seq<T>, c: seq<T>)
    decreases |t|
  {
    if |c| == 0 then t == []
    else if |t| < |c| then multiset(t) <= multiset(c)
    else multiset(t[..|c|]) == multiset(c) && Chunked(t[|c|..], c)
  }

  /** A list made of whole draws only: it ends on a chunk boundary. */
  ghost predicate Whole<T>(t: seq<T>, c: seq<T>)
    decreases |t|
  {
    if t == [] then true
    else |c| > 0 && |t| >= |c| && multiset(t[..|c|]) == multiset(c) && Whole(t[|c|..], c)
  }

  /** Cutting a chunked list short keeps it chunked: the cut lands inside
      some chunk, whose prefix is part of a permutation of `c`. */
  lemma {:induction false} ChunkedPrefix<T>(t: seq<T>, c: seq<T>, n: nat)
    requires Chunked(t, c) && n <= |t|
    ensures Chunked(t[..n], c)
    decreases |t|
  {
    if |c| == 0 {
      assert t[..n] == [];
    } else if |t| < |c| {
      assert t == t[..n] + t[n..];
      assert multiset(t) == multiset(t[..n]) + multiset(t[n..]);
    } else if n < |c| {
      var head := t[..|c|];
      assert head == t[..n] + head[n..];
      assert multiset(head) == multiset(t[..n]) + multiset(head[n..]);
    } else {
      var rest := t[|c|..];
      ChunkedPrefix(rest, c, n - |c|);
      assert t[..n][..|c|] == t[..|c|];
      assert t[..n][|c|..] == rest[..n - |c|];
    }
  }

  /** Appending one draw (whole, or cut short) to a list of whole draws
      keeps the shape, and a whole draw keeps the list whole. */
  lemma {:induction false} ChunkedAppend<T>(t: seq<T>, x: seq<T>, c: seq<T>)
    requires |c| > 0 && Whole(t, c)
    requires multiset(x) == multiset(c) || (|x| < |c| && multiset(x) <= multiset(c))
    ensures Chunked(t + x, c)
    ensures multiset(x) == multiset(c) ==> Whole(t + x, c)
    decreases |t|
  {
    if |t| == 0 {
      assert t + x == x;
      assert |multiset(x)| == |x|;
      if |x| >= |c| {
        assert x[..|c|] == x;
        assert x[|c|..] == [];
      }
    } else {
      assert t[..|c|] == (t + x)[..|c|];
      assert (t + x)[|c|..] == t[|c|..] + x;
      ChunkedAppend(t[|c|..], x, c);
    }
  }

  lemma MulSucc(k: nat, n: nat)
    ensures (k + 1) * n == k * n + n
  {
  }

  /** `s` is a multiple of `n`: a chunk boundary. */
  ghost predicate IsMultiple(s: nat, n: nat)
    decreases s
  {
    if n == 0 then s == 0 else s == 0 || (s >= n && IsMultiple(s - n, n))
  }

  lemma {:induction false} MultipleOf(k: nat, n: nat)
    ensures IsMultiple(k * n, n)
  {
    if k > 0 && n > 0 {
      MultipleOf(k - 1, n);
      MulSucc(k - 1, n);
    }
  }

  /** The chunk of a chunked list that starts at a chunk boundary is a
      permutation of all combinations. */
  lemma {:induction false} ChunkAtBoundary<T>(t: seq<T>, c: seq<T>, s: nat)
    requires Chunked(t, c) && |c| > 0 && IsMultiple(s, |c|) && s + |c| <= |t|
    ensures multiset(t[s..s + |c|]) == multiset(c)
    decreases s
  {
    var n := |c|;
    if s == 0 {
      assert t[0..n] == t[..n];
    } else {
      var t' := t[n..];
      assert Chunked(t', c);
      ChunkAtBoundary(t', c, s - n);
      assert t'[s - n..s] == t[s..s + n];
    }
  }

  /** Every full chunk of a chunked list, the k-th one starting at
      k * |c|, is a permutation of all combinations. */
  lemma ChunkIsPermutation<T>(t: seq<T>, c: seq<T>, k: nat)
    requires Chunked(t, c) && |c| > 0 && (k + 1) * |c| <= |t|
    ensures multiset(t[k * |c|..(k + 1) * |c|]) == multiset(c)
  {
    MultipleOf(k, |c|);
    MulSucc(k, |c|);
    ChunkAtBoundary(t, c, k * |c|);
  }

  /** The trailing partial chunk, from the last multiple of |c| on, is part
      of one draw. */
  lemma {:induction false} LastChunkIsSubset<T>(t: seq<T>, c: seq<T>, m: nat)
    requires Chunked(t, c) && |c| > 0
    requires m * |c| <= |t| < m * |c| + |c|
    ensures multiset(t[m * |c|..]) <= multiset(c)
  {
    var n := |c|;
    if m == 0 {
      assert t[0..] == t;
    } else {
      var m' := m - 1;
      var s := m' * n;
      MulSucc(m', n);
      var t' := t[n..];
      assert Chunked(t', c);
      LastChunkIsSubset(t', c, m');
      assert t'[s..] == t[s + n..];
    }
  }

  /** Every element of a chunked list is one of the combinations. */
  lemma {:induction false} ChunkedMembers<T>(t: seq<T>, c: seq<T>)
    requires Chunked(t, c)
    ensures forall x :: x in t ==> x in c
  {
    if |c| > 0 {
      if |t| < |c| {
        assert forall x :: x in t ==> x in multiset(t);
      } else {
        ChunkedMembers(t[|c|..], c);
        assert t == t[..|c|] + t[|c|..];
        assert forall x :: x in t[..|c|] ==> x in multiset(t[..|c|]);
      }
    }
  }

  /** One pass of the `get_trials` loop: a freshly shuffled copy of the
      combinations, cut to the `remaining` trials still missing. */
  method Draw(combos: seq<Trial>, remaining: nat, rng: Shuffling.Random) returns (drawn: seq<Trial>)
    modifies rng
    ensures |drawn| == if remaining < |combos| then remaining else |combos|
    ensures multiset(drawn) == multiset(combos)
         || (|drawn| < |combos| && multiset(drawn) <= multiset(combos))
  {
    drawn := Shuffling.Shuffled(combos, rng);
    if remaining < |drawn| {
      assert drawn == drawn[..remaining] + drawn[remaining..];
      drawn := drawn[..remaining];
    }
  }

  /** `Block.get_trials`: appends freshly shuffled copies of the whole
      combination list, the last one cut to the trials still missing, until
      exactly `trialcount` trials exist; with `fullShuffle` the finished list
      is shuffled once more.  The source loops forever when the block asks
      for trials from an empty product, so that is excluded. */
  method GetTrials(b: Block, fullShuffle: bool, rng: Shuffling.Random) returns (trials: seq<Trial>)
    requires b.trialcount > 0 ==> SetLength(b.factors) > 0
    modifies rng
    ensures |trials| == if b.trialcount > 0 then b.trialcount else 0
    ensures !fullShuffle ==> Chunked(trials, Combinations(b.factors.factors))
    ensures exists draws :: Chunked(draws, Combinations(b.factors.factors))
                         && multiset(trials) == multiset(draws)
    ensures forall t :: t in trials ==> t in Combinations(b.factors.factors)
  {
    var combos := Combinations(b.factors.factors);
    trials := [];
    while |trials| < b.trialcount
      invariant |trials| <= b.trialcount || |trials| == 0
      invariant |trials| < b.trialcount ==> |combos| > 0 && Whole(trials, combos)
      invariant Chunked(trials, combos)
      decreases b.trialcount - |trials|
    {
      var drawn := Draw(combos, b.trialcount - |trials|, rng);
      ChunkedAppend(trials, drawn, combos);
      trials := trials + drawn;
    }
    ghost var draws := trials;
    if fullShuffle {
      trials := Shuffling.Shuffled(trials, rng);
    }
    ChunkedMembers(draws, combos);
    assert forall t :: t in trials ==> t in multiset(draws);
  }
}
