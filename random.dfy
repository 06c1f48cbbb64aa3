/** The two pieces of Python's `random` module that the trial generator uses:
    a source of integers below a bound, and `random.shuffle`. */
module Shuffling {

  /** A stand-in for Python's random generator.  Callers rely only on
      `Below` returning a value in range; which value it returns is not part
      of the model. */
  class Random {
    var state: nat

    constructor (seed: nat)
      ensures state == seed
    {
      state := seed;
    }

    /** `random._randbelow(n)`: some integer in [0, n). */
    method Below(n: nat) returns (j: nat)
      requires n > 0
      modifies this
      ensures j < n
    {
      state := (state * 1103515245 + 12345) % 0x8000_0000;
      j := state % n;
    }
  }

  /** `random.shuffle(x)`: for i from len(x)-1 down to 1, swap x[i] with
      x[j] for a random j <= i.  Whatever the draws, the result is a
      permutation of the input. */
  method Shuffle<T>(a: array<T>, rng: Random)
    modifies a, rng
    ensures multiset(a[..]) == old(multiset(a[..]))
  {
    var i := a.Length;
    while i > 1
      invariant 0 <= i <= a.Length
      invariant multiset(a[..]) == old(multiset(a[..]))
    {
      i := i - 1;
      var j := rng.Below(i + 1);
      a[i], a[j] := a[j], a[i];
    }
  }

  /** `random.shuffle` applied to a fresh list holding `s`: the shuffled
      list, a permutation of `s`. */
  method Shuffled<T>(s: seq<T>, rng: Random) returns (r: seq<T>)
    modifies rng
    ensures multiset(r) == multiset(s)
    ensures |r| == |s|
  {
    var a := new T[|s|](j requires 0 <= j < |s| => s[j]);
    assert a[..] == s;
    Shuffle(a, rng);
    r := a[..];
    assert |multiset(r)| == |multiset(s)|;
  }
}
