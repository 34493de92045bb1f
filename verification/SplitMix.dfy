/** The splitmix64 generator, and its shortcut to numbers further along. */
module SplitMix {

  const MODULUS: int := 0x1_0000_0000_0000_0000
  const GOLDEN_GAMMA: U64 := 0x9E37_79B9_7F4A_7C15

  type U64 = x: int | 0 <= x < MODULUS

  function Plus(a: int, b: int): U64 { (a + b) % MODULUS }

  /** How a state is turned into a number. */
  function Mixed(x: U64): bv64 {
    var z0 := x as bv64;
    var z1 := (z0 ^ (z0 >> 30)) * 0xBF58_476D_1CE4_E5B9;
    var z2 := (z1 ^ (z1 >> 27)) * 0x94D0_49BB_1331_11EB;
    z2 ^ (z2 >> 31)
  }

  /** The state after that many numbers, one at a time. */
  function StateAfter(seed: U64, n: nat): U64 {
    if n == 0 then seed else Plus(StateAfter(seed, n - 1), GOLDEN_GAMMA)
  }

  /** The first numbers that Vigna's splitmix64 gives for the seeds 0 and 1234567. */
  lemma KnownNumbers()
    ensures Mixed(StateAfter(0, 1)) == 0xE220_A839_7B1D_CDAF
    ensures Mixed(StateAfter(0, 2)) == 0x6E78_9E6A_A1B9_65F4
    ensures Mixed(StateAfter(1234567, 1)) == 6457827717110365317
    ensures Mixed(StateAfter(1234567, 2)) == 3203168211198807973
  {
    assert StateAfter(0, 1) == 0x9E37_79B9_7F4A_7C15;
    assert StateAfter(0, 2) == 0x3C6E_F372_FE94_F82A;
    assert StateAfter(1234567, 1) == 0x9E37_79B9_7F5D_529C;
    assert StateAfter(1234567, 2) == 0x3C6E_F372_FEA7_CEB1;
  }

  class Generator {
    var x: U64

    constructor (seed: U64)
      ensures x == seed
    {
      x := seed;
    }

    /** `splitmix64_r` */
    method Next() returns (r: bv64)
      modifies this
      ensures x == Plus(old(x), GOLDEN_GAMMA) && r == Mixed(x)
    {
      x := Plus(x, GOLDEN_GAMMA);
      r := Mixed(x);
    }

    /** `jump_splitmix64`: as if so many numbers had been taken. */
    method Jump(steps: U64)
      modifies this
      ensures x == StateAfter(old(x), steps)
    {
      JumpIsMany(x, steps);
      x := Plus(x, GOLDEN_GAMMA * steps % MODULUS);
    }
  }

  /** `splitmix64_ctr`: the number that comes after `jump` others. */
  method Peek(seed: U64, jump: U64) returns (r: bv64)
    ensures r == Mixed(StateAfter(seed, jump + 1))
  {
    var g := new Generator(seed);
    g.Jump(jump);
    r := g.Next();
  }

  lemma PlusWraps(a: int, b: int)
    ensures Plus(a, b % MODULUS) == Plus(a, b) && Plus(a % MODULUS, b) == Plus(a, b)
  {
    assert a == (a / MODULUS) * MODULUS + a % MODULUS && b == (b / MODULUS) * MODULUS + b % MODULUS;
  }

  /** One multiplication is as good as any number of steps, wrap-around included. */
  lemma {:induction false} JumpIsMany(seed: U64, n: nat)
    ensures Plus(seed, GOLDEN_GAMMA * n % MODULUS) == StateAfter(seed, n)
    decreases n
  {
    PlusWraps(seed, GOLDEN_GAMMA * n);
    if n > 0 {
      JumpIsMany(seed, n - 1);
      PlusWraps(seed, GOLDEN_GAMMA * (n - 1));
      PlusWraps(seed + GOLDEN_GAMMA * (n - 1), GOLDEN_GAMMA);
      assert GOLDEN_GAMMA * n == GOLDEN_GAMMA * (n - 1) + GOLDEN_GAMMA;
    }
  }
}
