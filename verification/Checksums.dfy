/** The Bech32 checksum: a linear code over GF(2), computed on 32-bit words (src/bech32.cpp; section "Bech32",
    subsection "Checksum", of BIP 173). */
module Checksums {

  type Word = bv32

  const LIMIT: Word := 0x4000_0000

  // ---------------------------------------------------------------- specification

  function X(a: Word, b: Word): Word {
    a ^ b
  }

  function Generator(index: nat): Word
    requires index < 5
  {
    if index == 0 then 0x3b6a57b2 else if index == 1 then 0x26508e6d else if index == 2 then 0x1ea119fa
    else if index == 3 then 0x3d4233dd else 0x2a1462b3
  }

  function Bit(word: Word, index: nat): Word
    requires index < 5
  {
    if index == 0 then word & 1 else if index == 1 then (word >> 1) & 1 else if index == 2 then (word >> 2) & 1
    else if index == 3 then (word >> 3) & 1 else (word >> 4) & 1
  }

  /** The generator if the bit is set, and zero otherwise. */
  function Select(bit: Word, generator: Word): Word {
    generator & (0 - bit)
  }

  /** The generators that the first n bits of a word select. */
  function Mixed(top: Word, n: nat): Word
    requires n <= 5
  {
    if n == 0 then 0 else X(Mixed(top, n - 1), Select(Bit(top, n - 1), Generator(n - 1)))
  }

  function Shifted(state: Word): Word {
    (state & 0x1ff_ffff) << 5
  }

  function Top(state: Word): Word {
    state >> 25
  }

  function Step(state: Word, value: Word): Word {
    X(X(Shifted(state), value), Mixed(Top(state), 5))
  }

  function Fold(state: Word, values: seq<Word>): Word {
    if values == [] then state else Step(Fold(state, values[..|values| - 1]), values[|values| - 1])
  }

  ghost predicate Quintets(values: seq<Word>) {
    forall i :: 0 <= i < |values| ==> values[i] < 32
  }

  ghost function Xor(a: seq<Word>, b: seq<Word>): (r: seq<Word>)
    requires |a| == |b|
    ensures |r| == |a|
    ensures forall i :: 0 <= i < |a| ==> r[i] == X(a[i], b[i])
  {
    seq(|a|, i requires 0 <= i < |a| => X(a[i], b[i]))
  }

  ghost function Zeros(n: nat): (r: seq<Word>)
    ensures |r| == n
    ensures forall i :: 0 <= i < n ==> r[i] == 0
  {
    seq(n, _ => 0)
  }

  // ---------------------------------------------------------------- implementation

  method Polymod(values: seq<Word>) returns (checksum: Word)
    ensures checksum == Fold(1, values)
  {
    hide X, Generator, Bit, Select, Shifted, Top;
    checksum := 1;
    for i := 0 to |values|
      invariant checksum == Fold(1, values[..i])
    {
      var top := Top(checksum);
      assert values[..i + 1][..i] == values[..i];
      checksum := X(Shifted(checksum), values[i]);
      ghost var shifted := checksum;
      XorZero(shifted);
      for index: nat := 0 to 5
        invariant checksum == X(shifted, Mixed(top, index))
      {
        MixOneMore(shifted, Mixed(top, index), top, index);
        if Bit(top, index) != 0 {
          checksum := X(checksum, Generator(index));
        }
      }
    }
    assert values[..|values|] == values;
  }

  lemma {:induction false} MixOneMore(shifted: Word, mixed: Word, top: Word, index: nat)
    requires index < 5
    ensures var chosen := X(shifted, X(mixed, Select(Bit(top, index), Generator(index))));
            && (Bit(top, index) != 0 ==> chosen == X(X(shifted, mixed), Generator(index)))
            && (Bit(top, index) == 0 ==> chosen == X(shifted, mixed))
  {
    BitIsBit(top, index);
    SelectMeans(Bit(top, index), Generator(index));
    XorAssociates(shifted, mixed, Generator(index));
    XorZero(mixed);
    hide X, Bit, Select, Generator;
  }

  // ---------------------------------------------------------------- bits and words

  lemma {:induction false} XorZero(a: Word)
    ensures X(a, 0) == a && X(0, a) == a
  {
  }

  lemma {:induction false} XorSelf(a: Word)
    ensures X(a, a) == 0
  {
  }

  lemma {:induction false} XorAssociates(a: Word, b: Word, c: Word)
    ensures X(a, X(b, c)) == X(X(a, b), c)
  {
  }

  lemma {:induction false} XorPairs(a: Word, b: Word, p: Word, q: Word)
    ensures X(X(a, b), X(p, q)) == X(X(a, p), X(b, q))
  {
    hide X;
    XorAssociates(a, b, X(p, q));
    XorAssociates(b, p, q);
    XorCommutes(b, p);
    XorAssociates(p, b, q);
    XorAssociates(a, p, X(b, q));
  }

  lemma {:induction false} XorCommutes(a: Word, b: Word)
    ensures X(a, b) == X(b, a)
  {
  }

  lemma {:induction false} BitIsBit(word: Word, index: nat)
    requires index < 5
    ensures Bit(word, index) == 0 || Bit(word, index) == 1
  {
    LowBit(word);
    LowBit(word >> 1);
    LowBit(word >> 2);
    LowBit(word >> 3);
    LowBit(word >> 4);
  }

  lemma {:induction false} LowBit(word: Word)
    ensures word & 1 == 0 || word & 1 == 1
  {
  }

  lemma {:induction false} SelectMeans(bit: Word, generator: Word)
    requires bit == 0 || bit == 1
    ensures Select(bit, generator) == if bit == 0 then 0 else generator
  {
  }

  lemma {:induction false} BitLinear(a: Word, b: Word, index: nat)
    requires index < 5
    ensures Bit(X(a, b), index) == X(Bit(a, index), Bit(b, index))
  {
    if index == 0 {
      assert (a ^ b) & 1 == (a & 1) ^ (b & 1);
    } else if index == 1 {
      assert ((a ^ b) >> 1) & 1 == ((a >> 1) & 1) ^ ((b >> 1) & 1);
    } else if index == 2 {
      assert ((a ^ b) >> 2) & 1 == ((a >> 2) & 1) ^ ((b >> 2) & 1);
    } else if index == 3 {
      assert ((a ^ b) >> 3) & 1 == ((a >> 3) & 1) ^ ((b >> 3) & 1);
    } else {
      assert ((a ^ b) >> 4) & 1 == ((a >> 4) & 1) ^ ((b >> 4) & 1);
    }
  }

  lemma {:induction false} SelectLinear(p: Word, q: Word, generator: Word)
    requires (p == 0 || p == 1) && (q == 0 || q == 1)
    ensures Select(X(p, q), generator) == X(Select(p, generator), Select(q, generator))
  {
    XorZero(p);
    XorZero(q);
    XorSelf(1);
    SelectMeans(0, generator);
    SelectMeans(1, generator);
    XorZero(generator);
    XorZero(0);
    XorSelf(generator);
    hide X, Select;
  }

  lemma {:induction false} ShiftedLinear(a: Word, b: Word)
    ensures Shifted(X(a, b)) == X(Shifted(a), Shifted(b))
  {
  }

  lemma {:induction false} TopLinear(a: Word, b: Word)
    ensures Top(X(a, b)) == X(Top(a), Top(b))
  {
  }

  // ---------------------------------------------------------------- linearity

  lemma {:induction false} MixedLinear(a: Word, b: Word, n: nat)
    requires n <= 5
    ensures Mixed(X(a, b), n) == X(Mixed(a, n), Mixed(b, n))
  {
    hide X, Bit, Select, Generator;
    if n == 0 {
      XorZero(0);
    } else {
      MixedLinear(a, b, n - 1);
      BitLinear(a, b, n - 1);
      BitIsBit(a, n - 1);
      BitIsBit(b, n - 1);
      var (p, q, g) := (Bit(a, n - 1), Bit(b, n - 1), Generator(n - 1));
      SelectLinear(p, q, g);
      XorPairs(Mixed(a, n - 1), Mixed(b, n - 1), Select(p, g), Select(q, g));
    }
  }

  /** A step is linear in the state and in the value. */
  lemma {:induction false} StepLinear(a: Word, b: Word, v: Word, w: Word)
    ensures Step(X(a, b), X(v, w)) == X(Step(a, v), Step(b, w))
  {
    hide X, Mixed, Shifted, Top;
    ShiftedLinear(a, b);
    TopLinear(a, b);
    MixedLinear(Top(a), Top(b), 5);
    var (x, y) := (Shifted(a), Shifted(b));
    XorPairs(x, y, v, w);
    XorPairs(X(x, v), X(y, w), Mixed(Top(a), 5), Mixed(Top(b), 5));
  }

  lemma {:induction false} FoldLinear(c: Word, d: Word, a: seq<Word>, b: seq<Word>)
    requires |a| == |b|
    ensures Fold(X(c, d), Xor(a, b)) == X(Fold(c, a), Fold(d, b))
  {
    hide Step, X;
    if |a| > 0 {
      var n := |a| - 1;
      FoldLinear(c, d, a[..n], b[..n]);
      assert Xor(a, b)[..n] == Xor(a[..n], b[..n]);
      StepLinear(Fold(c, a[..n]), Fold(d, b[..n]), a[n], b[n]);
    }
  }

  lemma {:induction false} FoldJoin(c: Word, a: seq<Word>, b: seq<Word>)
    ensures Fold(c, a + b) == Fold(Fold(c, a), b)
  {
    hide Step;
    if b == [] {
      assert a + b == a;
    } else {
      var n := |b| - 1;
      FoldJoin(c, a, b[..n]);
      assert (a + b)[..|a + b| - 1] == a + b[..n];
    }
  }

  lemma {:induction false} FoldNext(state: Word, values: seq<Word>, next: Word)
    ensures Fold(state, []) == state
    ensures Fold(state, values + [next]) == Step(Fold(state, values), next)
  {
    hide Step;
    assert (values + [next])[..|values|] == values;
  }

  // ---------------------------------------------------------------- single steps

  /** The mixture and the step written out. */
  function PlainMix(top: Word): Word {
    (0x3b6a57b2 & (0 - (top & 1))) ^ (0x26508e6d & (0 - ((top >> 1) & 1))) ^ (0x1ea119fa & (0 - ((top >> 2) & 1)))
      ^ (0x3d4233dd & (0 - ((top >> 3) & 1))) ^ (0x2a1462b3 & (0 - ((top >> 4) & 1)))
  }

  function PlainStep(state: Word, value: Word): Word {
    ((state & 0x1ff_ffff) << 5) ^ value ^ PlainMix(state >> 25)
  }

  function Term(top: Word, index: nat): Word
    requires index < 5
  {
    Select(Bit(top, index), Generator(index))
  }

  lemma {:induction false} MixedFive(top: Word)
    ensures Mixed(top, 5) == X(X(X(X(Term(top, 0), Term(top, 1)), Term(top, 2)), Term(top, 3)), Term(top, 4))
  {
    hide X, Select, Bit, Generator;
    XorZero(Term(top, 0));
    assert Mixed(top, 1) == X(Mixed(top, 0), Term(top, 0));
    assert Mixed(top, 2) == X(Mixed(top, 1), Term(top, 1));
    assert Mixed(top, 3) == X(Mixed(top, 2), Term(top, 2));
    assert Mixed(top, 4) == X(Mixed(top, 3), Term(top, 3));
  }

  lemma {:induction false} Terms(top: Word)
    ensures Term(top, 0) == 0x3b6a57b2 & (0 - (top & 1))
    ensures Term(top, 1) == 0x26508e6d & (0 - ((top >> 1) & 1))
    ensures Term(top, 2) == 0x1ea119fa & (0 - ((top >> 2) & 1))
    ensures Term(top, 3) == 0x3d4233dd & (0 - ((top >> 3) & 1))
    ensures Term(top, 4) == 0x2a1462b3 & (0 - ((top >> 4) & 1))
  {
  }

  lemma {:induction false} StepIsPlain(state: Word, value: Word)
    ensures Step(state, value) == PlainStep(state, value)
  {
    var top := state >> 25;
    MixedFive(top);
    Terms(top);
    hide Mixed, Term;
    assert Mixed(top, 5) == PlainMix(top);
    hide PlainMix;
  }

  /** The valid string "a12uel5l" of BIP 173: the expanded prefix "a" and the six characters of its checksum. */
  lemma {:induction false} ValidVector()
    ensures Fold(1, [3, 0, 1, 10, 28, 25, 31, 20, 31]) == 1
  {
    hide Step, PlainStep, Fold;
    VectorSteps();
    var prefix: seq<Word> := [3, 0, 1];
    var (values, more) := (prefix + [10] + [28] + [25], prefix + [10] + [28] + [25] + [31] + [20] + [31]);
    FoldNext(1, [], 3);
    FoldNext(1, [3], 0);
    FoldNext(1, [3, 0], 1);
    assert [] + [3 as Word] == [3] && [3 as Word] + [0] == [3, 0] && [3 as Word, 0] + [1] == prefix;
    assert Fold(1, prefix) == PlainStep(PlainStep(PlainStep(1, 3), 0), 1) by {
      StepIsPlain(1, 3);
      StepIsPlain(0x23, 0);
      StepIsPlain(0x460, 1);
    }
    FoldNext(1, prefix, 10);
    FoldNext(1, prefix + [10], 28);
    FoldNext(1, prefix + [10] + [28], 25);
    FoldNext(1, values, 31);
    FoldNext(1, values + [31], 20);
    FoldNext(1, values + [31] + [20], 31);
    StepIsPlain(0x8c01, 10);
    StepIsPlain(0x11_802a, 28);
    StepIsPlain(0x230_055c, 25);
    StepIsPlain(0x3d6a_fc2b, 31);
    StepIsPlain(0x2f8_4386, 20);
    StepIsPlain(0x2462_2766, 31);
    assert more == [3, 0, 1, 10, 28, 25, 31, 20, 31];
  }

  lemma {:induction false} VectorSteps()
    ensures PlainStep(1, 3) == 0x23 && PlainStep(0x23, 0) == 0x460 && PlainStep(0x460, 1) == 0x8c01
    ensures PlainStep(0x8c01, 10) == 0x11_802a && PlainStep(0x11_802a, 28) == 0x230_055c
    ensures PlainStep(0x230_055c, 25) == 0x3d6a_fc2b && PlainStep(0x3d6a_fc2b, 31) == 0x2f8_4386
    ensures PlainStep(0x2f8_4386, 20) == 0x2462_2766 && PlainStep(0x2462_2766, 31) == 1
  {
  }

  /** States stay within 30 bits. */
  lemma {:induction false} StepBounded(state: Word, value: Word)
    requires state < LIMIT && value < 32
    ensures Step(state, value) < LIMIT
  {
    StepIsPlain(state, value);
    hide Step;
  }

  /** With nothing to mix in, a step appends five bits. */
  lemma {:induction false} StepAppends(state: Word, value: Word)
    requires state < 0x200_0000 && value < 32
    ensures Step(state, value) == Append(state, value)
  {
    StepIsPlain(state, value);
    hide Step;
  }

  function Append(state: Word, value: Word): Word {
    (state << 5) ^ value
  }

  /** A zero value never brings a non-zero state to zero. */
  lemma {:induction false} StepInjective(state: Word)
    requires state < LIMIT && Step(state, 0) == 0
    ensures state == 0
  {
    StepIsPlain(state, 0);
    hide Step;
  }

  lemma {:induction false} FoldBounded(state: Word, values: seq<Word>)
    requires state < LIMIT && Quintets(values)
    ensures Fold(state, values) < LIMIT
  {
    hide Step;
    if values != [] {
      FoldBounded(state, values[..|values| - 1]);
      StepBounded(Fold(state, values[..|values| - 1]), values[|values| - 1]);
    }
  }

  lemma {:induction false} ZerosKeepNonZero(state: Word, n: nat)
    requires 0 != state < LIMIT
    ensures 0 != Fold(state, Zeros(n)) < LIMIT
  {
    hide Step;
    if n > 0 {
      ZerosKeepNonZero(state, n - 1);
      assert Zeros(n)[..n - 1] == Zeros(n - 1);
      StepBounded(Fold(state, Zeros(n - 1)), 0);
      if Step(Fold(state, Zeros(n - 1)), 0) == 0 {
        StepInjective(Fold(state, Zeros(n - 1)));
      }
    }
  }

  // ---------------------------------------------------------------- the checksum

  function Group(word: Word, index: nat): Word
    requires index < 6
  {
    if index == 0 then (word >> 25) & 31 else if index == 1 then (word >> 20) & 31 else if index == 2 then (word >> 15) & 31
    else if index == 3 then (word >> 10) & 31 else if index == 4 then (word >> 5) & 31 else word & 31
  }

  function GroupsOf(word: Word): (r: seq<Word>)
    ensures |r| == 6
  {
    [Group(word, 0), Group(word, 1), Group(word, 2), Group(word, 3), Group(word, 4), Group(word, 5)]
  }

  /** The six groups that make the polynomial come out as 1. */
  ghost function ChecksumOf(values: seq<Word>): (r: seq<Word>)
    ensures |r| == 6
  {
    GroupsOf(X(Fold(1, values + Zeros(6)), 1))
  }

  lemma {:induction false} GroupSmall(word: Word, index: nat)
    requires index < 6
    ensures Group(word, index) < 32
  {
    LowBits(word >> 25);
    LowBits(word >> 20);
    LowBits(word >> 15);
    LowBits(word >> 10);
    LowBits(word >> 5);
    LowBits(word);
  }

  lemma {:induction false} LowBits(word: Word)
    ensures word & 31 < 32
  {
  }

  lemma {:induction false} SixGroups(word: Word)
    requires word < LIMIT
    ensures Append(Append(Append(Append(Append((word >> 25) & 31, (word >> 20) & 31), (word >> 15) & 31),
                                 (word >> 10) & 31), (word >> 5) & 31), word & 31) == word
  {
  }

  lemma {:induction false} AppendBounded(state: Word, value: Word)
    requires value < 32
    ensures state < 0x20 ==> Append(state, value) < 0x400
    ensures state < 0x400 ==> Append(state, value) < 0x8000
    ensures state < 0x8000 ==> Append(state, value) < 0x10_0000
    ensures state < 0x10_0000 ==> Append(state, value) < 0x200_0000
  {
  }

  lemma {:induction false} FoldAppends(values: seq<Word>, state: Word, value: Word)
    requires Fold(0, values) == state && state < 0x200_0000 && value < 32
    ensures Fold(0, values + [value]) == Append(state, value)
  {
    hide Fold, Step, Append;
    FoldNext(0, values, value);
    StepAppends(state, value);
  }

  lemma {:induction false} FoldThree(a: Word, b: Word, c: Word)
    requires a < 32 && b < 32 && c < 32
    ensures var s := Append(Append(a, b), c);
            Fold(0, [a, b, c]) == s && s < 0x8000
  {
    hide Fold, Step, Append;
    FoldNext(0, [], a);
    AppendToZero(a);
    FoldAppends([], 0, a);
    assert [] + [a] == [a] && [a] + [b] == [a, b] && [a, b] + [c] == [a, b, c];
    AppendBounded(a, b);
    FoldAppends([a], a, b);
    AppendBounded(Append(a, b), c);
    FoldAppends([a, b], Append(a, b), c);
  }

  lemma {:induction false} FoldSix(a: Word, b: Word, c: Word, d: Word, e: Word, f: Word)
    requires a < 32 && b < 32 && c < 32 && d < 32 && e < 32 && f < 32
    ensures Fold(0, [a, b, c, d, e, f]) == Append(Append(Append(Append(Append(a, b), c), d), e), f)
  {
    hide Fold, Step, Append;
    var three := [a, b, c];
    var s3 := Append(Append(a, b), c);
    FoldThree(a, b, c);
    AppendBounded(s3, d);
    FoldAppends(three, s3, d);
    AppendBounded(Append(s3, d), e);
    FoldAppends(three + [d], Append(s3, d), e);
    FoldAppends(three + [d] + [e], Append(Append(s3, d), e), f);
    assert three + [d] + [e] + [f] == [a, b, c, d, e, f];
  }

  lemma {:induction false} AppendToZero(a: Word)
    ensures Append(0, a) == a
  {
  }

  lemma {:induction false} GroupsRebuild(word: Word)
    requires word < LIMIT
    ensures Fold(0, GroupsOf(word)) == word
  {
    hide Fold, Append;
    forall i | 0 <= i < 6
      ensures Group(word, i) < 32
    {
      GroupSmall(word, i);
    }
    SixGroups(word);
    FoldSix(Group(word, 0), Group(word, 1), Group(word, 2), Group(word, 3), Group(word, 4), Group(word, 5));
  }

  /** Whatever the values, with their checksum appended the polynomial is 1. */
  lemma {:induction false} ChecksumCompletes(values: seq<Word>)
    requires Quintets(values)
    ensures Fold(1, values + ChecksumOf(values)) == 1 && Quintets(ChecksumOf(values))
  {
    hide Fold, Step, X, Group, Append;
    var (state, check) := (Fold(1, values), ChecksumOf(values));
    FoldBounded(1, values);
    FoldJoin(1, values, check);
    FoldJoin(1, values, Zeros(6));
    var rest := Fold(state, Zeros(6));
    FoldBounded(state, Zeros(6));
    FlipBounded(rest);
    GroupsRebuild(X(rest, 1));
    forall i | 0 <= i < 6
      ensures check[i] < 32 && X(Zeros(6)[i], check[i]) == check[i]
    {
      GroupSmall(X(rest, 1), i);
      XorZero(check[i]);
    }
    assert Xor(Zeros(6), check) == check;
    XorZero(state);
    FoldLinear(state, 0, Zeros(6), check);
    Cancels(rest);
  }

  lemma {:induction false} GroupsOfSix(a: Word, b: Word, c: Word, d: Word, e: Word, f: Word)
    requires a < 32 && b < 32 && c < 32 && d < 32 && e < 32 && f < 32
    ensures GroupsOf((a << 25) ^ (b << 20) ^ (c << 15) ^ (d << 10) ^ (e << 5) ^ f) == [a, b, c, d, e, f]
  {
  }

  lemma {:induction false} AppendsSpread(a: Word, b: Word, c: Word, d: Word, e: Word, f: Word)
    ensures Append(Append(Append(Append(Append(a, b), c), d), e), f)
         == (a << 25) ^ (b << 20) ^ (c << 15) ^ (d << 10) ^ (e << 5) ^ f
  {
  }

  /** Only one checksum makes the polynomial come out as 1. */
  lemma {:induction false} ChecksumUnique(values: seq<Word>, check: seq<Word>)
    requires Quintets(values) && Quintets(check) && |check| == 6 && Fold(1, values + check) == 1
    ensures check == ChecksumOf(values)
  {
    hide Fold, Step, X, Append, GroupsOf;
    var state := Fold(1, values);
    FoldJoin(1, values, check);
    FoldJoin(1, values, Zeros(6));
    forall i | 0 <= i < 6
      ensures X(Zeros(6)[i], check[i]) == check[i]
    {
      XorZero(check[i]);
    }
    assert Xor(Zeros(6), check) == check;
    XorZero(state);
    FoldLinear(state, 0, Zeros(6), check);
    Moves(Fold(state, Zeros(6)), Fold(0, check));
    var (a, b, c, d, e, f) := (check[0], check[1], check[2], check[3], check[4], check[5]);
    assert check == [a, b, c, d, e, f];
    FoldSix(a, b, c, d, e, f);
    AppendsSpread(a, b, c, d, e, f);
    GroupsOfSix(a, b, c, d, e, f);
  }

  lemma {:induction false} Moves(a: Word, b: Word)
    requires X(a, b) == 1
    ensures b == X(a, 1)
  {
  }

  lemma {:induction false} FlipBounded(word: Word)
    requires word < LIMIT
    ensures X(word, 1) < LIMIT
  {
  }

  lemma {:induction false} Cancels(word: Word)
    ensures X(word, X(word, 1)) == 1
  {
  }

  /** Changing a single value changes the polynomial. */
  lemma {:induction false} SubstitutionChanges(values: seq<Word>, i: nat, other: Word)
    requires Quintets(values) && i < |values| && other < 32 && other != values[i]
    ensures Fold(1, values[i := other]) != Fold(1, values)
  {
    hide Fold, Step, X, Append;
    var changed := values[i := other];
    var (d, rest) := (X(values[i], other), |values| - i - 1);
    var difference := Zeros(i) + ([d] + Zeros(rest));
    forall k | 0 <= k < |values|
      ensures X(values[k], changed[k]) == difference[k]
    {
      XorSelf(values[k]);
    }
    assert Xor(values, changed) == difference;
    XorSelf(1);
    FoldLinear(1, 1, values, changed);
    FoldJoin(0, Zeros(i), [d] + Zeros(rest));
    FoldOfZeros(i);
    FoldJoin(0, [d], Zeros(rest));
    assert [] + [d] == [d];
    FoldNext(0, [], d);
    DifferenceSmall(values[i], other);
    StepAppends(0, d);
    AppendToZero(d);
    ZerosKeepNonZero(d, rest);
    XorSelf(Fold(1, values));
  }

  lemma {:induction false} DifferenceSmall(a: Word, b: Word)
    requires a < 32 && b < 32 && a != b
    ensures 0 != X(a, b) < 32
  {
  }

  lemma {:induction false} FoldOfZeros(n: nat)
    ensures Fold(0, Zeros(n)) == 0
  {
    hide Step, Append;
    if n > 0 {
      FoldOfZeros(n - 1);
      assert Zeros(n)[..n - 1] == Zeros(n - 1);
      StepAppends(0, 0);
      AppendToZero(0);
    }
  }
}
