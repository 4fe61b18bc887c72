/** The byte string fed to SHA-256 for an ordered restore plan. SHA-256 itself is a parameter. */
module PlanHash {
  import opened Domain

  type Byte = b: int | 0 <= b < 256

  datatype Step = Step(index: nat, parameterId: ParameterId, expectedOldRaw: RawRegisters, targetRaw: RawRegisters)

  /** `to_be_bytes` on `width` bytes. */
  function BigEndian(x: nat, width: nat): (bytes: seq<Byte>)
    ensures |bytes| == width
  {
    if width == 0 then [] else BigEndian(x / 256, width - 1) + [x % 256]
  }

  function TextBytes(text: string): (bytes: seq<Byte>)
    ensures |bytes| == |text|
  {
    seq(|text|, i requires 0 <= i < |text| => text[i] as int % 256)
  }

  function WordBytes(words: seq<Word>): (bytes: seq<Byte>)
    ensures |bytes| == 2 * |words|
  {
    if words == [] then [] else WordBytes(words[..|words| - 1]) + BigEndian(words[|words| - 1], 2)
  }

  function LengthPrefixedText(text: string): seq<Byte> {
    BigEndian(|text|, 8) + TextBytes(text)
  }

  function LengthPrefixedWords(words: seq<Word>): seq<Byte> {
    BigEndian(|words|, 8) + WordBytes(words)
  }

  function StepBytes(step: Step): seq<Byte> {
    BigEndian(step.index, 8)
    + (LengthPrefixedText(step.parameterId)
       + (LengthPrefixedWords(step.expectedOldRaw) + LengthPrefixedWords(step.targetRaw)))
  }

  function PreImage(steps: seq<Step>): seq<Byte> {
    if steps == [] then [] else PreImage(steps[..|steps| - 1]) + StepBytes(steps[|steps| - 1])
  }

  /** The characters a validated identifier may contain. */
  predicate Portable(c: char) {
    'a' <= c <= 'z' || 'A' <= c <= 'Z' || '0' <= c <= '9' || c in "-_.:"
  }

  /** What the machine widths and the validated identifier type guarantee about a step. */
  ghost predicate Bounded(step: Step) {
    && step.index <= U64_MAX
    && 1 <= |step.parameterId| <= 128
    && forall i :: 0 <= i < |step.parameterId| ==> Portable(step.parameterId[i])
  }

  method OrderedPlanHash(steps: seq<Step>, digest: seq<Byte> -> Digest) returns (hash: Digest)
    ensures hash == digest(PreImage(steps))
  {
    var fed: seq<Byte> := [];
    for i := 0 to |steps|
      invariant fed == PreImage(steps[..i])
    {
      fed := FeedStep(fed, steps[i]);
      assert steps[..i + 1][..i] == steps[..i];
    }
    assert steps[..|steps|] == steps;
    hash := digest(fed);
  }

  method FeedStep(already: seq<Byte>, step: Step) returns (fed: seq<Byte>)
    ensures fed == already + StepBytes(step)
  {
    fed := already + BigEndian(step.index, 8);
    fed := fed + BigEndian(|step.parameterId|, 8);
    fed := fed + TextBytes(step.parameterId);
    fed := FeedWords(fed, step.expectedOldRaw);
    fed := FeedWords(fed, step.targetRaw);
  }

  method FeedWords(already: seq<Byte>, words: seq<Word>) returns (fed: seq<Byte>)
    ensures fed == already + LengthPrefixedWords(words)
  {
    fed := already + BigEndian(|words|, 8);
    for i := 0 to |words|
      invariant fed == already + BigEndian(|words|, 8) + WordBytes(words[..i])
    {
      fed := fed + BigEndian(words[i], 2);
      assert words[..i + 1][..i] == words[..i];
    }
    assert words[..|words|] == words;
    assert fed == already + LengthPrefixedWords(words);
  }

  lemma SplitAt<T>(a: seq<T>, b: seq<T>, c: seq<T>, d: seq<T>)
    requires a + b == c + d && |a| == |c|
    ensures a == c && b == d
  {
    assert (a + b)[..|a|] == a && (a + b)[|a|..] == b;
    assert (c + d)[..|c|] == c && (c + d)[|c|..] == d;
  }

  function Pow256(width: nat): (r: nat)
    ensures r >= 1
  {
    if width == 0 then 1 else 256 * Pow256(width - 1)
  }

  lemma {:induction false} BigEndianInjective(x: nat, y: nat, width: nat)
    requires x < Pow256(width) && y < Pow256(width)
    requires BigEndian(x, width) == BigEndian(y, width)
    ensures x == y
  {
    if width > 0 {
      SplitAt(BigEndian(x / 256, width - 1), [x % 256], BigEndian(y / 256, width - 1), [y % 256]);
      BigEndianInjective(x / 256, y / 256, width - 1);
    }
  }

  lemma MachineWidths()
    ensures Pow256(2) == 0x1_0000 && Pow256(8) == U64_MAX + 1
  {
    assert Pow256(4) == 0x1_0000_0000;
    assert Pow256(6) == 0x1_0000 * Pow256(4);
  }

  lemma TextBytesInjective(s: string, t: string)
    requires |s| == |t| && TextBytes(s) == TextBytes(t)
    requires forall i :: 0 <= i < |s| ==> Portable(s[i]) && Portable(t[i])
    ensures s == t
  {
    forall i | 0 <= i < |s| ensures s[i] == t[i] {
      assert TextBytes(s)[i] == s[i] as int % 256 && TextBytes(t)[i] == t[i] as int % 256;
    }
  }

  lemma {:induction false} WordBytesInjective(s: seq<Word>, t: seq<Word>)
    requires |s| == |t| && WordBytes(s) == WordBytes(t)
    ensures s == t
  {
    if s != [] {
      var n := |s| - 1;
      SplitAt(WordBytes(s[..n]), BigEndian(s[n], 2), WordBytes(t[..n]), BigEndian(t[n], 2));
      WordBytesInjective(s[..n], t[..n]);
      MachineWidths();
      BigEndianInjective(s[n], t[n], 2);
      assert s == s[..n] + [s[n]] && t == t[..n] + [t[n]];
    }
  }

  lemma TextSplits(s: string, a: seq<Byte>, t: string, b: seq<Byte>)
    requires |s| <= 128 && |t| <= 128
    requires forall i :: 0 <= i < |s| ==> Portable(s[i])
    requires forall i :: 0 <= i < |t| ==> Portable(t[i])
    requires LengthPrefixedText(s) + a == LengthPrefixedText(t) + b
    ensures s == t && a == b
  {
    assert BigEndian(|s|, 8) + (TextBytes(s) + a) == LengthPrefixedText(s) + a;
    assert BigEndian(|t|, 8) + (TextBytes(t) + b) == LengthPrefixedText(t) + b;
    SplitAt(BigEndian(|s|, 8), TextBytes(s) + a, BigEndian(|t|, 8), TextBytes(t) + b);
    MachineWidths();
    BigEndianInjective(|s|, |t|, 8);
    SplitAt(TextBytes(s), a, TextBytes(t), b);
    TextBytesInjective(s, t);
  }

  lemma WordsSplit(s: seq<Word>, a: seq<Byte>, t: seq<Word>, b: seq<Byte>)
    requires |s| <= 125 && |t| <= 125
    requires LengthPrefixedWords(s) + a == LengthPrefixedWords(t) + b
    ensures s == t && a == b
  {
    assert BigEndian(|s|, 8) + (WordBytes(s) + a) == LengthPrefixedWords(s) + a;
    assert BigEndian(|t|, 8) + (WordBytes(t) + b) == LengthPrefixedWords(t) + b;
    SplitAt(BigEndian(|s|, 8), WordBytes(s) + a, BigEndian(|t|, 8), WordBytes(t) + b);
    MachineWidths();
    BigEndianInjective(|s|, |t|, 8);
    SplitAt(WordBytes(s), a, WordBytes(t), b);
    WordBytesInjective(s, t);
  }

  lemma Associative(x: seq<Byte>, y: seq<Byte>, z: seq<Byte>)
    ensures (x + y) + z == x + (y + z)
  {
  }

  lemma ValuesSplit(old1: seq<Word>, new1: seq<Word>, a: seq<Byte>, old2: seq<Word>, new2: seq<Word>, b: seq<Byte>)
    requires |old1| <= 125 && |new1| <= 125 && |old2| <= 125 && |new2| <= 125
    requires LengthPrefixedWords(old1) + (LengthPrefixedWords(new1) + a)
          == LengthPrefixedWords(old2) + (LengthPrefixedWords(new2) + b)
    ensures old1 == old2 && new1 == new2 && a == b
  {
    WordsSplit(old1, LengthPrefixedWords(new1) + a, old2, LengthPrefixedWords(new2) + b);
    WordsSplit(new1, a, new2, b);
  }

  lemma NamedSplit(s: Step, sRest: seq<Byte>, t: Step, tRest: seq<Byte>)
    requires Bounded(s) && Bounded(t)
    requires BigEndian(s.index, 8) + (LengthPrefixedText(s.parameterId) + sRest)
          == BigEndian(t.index, 8) + (LengthPrefixedText(t.parameterId) + tRest)
    ensures s.index == t.index && s.parameterId == t.parameterId && sRest == tRest
  {
    SplitAt(BigEndian(s.index, 8), LengthPrefixedText(s.parameterId) + sRest,
            BigEndian(t.index, 8), LengthPrefixedText(t.parameterId) + tRest);
    MachineWidths();
    BigEndianInjective(s.index, t.index, 8);
    TextSplits(s.parameterId, sRest, t.parameterId, tRest);
  }

  lemma Reassociate(w: seq<Byte>, x: seq<Byte>, y: seq<Byte>, z: seq<Byte>)
    ensures (w + (x + y)) + z == w + (x + (y + z))
  {
  }

  /** A step can be read back off the front of any byte string that starts with it. */
  lemma StepSplits(s: Step, a: seq<Byte>, t: Step, b: seq<Byte>)
    requires Bounded(s) && Bounded(t)
    requires StepBytes(s) + a == StepBytes(t) + b
    ensures s == t && a == b
  {
    var sValues := LengthPrefixedWords(s.expectedOldRaw) + LengthPrefixedWords(s.targetRaw);
    var tValues := LengthPrefixedWords(t.expectedOldRaw) + LengthPrefixedWords(t.targetRaw);
    Reassociate(BigEndian(s.index, 8), LengthPrefixedText(s.parameterId), sValues, a);
    Reassociate(BigEndian(t.index, 8), LengthPrefixedText(t.parameterId), tValues, b);
    NamedSplit(s, sValues + a, t, tValues + b);
    Associative(LengthPrefixedWords(s.expectedOldRaw), LengthPrefixedWords(s.targetRaw), a);
    Associative(LengthPrefixedWords(t.expectedOldRaw), LengthPrefixedWords(t.targetRaw), b);
    ValuesSplit(s.expectedOldRaw, s.targetRaw, a, t.expectedOldRaw, t.targetRaw, b);
  }

  lemma {:induction false} PreImageFromFront(steps: seq<Step>)
    requires steps != []
    ensures PreImage(steps) == StepBytes(steps[0]) + PreImage(steps[1..])
  {
    hide StepBytes;
    var n := |steps| - 1;
    if n > 0 {
      PreImageFromFront(steps[..n]);
      assert steps[..n][1..] == steps[1..][..n - 1];
      assert PreImage(steps[1..]) == PreImage(steps[1..][..n - 1]) + StepBytes(steps[n]);
    } else {
      assert steps[..0] == [] && steps[1..] == [];
    }
  }

  /** Different step lists never share a pre-image, although neither the list nor a step carries an
      overall length. */
  lemma {:induction false} PreImageInjective(xs: seq<Step>, ys: seq<Step>)
    requires forall step :: step in xs || step in ys ==> Bounded(step)
    requires PreImage(xs) == PreImage(ys)
    ensures xs == ys
  {
    if xs == [] || ys == [] {
      if xs != [] { PreImageFromFront(xs); }
      if ys != [] { PreImageFromFront(ys); }
    } else {
      PreImageFromFront(xs);
      PreImageFromFront(ys);
      StepSplits(xs[0], PreImage(xs[1..]), ys[0], PreImage(ys[1..]));
      PreImageInjective(xs[1..], ys[1..]);
    }
  }

  // ---------------------------------------------------------------- the layout of a step

  /** The number bytes spell, the most significant first. */
  function NumberOf(bytes: seq<Byte>): nat {
    if bytes == [] then 0 else 256 * NumberOf(bytes[..|bytes| - 1]) + bytes[|bytes| - 1]
  }

  lemma {:induction false} BigEndianSpells(x: nat, width: nat)
    requires x < Pow256(width)
    ensures NumberOf(BigEndian(x, width)) == x
  {
    if width > 0 {
      BigEndianSpells(x / 256, width - 1);
      assert BigEndian(x, width)[..width - 1] == BigEndian(x / 256, width - 1);
    }
  }

  lemma EightBytes()
    ensures Pow256(2) == 0x1_0000 && Pow256(8) == U64_MAX + 1
  {
    assert Pow256(4) == 0x1_0000_0000;
    assert Pow256(6) == 0x1_0000 * Pow256(4);
  }

  lemma {:induction false} WordBytesSpell(words: seq<Word>, i: nat)
    requires i < |words|
    ensures NumberOf(WordBytes(words)[2 * i..2 * i + 2]) == words[i]
  {
    hide NumberOf;
    var n := |words| - 1;
    if i < n {
      WordBytesSpell(words[..n], i);
      assert WordBytes(words)[2 * i..2 * i + 2] == WordBytes(words[..n])[2 * i..2 * i + 2];
    } else {
      EightBytes();
      BigEndianSpells(words[n], 2);
      assert WordBytes(words)[2 * i..2 * i + 2] == BigEndian(words[n], 2);
    }
  }

  /** From byte `at` on: eight bytes that spell how many words follow, and the words, two bytes each. */
  ghost predicate WordsAt(bytes: seq<Byte>, at: nat, words: seq<Word>) {
    && at + 8 + 2 * |words| <= |bytes|
    && NumberOf(bytes[at..at + 8]) == |words|
    && forall i :: 0 <= i < |words| ==> NumberOf(bytes[at + 8 + 2 * i..at + 10 + 2 * i]) == words[i]
  }

  lemma PrefixedWordsAt(before: seq<Byte>, words: RawRegisters, after: seq<Byte>)
    ensures WordsAt(before + LengthPrefixedWords(words) + after, |before|, words)
  {
    hide NumberOf;
    var bytes, at := before + LengthPrefixedWords(words) + after, |before|;
    EightBytes();
    BigEndianSpells(|words|, 8);
    assert bytes[at..at + 8] == BigEndian(|words|, 8);
    forall i | 0 <= i < |words| ensures NumberOf(bytes[at + 8 + 2 * i..at + 10 + 2 * i]) == words[i] {
      WordBytesSpell(words, i);
      assert bytes[at + 8 + 2 * i..at + 10 + 2 * i] == WordBytes(words)[2 * i..2 * i + 2];
    }
  }

  /** How a step is laid out: index, id, old words and new words in this order, all numbers of eight bytes, all
      words of two, the most significant byte first. */
  lemma StepLayout(step: Step)
    requires Bounded(step)
    ensures var bytes, n, m := StepBytes(step), |step.parameterId|, |step.expectedOldRaw|;
            && |bytes| == 32 + n + 2 * m + 2 * |step.targetRaw|
            && NumberOf(bytes[..8]) == step.index
            && NumberOf(bytes[8..16]) == n
            && (forall i :: 0 <= i < n ==> bytes[16 + i] == step.parameterId[i] as int)
            && WordsAt(bytes, 16 + n, step.expectedOldRaw)
            && WordsAt(bytes, 24 + n + 2 * m, step.targetRaw)
  {
    hide NumberOf, WordBytes, WordsAt, BigEndian;
    var bytes, n := StepBytes(step), |step.parameterId|;
    EightBytes();
    BigEndianSpells(step.index, 8);
    BigEndianSpells(n, 8);
    assert bytes[..8] == BigEndian(step.index, 8);
    assert bytes[8..16] == BigEndian(n, 8);
    var head := BigEndian(step.index, 8) + LengthPrefixedText(step.parameterId);
    var oldWords := LengthPrefixedWords(step.expectedOldRaw);
    var newWords := LengthPrefixedWords(step.targetRaw);
    assert bytes == head + oldWords + newWords;
    PrefixedWordsAt(head, step.expectedOldRaw, newWords);
    PrefixedWordsAt(head + oldWords, step.targetRaw, []);
    assert head + oldWords + newWords + [] == bytes;
    forall i | 0 <= i < n ensures bytes[16 + i] == step.parameterId[i] as int {
      assert bytes[16 + i] == TextBytes(step.parameterId)[i];
    }
  }
}
