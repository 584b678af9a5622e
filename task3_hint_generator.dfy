/** The server side of the book-room task: the door code a task version selects and the
    book hints that spell it out. The seeded .NET `Random` is a parameter. */
module Task3HintGenerator {
  import opened Wrappers
  import opened Text

  /** .NET `int`. */
  type Int32 = x: int | -0x8000_0000 <= x < 0x8000_0000

  const MinInt32: int := -0x8000_0000

  /** The one .NET exception the generator raises: `Math.Abs(int.MinValue)` and
      `new string[n]` for negative n both throw `OverflowException`. */
  datatype Error = OverflowException

  /** `Random(seed)`'s draws: draw number `k` of the generator seeded with `seed`, taken with
      `Next(bound)`. */
  type Rng = (int, nat, nat) -> nat

  /** `Next(bound)` lies in [0, bound). */
  ghost predicate InRange(rng: Rng) {
    forall seed, k, bound :: bound > 0 ==> rng(seed, k, bound) < bound
  }

  const DoorCodes: seq<string> :=
    ["123", "1221", "333", "1112", "1233", "3321", "1321", "2312", "1231", "2121"]

  const NumberWords: seq<string> :=
    ["one", "two", "three", "four", "five", "six", "seven", "eight", "nine"]

  /** The lorem-ipsum text, word by word (the text split on ' '), in lines of eight words. */
  const LoremLine0: seq<string> := ["Lorem", "ipsum", "dolor", "sit", "amet,", "consectetur", "adipiscing", "elit."]
  const LoremLine1: seq<string> := ["Aenean", "id", "auctor", "tortor,", "vel", "maximus", "est.", "Mauris"]
  const LoremLine2: seq<string> := ["eu", "pellentesque", "purus.", "Mauris", "neque", "justo,", "finibus", "vitae"]
  const LoremLine3: seq<string> := ["nunc", "nec,", "facilisis", "bibendum", "purus.", "In", "pulvinar", "sapien"]
  const LoremLine4: seq<string> := ["ante,", "ac", "tincidunt", "quam", "ultrices", "nec.", "Sed", "feugiat"]
  const LoremLine5: seq<string> := ["libero", "nec", "lacus", "dignissim", "suscipit.", "Duis", "in", "purus"]
  const LoremLine6: seq<string> := ["in", "nisi", "vestibulum", "rutrum", "eget", "eget", "purus.", "Fusce"]
  const LoremLine7: seq<string> := ["luctus", "neque", "nec", "lorem", "sollicitudin,", "nec", "sollicitudin", "justo"]
  const LoremLine8: seq<string> := ["placerat.", "Morbi", "condimentum", "turpis", "risus.", "Ut", "leo", "erat,"]
  const LoremLine9: seq<string> := ["luctus", "eu", "arcu", "a,", "cursus", "eleifend", "felis."]
  const LoremWords: seq<string> :=
    LoremLine0 + LoremLine1 + LoremLine2 + LoremLine3 + LoremLine4 + LoremLine5 + LoremLine6 + LoremLine7 + LoremLine8 + LoremLine9

  /** The lorem-ipsum text every hint starts from. */
  const Lorem: string := Join(LoremWords, ' ')

  const WordCount: nat := 79

  /** No lorem word holds a space. */
  ghost predicate SpaceFree(ws: seq<string>) {
    forall w :: w in ws ==> ' ' !in w
  }

  lemma SpaceFreeConcat(a: seq<string>, b: seq<string>)
    requires SpaceFree(a) && SpaceFree(b)
    ensures SpaceFree(a + b)
  {
  }

  lemma LoremLine0SpaceFree() ensures SpaceFree(LoremLine0) {}
  lemma LoremLine1SpaceFree() ensures SpaceFree(LoremLine1) {}
  lemma LoremLine2SpaceFree() ensures SpaceFree(LoremLine2) {}
  lemma LoremLine3SpaceFree() ensures SpaceFree(LoremLine3) {}
  lemma LoremLine4SpaceFree() ensures SpaceFree(LoremLine4) {}
  lemma LoremLine5SpaceFree() ensures SpaceFree(LoremLine5) {}
  lemma LoremLine6SpaceFree() ensures SpaceFree(LoremLine6) {}
  lemma LoremLine7SpaceFree() ensures SpaceFree(LoremLine7) {}
  lemma LoremLine8SpaceFree() ensures SpaceFree(LoremLine8) {}
  lemma LoremLine9SpaceFree() ensures SpaceFree(LoremLine9) {}

  lemma LoremWordsFacts()
    ensures |LoremWords| == WordCount
    ensures SpaceFree(LoremWords)
  {
    LoremLine0SpaceFree();
    LoremLine1SpaceFree();
    LoremLine2SpaceFree();
    LoremLine3SpaceFree();
    LoremLine4SpaceFree();
    LoremLine5SpaceFree();
    LoremLine6SpaceFree();
    LoremLine7SpaceFree();
    LoremLine8SpaceFree();
    LoremLine9SpaceFree();
    var acc := LoremLine0;
    SpaceFreeConcat(acc, LoremLine1); acc := acc + LoremLine1;
    SpaceFreeConcat(acc, LoremLine2); acc := acc + LoremLine2;
    SpaceFreeConcat(acc, LoremLine3); acc := acc + LoremLine3;
    SpaceFreeConcat(acc, LoremLine4); acc := acc + LoremLine4;
    SpaceFreeConcat(acc, LoremLine5); acc := acc + LoremLine5;
    SpaceFreeConcat(acc, LoremLine6); acc := acc + LoremLine6;
    SpaceFreeConcat(acc, LoremLine7); acc := acc + LoremLine7;
    SpaceFreeConcat(acc, LoremLine8); acc := acc + LoremLine8;
    SpaceFreeConcat(acc, LoremLine9); acc := acc + LoremLine9;
    assert acc == LoremWords;
  }

  /** The words of the lorem text are what splitting it on ' ' yields. */
  lemma LoremSplits()
    ensures Split(Lorem, ' ') == LoremWords
  {
    LoremWordsFacts();
    assert forall k :: 0 <= k < |LoremWords| ==> LoremWords[k] in LoremWords;
    SplitJoin(LoremWords, ' ');
  }

  /** Every door code is three or four digits from 1 to 3. */
  ghost predicate WellFormedCode(code: string) {
    3 <= |code| <= 4 && forall j :: 0 <= j < |code| ==> '1' <= code[j] <= '3'
  }

  lemma DoorCodesWellFormed()
    ensures forall c :: c in DoorCodes ==> WellFormedCode(c)
  {
  }

  /** `Math.Abs` on an `int`, which throws for `int.MinValue`. */
  function Abs(v: Int32): (r: Result<nat, Error>)
    ensures r.Ok? <==> v != MinInt32
    ensures r.Ok? ==> r.value == (if v < 0 then -v else v) && r.value <= 0x7FFF_FFFF
  {
    if v == MinInt32 then Err(OverflowException) else Ok(if v < 0 then -v else v)
  }

  /** The code of the secret door for a task version. */
  function GetDoorCode(taskVersion: Int32): (r: Result<string, Error>)
    ensures r.Err? <==> taskVersion == MinInt32
    ensures r.Ok? ==> r.value in DoorCodes && WellFormedCode(r.value)
  {
    DoorCodesWellFormed();
    match Abs(taskVersion)
    case Err(e) => Err(e)
    case Ok(a) => Ok(DoorCodes[a % |DoorCodes|])
  }

  /** A version and its negation select the same code; so do versions ten apart. */
  lemma DoorCodeSymmetric(v: Int32)
    requires v != MinInt32
    ensures GetDoorCode(v) == GetDoorCode(-v as Int32)
  {
  }

  lemma DoorCodePeriodic(v: Int32)
    requires 0 <= v <= 0x7FFF_FFFF - 10
    ensures GetDoorCode(v) == GetDoorCode((v + 10) as Int32)
  {
    assert (v + 10) % 10 == v % 10;
  }

  /** A version drawn by `GenerateTaskVersion`. */
  function GenerateTaskVersion(rng: Rng, clockSeed: int): (v: Int32)
    requires InRange(rng)
    ensures 0 <= v < 1000
    ensures GetDoorCode(v).Ok?
  {
    rng(clockSeed, 0, 1000)
  }

  /** The (ordinal, digit word) pair of code position i. */
  function CodeWord(code: string, i: nat): (r: (string, string))
    requires WellFormedCode(code) && i < |code|
    ensures r.0 == NumberWords[i]
    ensures r.1 == NumberWords[code[i] as int - '1' as int]
  {
    (NumberWords[i], NumberWords[code[i] as int - '1' as int])
  }

  /** `List.Insert(i, x)`: x lands at index i and the rest shifts right. */
  function InsertAt(s: seq<string>, i: nat, x: string): (r: seq<string>)
    requires i <= |s|
    ensures |r| == |s| + 1 && r[i] == x && r[..i] == s[..i] && r[i + 1..] == s[i..]
  {
    s[..i] + [x] + s[i..]
  }

  /** Where hint i puts its ordinal: `Next(n / 2)`, the generator's draw 2i. */
  function OrdinalPos(v: int, i: nat, rng: Rng): (p: nat)
    requires InRange(rng)
    ensures p < WordCount / 2
  {
    rng(v, 2 * i, WordCount / 2)
  }

  /** Where hint i puts its digit word: n / 2 + `Next(n)` / 2, the generator's draw 2i + 1. */
  function DigitPos(v: int, i: nat, rng: Rng): (q: nat)
    requires InRange(rng)
    ensures WordCount / 2 <= q <= WordCount
  {
    WordCount / 2 + rng(v, 2 * i + 1, WordCount) / 2
  }

  /** The words of hint i for a code position i. */
  function HintWords(v: int, code: string, i: nat, rng: Rng): seq<string>
    requires InRange(rng) && WellFormedCode(code) && i < |code|
  {
    LoremWordsFacts();
    var w := CodeWord(code, i);
    InsertAt(InsertAt(LoremWords, OrdinalPos(v, i, rng), w.0), DigitPos(v, i, rng), w.1)
  }

  /** Hint i as text. */
  function HintText(v: int, code: string, i: nat, rng: Rng): string
    requires InRange(rng) && WellFormedCode(code)
  {
    if i < |code| then Join(HintWords(v, code, i, rng), ' ') else Lorem
  }

  /** What `GetHints(v, count)` returns or throws. */
  function Hints(v: Int32, count: Int32, rng: Rng): Result<seq<string>, Error>
    requires InRange(rng)
  {
    match GetDoorCode(v)
    case Err(e) => Err(e)
    case Ok(code) =>
      if count < 0 then Err(OverflowException)
      else Ok(seq(count, i requires 0 <= i < count => HintText(v, code, i, rng)))
  }

  /** The first loop of the generator: the (ordinal, digit word) pair of every code position
      (the source also stops at ten positions, more than any code has). */
  method CodeWords(code: string) returns (codeWords: seq<(string, string)>)
    requires WellFormedCode(code)
    ensures |codeWords| == |code|
    ensures forall j :: 0 <= j < |code| ==> codeWords[j] == CodeWord(code, j)
  {
    codeWords := [];
    var i := 0;
    while i < |code| && i < 10
      invariant 0 <= i <= |code|
      invariant |codeWords| == i
      invariant forall j :: 0 <= j < i ==> codeWords[j] == CodeWord(code, j)
    {
      codeWords := codeWords + [(NumberWords[i], NumberWords[code[i] as int - '1' as int])];
      i := i + 1;
    }
  }

  /** The generator as the source runs it: the code's word pairs first, then one loop filling
      the hint array, drawing two insertion positions per code position. */
  method GetHints(taskVersion: Int32, count: Int32, rng: Rng) returns (r: Result<seq<string>, Error>)
    requires InRange(rng)
    ensures r == Hints(taskVersion, count, rng)
  {
    var door := GetDoorCode(taskVersion);
    if door.Err? {
      return Err(door.error);
    }
    var code := door.value;
    var codeWords := CodeWords(code);
    if count < 0 {
      return Err(OverflowException);
    }
    LoremWordsFacts();
    var n := |LoremWords|;
    var hints: seq<string> := [];
    var i := 0;
    while i < count
      invariant 0 <= i <= count
      invariant |hints| == i
      invariant forall j :: 0 <= j < i ==> hints[j] == HintText(taskVersion, code, j, rng)
    {
      if i < |code| {
        var p := rng(taskVersion, 2 * i, n / 2);
        var q := n / 2 + rng(taskVersion, 2 * i + 1, n) / 2;
        assert p == OrdinalPos(taskVersion, i, rng) && q == DigitPos(taskVersion, i, rng);
        var newWords := InsertAt(LoremWords, p, codeWords[i].0);
        newWords := InsertAt(newWords, q, codeWords[i].1);
        assert newWords == HintWords(taskVersion, code, i, rng);
        hints := hints + [Join(newWords, ' ')];
      } else {
        hints := hints + [Lorem];
      }
      i := i + 1;
    }
    assert hints == seq(count, j requires 0 <= j < count => HintText(taskVersion, code, j, rng));
    r := Ok(hints);
  }

  /** Exactly `count` hints for a valid version and a non-negative count; the two throwing
      cases otherwise. */
  lemma HintsCount(v: Int32, count: Int32, rng: Rng)
    requires InRange(rng)
    ensures Hints(v, count, rng).Ok? <==> v != MinInt32 && count >= 0
    ensures Hints(v, count, rng).Ok? ==> |Hints(v, count, rng).value| == count
  {
  }

  /** A hint at or past the code's length is the unmodified lorem text. */
  lemma HintsPastCodeAreLorem(v: Int32, count: Int32, rng: Rng, i: nat)
    requires InRange(rng)
    requires Hints(v, count, rng).Ok? && i < count
    requires i >= |GetDoorCode(v).value|
    ensures Hints(v, count, rng).value[i] == Lorem
  {
  }

  /** Two insertions, the second at or after the first: the first word sits at p, the second
      at q, and the original words keep their order around them. */
  lemma {:induction false} InsertTwiceShape(s: seq<string>, p: nat, a: string, q: nat, b: string)
    requires p < q <= |s| + 1
    ensures var ws := InsertAt(InsertAt(s, p, a), q, b);
      |ws| == |s| + 2 && ws[p] == a && ws[q] == b &&
      ws[..p] == s[..p] && ws[p + 1..q] == s[p..q - 1] && ws[q + 1..] == s[q - 1..]
  {
    var once := InsertAt(s, p, a);
    var ws := InsertAt(once, q, b);
    assert ws[..p] == once[..q][..p];
    assert ws[p + 1..q] == once[p + 1..q];
    assert once[p + 1..q] == once[p + 1..][..q - p - 1];
    assert ws[q + 1..] == once[q..];
    assert once[q..] == once[p + 1..][q - p - 1..];
    assert s[p..][q - p - 1..] == s[q - 1..];
    assert s[p..][..q - p - 1] == s[p..q - 1];
  }

  /** Hint i below the code's length is the lorem word list with the ordinal of i inserted in
      the first half and the digit word of code[i] inserted in the second half, after it;
      every lorem word keeps its relative order. */
  lemma {:induction false} HintWordsShape(v: int, code: string, i: nat, rng: Rng)
    requires InRange(rng) && WellFormedCode(code) && i < |code|
    ensures var ws := HintWords(v, code, i, rng);
      var p := OrdinalPos(v, i, rng);
      var q := DigitPos(v, i, rng);
      |ws| == WordCount + 2 && p < WordCount / 2 <= q && q <= WordCount &&
      ws[p] == NumberWords[i] && ws[q] == NumberWords[code[i] as int - '1' as int] &&
      ws[..p] == LoremWords[..p] && ws[p + 1..q] == LoremWords[p..q - 1] &&
      ws[q + 1..] == LoremWords[q - 1..]
  {
    LoremWordsFacts();
    var w := CodeWord(code, i);
    InsertTwiceShape(LoremWords, OrdinalPos(v, i, rng), w.0, DigitPos(v, i, rng), w.1);
  }

  /** Inserting a space-free word keeps a word list space-free. */
  lemma SpaceFreeInsert(s: seq<string>, i: nat, x: string)
    requires i <= |s| && SpaceFree(s) && ' ' !in x
    ensures SpaceFree(InsertAt(s, i, x))
  {
    assert InsertAt(s, i, x) == s[..i] + [x] + s[i..];
    assert forall w :: w in s[..i] ==> w in s;
    assert forall w :: w in s[i..] ==> w in s;
  }

  /** Splitting hint i on ' ' gives back its word list: the inserted words carry no space. */
  lemma {:induction false} HintTextSplits(v: int, code: string, i: nat, rng: Rng)
    requires InRange(rng) && WellFormedCode(code) && i < |code|
    ensures Split(HintText(v, code, i, rng), ' ') == HintWords(v, code, i, rng)
  {
    LoremWordsFacts();
    assert SpaceFree(NumberWords);
    var w := CodeWord(code, i);
    var p := OrdinalPos(v, i, rng);
    var once := InsertAt(LoremWords, p, w.0);
    SpaceFreeInsert(LoremWords, p, w.0);
    SpaceFreeInsert(once, DigitPos(v, i, rng), w.1);
    var ws := HintWords(v, code, i, rng);
    assert forall k :: 0 <= k < |ws| ==> ws[k] in ws;
    SplitJoin(HintWords(v, code, i, rng), ' ');
  }
}
