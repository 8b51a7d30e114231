/**
 * The compatibility-score pipeline of name.js: a stroke table for Hangul jamo,
 * a stroke counter with a raw and a single-digit mode, an interleaver that
 * alternates the characters of two names, and a reducer that folds adjacent
 * digits together until two remain.
 *
 * Each JavaScript function that works by mutation (getStrokes, nameCombine,
 * nameStrokes, nameDestiny) is a method proved against a specification
 * function; the lemmas state what the source promises about those functions.
 */
module Name {

  /** One phonetic unit (jamo); a syllable block is a single UTF-16 code unit too. */
  type Jamo = char

  /**
   * Hangul syllable decomposition (section 3.12 of the Unicode Standard), supplied
   * by the hangul-js library. The model takes it as a parameter and assumes
   * nothing about it.
   */
  type Decomposer = char -> seq<Jamo>

  // ---------------------------------------------------------------------------
  // Stroke table
  // ---------------------------------------------------------------------------

  /** An entry of the stroke table: a jamo and its number of pen strokes. */
  type Entry = (Jamo, nat)

  /** The entries of STROKES_DICTIONARY, in the order the object literal lists them. */
  const StrokeEntries: seq<Entry> := [
    ('ㄱ', 2), ('ㄴ', 2), ('ㄷ', 3), ('ㄹ', 5), ('ㅁ', 4), ('ㅂ', 4), ('ㅅ', 2),
    ('ㅇ', 1), ('ㅈ', 3), ('ㅊ', 4), ('ㅋ', 3), ('ㅌ', 4), ('ㅍ', 4), ('ㅎ', 3),
    ('ㄲ', 4), ('ㄸ', 6), ('ㅃ', 8), ('ㅆ', 4), ('ㅉ', 6),
    ('ㅏ', 2), ('ㅑ', 3), ('ㅓ', 2), ('ㅕ', 3), ('ㅗ', 2), ('ㅛ', 3), ('ㅜ', 2),
    ('ㅠ', 3), ('ㅡ', 1), ('ㅣ', 1), ('ㅘ', 4), ('ㅚ', 3), ('ㅙ', 5), ('ㅝ', 4),
    ('ㅞ', 5), ('ㅢ', 2), ('ㅐ', 3), ('ㅔ', 3), ('ㅟ', 3), ('ㅖ', 4), ('ㅒ', 4)
  ]

  /** The dictionary an object literal with these entries denotes: a later entry for a key replaces an earlier one. */
  function TableOf(entries: seq<Entry>): map<Jamo, nat>
    decreases |entries|
  {
    if entries == [] then map[]
    else TableOf(entries[..|entries| - 1])[entries[|entries| - 1].0 := entries[|entries| - 1].1]
  }

  /** STROKES_DICTIONARY: the number of pen strokes of each jamo. */
  const StrokesDictionary: map<Jamo, nat> := TableOf(StrokeEntries)

  /** A key that no later entry repeats maps to the value its entry gives. */
  lemma {:induction false} TableOfAt(entries: seq<Entry>, k: nat)
    requires k < |entries|
    requires forall j :: k < j < |entries| ==> entries[j].0 != entries[k].0
    ensures entries[k].0 in TableOf(entries)
    ensures TableOf(entries)[entries[k].0] == entries[k].1
    decreases |entries|
  {
    if k < |entries| - 1 {
      TableOfAt(entries[..|entries| - 1], k);
    }
  }

  /** The keys of the dictionary are exactly the jamo its entries list. */
  lemma {:induction false} TableOfKeys(entries: seq<Entry>)
    ensures forall j :: 0 <= j < |entries| ==> entries[j].0 in TableOf(entries)
    ensures forall u :: u in TableOf(entries) ==> exists j :: 0 <= j < |entries| && entries[j].0 == u
    decreases |entries|
  {
    if entries != [] {
      var prefix := entries[..|entries| - 1];
      TableOfKeys(prefix);
      forall j | 0 <= j < |entries|
        ensures entries[j].0 in TableOf(entries)
      {
        if j < |prefix| {
          assert prefix[j] == entries[j];
        }
      }
      forall u | u in TableOf(entries)
        ensures exists j :: 0 <= j < |entries| && entries[j].0 == u
      {
        if u != entries[|entries| - 1].0 {
          var j :| 0 <= j < |prefix| && prefix[j].0 == u;
          assert entries[j].0 == u;
        }
      }
    }
  }

  /** Bounds on the counts the entries list bound every value of the dictionary. */
  lemma {:induction false} TableOfValues(entries: seq<Entry>, lo: nat, hi: nat)
    requires forall j :: 0 <= j < |entries| ==> lo <= entries[j].1 <= hi
    ensures forall u :: u in TableOf(entries) ==> lo <= TableOf(entries)[u] <= hi
    decreases |entries|
  {
    if entries != [] {
      TableOfValues(entries[..|entries| - 1], lo, hi);
    }
  }

  /** Every entry of the table is a stroke count from 1 to 8. */
  lemma StrokeCountsInRange()
    ensures forall u :: u in StrokesDictionary ==> 1 <= StrokesDictionary[u] <= 8
  {
    TableOfValues(StrokeEntries, 1, 8);
  }

  /** What one unit adds to a running total: its table entry, or nothing when it has none. */
  function StrokeOf(u: Jamo): (n: nat)
    ensures n <= 8
    ensures n == 0 <==> u !in StrokesDictionary
  {
    StrokeCountsInRange();
    if u in StrokesDictionary then StrokesDictionary[u] else 0
  }

  // ---------------------------------------------------------------------------
  // Stroke counter
  // ---------------------------------------------------------------------------

  /** The raw stroke total of a unit sequence, summed left to right. */
  function RawSum(units: seq<Jamo>): (n: nat)
    ensures n <= 8 * |units|
  {
    if units == [] then 0 else RawSum(units[..|units| - 1]) + StrokeOf(units[|units| - 1])
  }

  /** The raw total of a concatenation is the sum of the raw totals. */
  lemma {:induction false} RawSumAppend(a: seq<Jamo>, b: seq<Jamo>)
    ensures RawSum(a + b) == RawSum(a) + RawSum(b)
    decreases |b|
  {
    if b != [] {
      var b' := b[..|b| - 1];
      assert (a + b)[..|a + b| - 1] == a + b';
      assert (a + b)[|a + b| - 1] == b[|b| - 1];
      RawSumAppend(a, b');
    } else {
      assert a + b == a;
    }
  }

  /** A unit that is not in the table contributes nothing and wherever it stands. */
  lemma UnknownUnitIsSkipped(a: seq<Jamo>, u: Jamo, b: seq<Jamo>)
    requires u !in StrokesDictionary
    ensures RawSum(a + [u] + b) == RawSum(a + b)
  {
    RawSumAppend(a + [u], b);
    RawSumAppend(a, [u]);
    RawSumAppend(a, b);
    assert [u][..0] == [];
  }

  /** Adding a value of at most 8 to a digit needs at most one subtraction of 10. */
  lemma DigitStep(total: nat, v: nat)
    requires v <= 8
    ensures total % 10 + v < 10 ==> total % 10 + v == (total + v) % 10
    ensures total % 10 + v >= 10 ==> total % 10 + v - 10 == (total + v) % 10
  {
  }

  /**
   * getStrokes: with keepOriginal the raw total of the units; without it the
   * running total drops by 10 whenever it reaches 10, which yields the raw total
   * modulo 10. Units outside the table are skipped.
   */
  method GetStrokes(character: seq<Jamo>, keepOriginal: bool) returns (totalStrokes: nat)
    ensures keepOriginal ==> totalStrokes == RawSum(character)
    ensures !keepOriginal ==> totalStrokes == RawSum(character) % 10 && totalStrokes < 10
  {
    totalStrokes := 0;
    for i := 0 to |character|
      invariant totalStrokes == if keepOriginal then RawSum(character[..i]) else RawSum(character[..i]) % 10
    {
      ghost var before, v := RawSum(character[..i]), StrokeOf(character[i]);
      assert character[..i + 1][..i] == character[..i];
      assert RawSum(character[..i + 1]) == before + v;
      DigitStep(before, v);
      if character[i] in StrokesDictionary {
        totalStrokes := totalStrokes + StrokesDictionary[character[i]];
        if !keepOriginal && totalStrokes >= 10 {
          totalStrokes := totalStrokes - 10;
        }
      }
    }
    assert character[..|character|] == character;
  }

  /** The stroke count of the jamo of entry k, when no later entry repeats it. */
  lemma StrokeOfEntry(k: nat)
    requires k < |StrokeEntries|
    requires forall j :: k < j < |StrokeEntries| ==> StrokeEntries[j].0 != StrokeEntries[k].0
    ensures StrokeOf(StrokeEntries[k].0) == StrokeEntries[k].1
  {
    TableOfAt(StrokeEntries, k);
  }

  /** The three jamo of 철 and their table entries: ㅊ has 4 strokes, ㅓ has 2 and ㄹ has 5. */
  lemma ChulStrokes()
    ensures StrokeOf('ㅊ') == 4 && StrokeOf('ㅓ') == 2 && StrokeOf('ㄹ') == 5
  {
    ChieutStrokes();
    EoStrokes();
    RieulStrokes();
  }

  lemma ChieutStrokes()
    ensures StrokeOf('ㅊ') == 4
  {
    StrokeOfEntry(9);
  }

  lemma EoStrokes()
    ensures StrokeOf('ㅓ') == 2
  {
    StrokeOfEntry(21);
  }

  lemma RieulStrokes()
    ensures StrokeOf('ㄹ') == 5
  {
    StrokeOfEntry(3);
  }

  /** The worked example of the source: 철 = ㅊ + ㅓ + ㄹ has 11 strokes, digit 1. */
  lemma ChulExample()
    ensures RawSum(['ㅊ', 'ㅓ', 'ㄹ']) == 11
    ensures RawSum(['ㅊ', 'ㅓ', 'ㄹ']) % 10 == 1
  {
    ChulStrokes();
    assert ['ㅊ'][..0] == [];
    assert RawSum(['ㅊ']) == 4;
    assert ['ㅊ', 'ㅓ'][..1] == ['ㅊ'];
    assert RawSum(['ㅊ', 'ㅓ']) == 6;
    assert ['ㅊ', 'ㅓ', 'ㄹ'][..2] == ['ㅊ', 'ㅓ'];
  }

  // ---------------------------------------------------------------------------
  // Name interleaver
  // ---------------------------------------------------------------------------

  function Min(x: int, y: int): int { if x <= y then x else y }

  /** nameLength: the length of the longer name (Math.max). */
  function NameLength(name: string, name2: string): (n: nat)
    ensures |name| <= n && |name2| <= n
    ensures n == |name| || n == |name2|
  {
    if |name| >= |name2| then |name| else |name2|
  }

  /**
   * Reference definition of the interleaving: a character of the first name,
   * one of the second, and so on; once one name runs out the rest of the other
   * follows unchanged.
   */
  function Interleave(name: string, name2: string): (r: seq<char>)
    ensures |r| == |name| + |name2|
  {
    if name == [] then name2
    else if name2 == [] then name
    else [name[0], name2[0]] + Interleave(name[1..], name2[1..])
  }

  /** Appending one character to each of two names of equal length appends both, in order. */
  lemma {:induction false} InterleaveSnocBoth(x: string, y: string, a: char, b: char)
    requires |x| == |y|
    ensures Interleave(x + [a], y + [b]) == Interleave(x, y) + [a] + [b]
    decreases |x|
  {
    if x == [] {
      assert x + [a] == [a] && y + [b] == [b];
      assert Interleave([a], [b]) == [a, b] + Interleave([], []);
    } else {
      assert (x + [a])[1..] == x[1..] + [a];
      assert (y + [b])[1..] == y[1..] + [b];
      InterleaveSnocBoth(x[1..], y[1..], a, b);
    }
  }

  /** Once the second name has run out, a character appended to the first is appended at the end. */
  lemma {:induction false} InterleaveSnocFirst(x: string, y: string, a: char)
    requires |x| >= |y|
    ensures Interleave(x + [a], y) == Interleave(x, y) + [a]
    decreases |y|
  {
    if y != [] {
      assert (x + [a])[1..] == x[1..] + [a];
      InterleaveSnocFirst(x[1..], y[1..], a);
    }
  }

  /** Once the first name has run out, a character appended to the second is appended at the end. */
  lemma {:induction false} InterleaveSnocSecond(x: string, y: string, b: char)
    requires |y| >= |x|
    ensures Interleave(x, y + [b]) == Interleave(x, y) + [b]
    decreases |x|
  {
    if x != [] {
      assert (y + [b])[1..] == y[1..] + [b];
      InterleaveSnocSecond(x[1..], y[1..], b);
    }
  }

  /** While both names last, position 2i holds name[i] and position 2i + 1 holds name2[i]. */
  lemma {:induction false} InterleavePairAt(name: string, name2: string, i: nat)
    requires i < |name| && i < |name2|
    ensures Interleave(name, name2)[2 * i] == name[i]
    ensures Interleave(name, name2)[2 * i + 1] == name2[i]
    decreases i
  {
    if i > 0 {
      InterleavePairAt(name[1..], name2[1..], i - 1);
    }
  }

  /** Once the second name has run out, the rest of the first follows unchanged. */
  lemma {:induction false} InterleaveFirstTail(name: string, name2: string, i: nat)
    requires |name2| <= i < |name|
    ensures Interleave(name, name2)[|name2| + i] == name[i]
    decreases |name2|
  {
    if name2 != [] {
      InterleaveFirstTail(name[1..], name2[1..], i - 1);
    }
  }

  /** Once the first name has run out, the rest of the second follows unchanged. */
  lemma {:induction false} InterleaveSecondTail(name: string, name2: string, j: nat)
    requires |name| <= j < |name2|
    ensures Interleave(name, name2)[|name| + j] == name2[j]
    decreases |name|
  {
    if name != [] {
      InterleaveSecondTail(name[1..], name2[1..], j - 1);
    }
  }

  /** Where character i of the first name lands in the interleaving. */
  function FirstPos(name: string, name2: string, i: nat): nat
  {
    if i < |name2| then 2 * i else |name2| + i
  }

  /** Where character j of the second name lands in the interleaving. */
  function SecondPos(name: string, name2: string, j: nat): nat
  {
    if j < |name| then 2 * j + 1 else |name| + j
  }

  /**
   * Each name's characters appear in their original order, and at every index
   * both names reach, name[i] comes right before name2[i].
   */
  lemma InterleaveKeepsOrder(name: string, name2: string)
    ensures forall i :: 0 <= i < |name| ==>
      FirstPos(name, name2, i) < |name| + |name2| &&
      Interleave(name, name2)[FirstPos(name, name2, i)] == name[i]
    ensures forall j :: 0 <= j < |name2| ==>
      SecondPos(name, name2, j) < |name| + |name2| &&
      Interleave(name, name2)[SecondPos(name, name2, j)] == name2[j]
    ensures forall i, j :: 0 <= i < j < |name| ==> FirstPos(name, name2, i) < FirstPos(name, name2, j)
    ensures forall i, j :: 0 <= i < j < |name2| ==> SecondPos(name, name2, i) < SecondPos(name, name2, j)
    ensures forall i :: 0 <= i < |name| && i < |name2| ==>
      SecondPos(name, name2, i) == FirstPos(name, name2, i) + 1
  {
    forall i | 0 <= i < |name|
      ensures FirstPos(name, name2, i) < |name| + |name2|
      ensures Interleave(name, name2)[FirstPos(name, name2, i)] == name[i]
    {
      if i < |name2| {
        InterleavePairAt(name, name2, i);
      } else {
        InterleaveFirstTail(name, name2, i);
      }
    }
    forall j | 0 <= j < |name2|
      ensures SecondPos(name, name2, j) < |name| + |name2|
      ensures Interleave(name, name2)[SecondPos(name, name2, j)] == name2[j]
    {
      if j < |name| {
        InterleavePairAt(name, name2, j);
      } else {
        InterleaveSecondTail(name, name2, j);
      }
    }
  }

  /** The example of the source: "철수" and "영희" give 철, 영, 수, 희; the order of the arguments matters. */
  lemma InterleaveExample()
    ensures Interleave("철수", "영희") == ['철', '영', '수', '희']
    ensures Interleave("영희", "철수") != Interleave("철수", "영희")
  {
    assert Interleave("수", "희") == ['수', '희'] + Interleave("", "");
    assert Interleave("희", "수") == ['희', '수'] + Interleave("", "");
    assert Interleave("철수", "영희") == ['철', '영'] + Interleave("수", "희");
    assert Interleave("영희", "철수") == ['영', '철'] + Interleave("희", "수");
    assert Interleave("영희", "철수")[0] == '영' != '철' == Interleave("철수", "영희")[0];
  }

  /** A prefix one longer is the shorter prefix followed by the next element. */
  lemma PrefixSnoc<T>(s: seq<T>, i: nat)
    requires i < |s|
    ensures s[..i + 1] == s[..i] + [s[i]]
  {
  }

  /** While both names last, a pass of the nameCombine loop appends name[i] and then name2[i]. */
  lemma CombineStepBoth(name: string, name2: string, i: nat)
    requires i < |name| && i < |name2|
    ensures Interleave(name[..i + 1], name2[..i + 1]) == Interleave(name[..i], name2[..i]) + [name[i]] + [name2[i]]
  {
    PrefixSnoc(name, i);
    PrefixSnoc(name2, i);
    InterleaveSnocBoth(name[..i], name2[..i], name[i], name2[i]);
  }

  /** Once the second name has run out, a pass appends name[i] only. */
  lemma CombineStepFirst(name: string, name2: string, i: nat)
    requires |name2| <= i < |name|
    ensures Interleave(name[..i + 1], name2) == Interleave(name[..i], name2) + [name[i]]
  {
    PrefixSnoc(name, i);
    InterleaveSnocFirst(name[..i], name2, name[i]);
  }

  /** Once the first name has run out, a pass appends name2[i] only. */
  lemma CombineStepSecond(name: string, name2: string, i: nat)
    requires |name| <= i < |name2|
    ensures Interleave(name, name2[..i + 1]) == Interleave(name, name2[..i]) + [name2[i]]
  {
    PrefixSnoc(name2, i);
    InterleaveSnocSecond(name, name2[..i], name2[i]);
  }

  /** One pass of the nameCombine loop appends name[i] and then name2[i], each only while that name lasts. */
  lemma CombineStep(name: string, name2: string, i: nat)
    requires i < |name| || i < |name2|
    ensures i < |name| && i < |name2| ==>
      Interleave(name[..i + 1], name2[..i + 1]) == Interleave(name[..i], name2[..i]) + [name[i]] + [name2[i]]
    ensures i < |name| && |name2| <= i ==>
      Interleave(name[..i + 1], name2) == Interleave(name[..i], name2) + [name[i]]
    ensures |name| <= i < |name2| ==>
      Interleave(name, name2[..i + 1]) == Interleave(name, name2[..i]) + [name2[i]]
  {
    if i < |name| && i < |name2| {
      CombineStepBoth(name, name2, i);
    } else if i < |name| {
      CombineStepFirst(name, name2, i);
    } else {
      CombineStepSecond(name, name2, i);
    }
  }

  /** nameCombine: alternate the characters of the two names, up to the longer length. */
  method NameCombine(name: string, name2: string) returns (combinedChars: seq<char>)
    ensures combinedChars == Interleave(name, name2)
    ensures |combinedChars| == |name| + |name2|
  {
    combinedChars := [];
    var maxLength := NameLength(name, name2);
    for i := 0 to maxLength
      invariant combinedChars == Interleave(name[..Min(i, |name|)], name2[..Min(i, |name2|)])
    {
      CombineStep(name, name2, i);
      assert |name| <= i ==> name[..Min(i, |name|)] == name[..Min(i + 1, |name|)] == name;
      assert |name2| <= i ==> name2[..Min(i, |name2|)] == name2[..Min(i + 1, |name2|)] == name2;
      if i < |name| {
        combinedChars := combinedChars + [name[i]];
      }
      if i < |name2| {
        combinedChars := combinedChars + [name2[i]];
      }
    }
    assert name[..Min(maxLength, |name|)] == name;
    assert name2[..Min(maxLength, |name2|)] == name2;
  }

  // ---------------------------------------------------------------------------
  // Per-character stroke totals
  // ---------------------------------------------------------------------------

  /** The raw stroke total of every character, as shown under each character on screen. */
  function StrokeTotals(decompose: Decomposer, chars: seq<char>): (totals: seq<nat>)
    ensures |totals| == |chars|
    ensures forall i :: 0 <= i < |chars| ==> totals[i] <= 8 * |decompose(chars[i])|
  {
    seq(|chars|, i requires 0 <= i < |chars| => RawSum(decompose(chars[i])))
  }

  /** nameStrokes: one raw stroke count per character, in order. */
  method NameStrokes(decompose: Decomposer, nameArray: seq<char>) returns (strokeNumbers: seq<nat>)
    ensures strokeNumbers == StrokeTotals(decompose, nameArray)
    ensures |strokeNumbers| == |nameArray|
    ensures forall i :: 0 <= i < |nameArray| ==> strokeNumbers[i] == RawSum(decompose(nameArray[i]))
  {
    strokeNumbers := [];
    for i := 0 to |nameArray|
      invariant |strokeNumbers| == i
      invariant forall j :: 0 <= j < i ==> strokeNumbers[j] == RawSum(decompose(nameArray[j]))
    {
      var decomposedChar := decompose(nameArray[i]);
      var strokeCount := GetStrokes(decomposedChar, true);
      strokeNumbers := strokeNumbers + [strokeCount];
    }
  }

  // ---------------------------------------------------------------------------
  // Destiny reducer
  // ---------------------------------------------------------------------------

  /** Every entry is a single decimal digit. */
  predicate IsDigitRow(row: seq<nat>)
  {
    forall i :: 0 <= i < |row| ==> row[i] < 10
  }

  /** The digit stroke count of two characters' units together (Hangul.disassemble on the pair). */
  function PairDigit(decompose: Decomposer, a: char, b: char): (d: nat)
    ensures d < 10
    ensures d == (RawSum(decompose(a)) + RawSum(decompose(b))) % 10
  {
    RawSumAppend(decompose(a), decompose(b));
    RawSum(decompose(a) + decompose(b)) % 10
  }

  /**
   * The first row: for each adjacent pair of characters, the digit stroke count
   * of the two characters' units together (Hangul.disassemble on the pair).
   */
  function FirstRow(decompose: Decomposer, combined: seq<char>): (row: seq<nat>)
    ensures |row| == if |combined| == 0 then 0 else |combined| - 1
  {
    if |combined| == 0 then []
    else seq(|combined| - 1, i requires 0 <= i < |combined| - 1 => PairDigit(decompose, combined[i], combined[i + 1]))
  }

  /**
   * Each first-row digit is the last digit of the sum of the two raw totals shown
   * under the characters of its pair.
   */
  lemma FirstRowFromStrokeTotals(decompose: Decomposer, combined: seq<char>)
    ensures IsDigitRow(FirstRow(decompose, combined))
    ensures forall i {:trigger FirstRow(decompose, combined)[i]} :: 0 <= i < |combined| - 1 ==>
      FirstRow(decompose, combined)[i] ==
        (StrokeTotals(decompose, combined)[i] + StrokeTotals(decompose, combined)[i + 1]) % 10
  {
    var row, totals := FirstRow(decompose, combined), StrokeTotals(decompose, combined);
    forall i | 0 <= i < |combined| - 1
      ensures row[i] < 10 && row[i] == (totals[i] + totals[i + 1]) % 10
    {
      assert row[i] == PairDigit(decompose, combined[i], combined[i + 1]);
      assert totals[i] == RawSum(decompose(combined[i]));
      assert totals[i + 1] == RawSum(decompose(combined[i + 1]));
    }
  }

  /** Two digits add up to at most 18, so one subtraction of 10 gives the last digit of the sum. */
  lemma DigitPairStep(a: nat, b: nat)
    requires a < 10 && b < 10
    ensures a + b >= 10 ==> a + b - 10 == (a + b) % 10
    ensures a + b < 10 ==> a + b == (a + b) % 10
  {
  }

  /** One cascade step: the last digit of the sum of each pair of neighbours. */
  function NextRow(row: seq<nat>): (next: seq<nat>)
    ensures |next| == if |row| == 0 then 0 else |row| - 1
    decreases |row|
  {
    if |row| <= 1 then []
    else NextRow(row[..|row| - 1]) + [(row[|row| - 2] + row[|row| - 1]) % 10]
  }

  /** Entry i of a cascade step is the last digit of row[i] + row[i + 1]. */
  lemma {:induction false} NextRowAt(row: seq<nat>, i: nat)
    requires i + 1 < |row|
    ensures NextRow(row)[i] == (row[i] + row[i + 1]) % 10
    decreases |row|
  {
    var prefix := row[..|row| - 1];
    if i + 2 < |row| {
      NextRowAt(prefix, i);
    }
  }

  /** A cascade step yields only digits, whatever numbers it starts from. */
  lemma NextRowDigits(row: seq<nat>)
    ensures IsDigitRow(NextRow(row))
  {
    forall i | 0 <= i < |NextRow(row)|
      ensures NextRow(row)[i] < 10
    {
      NextRowAt(row, i);
    }
  }

  /** The row after k cascade steps. */
  function Iterate(row: seq<nat>, k: nat): seq<nat>
    decreases k
  {
    if k == 0 then row else NextRow(Iterate(row, k - 1))
  }

  /** After k steps a row has lost k entries, down to the empty row. */
  lemma {:induction false} IterateLength(row: seq<nat>, k: nat)
    ensures |Iterate(row, k)| == if k <= |row| then |row| - k else 0
    decreases k
  {
    if k > 0 {
      IterateLength(row, k - 1);
    }
  }

  /**
   * The reduction loop stops at the first derived row of length 2. Such a row
   * appears exactly when the starting row has at least 3 entries, and then after
   * |row| - 2 steps; a shorter row never yields one, so the loop never stops.
   */
  lemma LoopExit(row: seq<nat>, k: nat)
    requires k >= 1
    ensures |Iterate(row, k)| == 2 <==> |row| >= 3 && k == |row| - 2
  {
    IterateLength(row, k);
  }

  /** Every row reached by at least one cascade step holds only digits. */
  lemma {:induction false} IterateDigits(row: seq<nat>, k: nat)
    requires k >= 1
    ensures IsDigitRow(Iterate(row, k))
  {
    NextRowDigits(Iterate(row, k - 1));
  }

  /**
   * The recorded trace: the rows from the starting one down to the one of
   * length 3, row j being the row after j cascade steps.
   */
  function Rows(row: seq<nat>): (rows: seq<seq<nat>>)
    requires |row| >= 3
    ensures |rows| == |row| - 2
    ensures rows[0] == row
  {
    seq(|row| - 2, j requires 0 <= j < |row| - 2 => Iterate(row, j))
  }

  /** The final pair: the row after |row| - 2 steps, the first derived row of length 2. */
  function Reduce(row: seq<nat>): (pair: seq<nat>)
    requires |row| >= 3
    ensures |pair| == 2
    ensures IsDigitRow(pair)
  {
    IterateLength(row, |row| - 2);
    IterateDigits(row, |row| - 2);
    Iterate(row, |row| - 2)
  }

  /** Recorded row j has j entries fewer than the first, and every recorded row after the first holds digits. */
  lemma {:induction false} RowsAt(row: seq<nat>, j: nat)
    requires |row| >= 3 && j < |row| - 2
    ensures |Rows(row)[j]| == |row| - j
    ensures j >= 1 ==> IsDigitRow(Rows(row)[j])
  {
    IterateLength(row, j);
    if j >= 1 {
      IterateDigits(row, j);
    }
  }

  /** The final pair is the cascade step after the last recorded row. */
  lemma {:induction false} ReduceAfterRows(row: seq<nat>)
    requires |row| >= 3
    ensures Reduce(row) == NextRow(Rows(row)[|Rows(row)| - 1])
  {
  }

  /** Each recorded row is followed by the cascade step of it; every row of digits stays digits. */
  lemma {:induction false} RowsChain(row: seq<nat>)
    requires |row| >= 3
    requires IsDigitRow(row)
    ensures forall j :: 0 <= j < |Rows(row)| - 1 ==> Rows(row)[j + 1] == NextRow(Rows(row)[j])
    ensures forall j :: 0 <= j < |Rows(row)| ==> IsDigitRow(Rows(row)[j])
  {
    forall j | 1 <= j < |Rows(row)|
      ensures IsDigitRow(Rows(row)[j])
    {
      IterateDigits(row, j);
    }
  }

  /** The trace up to row k + 1 is the trace up to row k followed by the row after k steps. */
  lemma RowsPrefixSnoc(row: seq<nat>, k: nat)
    requires |row| >= 3 && k < |row| - 2
    ensures Rows(row)[..k + 1] == Rows(row)[..k] + [Iterate(row, k)]
  {
    var rows := Rows(row);
    assert rows[k] == Iterate(row, k);
    PrefixSnoc(rows, k);
  }

  /** The documented cascade: [1,8,2,9] -> [9,0,1] -> [9,1]. */
  lemma CascadeExample()
    ensures Rows([1, 8, 2, 9]) == [[1, 8, 2, 9], [9, 0, 1]]
    ensures Reduce([1, 8, 2, 9]) == [9, 1]
  {
    assert NextRow([1, 8, 2, 9]) == [9, 0, 1];
    assert NextRow([9, 0, 1]) == [9, 1];
    assert Iterate([1, 8, 2, 9], 1) == Iterate([9, 0, 1], 0);
    assert Iterate([1, 8, 2, 9], 2) == Iterate([9, 1], 0);
  }

  /**
   * The inner loop of nameDestiny: add each pair of neighbours, dropping 10 when
   * the sum reaches 10. On a row of digits that is one cascade step.
   */
  method NextStep(currentNumbers: seq<nat>) returns (nextStepNumbers: seq<nat>)
    requires IsDigitRow(currentNumbers)
    ensures nextStepNumbers == NextRow(currentNumbers)
  {
    nextStepNumbers := [];
    var i := 0;
    while i < |currentNumbers| - 1
      invariant 0 <= i <= if |currentNumbers| == 0 then 0 else |currentNumbers| - 1
      invariant nextStepNumbers == NextRow(currentNumbers)[..i]
    {
      var sum := currentNumbers[i] + currentNumbers[i + 1];
      if sum >= 10 {
        sum := sum - 10;
      }
      DigitPairStep(currentNumbers[i], currentNumbers[i + 1]);
      NextRowAt(currentNumbers, i);
      assert NextRow(currentNumbers)[..i + 1] == nextStepNumbers + [sum];
      nextStepNumbers := nextStepNumbers + [sum];
      i := i + 1;
    }
    assert NextRow(currentNumbers)[..i] == NextRow(currentNumbers);
  }

  /** The object nameDestiny returns. */
  datatype DestinyResult = DestinyResult(
    name1: string,
    name2: string,
    combinedNameArray: seq<char>,
    nameStrokeArray: seq<nat>,
    processArray: seq<seq<nat>>,
    result: seq<nat>)

  /** The whole computation as one value: what nameDestiny returns for two names. */
  function Destiny(decompose: Decomposer, name: string, name2: string): (r: DestinyResult)
    requires |name| + |name2| >= 4
    ensures |r.combinedNameArray| == |r.nameStrokeArray| == |name| + |name2|
    ensures |r.processArray| == |name| + |name2| - 3
    ensures |r.result| == 2 && IsDigitRow(r.result)
  {
    var combined := Interleave(name, name2);
    var first := FirstRow(decompose, combined);
    DestinyResult(name, name2, combined, StrokeTotals(decompose, combined), Rows(first), Reduce(first))
  }

  /**
   * What the result object promises: the interleaving of both names, one raw
   * total per character, a trace from the first row (one digit per adjacent
   * pair) down to the row of length 3, each row one shorter than the last and
   * its successor's pairwise sums, and a final pair of digits that follows the
   * last recorded row.
   */
  lemma DestinyProperties(decompose: Decomposer, name: string, name2: string)
    requires |name| + |name2| >= 4
    ensures var r := Destiny(decompose, name, name2);
      && r.name1 == name && r.name2 == name2
      && |r.combinedNameArray| == |name| + |name2|
      && |r.nameStrokeArray| == |r.combinedNameArray|
      && |r.processArray| == |r.combinedNameArray| - 3
      && r.processArray[0] == FirstRow(decompose, r.combinedNameArray)
      && (forall j :: 0 <= j < |r.processArray| ==>
            |r.processArray[j]| == |r.combinedNameArray| - 1 - j && IsDigitRow(r.processArray[j]))
      && (forall j :: 0 <= j < |r.processArray| - 1 ==>
            r.processArray[j + 1] == NextRow(r.processArray[j]))
      && r.result == NextRow(r.processArray[|r.processArray| - 1])
      && |r.result| == 2 && IsDigitRow(r.result)
  {
    var combined := Interleave(name, name2);
    var first := FirstRow(decompose, combined);
    FirstRowFromStrokeTotals(decompose, combined);
    RowsChain(first);
    ReduceAfterRows(first);
    forall j | 0 <= j < |Rows(first)|
      ensures |Rows(first)[j]| == |combined| - 1 - j
    {
      RowsAt(first, j);
    }
  }

  /** Two names of two characters: one recorded row, of length 3. */
  lemma ShortestNamesScenario(decompose: Decomposer, name: string, name2: string)
    requires |name| == 2 && |name2| == 2
    ensures |Destiny(decompose, name, name2).processArray| == 1
    ensures |Destiny(decompose, name, name2).processArray[0]| == 3
  {
    DestinyProperties(decompose, name, name2);
  }

  /** Names of four and three characters: recorded rows of lengths 6, 5, 4 and 3. */
  lemma LongestNamesScenario(decompose: Decomposer, name: string, name2: string)
    requires |name| == 4 && |name2| == 3
    ensures var p := Destiny(decompose, name, name2).processArray;
      |p| == 4 && |p[0]| == 6 && |p[1]| == 5 && |p[2]| == 4 && |p[3]| == 3
  {
    DestinyProperties(decompose, name, name2);
  }

  /**
   * The reduction loop of nameDestiny exits exactly when the interleaved name has
   * at least 4 characters; with 3 or fewer, no derived row ever has length 2.
   */
  lemma DestinyLoopExit(decompose: Decomposer, combined: seq<char>, k: nat)
    requires k >= 1
    ensures |Iterate(FirstRow(decompose, combined), k)| == 2 <==> |combined| >= 4 && k == |combined| - 3
  {
    LoopExit(FirstRow(decompose, combined), k);
  }

  /** One pass of the first-row loop appends the digit of the next adjacent pair. */
  lemma FirstRowSnoc(decompose: Decomposer, combined: seq<char>, i: nat)
    requires i + 1 < |combined|
    ensures FirstRow(decompose, combined)[..i + 1]
         == FirstRow(decompose, combined)[..i] + [RawSum(decompose(combined[i]) + decompose(combined[i + 1])) % 10]
  {
    var row := FirstRow(decompose, combined);
    assert row[i] == PairDigit(decompose, combined[i], combined[i + 1]);
    PrefixSnoc(row, i);
  }

  /**
   * The reduction loop of nameDestiny: record the current row, replace it by its
   * cascade step, and stop at the first row of two digits, which is the result.
   */
  method ReduceToPair(firstStepNumbers: seq<nat>) returns (calculationSteps: seq<seq<nat>>, finalCompatibility: seq<nat>)
    requires |firstStepNumbers| >= 3 && IsDigitRow(firstStepNumbers)
    ensures calculationSteps == Rows(firstStepNumbers)
    ensures finalCompatibility == Reduce(firstStepNumbers)
  {
    var currentNumbers := firstStepNumbers;
    calculationSteps := [currentNumbers];
    RowsPrefixSnoc(firstStepNumbers, 0);
    var isFinished := false;
    finalCompatibility := [];
    ghost var steps: nat := 0;

    while !isFinished
      invariant steps <= |firstStepNumbers| - 2
      invariant currentNumbers == Iterate(firstStepNumbers, steps) && IsDigitRow(currentNumbers)
      invariant |currentNumbers| == |firstStepNumbers| - steps
      invariant isFinished <==> steps == |firstStepNumbers| - 2
      invariant calculationSteps == Rows(firstStepNumbers)[..if isFinished then steps else steps + 1]
      invariant isFinished ==> finalCompatibility == currentNumbers
      decreases |currentNumbers|
    {
      var nextStepNumbers := NextStep(currentNumbers);
      NextRowDigits(currentNumbers);
      steps := steps + 1;

      currentNumbers := nextStepNumbers;
      if |currentNumbers| == 2 {
        finalCompatibility := currentNumbers;
        isFinished := true;
      } else {
        RowsPrefixSnoc(firstStepNumbers, steps);
        calculationSteps := calculationSteps + [currentNumbers];
      }
    }
    assert Rows(firstStepNumbers)[..steps] == Rows(firstStepNumbers);
  }

  /**
   * nameDestiny: interleave the names, build the first row from adjacent pairs,
   * then replace the row by its pairwise digit sums until two digits remain,
   * recording every row before that. The loop exits only for an interleaving of
   * at least 4 characters, which is what the caller guarantees.
   */
  method NameDestiny(decompose: Decomposer, name: string, name2: string) returns (r: DestinyResult)
    requires |name| + |name2| >= 4
    ensures r == Destiny(decompose, name, name2)
    ensures |r.result| == 2 && IsDigitRow(r.result)
    ensures |r.processArray| == |name| + |name2| - 3
  {
    var combinedNameArray := NameCombine(name, name2);

    var firstStepNumbers: seq<nat> := [];
    for i := 0 to |combinedNameArray| - 1
      invariant firstStepNumbers == FirstRow(decompose, combinedNameArray)[..i]
    {
      var combinedChars := decompose(combinedNameArray[i]) + decompose(combinedNameArray[i + 1]);
      var combinedStroke := GetStrokes(combinedChars, false);
      FirstRowSnoc(decompose, combinedNameArray, i);
      firstStepNumbers := firstStepNumbers + [combinedStroke];
    }
    ghost var first := FirstRow(decompose, combinedNameArray);
    assert firstStepNumbers == first;

    FirstRowFromStrokeTotals(decompose, combinedNameArray);
    var calculationSteps, finalCompatibility := ReduceToPair(firstStepNumbers);

    var nameStrokeArray := NameStrokes(decompose, combinedNameArray);
    r := DestinyResult(name, name2, combinedNameArray, nameStrokeArray, calculationSteps, finalCompatibility);
  }
}
