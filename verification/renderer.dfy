/**
 * The part of renderer.js that decides what reaches the score computation and
 * what the player finally sees: the name validators, the guard and state update
 * of NameDestinyApp.startGame, and the percentage label built from the two
 * result digits.
 */
module Renderer {
  import opened Name

  /** CONFIG.MIN_NAME_LENGTH */
  const MinNameLength: nat := 2

  /** CONFIG.MAX_NAME_DIFF: the length gap must stay strictly below this. */
  const MaxNameDiff: nat := 2

  /** Math.abs on an integer: the larger of x and -x. */
  function Abs(x: int): (a: nat)
    ensures a >= x && a >= -x
    ensures a == x || a == -x
  {
    if x < 0 then -x else x
  }

  // ---------------------------------------------------------------------------
  // Validator
  // ---------------------------------------------------------------------------

  /** Validator.isValidLength: a name needs at least two characters. */
  function IsValidLength(text: string): (ok: bool)
    ensures ok <==> 2 <= |text|
  {
    |text| >= MinNameLength
  }

  /**
   * Validator.isValidNamePair: the strict comparison with MAX_NAME_DIFF means the
   * two lengths may differ by at most one.
   */
  function IsValidNamePair(name1: string, name2: string): (ok: bool)
    ensures ok <==> |name1| <= |name2| + 1 && |name2| <= |name1| + 1
    ensures !ok ==> |name1| != |name2|
  {
    Abs(|name1| - |name2|) < MaxNameDiff
  }

  /**
   * Two names that pass the length check give an interleaving of at least four
   * characters and a first row of at least three digits, so the reduction loop
   * of nameDestiny exits, after |name1| + |name2| - 3 cascade steps.
   */
  lemma ValidNamesReachTwoDigits(decompose: Decomposer, name1: string, name2: string)
    requires IsValidLength(name1) && IsValidLength(name2)
    ensures |Interleave(name1, name2)| >= 4
    ensures |FirstRow(decompose, Interleave(name1, name2))| >= 3
    ensures |Iterate(FirstRow(decompose, Interleave(name1, name2)), |name1| + |name2| - 3)| == 2
  {
    var combined := Interleave(name1, name2);
    DestinyLoopExit(decompose, combined, |name1| + |name2| - 3);
  }

  /**
   * Only lower bounds are checked: names of any length pass as long as their
   * lengths differ by at most one, whatever the alert text says about four.
   */
  lemma NoUpperBoundOnNameLength(name1: string, name2: string)
    requires |name1| >= 5 && |name2| == |name1|
    ensures IsValidLength(name1) && IsValidLength(name2) && IsValidNamePair(name1, name2)
  {
  }

  // ---------------------------------------------------------------------------
  // Percentage label
  // ---------------------------------------------------------------------------

  /** The text of a digit 0..9 (Number.prototype.toString). */
  function DigitChar(d: nat): (c: char)
    requires d < 10
    ensures '0' <= c <= '9'
    ensures c as int - '0' as int == d
  {
    (('0' as int) + d) as char
  }

  predicate IsDecimalText(s: string)
  {
    forall i :: 0 <= i < |s| ==> '0' <= s[i] <= '9'
  }

  /** 10 to the power k. */
  function Pow10(k: nat): (p: nat)
    ensures p >= 1
  {
    if k == 0 then 1 else 10 * Pow10(k - 1)
  }

  /** parseInt on a string of decimal digits, read left to right: k digits give a number below 10^k. */
  function ParseDecimal(s: string): (n: nat)
    requires IsDecimalText(s)
    ensures n < Pow10(|s|)
  {
    if s == [] then 0
    else 10 * ParseDecimal(s[..|s| - 1]) + (s[|s| - 1] as int - '0' as int)
  }

  /** The decimal text of a number, without leading zeros (String(n)). */
  function DecimalText(n: nat): (s: string)
    ensures IsDecimalText(s) && s != []
    ensures ParseDecimal(s) == n
  {
    if n < 10 then [DigitChar(n)]
    else
      var s := DecimalText(n / 10) + [DigitChar(n % 10)];
      assert s[..|s| - 1] == DecimalText(n / 10);
      s
  }

  /** The number shown, parseInt(result[0].toString() + result[1].toString()). */
  function Percentage(result: seq<nat>): (p: nat)
    requires |result| == 2 && IsDigitRow(result)
    ensures p == 10 * result[0] + result[1]
    ensures p <= 99
  {
    var text := [DigitChar(result[0]), DigitChar(result[1])];
    assert text[..1] == [DigitChar(result[0])];
    assert [DigitChar(result[0])][..0] == [];
    assert ParseDecimal(text[..1]) == result[0];
    ParseDecimal(text)
  }

  /**
   * The label shown at the end of the reveal: the two digits read as one number,
   * followed by "%". A leading zero digit disappears in parseInt.
   */
  function PercentLabel(result: seq<nat>): (shown: string)
    requires |result| == 2 && IsDigitRow(result)
    ensures shown == (if result[0] == 0 then [DigitChar(result[1])]
                      else [DigitChar(result[0]), DigitChar(result[1])]) + "%"
  {
    var p := Percentage(result);
    assert result[0] == 0 ==> DecimalText(p) == [DigitChar(result[1])];
    assert result[0] != 0 ==>
      p / 10 == result[0] && p % 10 == result[1] && DecimalText(p) == DecimalText(result[0]) + [DigitChar(result[1])];
    DecimalText(p) + "%"
  }

  // ---------------------------------------------------------------------------
  // NameDestinyApp.startGame
  // ---------------------------------------------------------------------------

  /** What dom.get returns for an input field: no element, or an element with its current text. */
  datatype InputElement = Absent | Present(value: string)

  /** The phase1 field: null until a computation has run, then its result object. */
  datatype Phase = NotComputed | Computed(value: DestinyResult)

  /** How startGame ends: which alert it raises, or that the computation started. */
  datatype StartOutcome =
    | MissingInput        // an input element is absent: silent return
    | NameTooShort        // alert: both names need two or more characters
    | LengthGapTooLarge   // alert: the lengths may differ by one at most
    | Started

  /** What startGame decides for the two input values. */
  function StartDecision(p1Input: InputElement, p2Input: InputElement): (outcome: StartOutcome)
    ensures outcome == Started ==>
      p1Input.Present? && p2Input.Present? && |p1Input.value| + |p2Input.value| >= 4
  {
    if p1Input.Absent? || p2Input.Absent? then MissingInput
    else if !IsValidLength(p1Input.value) || !IsValidLength(p2Input.value) then NameTooShort
    else if !IsValidNamePair(p1Input.value, p2Input.value) then LengthGapTooLarge
    else Started
  }

  /** The application object: the names it accepted and the computed result (phase1). */
  class NameDestinyApp {
    const decompose: Decomposer
    var phase1: Phase
    var firstNameInput: string
    var secondNameInput: string

    constructor (decompose: Decomposer)
      ensures this.decompose == decompose
      ensures phase1 == NotComputed && firstNameInput == "" && secondNameInput == ""
    {
      this.decompose := decompose;
      phase1 := NotComputed;
      firstNameInput := "";
      secondNameInput := "";
    }

    /**
     * startGame: read both inputs, reject short names and names whose lengths
     * differ by two or more without touching the state, otherwise store both
     * names and the computed result. The checks guarantee that the score
     * computation it calls terminates.
     */
    method StartGame(p1Input: InputElement, p2Input: InputElement) returns (outcome: StartOutcome)
      modifies this
      ensures outcome == StartDecision(p1Input, p2Input)
      ensures outcome != Started ==>
        phase1 == old(phase1) && firstNameInput == old(firstNameInput) && secondNameInput == old(secondNameInput)
      ensures outcome == Started ==>
        && firstNameInput == p1Input.value && secondNameInput == p2Input.value
        && phase1 == Computed(Destiny(decompose, p1Input.value, p2Input.value))
      ensures outcome == Started ==>
        |phase1.value.result| == 2 && Percentage(phase1.value.result) <= 99
    {
      if p1Input.Absent? || p2Input.Absent? {
        return MissingInput;
      }
      var name1 := p1Input.value;
      var name2 := p2Input.value;

      if !IsValidLength(name1) || !IsValidLength(name2) {
        return NameTooShort;
      }
      if !IsValidNamePair(name1, name2) {
        return LengthGapTooLarge;
      }

      var result := NameDestiny(decompose, name1, name2);
      firstNameInput := name1;
      secondNameInput := name2;
      phase1 := Computed(result);
      outcome := Started;
    }
  }
}
