/** The component state of the birthday form and its three actions: typing into a date
    field, asking for the lucky numbers, and starting over. React's state setters are
    modelled as direct assignments to the fields of one object. */
module LottoApp {
  import opened JsValues
  import Lotto

  /** The text an `<input type="number">` holds in this model: empty, or decimal digits. */
  predicate IsFieldText(s: string)
  {
    s == "" || IsNumeral(s)
  }

  /** The guard `!year || !month || !day` of the button and of `generateLottoNumbers`,
      negated: all three date fields are filled in. */
  predicate DateEntered(year: string, month: string, day: string)
  {
    year != "" && month != "" && day != ""
  }

  /** An optional time field: `field ? parseInt(field) * scale : 0`. */
  function TimePart(field: string, scale: nat): (part: nat)
    requires IsFieldText(field)
  {
    if field != "" then NumeralValue(field) * scale else 0
  }

  /** The seed of `generateLottoNumbers`: year, month and day as the decimal digits of one
      number, plus the birth time in minutes when it is given. */
  function Seed(year: string, month: string, day: string, hour: string, minute: string): (seed: nat)
    requires IsNumeral(year) && IsNumeral(month) && IsNumeral(day)
    requires IsFieldText(hour) && IsFieldText(minute)
  {
    NumeralValue(year) * 10000 + NumeralValue(month) * 100 + NumeralValue(day)
      + TimePart(hour, 60) + TimePart(minute, 1)
  }

  /** Fields that read as the numbers `y`, `m`, `d`, `h` and `mi`, with an empty hour or
      minute read as 0, give the seed `y*10000 + m*100 + d + h*60 + mi`. */
  lemma SeedOfTypedNumbers(year: string, month: string, day: string, hour: string, minute: string,
                           y: nat, m: nat, d: nat, h: nat, mi: nat)
    requires IsNumeral(year) && IsNumeral(month) && IsNumeral(day)
    requires IsFieldText(hour) && IsFieldText(minute)
    requires NumeralValue(year) == y && NumeralValue(month) == m && NumeralValue(day) == d
    requires if hour == "" then h == 0 else NumeralValue(hour) == h
    requires if minute == "" then mi == 0 else NumeralValue(minute) == mi
    ensures Seed(year, month, day, hour, minute) == y * 10000 + m * 100 + d + h * 60 + mi
  {
  }

  /** Leaving the hour or the minute empty counts as zero: the seed is the one for "0". */
  lemma EmptyTimeCountsAsZero(year: string, month: string, day: string, hour: string, minute: string)
    requires IsNumeral(year) && IsNumeral(month) && IsNumeral(day)
    requires IsFieldText(hour) && IsFieldText(minute)
    ensures hour == "" ==> Seed(year, month, day, hour, minute) == Seed(year, month, day, "0", minute)
    ensures minute == "" ==> Seed(year, month, day, hour, minute) == Seed(year, month, day, hour, "0")
  {
    assert NumeralValue("0") == NumeralValue("") * 10 + DigitValue('0');
  }

  /** The seed does not tell a birth time apart from a later date: 1 February 1990 at
      01:00 and 1 January 1990 at 02:40 draw the same numbers. */
  lemma TimeCanMatchAnotherDate()
    ensures Seed("1990", "2", "1", "1", "0") == Seed("1990", "1", "1", "2", "40") == 19900261
  {
    NumeralValueOfDecimalText(1990);
    NumeralValueOfDecimalText(40);
    assert DecimalText(1990) == "1990" && DecimalText(40) == "40";
    SeedOfTypedNumbers("1990", "2", "1", "1", "0", 1990, 2, 1, 1, 0);
    SeedOfTypedNumbers("1990", "1", "1", "2", "40", 1990, 1, 1, 2, 40);
  }

  /** Entering 1990, 1, 1 and no time gives the seed 19900101 and so the main numbers
      6, 19, 20, 27, 43, 44 with the bonus 41. */
  lemma NewYear1990()
    ensures Seed("1990", "1", "1", "", "") == 19900101
    ensures Lotto.MainNumbers(19900101) == [6, 19, 20, 27, 43, 44]
    ensures Lotto.BonusNumber(19900101) == 41
  {
    NumeralValueOfDecimalText(1990);
    assert DecimalText(1990) == "1990";
    SeedOfTypedNumbers("1990", "1", "1", "", "", 1990, 1, 1, 0, 0);
    Lotto.DrawOfNewYear1990();
  }

  /** The five input fields of the form. */
  datatype Field = Year | Month | Day | Hour | Minute

  class App {
    var year: string
    var month: string
    var day: string
    var hour: string
    var minute: string
    var numbers: seq<int>
    /** `null` is `None`. */
    var bonusNumber: Option<int>
    var showResult: bool

    /** The fields hold what number inputs produce; the result view shows exactly the
        draw for the entered date, and the form view shows no numbers. */
    ghost predicate Valid()
      reads this
    {
      IsFieldText(year) && IsFieldText(month) && IsFieldText(day)
      && IsFieldText(hour) && IsFieldText(minute)
      && (showResult ==>
            DateEntered(year, month, day)
            && numbers == Lotto.MainNumbers(Seed(year, month, day, hour, minute))
            && bonusNumber == Some(Lotto.BonusNumber(Seed(year, month, day, hour, minute))))
      && (!showResult ==> numbers == [] && bonusNumber == None)
    }

    /** The initial `useState` values. */
    predicate IsInitial()
      reads this
    {
      year == "" && month == "" && day == "" && hour == "" && minute == ""
      && numbers == [] && bonusNumber == None && !showResult
    }

    constructor ()
      ensures IsInitial() && Valid()
    {
      year, month, day, hour, minute := "", "", "", "", "";
      numbers, bonusNumber, showResult := [], None, false;
    }

    /** `onChange` of one input of the form (shown only while no result is shown): that
        field takes the new text and nothing else changes. */
    method Enter(field: Field, text: string)
      requires Valid() && !showResult && IsFieldText(text)
      modifies this
      ensures Valid() && !showResult && numbers == [] && bonusNumber == None
      ensures year == (if field == Year then text else old(year))
      ensures month == (if field == Month then text else old(month))
      ensures day == (if field == Day then text else old(day))
      ensures hour == (if field == Hour then text else old(hour))
      ensures minute == (if field == Minute then text else old(minute))
    {
      match field
      case Year => year := text;
      case Month => month := text;
      case Day => day := text;
      case Hour => hour := text;
      case Minute => minute := text;
    }

    /** `generateLottoNumbers`: without a full date nothing changes; otherwise the draw for
        the seed of the entered date is shown: six distinct ascending numbers in 1 .. 45
        and a bonus in 1 .. 45 that is not among them. The input fields never change. */
    method GenerateLottoNumbers()
      requires Valid()
      modifies this
      ensures Valid()
      ensures year == old(year) && month == old(month) && day == old(day)
      ensures hour == old(hour) && minute == old(minute)
      ensures !DateEntered(year, month, day) ==>
                numbers == old(numbers) && bonusNumber == old(bonusNumber)
                && showResult == old(showResult)
      ensures DateEntered(year, month, day) ==>
                showResult
                && numbers == Lotto.MainNumbers(Seed(year, month, day, hour, minute))
                && bonusNumber == Some(Lotto.BonusNumber(Seed(year, month, day, hour, minute)))
      ensures DateEntered(year, month, day) ==>
                |numbers| == Lotto.MainCount && Lotto.StrictlyAscending(numbers)
                && (forall x :: x in numbers ==> 1 <= x <= Lotto.Pool)
                && bonusNumber.Some? && 1 <= bonusNumber.value <= Lotto.Pool
                && bonusNumber.value !in numbers
    {
      if year == "" || month == "" || day == "" {
        return;
      }
      var seed := Seed(year, month, day, hour, minute);
      var main, bonus := Lotto.DrawLotto(seed);
      numbers := main;
      bonusNumber := Some(bonus);
      showResult := true;
    }

    /** `reset`: every field returns to its initial value. */
    method Reset()
      modifies this
      ensures IsInitial() && Valid()
    {
      year, month, day, hour, minute := "", "", "", "", "";
      numbers := [];
      bonusNumber := None;
      showResult := false;
    }
  }
}
