/**
 * NATURALFIXED and NATURALPERCENT (ContentLocalizationManager.FormatNaturalFixed and
 * FormatNaturalPercent). The culture's "{0:N}" rendering of the number is a parameter;
 * what is modelled is the argument handling and the trim applied to the rendered text.
 */
module Natural {
  import opened LocValues
  import opened Strings

  /** `formatted.TrimEnd('0').TrimEnd(char.Parse(separator))` */
  function NaturalTrim(formatted: string, separator: string): (r: Result<string>)
    ensures r.Err? <==> |separator| != 1
    ensures r.Err? ==> r.error == SeparatorNotOneChar(separator)
    ensures r.Ok? ==>
      var t, d := r.value, separator[0];
      // a prefix of the rendered text ...
      && |t| <= |formatted| && t == formatted[..|t|]
      // ... from which only zeros and separators were cut, the zeros after every separator ...
      && (forall k :: |t| <= k < |formatted| ==> formatted[k] == '0' || formatted[k] == d)
      && (forall i, j :: |t| <= i < j < |formatted| && formatted[i] == '0' ==> formatted[j] == '0')
      // ... leaving no separator at the end, and a final zero only where a separator was cut after it
      && (|t| == 0 || t[|t| - 1] != d)
      && (|t| > 0 && t[|t| - 1] == '0' ==> |t| < |formatted| && formatted[|t|] == d)
  {
    if |separator| != 1 then Err(SeparatorNotOneChar(separator))
    else
      var u := TrimEnd(formatted, '0');
      var t := TrimEnd(u, separator[0]);
      assert forall k :: |t| <= k < |u| ==> formatted[k] == u[k];
      Ok(t)
  }

  /** `(int)Math.Floor(args.Args[1])`, assigned to `NumberDecimalDigits`, which accepts 0..99. */
  function DecimalDigits(args: seq<LocValue>): (r: Result<nat>)
    ensures r.Ok? <==> 1 < |args| && args[1].Num? && 0 <= args[1].n.Floor <= 99
    ensures r.Ok? ==> r.value == args[1].n.Floor
    ensures r.Err? && 1 < |args| && args[1].Num? ==> r.error == DecimalsOutOfRange(args[1].n.Floor)
    ensures r.Err? && !(1 < |args| && args[1].Num?) ==> r.error == NumberArg(args, 1).error
  {
    var d :- NumberArg(args, 1);
    var digits := d.Floor;
    if 0 <= digits <= 99 then Ok(digits) else Err(DecimalsOutOfRange(digits))
  }

  /**
   * FormatNaturalFixed: `args.Args[0]` is the number and `args.Args[1]` the largest
   * number of decimals; `render` is the culture's "{0:N}" with that many decimals and
   * `separator` the culture's decimal separator.
   */
  function FormatNaturalFixed(args: seq<LocValue>, render: (real, nat) -> string, separator: string): (r: Result<LocValue>)
    ensures r.Ok? <==> NumberArg(args, 0).Ok? && DecimalDigits(args).Ok? && |separator| == 1
    ensures NumberArg(args, 0).Err? ==> r == Err(NumberArg(args, 0).error)
    ensures NumberArg(args, 0).Ok? && DecimalDigits(args).Err? ==> r == Err(DecimalDigits(args).error)
    ensures NumberArg(args, 0).Ok? && DecimalDigits(args).Ok? && |separator| != 1 ==> r == Err(SeparatorNotOneChar(separator))
    ensures r.Ok? ==>
      r.value == Str(NaturalTrim(render(args[0].n, DecimalDigits(args).value), separator).value)
  {
    var number :- NumberArg(args, 0);
    var digits :- DecimalDigits(args);
    var trimmed :- NaturalTrim(render(number, digits), separator);
    Ok(Str(trimmed))
  }

  /** FormatNaturalPercent: as FormatNaturalFixed on the number times 100, then "%". */
  function FormatNaturalPercent(args: seq<LocValue>, render: (real, nat) -> string, separator: string): (r: Result<LocValue>)
    ensures r.Ok? <==> NumberArg(args, 0).Ok? && DecimalDigits(args).Ok? && |separator| == 1
    ensures NumberArg(args, 0).Err? ==> r == Err(NumberArg(args, 0).error)
    ensures NumberArg(args, 0).Ok? && DecimalDigits(args).Err? ==> r == Err(DecimalDigits(args).error)
    ensures NumberArg(args, 0).Ok? && DecimalDigits(args).Ok? && |separator| != 1 ==> r == Err(SeparatorNotOneChar(separator))
    ensures r.Ok? ==>
      r.value == Str(NaturalTrim(render(args[0].n * 100.0, DecimalDigits(args).value), separator).value + "%")
  {
    var number :- NumberArg(args, 0);
    var digits :- DecimalDigits(args);
    var trimmed :- NaturalTrim(render(number * 100.0, digits), separator);
    Ok(Str(trimmed + "%"))
  }

  /** "12.50" gives "12.5", "12.00" gives "12" (not "12."), and a comma separator works alike. */
  lemma TrimExamples()
    ensures NaturalTrim("12.50", ".") == Ok("12.5")
    ensures NaturalTrim("12.00", ".") == Ok("12")
    ensures NaturalTrim("1.234,50", ",") == Ok("1.234,5")
    ensures NaturalTrim("12.5", ".,") == Err(SeparatorNotOneChar(".,"))
  {
    TrimEndUnique("12.50", '0', "12.5");
    TrimEndUnique("12.5", '.', "12.5");
    TrimEndUnique("12.00", '0', "12.");
    TrimEndUnique("12.", '.', "12");
    TrimEndUnique("1.234,50", '0', "1.234,5");
    TrimEndUnique("1.234,5", ',', "1.234,5");
  }

  /** With a culture that renders 12.5 at two decimals as "12.50", NATURALFIXED(12.5, 2) is "12.5". */
  lemma FixedExample(render: (real, nat) -> string)
    requires render(12.5, 2) == "12.50"
    ensures FormatNaturalFixed([Num(12.5), Num(2.0)], render, ".") == Ok(Str("12.5"))
  {
    TrimExamples();
    assert (2.0).Floor == 2;
  }

  /** With a culture that renders 12.5 at one decimal as "12.5", NATURALPERCENT(0.125, 1) is "12.5%". */
  lemma PercentExample(render: (real, nat) -> string)
    requires render(12.5, 1) == "12.5"
    ensures FormatNaturalPercent([Num(0.125), Num(1.0)], render, ".") == Ok(Str("12.5%"))
  {
    TrimEndUnique("12.5", '0', "12.5");
    TrimEndUnique("12.5", '.', "12.5");
    var args := [Num(0.125), Num(1.0)];
    assert DecimalDigits(args) == Ok(1);
    assert args[0].n * 100.0 == 12.5;
    assert NaturalTrim(render(args[0].n * 100.0, 1), ".") == Ok("12.5");
    assert "12.5" + "%" == "12.5%";
  }

  /** A negative or too large number of decimals is refused before anything is rendered. */
  lemma DecimalsRangeExamples(render: (real, nat) -> string)
    ensures FormatNaturalFixed([Num(1.0), Num(-0.5)], render, ".") == Err(DecimalsOutOfRange(-1))
    ensures FormatNaturalFixed([Num(1.0), Num(100.0)], render, ".") == Err(DecimalsOutOfRange(100))
    ensures FormatNaturalFixed([Num(1.0), Str("2")], render, ".") == Err(TypeMismatch(1, NumberKind))
  {
    assert (-0.5).Floor == -1;
    assert (100.0).Floor == 100;
  }

  /**
   * As written, the trim also cuts zeros from the integer part when no decimal
   * separator was rendered (no decimals requested): 100 becomes "1" and "1,000"
   * becomes "1,".
   */
  lemma TrimCutsIntegerZeros()
    ensures NaturalTrim("100", ".") == Ok("1")
    ensures NaturalTrim("1,000", ".") == Ok("1,")
    ensures NaturalTrimIntended("100", ".") == Ok("100")
  {
    TrimEndUnique("100", '0', "1");
    TrimEndUnique("1", '.', "1");
    TrimEndUnique("1,000", '0', "1,");
    TrimEndUnique("1,", '.', "1,");
  }

  /**
   * The evidently intended trim: only the fractional part is trimmed, so the text is
   * left alone when it holds no decimal separator.
   */
  function NaturalTrimIntended(formatted: string, separator: string): (r: Result<string>)
    ensures r.Err? <==> |separator| != 1
    ensures r.Ok? && separator[0] !in formatted ==> r.value == formatted
    ensures r.Ok? && separator[0] in formatted ==> r == NaturalTrim(formatted, separator)
  {
    if |separator| != 1 then Err(SeparatorNotOneChar(separator))
    else if separator[0] in formatted then NaturalTrim(formatted, separator)
    else Ok(formatted)
  }

  /** The intended trim keeps every character before the first decimal separator. */
  lemma IntendedTrimKeepsIntegerPart(formatted: string, separator: string)
    requires |separator| == 1 && separator[0] != '0'
    ensures var t, i := NaturalTrimIntended(formatted, separator).value, IndexOf(formatted, separator[0]);
      i <= |t| <= |formatted| && t == formatted[..|t|]
  {
    var d := separator[0];
    var i := IndexOf(formatted, d);
    if d in formatted {
      var t := NaturalTrim(formatted, separator).value;
      assert formatted[i] == d;
    } else {
      if i < |formatted| {
        assert false;
      }
    }
  }
}
