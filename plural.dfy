/**
 * The two MAKEPLURAL rules and MANY (ContentLocalizationManager.FormatMakePlural,
 * FormatMakePluralCustom and FormatMany).
 */
module Plural {
  import opened LocValues
  import opened Strings

  /**
   * The text a .NET `$` anchor (no RegexOptions) sees as ending the input: `$`
   * matches at the end of the input and also just before a final '\n'.
   */
  function DollarBody(w: string): (b: string)
    ensures |b| <= |w| && b == w[..|b|]
    ensures |w| > 0 && w[|w| - 1] == '\n' ==> b == w[..|w| - 1]
    ensures !(|w| > 0 && w[|w| - 1] == '\n') ==> b == w
    ensures '\n' !in w ==> b == w
  {
    if |w| > 0 && w[|w| - 1] == '\n' then w[..|w| - 1] else w
  }

  /** The word ends in "s", "sh", "ch", "x" or "z". */
  predicate EndsInSibilant(s: string) {
    EndsWith(s, "s") || EndsWith(s, "sh") || EndsWith(s, "ch") || EndsWith(s, "x") || EndsWith(s, "z")
  }

  /**
   * Regex `^.*(s|sh|ch|x|z)$` (PluralEsRule / PluralRegraEs): `^` anchors at the
   * start of the input and `.` does not match '\n'.
   */
  predicate MatchesEs(w: string) {
    var b := DollarBody(w);
    '\n' !in b && EndsInSibilant(b)
  }

  /** Regex `ão$` (PluralRegraOes). */
  predicate MatchesOes(w: string) {
    EndsWith(DollarBody(w), "ão")
  }

  /** Regex `[aeo]l$` (PluralRegraIs). */
  predicate MatchesIs(w: string) {
    var b := DollarBody(w);
    |b| >= 2 && b[|b| - 1] == 'l' && b[|b| - 2] in "aeo"
  }

  /** Regex `m$` (PluralRegraNs). */
  predicate MatchesNs(w: string) {
    EndsWith(DollarBody(w), "m")
  }

  /** The English rule on the whole text (FormatMakePlural). */
  function MakePluralDefault(text: string): (r: string)
    ensures |r| > |text| && r[..|text|] == text
    ensures r[|text|..] == if MatchesEs(text) then "es" else "s"
  {
    var split := Split(text, 1);
    // `Split(" ", 1)` never splits: the source's branches for a second part cannot be taken.
    assert split == [text];
    var firstWord := split[0];
    if MatchesEs(firstWord) then firstWord + "es" else firstWord + "s"
  }

  /** The Portuguese cascade on one word: the first matching rule wins. */
  function PluralizeWordCustom(w: string): (r: string)
  {
    if MatchesOes(w) then w[..|w| - 2] + "oẽs"
    else if MatchesIs(w) then w[..|w| - 1] + "is"
    else if MatchesNs(w) then w[..|w| - 1] + "ns"
    else if MatchesEs(w) then w + "es"
    else w + "s"
  }

  /**
   * The Portuguese rule (FormatMakePluralCustom): the first word, up to the
   * first space, is pluralized and the rest of the text is kept as it is.
   */
  function MakePluralCustom(text: string): (r: string)
    ensures var i := IndexOf(text, ' ');
      if i < |text| then r == PluralizeWordCustom(text[..i]) + text[i..]
      else r == PluralizeWordCustom(text)
  {
    var split := Split(text, 2);
    var firstWord := split[0];
    var plural := PluralizeWordCustom(firstWord);
    if |split| == 1 then plural else plural + " " + split[1]
  }

  /** FormatMakePlural: the text is `args.Args[0]`, which must be a string. */
  function FormatMakePlural(args: seq<LocValue>): (r: Result<LocValue>)
    ensures r.Ok? <==> |args| > 0 && args[0].Str?
    ensures r.Ok? ==> r.value == Str(MakePluralDefault(args[0].s))
    ensures r.Err? ==> r.error == (if |args| == 0 then ArityMismatch(0) else TypeMismatch(0, StringKind))
  {
    var text :- StringArg(args, 0);
    Ok(Str(MakePluralDefault(text)))
  }

  /** FormatMakePluralCustom: the text is `args.Args[0]`, which must be a string. */
  function FormatMakePluralCustom(args: seq<LocValue>): (r: Result<LocValue>)
    ensures r.Ok? <==> |args| > 0 && args[0].Str?
    ensures r.Ok? ==> r.value == Str(MakePluralCustom(args[0].s))
    ensures r.Err? ==> r.error == (if |args| == 0 then ArityMismatch(0) else TypeMismatch(0, StringKind))
  {
    var text :- StringArg(args, 0);
    Ok(Str(MakePluralCustom(text)))
  }

  /** `0.0001f`, taken as an exact rational. */
  const ManyTolerance: real := 0.0001

  function Abs(x: real): (r: real) {
    if x < 0.0 then -x else x
  }

  /**
   * FormatMany: `args.Args[0]` is the word and `args.Args[1]` the count. A count
   * within the tolerance of 1 keeps the word; any other count pluralizes it with
   * the rule chosen at registration (`isFallback`: the English one).
   */
  function FormatMany(args: seq<LocValue>, isFallback: bool): (r: Result<LocValue>)
    ensures |args| < 2 ==> r == Err(ArityMismatch(1))
    ensures |args| >= 2 && !args[1].Num? ==> r == Err(TypeMismatch(1, NumberKind))
    ensures |args| >= 2 && args[1].Num? && !args[0].Str? ==> r == Err(TypeMismatch(0, StringKind))
    ensures |args| >= 2 && args[1].Num? && args[0].Str? ==>
      r == Ok(
        if Abs(args[1].n - 1.0) < ManyTolerance then args[0]
        else if isFallback then Str(MakePluralDefault(args[0].s))
        else Str(MakePluralCustom(args[0].s)))
  {
    var count :- NumberArg(args, 1);
    if Abs(count - 1.0) < ManyTolerance then
      if args[0].Str? then Ok(args[0]) else Err(TypeMismatch(0, StringKind))
    else if isFallback then FormatMakePlural(args)
    else FormatMakePluralCustom(args)
  }

  lemma EndsWithChar(s: string, c: char)
    ensures EndsWith(s, [c]) <==> |s| > 0 && s[|s| - 1] == c
  {
    if |s| > 0 {
      assert s[|s| - 1..] == [s[|s| - 1]];
    }
  }

  lemma EndsWithPair(s: string, a: char, c: char)
    ensures EndsWith(s, [a, c]) <==> |s| >= 2 && s[|s| - 2] == a && s[|s| - 1] == c
  {
    if |s| >= 2 {
      assert s[|s| - 2..] == [s[|s| - 2], s[|s| - 1]];
    }
  }

  /** EndsInSibilant, stated on the last two characters. */
  lemma SibilantByLastChars(s: string)
    ensures EndsInSibilant(s) <==>
      |s| > 0 && (s[|s| - 1] in "sxz" || (s[|s| - 1] == 'h' && |s| >= 2 && s[|s| - 2] in "sc"))
  {
    EndsWithChar(s, 's');
    EndsWithChar(s, 'x');
    EndsWithChar(s, 'z');
    EndsWithPair(s, 's', 'h');
    EndsWithPair(s, 'c', 'h');
  }

  /** Without a '\n' the English rule appends "es" exactly after s, sh, ch, x and z. */
  lemma DefaultPluralSuffix(text: string)
    requires '\n' !in text
    ensures EndsInSibilant(text) ==> MakePluralDefault(text) == text + "es"
    ensures !EndsInSibilant(text) ==> MakePluralDefault(text) == text + "s"
  {
    var r := MakePluralDefault(text);
    assert r == r[..|text|] + r[|text|..];
  }

  /**
   * Every Portuguese rule keeps all but at most the last two characters of the word,
   * makes it one or two characters longer, and ends it in 's'.
   */
  lemma CustomPluralShape(w: string)
    ensures var r := PluralizeWordCustom(w);
      && |w| < |r| <= |w| + 2 && r[|r| - 1] == 's'
      && (|w| >= 2 ==> r[..|w| - 2] == w[..|w| - 2])
  {
    var r := PluralizeWordCustom(w);
    if MatchesOes(w) {
      assert r == w[..|w| - 2] + "oẽs";
    } else if MatchesIs(w) {
      var stem := w[..|w| - 1];
      assert r == stem + "is";
      assert r[..|w| - 2] == stem[..|w| - 2];
    } else if MatchesNs(w) {
      var stem := w[..|w| - 1];
      assert r == stem + "ns";
      if |w| >= 2 {
        assert r[..|w| - 2] == stem[..|w| - 2];
      }
    } else if MatchesEs(w) {
      assert r == w + "es";
    } else {
      assert r == w + "s";
    }
  }

  /** The tests of the Portuguese cascade never overlap: at most one of them matches any word. */
  lemma CustomRulesDisjoint(w: string)
    ensures MatchesOes(w) ==> !MatchesIs(w) && !MatchesNs(w) && !MatchesEs(w)
    ensures MatchesIs(w) ==> !MatchesNs(w) && !MatchesEs(w)
    ensures MatchesNs(w) ==> !MatchesEs(w)
  {
    var b := DollarBody(w);
    SibilantByLastChars(b);
    if MatchesOes(w) {
      assert b[|b| - 1] == "ão"[1];
    }
    if MatchesNs(w) {
      assert b[|b| - 1] == "m"[0];
    }
  }

  /**
   * Since the tests are disjoint, each Portuguese rule applies whenever its own
   * ending is present, whatever the order of the cascade.
   */
  lemma CustomPluralByEnding(w: string)
    requires '\n' !in w
    ensures EndsWith(w, "ão") ==> PluralizeWordCustom(w) == w[..|w| - 2] + "oẽs"
    ensures |w| >= 2 && w[|w| - 1] == 'l' && w[|w| - 2] in "aeo" ==>
      PluralizeWordCustom(w) == w[..|w| - 1] + "is"
    ensures EndsWith(w, "m") ==> PluralizeWordCustom(w) == w[..|w| - 1] + "ns"
    ensures EndsInSibilant(w) ==> PluralizeWordCustom(w) == w + "es"
    ensures (!EndsWith(w, "ão") && !(|w| >= 2 && w[|w| - 1] == 'l' && w[|w| - 2] in "aeo")
             && !EndsWith(w, "m") && !EndsInSibilant(w)) ==> PluralizeWordCustom(w) == w + "s"
  {
    CustomRulesDisjoint(w);
  }

  lemma ExampleCat()
    ensures MakePluralDefault("cat") == "cats"
  {
    DefaultPluralSuffix("cat");
    SibilantByLastChars("cat");
  }

  lemma ExampleBox()
    ensures MakePluralDefault("box") == "boxes"
  {
    DefaultPluralSuffix("box");
    SibilantByLastChars("box");
  }

  lemma ExampleBoxOfNails()
    ensures MakePluralDefault("box of nails") == "box of nailses"
  {
    DefaultPluralSuffix("box of nails");
    SibilantByLastChars("box of nails");
  }

  lemma ExampleBoxNewline()
    ensures MakePluralDefault("box\n") == "box\nes"
  {
    assert DollarBody("box\n") == "box";
    SibilantByLastChars("box");
  }

  /** A word without a space is pluralized whole by the Portuguese rule. */
  lemma CustomSingleWord(text: string)
    requires ' ' !in text
    ensures MakePluralCustom(text) == PluralizeWordCustom(text)
  {
    var i := IndexOf(text, ' ');
    if i < |text| {
      assert false;
    }
  }

  lemma LimaoWord()
    ensures PluralizeWordCustom("limão") == "limoẽs"
  {
    assert "limão"[3..] == "ão";
    assert MatchesOes("limão");
    assert "limão"[..3] + "oẽs" == "limoẽs";
  }

  lemma ExampleLimao()
    ensures MakePluralCustom("limão") == "limoẽs"
  {
    CustomSingleWord("limão");
    LimaoWord();
  }

  lemma ExampleHotel()
    ensures MakePluralCustom("hotel") == "hoteis"
  {
    CustomSingleWord("hotel");
    assert !MatchesOes("hotel") by { assert "hotel"[3..] != "ão"; }
    assert MatchesIs("hotel");
    assert "hotel"[..4] + "is" == "hoteis";
  }

  lemma ExampleItem()
    ensures MakePluralCustom("item") == "itens"
  {
    CustomSingleWord("item");
    EndsWithChar("item", 'm');
    CustomPluralByEnding("item");
  }

  lemma ExampleLuz()
    ensures MakePluralCustom("luz") == "luzes"
  {
    CustomSingleWord("luz");
    SibilantByLastChars("luz");
    CustomPluralByEnding("luz");
  }

  /** The Portuguese rule pluralizes the text before the first space and keeps the rest. */
  lemma CustomFirstWord(word: string, rest: string)
    requires ' ' !in word && |rest| > 0 && rest[0] == ' '
    ensures MakePluralCustom(word + rest) == PluralizeWordCustom(word) + rest
  {
    var text := word + rest;
    assert text[..|word|] == word && text[|word|..] == rest;
    IndexOfFirst(text, ' ', |word|);
  }

  lemma ExampleLimaoVerde()
    ensures MakePluralCustom("limão" + " verde") == "limoẽs" + " verde"
  {
    CustomFirstWord("limão", " verde");
    LimaoWord();
  }

  /** MANY keeps the word at counts 1 and 1.00005 and pluralizes it at 2 and 0. */
  lemma ManyExamples()
    ensures FormatMany([Str("item"), Num(1.0)], false) == Ok(Str("item"))
    ensures FormatMany([Str("item"), Num(1.00005)], true) == Ok(Str("item"))
    ensures FormatMany([Str("box"), Num(2.0)], true) == Ok(Str("boxes"))
    ensures FormatMany([Str("hotel"), Num(0.0)], false) == Ok(Str("hoteis"))
  {
    ExampleBox();
    ExampleHotel();
  }
}
