# Content localization core, modelled in Dafny

This project models `ContentLocalizationManager`, the content-side part of the game's
localization. It has two parts.

The first part is the set of formatting functions that Fluent templates call:
- MAKEPLURAL, in two variants: the English rule and the Portuguese rule;
- MANY;
- the four list joiners;
- NATURALFIXED and NATURALPERCENT, with their trailing-zero trim.

The second part is the culture-registration protocol of `Initialize` and `OnCultureUpdate`.

The modules follow the source:

- `LocValues` (`values.dfy`): the argument values a template passes (`Num`, `Str`) and the
  errors a formatter can raise. The source raises these as exceptions: a missing argument
  index, a wrong cast, an out-of-range decimal count, a separator that is not one character.
  Here they are a `Result`.
- `Strings` (`strings.dfy`): the .NET string operations the formatters use.
  `Split(" ", count)` is `Split`, `string.Join` is `Join`, `TrimEnd(c)` is `TrimEnd`.
- `Plural` (`plural.dfy`): the regular expressions, written as predicates with .NET anchor
  semantics. `$` also matches before a final '\n', and `.` does not match '\n'. The module
  also holds both pluralizers and MANY.
- `Lists` (`lists.dfy`): the and-joiners and or-joiners, and a reference definition of the
  serial-comma list.
- `Natural` (`natural.dfy`): NATURALFIXED and NATURALPERCENT. The culture's `"{0:N}"`
  rendering is a parameter. What is modelled is the argument handling and the trim.
- `Registration` (`registration.dfy`): `LocEngine` is the part of the localization engine's
  state that the content manager changes:
  - the loaded cultures;
  - the fallback and default cultures;
  - the (culture, name) → function table;
  - a reload counter;
  - a ghost log of every engine call.

  `ContentLocalizationManager` is a class whose methods make the source's calls in the
  source's order.
  - Its invariant `Valid` says that after initialization:
    - en-US is the fallback;
    - the configured culture is the default and carries the six culture functions;
    - the English MANY variant belongs to en-US alone.
  - `Resolve` is the lookup a template performs: the default culture first, then the
    fallback.

Three behaviours of the code are worth knowing before reading the model:

- English MAKEPLURAL does not split. `text.Split(" ", 1)` (line 84) returns the whole
  text as one part, so the suffix test applies to the whole text ("box of nails" becomes
  "box of nailses") and the two-part branches at lines 93 and 101 are unreachable.
- `Initialize` never assigns `DefaultCulture`. Only line 60, in `OnCultureUpdate`, does.
- When the configured language is en-US, lines 53-54 overwrite the en-US MAKEPLURAL and
  MANY installed at lines 41-42. This goes against the intent stated in the comment at
  lines 32-36 (see "## Findings").

## Model

| member | source | states |
|---|---|---|
| LocValues.NumberArg | Content.Shared/Localization/ContentLocalizationManager.cs:66 | reading argument i as a number succeeds exactly when it exists and is a number; otherwise the error is the missing index or the wrong type at i |
| LocValues.StringArg | Content.Shared/Localization/ContentLocalizationManager.cs:83 | reading argument i as a string succeeds exactly when it exists and is a string; otherwise the error is the missing index or the wrong type at i |
| Strings.IndexOf | Content.Shared/Localization/ContentLocalizationManager.cs:134 | the position of the first occurrence of the character, or the length when there is none: the character is there and nowhere before it |
| Strings.Join | Content.Shared/Localization/ContentLocalizationManager.cs:111 | `string.Join`: the items with the separator between consecutive ones; `JoinSnoc` states that appending an item appends the separator and the item, and `JoinAvoids` that a character absent from the items and the separator is absent from the result |
| Strings.Split | Content.Shared/Localization/ContentLocalizationManager.cs:134 | a count-limited split on " ": 1 to count parts; joining them with " " gives back the text; only the last part may contain a space, and only when the limit was reached |
| Strings.TrimEnd | Content.Shared/Localization/ContentLocalizationManager.cs:189 | the result is a prefix of the input, does not end in c, and everything cut off is c |
| Strings.TrimEndUnique | Content.Shared/Localization/ContentLocalizationManager.cs:189 | any string with those three properties is the TrimEnd result |
| Plural.DollarBody | Content.Shared/Localization/ContentLocalizationManager.cs:79 | the text before the point where a .NET `$` matches: the word without its last character when that is '\n', and the whole word otherwise |
| Plural.MatchesEs | Content.Shared/Localization/ContentLocalizationManager.cs:79 | the regex `^.*(s\|sh\|ch\|x\|z)$` matches: the text before `$` holds no '\n' (`.` cannot cross it) and ends in s, sh, ch, x or z |
| Plural.MatchesOes | Content.Shared/Localization/ContentLocalizationManager.cs:127 | the regex `ão$` matches: the text before `$` ends in "ão" |
| Plural.MatchesIs | Content.Shared/Localization/ContentLocalizationManager.cs:128 | the regex `[aeo]l$` matches: the text before `$` ends in a, e or o followed by l |
| Plural.MatchesNs | Content.Shared/Localization/ContentLocalizationManager.cs:129 | the regex `m$` matches: the text before `$` ends in m |
| Plural.SibilantByLastChars | Content.Shared/Localization/ContentLocalizationManager.cs:79 | the (s\|sh\|ch\|x\|z) ending is exactly: last character s, x or z, or an h preceded by s or c |
| Plural.MakePluralDefault | Content.Shared/Localization/ContentLocalizationManager.cs:81-102 | the result is the whole text followed by "es" when the text matches the sibilant regex, otherwise by "s"; no splitting happens |
| Plural.DefaultPluralSuffix | Content.Shared/Localization/ContentLocalizationManager.cs:84-101 | for text without '\n': "es" is appended exactly when the whole text ends in s, sh, ch, x or z, otherwise "s" |
| Plural.FormatMakePlural | Content.Shared/Localization/ContentLocalizationManager.cs:81-83 | succeeds exactly when the first argument exists and is a string, and then gives its English plural; otherwise the missing-index or wrong-type error at 0 |
| Plural.PluralizeWordCustom | Content.Shared/Localization/ContentLocalizationManager.cs:138-147 | the cascade on one word, first match wins; `CustomPluralByEnding` gives each rule's rewrite and `CustomPluralShape` the shape common to all rules |
| Plural.CustomPluralShape | Content.Shared/Localization/ContentLocalizationManager.cs:138-147 | every Portuguese rule keeps all but at most the last two characters of the word, adds one or two characters, and ends in 's' |
| Plural.MakePluralCustom | Content.Shared/Localization/ContentLocalizationManager.cs:131-150 | with a space, the text before the first space is pluralized by the cascade and the rest (from the space on) is kept; without a space, the whole text is pluralized |
| Plural.FormatMakePluralCustom | Content.Shared/Localization/ContentLocalizationManager.cs:131-133 | succeeds exactly when the first argument exists and is a string, and then gives its Portuguese plural; otherwise the missing-index or wrong-type error at 0 |
| Plural.CustomRulesDisjoint | Content.Shared/Localization/ContentLocalizationManager.cs:126-147 | at most one of the ão, [aeo]l, m and sibilant tests matches any word |
| Plural.CustomPluralByEnding | Content.Shared/Localization/ContentLocalizationManager.cs:138-147 | for a word without '\n': ão → drop 2 and add "oẽs"; a/e/o then l → drop 1 and add "is"; m → drop 1 and add "ns"; sibilant → add "es"; anything else → add "s" |
| Plural.CustomSingleWord | Content.Shared/Localization/ContentLocalizationManager.cs:134-149 | text with no space is pluralized whole |
| Plural.CustomFirstWord | Content.Shared/Localization/ContentLocalizationManager.cs:134-149 | for a space-free word followed by text starting with a space, the word is pluralized and the rest is kept unchanged |
| Plural.FormatMany | Content.Shared/Localization/ContentLocalizationManager.cs:64-77 | count missing or not a number → error at 1; word not a string → error at 0; count within 0.0001 of 1 → the word itself; otherwise the English plural if isFallback, else the Portuguese plural |
| Plural.ExampleCat | Content.Shared/Localization/ContentLocalizationManager.cs:81-102 | "cat" becomes "cats" |
| Plural.ExampleBox | Content.Shared/Localization/ContentLocalizationManager.cs:81-102 | "box" becomes "boxes" |
| Plural.ExampleBoxOfNails | Content.Shared/Localization/ContentLocalizationManager.cs:81-102 | "box of nails" becomes "box of nailses" |
| Plural.ExampleBoxNewline | Content.Shared/Localization/ContentLocalizationManager.cs:79-90 | "box\n" matches through `$` before the final '\n' and becomes "box\nes" |
| Plural.LimaoWord | Content.Shared/Localization/ContentLocalizationManager.cs:138-139 | the cascade turns the word "limão" into "limoẽs" |
| Plural.ExampleLimao | Content.Shared/Localization/ContentLocalizationManager.cs:131-150 | "limão" becomes "limoẽs" |
| Plural.ExampleHotel | Content.Shared/Localization/ContentLocalizationManager.cs:131-150 | "hotel" becomes "hoteis" |
| Plural.ExampleItem | Content.Shared/Localization/ContentLocalizationManager.cs:131-150 | "item" becomes "itens" |
| Plural.ExampleLuz | Content.Shared/Localization/ContentLocalizationManager.cs:131-150 | "luz" becomes "luzes" |
| Plural.ExampleLimaoVerde | Content.Shared/Localization/ContentLocalizationManager.cs:131-150 | "limão verde" becomes "limoẽs verde" |
| Plural.ManyExamples | Content.Shared/Localization/ContentLocalizationManager.cs:64-77 | counts 1 and 1.00005 keep the word; count 2 with the English rule and count 0 with the Portuguese rule pluralize it |
| Lists.ConjoinList | Content.Shared/Localization/ContentLocalizationManager.cs:106-111 | the and-shape: no items give "", one item gives itself, two or more end in " <conj> <last item>" |
| Lists.DisjoinList | Content.Shared/Localization/ContentLocalizationManager.cs:117-122 | the or-shape: no items give "", one item gives itself, two or more end in " <disj> <last item>" |
| Lists.FormatList | Content.Shared/Localization/ContentLocalizationManager.cs:104-113 | [] → "", [a] → "a", [a, b] → "a and b", and three or more items give the independently defined serial-comma list "A, B, ..., and Z" |
| Lists.FormatListCustom | Content.Shared/Localization/ContentLocalizationManager.cs:152-161 | as FormatList with "e": [a, b] → "a e b", three or more give "A, B, ..., e Z" |
| Lists.FormatListToOr | Content.Shared/Localization/ContentLocalizationManager.cs:115-124 | equals joining all items with " or ", at every length |
| Lists.FormatListToOrCustom | Content.Shared/Localization/ContentLocalizationManager.cs:163-172 | equals joining all items with " ou ", at every length |
| Lists.ConjoinIsCommaSeries | Content.Shared/Localization/ContentLocalizationManager.cs:104-113 | for three or more items, FormatList and FormatListCustom equal the independently defined serial-comma list "A, B, ..., and Z" |
| Lists.ConjoinHasSerialComma | Content.Shared/Localization/ContentLocalizationManager.cs:111 | for three or more items the result ends in ", <conj> <last item>" and contains a comma |
| Lists.DisjoinIsJoin | Content.Shared/Localization/ContentLocalizationManager.cs:115-124 | FormatListToOr and FormatListToOrCustom equal joining all items with " or " / " ou ", for every length including 0, 1 and 2 |
| Lists.DisjoinHasNoComma | Content.Shared/Localization/ContentLocalizationManager.cs:163-172 | the or-joiners insert no comma: items and a joining word without ',' give a result without ',' |
| Lists.AndListExamples | Content.Shared/Localization/ContentLocalizationManager.cs:104-113 | [] → "", [a] → "a", [a, b] → "a and b", [a, b, c] → "a, b, and c" |
| Lists.CustomAndListExample | Content.Shared/Localization/ContentLocalizationManager.cs:152-161 | [a, b, c] → "a, b, e c" |
| Lists.OrListExamples | Content.Shared/Localization/ContentLocalizationManager.cs:115-124 | [a, b, c] → "a or b or c"; [a, b] → "a ou b" with the Portuguese joiner |
| Natural.NaturalTrim | Content.Shared/Localization/ContentLocalizationManager.cs:189 | fails exactly when the separator is not one character. Otherwise the result is a prefix of the rendered text, and only zeros and separators were cut, with the cut zeros after every cut separator. No separator remains at the end, and a final zero remains only where a separator was cut right after it |
| Natural.DecimalDigits | Content.Shared/Localization/ContentLocalizationManager.cs:186-188 | the floor of the second argument when it is a number between 0 and 99; otherwise the out-of-range error with that floor, or the argument error |
| Natural.FormatNaturalFixed | Content.Shared/Localization/ContentLocalizationManager.cs:183-190 | succeeds exactly when both arguments are usable numbers and the separator is one character; then it gives the trimmed rendering of the number; the number's error comes first, then the decimals' error, then `SeparatorNotOneChar` for the separator |
| Natural.FormatNaturalPercent | Content.Shared/Localization/ContentLocalizationManager.cs:174-181 | as NATURALFIXED, applied to the number times 100, with "%" appended after the trim |
| Natural.TrimExamples | Content.Shared/Localization/ContentLocalizationManager.cs:189 | "12.50" → "12.5", "12.00" → "12", "1.234,50" with ',' → "1.234,5"; a two-character separator is an error |
| Natural.FixedExample | Content.Shared/Localization/ContentLocalizationManager.cs:183-190 | NATURALFIXED(12.5, 2) is "12.5" when the culture renders "12.50" |
| Natural.PercentExample | Content.Shared/Localization/ContentLocalizationManager.cs:174-181 | NATURALPERCENT(0.125, 1) is "12.5%" when the culture renders 12.5 as "12.5" |
| Natural.DecimalsRangeExamples | Content.Shared/Localization/ContentLocalizationManager.cs:186-188 | -0.5 decimals (floor -1) and 100 decimals are refused; a string count is a type error |
| Natural.TrimCutsIntegerZeros | Content.Shared/Localization/ContentLocalizationManager.cs:189 | as written, "100" trims to "1" and "1,000" to "1,"; the intended trim keeps "100" |
| Natural.NaturalTrimIntended | Content.Shared/Localization/ContentLocalizationManager.cs:189 | the corrected trim: same error, the text unchanged when no separator was rendered, and the as-written trim otherwise |
| Natural.IntendedTrimKeepsIntegerPart | Content.Shared/Localization/ContentLocalizationManager.cs:189 | the corrected trim keeps every character before the first decimal separator |
| Registration.CultureFunctionsInstalled | Content.Shared/Localization/ContentLocalizationManager.cs:53-58 | the six registrations add exactly the culture's six keys with their functions, leave other cultures' entries alone, and never install the English MANY |
| Registration.CultureFunctionsIdempotent | Content.Shared/Localization/ContentLocalizationManager.cs:53-58 | registering the same culture twice leaves the table as one registration does |
| Registration.Resolve | Content.Shared/Localization/ContentLocalizationManager.cs:39-60 | the engine's lookup, an assumption: a name resolves exactly when the default or the fallback culture has it, to the default culture's entry when it has one, else to the fallback's |
| Registration.EnglishUpdateOverwritesFallback | Content.Shared/Localization/ContentLocalizationManager.cs:41-54 | as written, registering the culture functions for en-US replaces the English MAKEPLURAL and MANY installed at lines 41-42 with the Portuguese ones |
| Registration.WithCultureFunctionsIntended | Content.Shared/Localization/ContentLocalizationManager.cs:32-58 | the corrected registrations: the same as written for every culture but en-US; for en-US only the four other functions are added |
| Registration.IntendedUpdateKeepsEnglish | Content.Shared/Localization/ContentLocalizationManager.cs:32-58 | under the corrected registrations, en-US keeps its MAKEPLURAL and MANY whatever culture is selected, and the English MANY stays en-US's alone |
| Registration.SwitchedCultureResolvesCustom | Content.Shared/Localization/ContentLocalizationManager.cs:53-60 | once a culture is registered and made the default, its MAKEPLURAL and MANY resolve to the Portuguese variants whatever the fallback holds |
| Registration.LocEngine.Initialize | Content.Shared/Localization/ContentLocalizationManager.cs:26 | the engine becomes initialized; nothing else changes; the call is logged |
| Registration.LocEngine.LoadCulture | Content.Shared/Localization/ContentLocalizationManager.cs:30 | the culture joins the loaded set; the call is logged |
| Registration.LocEngine.SetFallbackCulture | Content.Shared/Localization/ContentLocalizationManager.cs:39 | a loaded culture becomes the fallback; the call is logged |
| Registration.LocEngine.AddFunction | Content.Shared/Localization/ContentLocalizationManager.cs:41-42 | sets the one table entry for a loaded culture; installing anything but the English MANY keeps that variant en-US's alone |
| Registration.LocEngine.SetDefaultCulture | Content.Shared/Localization/ContentLocalizationManager.cs:60 | a loaded culture becomes the default; the call is logged |
| Registration.LocEngine.ReloadLocalizations | Content.Shared/Localization/ContentLocalizationManager.cs:61 | needs an initialized engine; counts one reload; the call is logged |
| Registration.ContentLocalizationManager.constructor | Content.Shared/GameConfigVar/GameConfigVars.Localization.cs:10-11 | the configured language starts as "pt-BR", not yet subscribed |
| Registration.ContentLocalizationManager.Initialize | Content.Shared/Localization/ContentLocalizationManager.cs:24-45 | afterwards: initialized, en-US the fallback, the configured culture and en-US loaded, the configured culture the default, en-US with the English MAKEPLURAL and MANY and the configured culture with its six functions, one reload, and the engine calls in the source's order |
| Registration.ContentLocalizationManager.PrepareEngine | Content.Shared/Localization/ContentLocalizationManager.cs:26-42 | initializes, loads the culture and en-US, makes en-US the fallback and gives it the English MAKEPLURAL and MANY, in that order |
| Registration.ContentLocalizationManager.OnCultureUpdate | Content.Shared/Localization/ContentLocalizationManager.cs:47-62 | loads the culture only if it is missing, registers its six functions, makes it the default and reloads once; the fallback never changes and the invariant is kept |
| Registration.ContentLocalizationManager.LoadIfMissing | Content.Shared/Localization/ContentLocalizationManager.cs:50-51 | the culture is loaded afterwards, and a Load call is made only when it was missing |
| Registration.ContentLocalizationManager.RegisterCultureFunctions | Content.Shared/Localization/ContentLocalizationManager.cs:53-58 | the six AddFunction calls in order; the table gains exactly those entries |
| Registration.ContentLocalizationManager.ServerLanguageChanged | Content.Shared/Localization/ContentLocalizationManager.cs:44 | before subscription the engine is untouched; after it, the new language is loaded, registered and made the default; the fallback never changes |
| Registration.StartupScenario | Content.Shared/Localization/ContentLocalizationManager.cs:24-62 | after start-up with the default configuration, templates resolve MANY and MAKEPLURAL to the Portuguese variants, and en-US keeps the English MANY |
| Registration.EnglishSelectedScenario | Content.Shared/Localization/ContentLocalizationManager.cs:47-62 | selecting en-US gives the fallback culture the Portuguese MANY and MAKEPLURAL, and the fallback stays en-US |

## Left out

- FormatToString, FormatLoc and FormatDirection are not modelled. They delegate to `IFormattable.ToString` and to `Loc.GetString`, which are foreign code. Their registrations are kept as the tags `ToStringIn(culture)` and `LocLookup`.
- The localization engine (`ILocalizationManager`) is not part of this model. `LocEngine` assumes four things:
  - loading a culture adds it to a set;
  - `AddFunction` sets one table entry of a loaded culture;
  - `ReloadLocalizations` only counts;
  - a template looks a function up in the default culture first and then in the fallback (`Resolve`).
- Fluent template expansion and message catalogs are not modelled.
- The culture's numeric rendering (`NumberFormatInfo`, `"{0:N}"`, grouping) is left out. It is the parameter `render`, and the decimal separator is the parameter `separator`.
- Numbers are `real`, not IEEE doubles: `Math.Floor` is the real floor, and multiplying by 100 is exact.
- Plural.FormatMany: the threshold `0.0001f` is the exact rational 1/10000, not the single-precision value.
- `new CultureInfo(tag)` is modelled as the tag string. Tag validation, normalization and the exception for an unknown tag are not modelled.
- The configuration subscription (`OnValueChanged` with immediate invocation) is modelled by a `subscribed` flag and the immediate call. `ServerLanguageChanged` stands for each later notification. The configuration manager itself is not modelled.
- Registration.ContentLocalizationManager.Initialize requires `!subscribed`: it covers a single call, as at start-up. A second call would subscribe twice, and that is not modelled.
- The `TimeSpanMinutesFormats` constant is data that no modelled operation uses.
- Bootstrap, dependency injection and UI code (the entry points, the IoC registration, the main menu) are outside the core.
- Registration.LocEngine.AddFunction: the engine's real `AddFunction` is not visible. The contract states the assumed "set this entry" behaviour, not whatever the engine does on a duplicate name.

## Findings

| source | as written | input that shows it | evidently intended | confidence | as-written member | corrected member |
|---|---|---|---|---|---|---|
| Content.Shared/Localization/ContentLocalizationManager.cs:189 | the output of `"{0:N}"` is trimmed by `TrimEnd('0')` and then `TrimEnd(separator)`, whether or not a decimal separator was rendered | NATURALFIXED(100, 0): the culture renders "100", which trims to "1" (and "1,000" trims to "1,"); line 180 does the same for NATURALPERCENT | trim only a fractional part, so "100" stays "100" | not executed | Natural.TrimCutsIntegerZeros | Natural.NaturalTrimIntended |
| Content.Shared/Localization/ContentLocalizationManager.cs:53-54 | `OnCultureUpdate` registers the Portuguese MAKEPLURAL and MANY for the configured culture, even when that culture is en-US | `loc.server_language` set to "en-US": en-US's MANY becomes the Portuguese variant, so English text such as "item" pluralizes to "itens" | the comment at lines 32-36 says the English functions must not be modified, so en-US keeps the MAKEPLURAL and MANY of lines 41-42 | not executed | Registration.EnglishUpdateOverwritesFallback | Registration.WithCultureFunctionsIntended |

`Natural.NaturalTrim` is the trim as written. `Natural.NaturalTrimIntended` is the corrected one, and `Natural.IntendedTrimKeepsIntegerPart` proves that it keeps the integer part. `FormatNaturalFixed` and `FormatNaturalPercent` model the source's lines and so use the as-written trim. The two trims agree whenever a separator was rendered.

`Registration.WithCultureFunctions` is the registration as written, and `ContentLocalizationManager.OnCultureUpdate` models the source's lines with it; `Registration.EnglishSelectedScenario` shows its effect on a running manager. `Registration.WithCultureFunctionsIntended` is the corrected registration, and `Registration.IntendedUpdateKeepsEnglish` proves that en-US keeps its English MAKEPLURAL and MANY under it.
