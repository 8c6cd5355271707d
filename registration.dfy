/**
 * The culture-registration protocol of ContentLocalizationManager.Initialize and
 * OnCultureUpdate, over the part of the localization engine's state it drives.
 */
module Registration {
  import opened LocValues

  /** A culture, identified by its locale tag. */
  type Culture = string

  const EnUs: Culture := "en-US"

  /** Default value of the `loc.server_language` configuration variable. */
  const DefaultServerLanguage: Culture := "pt-BR"

  /** The function a registration installs under a name. */
  datatype Builtin =
    | MakePluralDefault            // FormatMakePlural
    | MakePluralCustom             // FormatMakePluralCustom
    | Many(isFallback: bool)       // args => FormatMany(args, isFallback)
    | ToStringIn(culture: Culture) // args => FormatToString(culture, args)
    | LocLookup                    // FormatLoc
    | NaturalFixed                 // FormatNaturalFixed
    | NaturalPercent               // FormatNaturalPercent

  /** A call into the localization engine. */
  datatype EngineCall =
    | InitializeEngine
    | Load(culture: Culture)
    | SetFallback(culture: Culture)
    | Add(culture: Culture, name: string, builtin: Builtin)
    | SetDefault(culture: Culture)
    | Reload

  type FunctionTable = map<(Culture, string), Builtin>

  /** A call log followed by the six registrations OnCultureUpdate makes for a culture, in order. */
  function AfterCultureRegistrations(log: seq<EngineCall>, c: Culture): (r: seq<EngineCall>)
  {
    log + [Add(c, "MAKEPLURAL", MakePluralCustom)] + [Add(c, "MANY", Many(false))] + [Add(c, "TOSTRING", ToStringIn(c))]
      + [Add(c, "LOC", LocLookup)] + [Add(c, "NATURALFIXED", NaturalFixed)] + [Add(c, "NATURALPERCENT", NaturalPercent)]
  }

  /** The function table after the same six registrations. */
  function WithCultureFunctions(t: FunctionTable, c: Culture): (r: FunctionTable)
  {
    t[(c, "MAKEPLURAL") := MakePluralCustom][(c, "MANY") := Many(false)][(c, "TOSTRING") := ToStringIn(c)]
     [(c, "LOC") := LocLookup][(c, "NATURALFIXED") := NaturalFixed][(c, "NATURALPERCENT") := NaturalPercent]
  }

  /** The function table after Initialize gives en-US the English MAKEPLURAL and MANY. */
  function WithEnglishFunctions(t: FunctionTable): (r: FunctionTable)
  {
    t[(EnUs, "MAKEPLURAL") := MakePluralDefault][(EnUs, "MANY") := Many(true)]
  }

  /** A call log followed by the calls Initialize makes before it subscribes, for configured culture c. */
  function AfterEnglishSetup(log: seq<EngineCall>, c: Culture): (r: seq<EngineCall>)
  {
    log + [InitializeEngine] + [Load(c)] + [Load(EnUs)] + [SetFallback(EnUs)]
      + [Add(EnUs, "MAKEPLURAL", MakePluralDefault)] + [Add(EnUs, "MANY", Many(true))]
  }

  /** A call log followed by the calls OnCultureUpdate makes for c; `loaded`: whether the engine had c. */
  function AfterCultureUpdate(log: seq<EngineCall>, c: Culture, loaded: bool): (r: seq<EngineCall>)
  {
    AfterCultureRegistrations(log + (if loaded then [] else [Load(c)]), c) + [SetDefault(c)] + [Reload]
  }

  /** The culture carries every function OnCultureUpdate registers. */
  predicate HasCultureFunctions(t: FunctionTable, c: Culture) {
    (c, "MAKEPLURAL") in t && (c, "MANY") in t && (c, "TOSTRING") in t
    && (c, "LOC") in t && (c, "NATURALFIXED") in t && (c, "NATURALPERCENT") in t
  }

  /** The English MANY variant is installed only as en-US's MANY. */
  predicate FallbackManyOnlyForEnUs(t: FunctionTable) {
    forall k :: k in t && t[k] == Many(true) ==> k == (EnUs, "MANY")
  }

  /**
   * The registrations for c give c the six culture functions, leave every other
   * culture's entries alone, and never install the English MANY.
   */
  lemma CultureFunctionsInstalled(t: FunctionTable, c: Culture)
    ensures var r := WithCultureFunctions(t, c);
      && r.Keys == t.Keys + {(c, "MAKEPLURAL"), (c, "MANY"), (c, "TOSTRING"), (c, "LOC"), (c, "NATURALFIXED"), (c, "NATURALPERCENT")}
      && r[(c, "MAKEPLURAL")] == MakePluralCustom && r[(c, "MANY")] == Many(false)
      && r[(c, "TOSTRING")] == ToStringIn(c) && r[(c, "LOC")] == LocLookup
      && r[(c, "NATURALFIXED")] == NaturalFixed && r[(c, "NATURALPERCENT")] == NaturalPercent
      && (forall k :: k in t && k.0 != c ==> r[k] == t[k])
      && HasCultureFunctions(r, c)
      && (FallbackManyOnlyForEnUs(t) ==> FallbackManyOnlyForEnUs(r))
  {
  }

  /** Selecting the same culture again leaves the function table as it was. */
  lemma CultureFunctionsIdempotent(t: FunctionTable, c: Culture)
    ensures WithCultureFunctions(WithCultureFunctions(t, c), c) == WithCultureFunctions(t, c)
  {
  }

  /**
   * As written, registering the culture functions for en-US itself replaces the
   * English MAKEPLURAL and MANY with the Portuguese variants.
   */
  lemma EnglishUpdateOverwritesFallback(t: FunctionTable)
    ensures WithCultureFunctions(t, EnUs)[(EnUs, "MAKEPLURAL")] == MakePluralCustom
    ensures WithCultureFunctions(t, EnUs)[(EnUs, "MANY")] == Many(false)
    ensures WithEnglishFunctions(t)[(EnUs, "MANY")] == Many(true)
  {
    CultureFunctionsInstalled(t, EnUs);
  }

  /**
   * The evidently intended registrations: the Portuguese MAKEPLURAL and MANY go to
   * every culture but en-US, whose English functions stay in place; the other four
   * functions are registered for every culture.
   */
  function WithCultureFunctionsIntended(t: FunctionTable, c: Culture): (r: FunctionTable)
    ensures c != EnUs ==> r == WithCultureFunctions(t, c)
    ensures r.Keys == t.Keys + {(c, "TOSTRING"), (c, "LOC"), (c, "NATURALFIXED"), (c, "NATURALPERCENT")}
                     + (if c == EnUs then {} else {(c, "MAKEPLURAL"), (c, "MANY")})
  {
    var u := if c == EnUs then t else t[(c, "MAKEPLURAL") := MakePluralCustom][(c, "MANY") := Many(false)];
    u[(c, "TOSTRING") := ToStringIn(c)][(c, "LOC") := LocLookup]
     [(c, "NATURALFIXED") := NaturalFixed][(c, "NATURALPERCENT") := NaturalPercent]
  }

  /**
   * Under the intended registrations en-US keeps whatever MAKEPLURAL and MANY it had,
   * whichever culture is selected, and the English MANY stays en-US's alone.
   */
  lemma IntendedUpdateKeepsEnglish(t: FunctionTable, c: Culture)
    ensures var r := WithCultureFunctionsIntended(t, c);
      && ((EnUs, "MAKEPLURAL") in t ==> r[(EnUs, "MAKEPLURAL")] == t[(EnUs, "MAKEPLURAL")])
      && ((EnUs, "MANY") in t ==> r[(EnUs, "MANY")] == t[(EnUs, "MANY")])
      && (FallbackManyOnlyForEnUs(t) ==> FallbackManyOnlyForEnUs(r))
  {
    if c != EnUs {
      CultureFunctionsInstalled(t, c);
    }
  }

  /**
   * The function a template calls under `name`: the default culture's entry, or
   * else the fallback culture's (the engine's lookup order, assumed here).
   */
  function Resolve(t: FunctionTable, defaultCulture: Option<Culture>, fallback: Option<Culture>, name: string): (r: Option<Builtin>)
    ensures r.Some? <==>
      (defaultCulture.Some? && (defaultCulture.value, name) in t) || (fallback.Some? && (fallback.value, name) in t)
    ensures defaultCulture.Some? && (defaultCulture.value, name) in t ==> r == Some(t[(defaultCulture.value, name)])
    ensures !(defaultCulture.Some? && (defaultCulture.value, name) in t) && r.Some? ==> r == Some(t[(fallback.value, name)])
  {
    if defaultCulture.Some? && (defaultCulture.value, name) in t then Some(t[(defaultCulture.value, name)])
    else if fallback.Some? && (fallback.value, name) in t then Some(t[(fallback.value, name)])
    else None
  }

  /**
   * Once a culture's functions are registered and it is the default culture, its
   * templates call the Portuguese MAKEPLURAL and MANY, whatever the fallback holds.
   */
  lemma SwitchedCultureResolvesCustom(t: FunctionTable, c: Culture, fallback: Option<Culture>)
    ensures Resolve(WithCultureFunctions(t, c), Some(c), fallback, "MAKEPLURAL") == Some(MakePluralCustom)
    ensures Resolve(WithCultureFunctions(t, c), Some(c), fallback, "MANY") == Some(Many(false))
  {
    CultureFunctionsInstalled(t, c);
  }

  /**
   * The state of the localization engine (ILocalizationManager) that the content
   * manager changes. Its code is not part of this model: loading a culture is taken
   * to be idempotent and AddFunction to set one table entry.
   */
  class LocEngine {
    var initialized: bool
    var loaded: set<Culture>
    var fallback: Option<Culture>
    var defaultCulture: Option<Culture>
    var functions: FunctionTable
    var reloads: nat
    /** Every call made into the engine, oldest first. */
    ghost var trace: seq<EngineCall>

    /** Functions, the fallback and the default culture belong to loaded cultures. */
    ghost predicate Valid()
      reads this
    {
      && (forall k :: k in functions ==> k.0 in loaded)
      && (fallback.Some? ==> fallback.value in loaded)
      && (defaultCulture.Some? ==> defaultCulture.value in loaded)
    }

    constructor ()
      ensures Valid() && !initialized && loaded == {} && fallback == None && defaultCulture == None
      ensures functions == map[] && reloads == 0 && trace == []
    {
      initialized, loaded, fallback, defaultCulture := false, {}, None, None;
      functions, reloads, trace := map[], 0, [];
    }

    predicate HasCulture(c: Culture)
      reads this
    {
      c in loaded
    }

    method Initialize()
      modifies this
      ensures initialized
      ensures loaded == old(loaded) && fallback == old(fallback) && defaultCulture == old(defaultCulture)
      ensures functions == old(functions) && reloads == old(reloads)
      ensures trace == old(trace) + [InitializeEngine]
      ensures old(Valid()) ==> Valid()
    {
      initialized := true;
      trace := trace + [InitializeEngine];
    }

    method LoadCulture(c: Culture)
      modifies this
      ensures loaded == old(loaded) + {c}
      ensures initialized == old(initialized) && fallback == old(fallback) && defaultCulture == old(defaultCulture)
      ensures functions == old(functions) && reloads == old(reloads)
      ensures trace == old(trace) + [Load(c)]
      ensures old(Valid()) ==> Valid()
    {
      loaded := loaded + {c};
      trace := trace + [Load(c)];
    }

    method SetFallbackCulture(c: Culture)
      requires c in loaded
      modifies this
      ensures fallback == Some(c)
      ensures initialized == old(initialized) && loaded == old(loaded) && defaultCulture == old(defaultCulture)
      ensures functions == old(functions) && reloads == old(reloads)
      ensures trace == old(trace) + [SetFallback(c)]
      ensures old(Valid()) ==> Valid()
    {
      fallback := Some(c);
      trace := trace + [SetFallback(c)];
    }

    method AddFunction(c: Culture, name: string, f: Builtin)
      requires c in loaded
      modifies this
      ensures functions == old(functions)[(c, name) := f]
      ensures f != Many(true) && FallbackManyOnlyForEnUs(old(functions)) ==> FallbackManyOnlyForEnUs(functions)
      ensures initialized == old(initialized) && loaded == old(loaded) && fallback == old(fallback)
      ensures defaultCulture == old(defaultCulture) && reloads == old(reloads)
      ensures trace == old(trace) + [Add(c, name, f)]
      ensures old(Valid()) ==> Valid()
    {
      functions := functions[(c, name) := f];
      trace := trace + [Add(c, name, f)];
    }

    method SetDefaultCulture(c: Culture)
      requires c in loaded
      modifies this
      ensures defaultCulture == Some(c)
      ensures initialized == old(initialized) && loaded == old(loaded) && fallback == old(fallback)
      ensures functions == old(functions) && reloads == old(reloads)
      ensures trace == old(trace) + [SetDefault(c)]
      ensures old(Valid()) ==> Valid()
    {
      defaultCulture := Some(c);
      trace := trace + [SetDefault(c)];
    }

    method ReloadLocalizations()
      requires initialized
      modifies this
      ensures reloads == old(reloads) + 1
      ensures initialized == old(initialized) && loaded == old(loaded) && fallback == old(fallback)
      ensures defaultCulture == old(defaultCulture) && functions == old(functions)
      ensures trace == old(trace) + [Reload]
      ensures old(Valid()) ==> Valid()
    {
      reloads := reloads + 1;
      trace := trace + [Reload];
    }
  }

  /** ContentLocalizationManager, with the `loc.server_language` configuration value it reads. */
  class ContentLocalizationManager {
    const loc: LocEngine
    var serverLanguage: Culture
    /** Whether Initialize has subscribed OnCultureUpdate to changes of `serverLanguage`. */
    var subscribed: bool

    /**
     * Once initialized: en-US is loaded and is the fallback, the configured culture is
     * loaded, is the default one and carries the six culture functions, and en-US
     * carries MAKEPLURAL and MANY. At all times the English MANY is en-US's alone.
     */
    ghost predicate Valid()
      reads this, loc
    {
      && loc.Valid()
      && FallbackManyOnlyForEnUs(loc.functions)
      && (subscribed ==>
            && loc.initialized
            && loc.fallback == Some(EnUs) && EnUs in loc.loaded
            && serverLanguage in loc.loaded && loc.defaultCulture == Some(serverLanguage)
            && HasCultureFunctions(loc.functions, serverLanguage)
            && (EnUs, "MAKEPLURAL") in loc.functions && (EnUs, "MANY") in loc.functions)
    }

    constructor (loc: LocEngine)
      requires loc.Valid() && FallbackManyOnlyForEnUs(loc.functions)
      ensures Valid() && this.loc == loc && serverLanguage == DefaultServerLanguage && !subscribed
    {
      this.loc := loc;
      serverLanguage := DefaultServerLanguage;
      subscribed := false;
    }

    /**
     * Initialize: loads the configured culture and en-US, makes en-US the fallback with
     * the English MAKEPLURAL and MANY, then subscribes OnCultureUpdate to the
     * configuration, which runs it at once for the configured culture.
     */
    method Initialize()
      requires Valid() && !subscribed
      modifies this, loc
      ensures Valid() && subscribed && serverLanguage == old(serverLanguage)
      ensures loc.initialized && loc.fallback == Some(EnUs)
      ensures loc.loaded == old(loc.loaded) + {serverLanguage, EnUs}
      ensures loc.defaultCulture == Some(serverLanguage)
      ensures loc.functions == WithCultureFunctions(WithEnglishFunctions(old(loc.functions)), serverLanguage)
      ensures loc.reloads == old(loc.reloads) + 1
      ensures loc.trace == AfterCultureUpdate(AfterEnglishSetup(old(loc.trace), serverLanguage), serverLanguage, true)
    {
      PrepareEngine(serverLanguage);
      subscribed := true;
      OnCultureUpdate(serverLanguage);
    }

    /**
     * The part of Initialize before the subscription: initializes the engine, loads
     * the configured culture and en-US, makes en-US the fallback and gives it the
     * English MAKEPLURAL and MANY.
     */
    method PrepareEngine(culture: Culture)
      requires loc.Valid() && FallbackManyOnlyForEnUs(loc.functions)
      modifies loc
      ensures loc.Valid() && FallbackManyOnlyForEnUs(loc.functions)
      ensures loc.initialized && loc.fallback == Some(EnUs)
      ensures loc.loaded == old(loc.loaded) + {culture, EnUs}
      ensures loc.functions == WithEnglishFunctions(old(loc.functions))
      ensures loc.defaultCulture == old(loc.defaultCulture) && loc.reloads == old(loc.reloads)
      ensures loc.trace == AfterEnglishSetup(old(loc.trace), culture)
    {
      loc.Initialize();
      loc.LoadCulture(culture);
      loc.LoadCulture(EnUs);
      loc.SetFallbackCulture(EnUs);
      loc.AddFunction(EnUs, "MAKEPLURAL", MakePluralDefault);
      loc.AddFunction(EnUs, "MANY", Many(true));
    }

    /**
     * OnCultureUpdate: loads the culture unless it already is, registers the six
     * culture functions for it, makes it the default culture and reloads.
     */
    method OnCultureUpdate(value: Culture)
      requires loc.Valid() && loc.initialized && FallbackManyOnlyForEnUs(loc.functions)
      modifies loc
      ensures loc.Valid() && loc.initialized && FallbackManyOnlyForEnUs(loc.functions)
      ensures loc.loaded == old(loc.loaded) + {value}
      ensures loc.fallback == old(loc.fallback)
      ensures loc.defaultCulture == Some(value)
      ensures loc.functions == WithCultureFunctions(old(loc.functions), value)
      ensures HasCultureFunctions(loc.functions, value) && old(loc.functions).Keys <= loc.functions.Keys
      ensures loc.reloads == old(loc.reloads) + 1
      ensures loc.trace == AfterCultureUpdate(old(loc.trace), value, value in old(loc.loaded))
    {
      var culture := value;
      LoadIfMissing(culture);
      RegisterCultureFunctions(culture);
      loc.SetDefaultCulture(culture);
      loc.ReloadLocalizations();
    }

    /** The first step of OnCultureUpdate: the culture is loaded unless the engine has it. */
    method LoadIfMissing(culture: Culture)
      modifies loc
      ensures loc.loaded == old(loc.loaded) + {culture}
      ensures loc.initialized == old(loc.initialized) && loc.fallback == old(loc.fallback)
      ensures loc.defaultCulture == old(loc.defaultCulture)
      ensures loc.functions == old(loc.functions) && loc.reloads == old(loc.reloads)
      ensures loc.trace == old(loc.trace) + (if culture in old(loc.loaded) then [] else [Load(culture)])
      ensures old(loc.Valid()) ==> loc.Valid()
    {
      if !loc.HasCulture(culture) {
        loc.LoadCulture(culture);
      }
    }

    /** The six AddFunction calls of OnCultureUpdate. */
    method RegisterCultureFunctions(culture: Culture)
      requires culture in loc.loaded
      modifies loc
      ensures loc.functions == WithCultureFunctions(old(loc.functions), culture)
      ensures FallbackManyOnlyForEnUs(old(loc.functions)) ==> FallbackManyOnlyForEnUs(loc.functions)
      ensures old(loc.Valid()) ==> loc.Valid()
      ensures loc.initialized == old(loc.initialized) && loc.loaded == old(loc.loaded)
      ensures loc.fallback == old(loc.fallback) && loc.defaultCulture == old(loc.defaultCulture)
      ensures loc.reloads == old(loc.reloads)
      ensures loc.trace == AfterCultureRegistrations(old(loc.trace), culture)
    {
      loc.AddFunction(culture, "MAKEPLURAL", MakePluralCustom);
      loc.AddFunction(culture, "MANY", Many(false));
      loc.AddFunction(culture, "TOSTRING", ToStringIn(culture));
      loc.AddFunction(culture, "LOC", LocLookup);
      loc.AddFunction(culture, "NATURALFIXED", NaturalFixed);
      loc.AddFunction(culture, "NATURALPERCENT", NaturalPercent);
    }

    /**
     * The configuration reports a new `loc.server_language`: once subscribed,
     * OnCultureUpdate runs for it; the fallback never changes.
     */
    method ServerLanguageChanged(value: Culture)
      requires Valid()
      modifies this, loc
      ensures Valid() && serverLanguage == value && subscribed == old(subscribed)
      ensures !subscribed ==> unchanged(loc)
      ensures loc.fallback == old(loc.fallback)
      ensures subscribed ==>
        && loc.loaded == old(loc.loaded) + {value}
        && loc.defaultCulture == Some(value)
        && loc.functions == WithCultureFunctions(old(loc.functions), value)
        && loc.reloads == old(loc.reloads) + 1
    {
      serverLanguage := value;
      if subscribed {
        OnCultureUpdate(value);
      }
    }
  }

  /**
   * Start-up with the default configuration: pt-BR becomes the default culture, its
   * templates resolve MANY and MAKEPLURAL to the Portuguese variants, and en-US, the
   * fallback, keeps the English ones.
   */
  method StartupScenario() returns (many: Option<Builtin>, plural: Option<Builtin>, englishMany: Builtin)
    ensures many == Some(Many(false)) && plural == Some(MakePluralCustom)
    ensures englishMany == Many(true)
  {
    var engine := new LocEngine();
    var content := new ContentLocalizationManager(engine);
    content.Initialize();
    ghost var english := WithEnglishFunctions(map[]);
    SwitchedCultureResolvesCustom(english, DefaultServerLanguage, engine.fallback);
    CultureFunctionsInstalled(english, DefaultServerLanguage);
    many := Resolve(engine.functions, engine.defaultCulture, engine.fallback, "MANY");
    plural := Resolve(engine.functions, engine.defaultCulture, engine.fallback, "MAKEPLURAL");
    englishMany := engine.functions[(EnUs, "MANY")];
  }

  /**
   * Selecting en-US as the server language re-registers the culture functions for
   * en-US itself: the fallback culture's MANY becomes the Portuguese-rule variant.
   */
  method EnglishSelectedScenario() returns (englishMany: Builtin, englishPlural: Builtin, fallback: Option<Culture>)
    ensures englishMany == Many(false) && englishPlural == MakePluralCustom
    ensures fallback == Some(EnUs)
  {
    var engine := new LocEngine();
    var content := new ContentLocalizationManager(engine);
    content.Initialize();
    ghost var before := engine.functions;
    content.ServerLanguageChanged(EnUs);
    CultureFunctionsInstalled(before, EnUs);
    englishMany := engine.functions[(EnUs, "MANY")];
    englishPlural := engine.functions[(EnUs, "MAKEPLURAL")];
    fallback := engine.fallback;
  }
}
