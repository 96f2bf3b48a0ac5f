/**
 * The runtime helpers compiled messages call, from
 * src/server/view/modules/intl/index.js: value coercion (`__interpolate`),
 * option lookup for `select` and `plural` (`__select`, `__plural`,
 * `__offsetPlural`), the formatter requests behind `__number`, `__date` and
 * `__time`, the positional `format` entry point, the memoiser shared by the
 * `Intl` getters, and the module-level current locale.
 *
 * `Intl.PluralRules` is a parameter `rules` from the current locale and the
 * number to a category; what `Intl.NumberFormat` and `Intl.DateTimeFormat`
 * print is not modelled, only the arguments they are built from.
 */
module Runtime {
  import opened Js
  import opened IntlKeys
  import opened Order
  import opened JsAst

  // ---------------------------------------------------------------------------
  // The current locale.
  // ---------------------------------------------------------------------------

  /** The module-level `locale`, read by every formatting helper. */
  class LocaleCell {
    var locale: Option<string>

    /** The module is loaded with `locale = null`. */
    constructor()
      ensures locale == None
    {
      locale := None;
    }

    /** `setCurrentLocale(newLocale)`; `None` stands for `null`. */
    method SetCurrentLocale(newLocale: Option<string>)
      modifies this
      ensures locale == newLocale
    {
      locale := newLocale;
    }

    /** `getCurrentLocale()`: the value last set, `None` before any. */
    method GetCurrentLocale() returns (l: Option<string>)
      ensures l == locale
    {
      l := locale;
    }
  }

  // ---------------------------------------------------------------------------
  // `__interpolate`.
  // ---------------------------------------------------------------------------

  /** `value === 0 ? 0 : value || ""`: zero survives, every other falsy value becomes the empty string. */
  function Interpolate(value: JsValue): (r: JsValue)
    ensures value == Number(0) ==> r == Number(0)
    ensures value != Number(0) && !Truthy(value) ==> r == Str("")
    ensures Truthy(value) ==> r == value
  {
    if value == Number(0) then Number(0) else Or(value, Str(""))
  }

  /** What a placeholder shows is never `undefined`, `null`, `false` or `NaN`, and coercing it again changes nothing. */
  lemma InterpolateSettles(value: JsValue)
    ensures var r := Interpolate(value);
            (Truthy(r) || r == Number(0) || r == Str(""))
            && Interpolate(r) == r
  {
  }

  // ---------------------------------------------------------------------------
  // Option lookup.
  // ---------------------------------------------------------------------------

  /** The options object a `select` or `plural` helper receives, by property key. */
  type Opts = map<string, JsValue>

  /** `opts[key]`; an absent property reads as `undefined`. */
  function Get(opts: Opts, key: string): (r: JsValue)
    ensures key !in opts ==> r == Undefined
    ensures key in opts ==> r == opts[key]
  {
    if key in opts then opts[key] else Undefined
  }

  /** The property key the compiler gives an option whose key normalised to `k`. */
  function PropertyName(k: PropKey): (r: string)
    ensures k.NumKey? ==> r == DecimalString(k.n)
    ensures k.NameKey? ==> r == k.name
  {
    match k
    case NumKey(n) => DecimalString(n)
    case NameKey(s) => s
  }

  /** `key === "other" ? "h" : key[0]` for the category `pluralRules.select` gave. */
  function LocalPluralKey(c: Category): (r: string)
    ensures |r| == 1
  {
    if c == Other then "h" else [CategoryName(c)[0]]
  }

  /**
   * The runtime abbreviation agrees with the compile-time table
   * `PLURAL_ABBREVIATIONS` for all six categories, so an option written
   * `one {...}` is found under the key `getLocalPluralFor` computes.
   */
  lemma AbbreviationsAgree(c: Category)
    ensures PluralAbbreviation(CategoryName(c)) == Some(LocalPluralKey(c))
    ensures NormalizePluralKey(CategoryName(c)) == NameKey(LocalPluralKey(c))
  {
    CategoryKeysAbbreviated(c);
  }

  /** Distinct categories look up distinct options. */
  lemma LocalPluralKeysDistinct(c: Category, d: Category)
    requires c != d
    ensures LocalPluralKey(c) != LocalPluralKey(d)
  {
  }

  /** `new Intl.PluralRules(locale).select(n)` for a locale that has been set: a category for the locale and the number. */
  type PluralRules = (string, JsValue) -> Category

  /**
   * What the `Intl` constructors throw for the locale `null`: the locale
   * list is converted to an object, and `null` cannot be.
   */
  const NullLocaleError: string := "TypeError: Cannot convert undefined or null to object"

  /**
   * `getLocalPluralFor(v)`: the one-letter key of the category of `v` in the
   * current locale. While the locale is still `null`, `getPluralRules(null)`
   * throws.
   */
  function LocalPluralFor(rules: PluralRules, locale: Option<string>, v: JsValue): (r: Result<string>)
    ensures r.Failure? <==> locale.None?
    ensures r.Ok? ==> |r.value| == 1 && PluralAbbreviation(CategoryName(rules(locale.value, v))) == Some(r.value)
  {
    if locale.None? then Failure(NullLocaleError)
    else
      AbbreviationsAgree(rules(locale.value, v));
      Ok(LocalPluralKey(rules(locale.value, v)))
  }

  /** `value - offset` for an integer offset; `null` and booleans count as 0 and 1, other non-numbers give NaN. */
  function Subtract(value: JsValue, offset: int): (r: JsValue)
    ensures value.Number? ==> r == Number(value.n - offset)
    ensures offset == 0 && value.Number? ==> r == value
  {
    match value
    case Number(n) => Number(n - offset)
    case Null => Number(-offset)
    case Bool(b) => Number((if b then 1 else 0) - offset)
    case _ => NaN
  }

  /**
   * `__plural(value, opts)`: the option keyed by the value itself if it is
   * truthy; otherwise the category of the value is computed, which throws
   * while the locale is `null`, and its option is taken if truthy, else `""`.
   */
  function Plural(rules: PluralRules, locale: Option<string>, value: JsValue, opts: Opts): (r: Result<JsValue>)
    ensures var exact := Get(opts, ToPropertyKey(value));
            && (Truthy(exact) ==> r == Ok(exact))
            && (!Truthy(exact) && locale.None? ==> r == Failure(NullLocaleError))
            && (!Truthy(exact) && locale.Some? ==>
                  var byCategory := Get(opts, LocalPluralKey(rules(locale.value, value)));
                  && (Truthy(byCategory) ==> r == Ok(byCategory))
                  && (!Truthy(byCategory) ==> r == Ok(Str(""))))
  {
    var exact := Get(opts, ToPropertyKey(value));
    if Truthy(exact) then Ok(exact)
    else
      match LocalPluralFor(rules, locale, value)
      case Failure(e) => Failure(e)
      case Ok(key) => Ok(Or(Get(opts, key), Str("")))
  }

  /**
   * `__offsetPlural(value, offset, opts)`: as `__plural`, but while the
   * exact match is looked up with the raw value, the category is computed
   * for `value - offset`.
   */
  function OffsetPlural(rules: PluralRules, locale: Option<string>, value: JsValue, offset: int, opts: Opts): (r: Result<JsValue>)
    ensures var exact := Get(opts, ToPropertyKey(value));
            && (Truthy(exact) ==> r == Ok(exact))
            && (!Truthy(exact) && locale.None? ==> r == Failure(NullLocaleError))
            && (!Truthy(exact) && locale.Some? ==>
                  var byCategory := Get(opts, LocalPluralKey(rules(locale.value, Subtract(value, offset))));
                  && (Truthy(byCategory) ==> r == Ok(byCategory))
                  && (!Truthy(byCategory) ==> r == Ok(Str(""))))
  {
    var exact := Get(opts, ToPropertyKey(value));
    if Truthy(exact) then Ok(exact)
    else
      match LocalPluralFor(rules, locale, Subtract(value, offset))
      case Failure(e) => Failure(e)
      case Ok(key) => Ok(Or(Get(opts, key), Str("")))
  }

  /**
   * A plural helper answers a truthy option or `""`, never `undefined`, and
   * it throws exactly when the value has no truthy exact option while the
   * locale is still `null`.
   */
  lemma PluralTotal(rules: PluralRules, locale: Option<string>, value: JsValue, offset: int, opts: Opts)
    ensures var r := Plural(rules, locale, value, opts);
            && (r.Ok? ==> Truthy(r.value) || r.value == Str(""))
            && (r.Failure? <==> locale.None? && !Truthy(Get(opts, ToPropertyKey(value))))
    ensures var r := OffsetPlural(rules, locale, value, offset, opts);
            && (r.Ok? ==> Truthy(r.value) || r.value == Str(""))
            && (r.Failure? <==> locale.None? && !Truthy(Get(opts, ToPropertyKey(value))))
  {
  }

  /** Before `setCurrentLocale`, `__plural(5, { o: "x" })` throws: 5 has no exact option, so the plural rules of `null` are built. */
  lemma PluralBeforeLocaleThrows(rules: PluralRules)
    ensures Plural(rules, None, Number(5), map["o" := Str("x")]) == Failure(NullLocaleError)
  {
    assert ToPropertyKey(Number(5)) == "5";
  }

  /** On a number, an offset of zero makes `__offsetPlural` behave as `__plural`. */
  lemma ZeroOffsetIsPlural(rules: PluralRules, locale: Option<string>, n: int, opts: Opts)
    ensures OffsetPlural(rules, locale, Number(n), 0, opts) == Plural(rules, locale, Number(n), opts)
  {
    assert Subtract(Number(n), 0) == Number(n);
  }

  /** A plural option key (`z o t f m h`) is never the decimal text of a number. */
  lemma CategoryKeyIsNotNumber(c: Category, n: int)
    ensures LocalPluralKey(c) != ToPropertyKey(Number(n))
  {
    var key := ToPropertyKey(Number(n));
    assert key[0] == '-' || IsDigit(key[0]);
  }

  /**
   * With an offset, `=d` options still match the raw value: `{n, plural,
   * offset:1 =1 {a} other {b}}` answers `a` for n = 1 whatever category
   * `n - offset` falls in and whether its option exists, and without
   * building plural rules at all.
   */
  lemma OffsetExactMatchUsesRawValue(rules: PluralRules, locale: Option<string>, offset: int, c: Category, a: JsValue, b: JsValue)
    requires Truthy(a)
    ensures OffsetPlural(rules, locale, Number(1), offset, map["1" := a, LocalPluralKey(c) := b]) == Ok(a)
  {
    assert ToPropertyKey(Number(1)) == "1" by {
      DecimalStringDigit(1, 1);
    }
    CategoryKeyIsNotNumber(c, 1);
  }

  /**
   * With an offset the category is that of `value - offset`: under rules
   * that put 0 in `other`, `{n, plural, offset:1 one{...} other{...}}` with
   * `n = 1` takes the `other` branch, not `one`.
   */
  lemma OffsetCategoryOfShiftedValue(rules: PluralRules, locale: string, first: JsValue, more: JsValue)
    requires Truthy(first) && Truthy(more)
    requires rules(locale, Number(0)) == Other
    ensures OffsetPlural(rules, Some(locale), Number(1), 1, map["o" := first, "h" := more]) == Ok(more)
  {
    var opts := map["o" := first, "h" := more];
    assert Subtract(Number(1), 1) == Number(0);
    assert ToPropertyKey(Number(1)) == "1" by {
      DecimalStringDigit(1, 1);
    }
    assert Get(opts, "1") == Undefined;
  }

  /** `__select(value, opts)`: the option keyed by the value, else `other`, else `""`. */
  function Select(value: JsValue, opts: Opts): (r: JsValue)
    ensures var exact := Get(opts, ToPropertyKey(value));
            && (Truthy(exact) ==> r == exact)
            && (!Truthy(exact) && Truthy(Get(opts, "other")) ==> r == Get(opts, "other"))
            && (!Truthy(exact) && !Truthy(Get(opts, "other")) ==> r == Str(""))
  {
    Or(Or(Get(opts, ToPropertyKey(value)), Get(opts, "other")), Str(""))
  }

  /**
   * `__plural` has no `other` fallback of its own: with options written
   * `one {...} other {...}` (keys `o` and `h`), a number whose category is
   * neither, `few` say, renders `""` and not the `other` text.
   */
  lemma PluralHasNoOtherFallback(rules: PluralRules, locale: string, n: int, one: JsValue, other: JsValue)
    requires rules(locale, Number(n)) != One && rules(locale, Number(n)) != Other
    ensures Plural(rules, Some(locale), Number(n), map["o" := one, "h" := other]) == Ok(Str(""))
  {
    CategoryKeyIsNotNumber(One, n);
    CategoryKeyIsNotNumber(Other, n);
    var key := LocalPluralKey(rules(locale, Number(n)));
    assert key != "o" && key != "h";
  }

  /**
   * An option whose key was written `=d` matches a number exactly when the
   * number is d, for the key the compiler emits and the one the helper reads.
   */
  lemma ExactKeyMatchesNumber(key: string, n: int)
    requires NormalizePluralKey(key).NumKey?
    ensures PropertyName(NormalizePluralKey(key)) == ToPropertyKey(Number(n)) <==> n == NormalizePluralKey(key).n
  {
    NumericKeyIff(key);
    DecimalStringDigit(n, NormalizePluralKey(key).n);
  }

  /**
   * Because only one digit is read, `=10 {ten}` is chosen for 1, under any
   * locale, and not for 10, which finds no option once a locale is set.
   */
  lemma TenSelectsOne(rules: PluralRules, locale: Option<string>, text: JsValue)
    requires Truthy(text)
    ensures var opts := map[PropertyName(NormalizePluralKey("=10")) := text];
            && Plural(rules, locale, Number(1), opts) == Ok(text)
            && (locale.Some? ==> Plural(rules, locale, Number(10), opts) == Ok(Str("")))
  {
    TenKeyIsOne();
    OptionKeyedOne(rules, locale, text);
  }

  /** Options `{ 1: text }`: 1 finds `text`, and 10, once a locale is set, finds nothing. */
  lemma OptionKeyedOne(rules: PluralRules, locale: Option<string>, text: JsValue)
    requires Truthy(text)
    ensures Plural(rules, locale, Number(1), map["1" := text]) == Ok(text)
    ensures locale.Some? ==> Plural(rules, locale, Number(10), map["1" := text]) == Ok(Str(""))
  {
    DecimalStringDigit(1, 1);
    DecimalStringDigit(10, 1);
    assert ToPropertyKey(Number(1)) == "1";
    if locale.Some? {
      CategoryKeyIsNotNumber(rules(locale.value, Number(10)), 1);
    }
  }

  /** The key emitted for `=10` is `"1"`, which 1 looks up and 10 does not. */
  lemma TenKeyIsOne()
    ensures PropertyName(NormalizePluralKey("=10")) == "1"
    ensures ToPropertyKey(Number(1)) == "1" && ToPropertyKey(Number(10)) != "1"
  {
    TenKey();
    DecimalStringDigit(10, 1);
  }

  // ---------------------------------------------------------------------------
  // Number, date and time formatting requests.
  // ---------------------------------------------------------------------------

  /**
   * The argument a memoised `Intl` getter is called with: `{ locale, format }`
   * for numbers, `{ locale, options: { format } }` for dates and times.
   */
  datatype FormatterArg =
    | NumberFormatArg(locale: Option<string>, format: Option<string>)
    | DateTimeFormatArg(locale: Option<string>, optionsFormat: string)

  /** `helper(value)`: the text a formatter built from `arg` prints for `value`. */
  datatype FormatCall = FormatCall(arg: FormatterArg, value: JsValue)

  /** `JSON.stringify` of the locale: a quoted string, or `null`. */
  function LocaleJson(locale: Option<string>): string
  {
    if locale.Some? then JsonQuote(locale.value) else "null"
  }

  /** The members of the argument after `locale`, as `JSON.stringify` writes them; an undefined `format` is omitted. */
  function KeyRest(arg: FormatterArg): string
  {
    match arg
    case NumberFormatArg(_, f) => if f.Some? then ",\"format\":" + JsonQuote(f.value) else ""
    case DateTimeFormatArg(_, f) => ",\"options\":{\"format\":" + JsonQuote(f) + "}"
  }

  /** `JSON.stringify(arg)`, the memo cache key. */
  function CacheKey(arg: FormatterArg): string
  {
    "{\"locale\":" + LocaleJson(arg.locale) + KeyRest(arg) + "}"
  }

  /**
   * Distinct arguments get distinct cache keys, so the cache never hands
   * out a formatter built for another locale or format.
   */
  lemma CacheKeyInjective(a: FormatterArg, b: FormatterArg)
    ensures CacheKey(a) == CacheKey(b) <==> a == b
  {
    if CacheKey(a) == CacheKey(b) {
      CacheKeyDetermines(a, b);
    }
  }

  /** The arguments sharing `a`'s cache key are `a` alone. */
  lemma CacheKeyIdentifies(a: FormatterArg)
    ensures forall b :: CacheKey(b) == CacheKey(a) <==> b == a
  {
    forall b ensures CacheKey(b) == CacheKey(a) <==> b == a {
      CacheKeyInjective(b, a);
    }
  }

  /** The locale's JSON text ends where it ends: `null` and a quoted string split only one way. */
  lemma LocaleJsonSplit(a: Option<string>, b: Option<string>, x: string, y: string)
    requires LocaleJson(a) + x == LocaleJson(b) + y
    ensures a == b && x == y
  {
    assert (LocaleJson(a) + x)[0] == if a.Some? then '"' else 'n';
    assert (LocaleJson(b) + y)[0] == if b.Some? then '"' else 'n';
    if a.Some? {
      JsonQuoteSplit(a.value, b.value, x, y);
    } else {
      CancelPrefix("null", x, y);
    }
  }

  /** The members after `locale` determine the kind of request and its format. */
  lemma KeyRestDetermines(a: FormatterArg, b: FormatterArg)
    requires KeyRest(a) == KeyRest(b) && a.locale == b.locale
    ensures a == b
  {
    var ra := KeyRest(a);
    assert ra == [] <==> a.NumberFormatArg? && a.format.None?;
    assert KeyRest(b) == [] <==> b.NumberFormatArg? && b.format.None?;
    assert ra != [] ==> ra[2] == if a.NumberFormatArg? then 'f' else 'o';
    assert KeyRest(b) != [] ==> KeyRest(b)[2] == if b.NumberFormatArg? then 'f' else 'o';
    if a.NumberFormatArg? && a.format.Some? {
      CancelPrefix(",\"format\":", JsonQuote(a.format.value), JsonQuote(b.format.value));
      JsonQuoteSplit(a.format.value, b.format.value, "", "");
    } else if a.DateTimeFormatArg? {
      var p := ",\"options\":{\"format\":";
      assert ra == p + (JsonQuote(a.optionsFormat) + "}");
      assert KeyRest(b) == p + (JsonQuote(b.optionsFormat) + "}");
      CancelPrefix(p, JsonQuote(a.optionsFormat) + "}", JsonQuote(b.optionsFormat) + "}");
      JsonQuoteSplit(a.optionsFormat, b.optionsFormat, "}", "}");
    }
  }

  lemma Regroup<T>(p: seq<T>, a: seq<T>, b: seq<T>, c: seq<T>)
    ensures p + a + b + c == p + (a + (b + c))
  {
  }

  /** Equal cache keys come from equal arguments. */
  lemma CacheKeyDetermines(a: FormatterArg, b: FormatterArg)
    requires CacheKey(a) == CacheKey(b)
    ensures a == b
  {
    var p := "{\"locale\":";
    Regroup(p, LocaleJson(a.locale), KeyRest(a), "}");
    Regroup(p, LocaleJson(b.locale), KeyRest(b), "}");
    CancelPrefix(p, LocaleJson(a.locale) + (KeyRest(a) + "}"), LocaleJson(b.locale) + (KeyRest(b) + "}"));
    LocaleJsonSplit(a.locale, b.locale, KeyRest(a) + "}", KeyRest(b) + "}");
    assert KeyRest(a) == (KeyRest(a) + "}")[..|KeyRest(a)|];
    assert KeyRest(b) == (KeyRest(b) + "}")[..|KeyRest(b)|];
    KeyRestDetermines(a, b);
  }

  /**
   * `__number(value, format)`: `formatNumber` asks for the formatter of
   * `{ locale, format }`. Another `__number` request shares its cache entry
   * exactly when it has the same locale and format.
   */
  function Number_(locale: Option<string>, value: JsValue, format: Option<string>): (r: FormatCall)
    ensures r.value == value && r.arg.NumberFormatArg?
    ensures forall l, f :: CacheKey(NumberFormatArg(l, f)) == CacheKey(r.arg) <==> l == locale && f == format
  {
    CacheKeyIdentifies(NumberFormatArg(locale, format));
    FormatCall(NumberFormatArg(locale, format), value)
  }

  /**
   * `__date(value, format = "short")`: `formatDate` asks for the formatter of
   * `{ locale, options: { format } }`, with `short` for a missing format.
   * Another date or time request shares its cache entry exactly when it has
   * the same locale and the same format after that default.
   */
  function Date(locale: Option<string>, value: JsValue, format: Option<string>): (r: FormatCall)
    ensures r.arg.DateTimeFormatArg? && r.value == value
    ensures r.arg.optionsFormat == if format.Some? then format.value else "short"
    ensures forall l, f :: CacheKey(DateTimeFormatArg(l, f)) == CacheKey(r.arg) <==> l == locale && f == r.arg.optionsFormat
  {
    CacheKeyIdentifies(DateTimeFormatArg(locale, if format.Some? then format.value else "short"));
    FormatCall(DateTimeFormatArg(locale, if format.Some? then format.value else "short"), value)
  }

  /** `__time(value, format = "short")`: goes through `formatTime`, which builds the same argument as `formatDate`. */
  function Time(locale: Option<string>, value: JsValue, format: Option<string>): (r: FormatCall)
    ensures r.arg.DateTimeFormatArg? && r.arg.locale == locale && r.value == value
    ensures r.arg.optionsFormat == if format.Some? then format.value else "short"
  {
    FormatCall(DateTimeFormatArg(locale, if format.Some? then format.value else "short"), value)
  }

  /**
   * `__time` asks for exactly the formatter `__date` asks for: a time
   * placeholder prints what a date placeholder with the same style prints.
   */
  lemma TimeFormatsAsDate(locale: Option<string>, value: JsValue, format: Option<string>)
    ensures Time(locale, value, format) == Date(locale, value, format)
    ensures Date(locale, value, None) == Date(locale, value, Some("short"))
  {
  }

  // ---------------------------------------------------------------------------
  // The memoiser.
  // ---------------------------------------------------------------------------

  /**
   * `monadicMemoize(fn)`: a cache keyed by `JSON.stringify(arg)`. `filled`
   * records, for each key, the argument whose call stored it, and
   * `invocations` every call of `fn`, oldest first.
   */
  class Memo<A, B> {
    const fn: A -> B
    const key: A -> string
    var cache: map<string, B>
    ghost var filled: map<string, A>
    ghost var invocations: seq<A>

    /** Every cached value is `fn` of an argument with that key, and `fn` ran once per cached key. */
    ghost predicate Valid()
      reads this
    {
      && cache.Keys == filled.Keys
      && (forall k | k in cache :: key(filled[k]) == k && cache[k] == fn(filled[k]))
      && (forall i | 0 <= i < |invocations| :: key(invocations[i]) in cache)
      && (forall i, j | 0 <= i < j < |invocations| :: key(invocations[i]) != key(invocations[j]))
      && |invocations| == |cache|
    }

    constructor(fn: A -> B, key: A -> string)
      ensures Valid()
      ensures this.fn == fn && this.key == key && cache == map[] && invocations == []
    {
      this.fn := fn;
      this.key := key;
      cache := map[];
      filled := map[];
      invocations := [];
    }

    /**
     * `memoizedFn(arg)`: the cached value under `key(arg)` if there is one,
     * which `fn` computed from an argument with the same key; otherwise
     * `fn(arg)`, now cached.
     */
    method Call(arg: A) returns (r: B)
      requires Valid()
      modifies this
      ensures Valid()
      ensures key(arg) in old(cache) ==>
                r == old(cache)[key(arg)] && r == fn(old(filled)[key(arg)])
                && key(old(filled)[key(arg)]) == key(arg)
                && cache == old(cache) && invocations == old(invocations)
      ensures key(arg) !in old(cache) ==>
                r == fn(arg) && cache == old(cache)[key(arg) := r] && invocations == old(invocations) + [arg]
    {
      var k := key(arg);
      if k in cache {
        r := cache[k];
      } else {
        r := fn(arg);
        assert k !in cache.Keys;
        cache := cache[k := r];
        filled := filled[k := arg];
        invocations := invocations + [arg];
      }
    }
  }

  /** A formatter cached under the key of `arg` was built for `arg` itself, since keys are injective. */
  lemma CachedFormatterIsFor<F>(memo: Memo<FormatterArg, F>, arg: FormatterArg)
    requires memo.Valid()
    requires forall a {:trigger CacheKey(a)} :: memo.key(a) == CacheKey(a)
    requires memo.key(arg) in memo.cache
    ensures memo.cache[memo.key(arg)] == memo.fn(arg)
  {
    var k := CacheKey(arg);
    assert memo.key(memo.filled[k]) == k;
    CacheKeyInjective(memo.filled[k], arg);
  }

  /**
   * `formatNumber(value, { format })`, as `__number` calls it, with
   * `getNumberFormat` the memoiser over `new Intl.NumberFormat(locale,
   * format)`; the result is the formatter `.format(value)` is called on.
   * While the locale is `null` the constructor throws, so nothing is cached
   * and the call throws. Otherwise the formatter is the one `fn` builds for
   * exactly this locale and format, whether it comes from the cache or is
   * built now, and `fn` runs only for a request not seen before.
   */
  method FormatNumber<F>(getNumberFormat: Memo<FormatterArg, F>, cell: LocaleCell, value: JsValue, format: Option<string>)
    returns (r: Result<F>)
    requires getNumberFormat.Valid()
    requires forall a {:trigger CacheKey(a)} :: getNumberFormat.key(a) == CacheKey(a)
    modifies getNumberFormat
    ensures getNumberFormat.Valid()
    ensures cell.locale.None? ==> r == Failure(NullLocaleError) && unchanged(getNumberFormat)
    ensures cell.locale.Some? ==>
              var arg := Number_(cell.locale, value, format).arg;
              && r == Ok(getNumberFormat.fn(arg)) && getNumberFormat.key(arg) in getNumberFormat.cache
              && getNumberFormat.invocations
                 == old(getNumberFormat.invocations) + (if getNumberFormat.key(arg) in old(getNumberFormat.cache) then [] else [arg])
  {
    if cell.locale.None? {
      return Failure(NullLocaleError);
    }
    var arg := Number_(cell.locale, value, format).arg;
    if getNumberFormat.key(arg) in getNumberFormat.cache {
      CachedFormatterIsFor(getNumberFormat, arg);
    }
    var formatter := getNumberFormat.Call(arg);
    r := Ok(formatter);
  }

  /**
   * `formatDate(value, { format })`, as `__date` calls it, with
   * `getDateTimeFormat` the memoiser over `new Intl.DateTimeFormat`;
   * `formatTime` is the same code (`TimeFormatsAsDate`). It throws while the
   * locale is `null`, and otherwise uses the formatter built for exactly this
   * locale and format.
   */
  method FormatDate<F>(getDateTimeFormat: Memo<FormatterArg, F>, cell: LocaleCell, value: JsValue, format: Option<string>)
    returns (r: Result<F>)
    requires getDateTimeFormat.Valid()
    requires forall a {:trigger CacheKey(a)} :: getDateTimeFormat.key(a) == CacheKey(a)
    modifies getDateTimeFormat
    ensures getDateTimeFormat.Valid()
    ensures cell.locale.None? ==> r == Failure(NullLocaleError) && unchanged(getDateTimeFormat)
    ensures cell.locale.Some? ==>
              var arg := Date(cell.locale, value, format).arg;
              && r == Ok(getDateTimeFormat.fn(arg)) && getDateTimeFormat.key(arg) in getDateTimeFormat.cache
              && getDateTimeFormat.invocations
                 == old(getDateTimeFormat.invocations) + (if getDateTimeFormat.key(arg) in old(getDateTimeFormat.cache) then [] else [arg])
  {
    if cell.locale.None? {
      return Failure(NullLocaleError);
    }
    var arg := Date(cell.locale, value, format).arg;
    if getDateTimeFormat.key(arg) in getDateTimeFormat.cache {
      CachedFormatterIsFor(getDateTimeFormat, arg);
    }
    var formatter := getDateTimeFormat.Call(arg);
    r := Ok(formatter);
  }

  /**
   * Two `__number` calls with the same locale and format use one formatter:
   * the second finds it in the cache and does not build another.
   */
  method NumberFormatterReused<F>(getNumberFormat: Memo<FormatterArg, F>, cell: LocaleCell, v: JsValue, w: JsValue, format: Option<string>)
    returns (first: Result<F>, second: Result<F>)
    requires getNumberFormat.Valid()
    requires forall a {:trigger CacheKey(a)} :: getNumberFormat.key(a) == CacheKey(a)
    requires cell.locale.Some?
    modifies getNumberFormat
    ensures first.Ok? && first == second
    ensures |getNumberFormat.invocations| <= |old(getNumberFormat.invocations)| + 1
  {
    var arg := NumberFormatArg(cell.locale, format);
    first := FormatNumber(getNumberFormat, cell, v, format);
    assert getNumberFormat.key(arg) in getNumberFormat.cache;
    ghost var between := getNumberFormat.invocations;
    second := FormatNumber(getNumberFormat, cell, w, format);
    assert getNumberFormat.invocations == between;
  }

  // ---------------------------------------------------------------------------
  // `format`.
  // ---------------------------------------------------------------------------

  /** What `format(message, options)` does: return the string, call the function with positional values, or throw. */
  datatype Formatted =
    | Returned(text: string)
    | Invoked(params: seq<string>, body: Expr, args: seq<JsValue>)
    | Threw(error: string)

  /** An `options` object: its `values`, `None` when missing or falsy. */
  datatype FormatOptions = FormatOptions(values: Option<map<string, JsValue>>)

  /** `Object.keys(values || {}).sort()`. */
  function ValueNames(values: Option<map<string, JsValue>>): (r: seq<string>)
    ensures StrictlySorted(r)
    ensures values.None? ==> r == []
    ensures values.Some? ==> forall x :: x in r <==> x in values.value
  {
    if values.Some? then SortedNames(values.value.Keys) else []
  }

  /** `.map((k) => options.values[k])`. */
  function ValueArgs(values: Option<map<string, JsValue>>): (r: seq<JsValue>)
    ensures |r| == |ValueNames(values)|
    ensures values.Some? ==> forall i | 0 <= i < |r| :: r[i] == values.value[ValueNames(values)[i]]
  {
    var names := ValueNames(values);
    if values.Some? then seq(|names|, i requires 0 <= i < |names| => values.value[names[i]]) else []
  }

  /**
   * `format(message, options)`: a compiled message is a string literal,
   * returned as is without reading `options`, or an arrow function, called
   * with the values in the sorted order of their names. Reading
   * `options.values` throws when `options` is `undefined` or `null` (`None`),
   * and calling anything but a function throws.
   */
  function Format(message: Expr, options: Option<FormatOptions>): (r: Formatted)
    ensures message.StringLit? ==> r == Returned(message.value)
    ensures message.Arrow? && options.Some? ==> r == Invoked(message.params, message.body, ValueArgs(options.value.values))
    ensures !message.StringLit? && (options.None? || !message.Arrow?) ==> r.Threw?
  {
    match (message, options)
    case (StringLit(s), _) => Returned(s)
    case (_, None) => Threw("TypeError: Cannot read properties of undefined (reading 'values')")
    case (Arrow(params, body), Some(o)) => Invoked(params, body, ValueArgs(o.values))
    case (_, Some(_)) => Threw("TypeError: message is not a function")
  }

  /** The value parameter `x` is bound to when a function with `params` is called with `args`; the last one wins. */
  function ParamValue(params: seq<string>, args: seq<JsValue>, x: string): (r: JsValue)
    requires x in params
    ensures forall i | 0 <= i < |params| && params[i] == x && (forall j | i < j < |params| :: params[j] != x) ::
              r == if i < |args| then args[i] else Undefined
  {
    var last := |params| - 1;
    if params[last] == x then (if last < |args| then args[last] else Undefined)
    else
      var prefix := params[..last];
      assert forall j | 0 <= j < last :: prefix[j] == params[j];
      ParamValue(prefix, args, x)
  }

  /** In a duplicate-free parameter list, parameter `i` receives argument `i`. */
  lemma {:induction false} ParamValueAt(params: seq<string>, args: seq<JsValue>, i: nat)
    requires i < |params| <= |args|
    requires forall a, b | 0 <= a < b < |params| :: params[a] != params[b]
    ensures ParamValue(params, args, params[i]) == args[i]
    decreases |params|
  {
    var last := |params| - 1;
    if i < last {
      var prefix := params[..last];
      assert prefix[i] == params[i];
      ParamValueAt(prefix, args, i);
    }
  }

  /**
   * When the values passed to `format` have exactly the names the message
   * reads, every parameter of the compiled function is bound to the value
   * of the same name: the compiler's sorted parameters and `format`'s sorted
   * keys are the same list.
   */
  lemma FormatBindsByName(params: set<string>, body: Expr, values: map<string, JsValue>)
    requires values.Keys == params
    ensures var r := Format(Arrow(SortedNames(params), body), Some(FormatOptions(Some(values))));
            r.Invoked? && r.params == SortedNames(params)
            && forall x | x in params :: ParamValue(r.params, r.args, x) == values[x]
  {
    assert ValueNames(Some(values)) == SortedNames(params);
    SortedArgsBind(params, values);
  }

  /** The arguments `format` builds from `values` line up with the sorted names of its keys. */
  lemma SortedArgsBind(params: set<string>, values: map<string, JsValue>)
    requires values.Keys == params
    ensures forall x | x in params :: ParamValue(SortedNames(params), ValueArgs(Some(values)), x) == values[x]
  {
    var names := SortedNames(params);
    var args := ValueArgs(Some(values));
    assert ValueNames(Some(values)) == names;
    forall a, b | 0 <= a < b < |names| ensures names[a] != names[b] {
      StrLtIrreflexive(names[a]);
    }
    forall x | x in params
      ensures ParamValue(names, args, x) == values[x]
    {
      var i :| 0 <= i < |names| && names[i] == x;
      ParamValueAt(names, args, i);
    }
  }

  /**
   * A value whose name the message does not read shifts the others:
   * `Hello {name}` formatted with `{age, name}` binds `name` to the age.
   */
  lemma ExtraValueMisbinds(body: Expr, age: JsValue, name: JsValue)
    requires age != name
    ensures var values := map["age" := age, "name" := name];
            var r := Format(Arrow(SortedNames({"name"}), body), Some(FormatOptions(Some(values))));
            r.Invoked? && ParamValue(r.params, r.args, "name") == age && values["name"] != age
  {
    var values := map["age" := age, "name" := name];
    assert SortedNames({"name"}) == ["name"] by {
      SortedUnique(SortedNames({"name"}), ["name"]);
    }
    assert StrLt("age", "name");
    assert values.Keys == {"age", "name"};
    assert SortedNames(values.Keys) == ["age", "name"] by {
      SortedUnique(SortedNames(values.Keys), ["age", "name"]);
    }
  }
}
