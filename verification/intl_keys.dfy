/**
 * Option keys of ICU `select` and `plural` arguments as the compiler rewrites
 * them (`normalizePluralKey`, `normalizeKey`, `PLURAL_ABBREVIATIONS` in
 * src/tooling/intl/babelIntlPlugin.js), and the plural categories shared with
 * the runtime helpers.
 */
module IntlKeys {
  import opened Js

  /** The key of an emitted object property: a numeric literal or an identifier. */
  datatype PropKey = NumKey(n: nat) | NameKey(name: string)

  /** The CLDR plural categories `Intl.PluralRules.prototype.select` answers with. */
  datatype Category = Zero | One | Two | Few | Many | Other

  function CategoryName(c: Category): string
  {
    match c
    case Zero => "zero"
    case One => "one"
    case Two => "two"
    case Few => "few"
    case Many => "many"
    case Other => "other"
  }

  /** `PLURAL_ABBREVIATIONS[key]`, None where the table has no entry. */
  function PluralAbbreviation(key: string): Option<string>
  {
    if key == "zero" then Some("z")
    else if key == "one" then Some("o")
    else if key == "two" then Some("t")
    else if key == "few" then Some("f")
    else if key == "many" then Some("m")
    else if key == "other" then Some("h")
    else None
  }

  /** `key.match(/^=(\d)/)`: the single digit right after a leading `=`. */
  function ExactDigit(key: string): (r: Option<nat>)
    ensures r.Some? <==> |key| >= 2 && key[0] == '=' && IsDigit(key[1])
    ensures r.Some? ==> r.value < 10 && DigitChar(r.value) == key[1]
  {
    if |key| >= 2 && key[0] == '=' && IsDigit(key[1]) then Some(key[1] as int - '0' as int) else None
  }

  /** `normalizePluralKey`: trim, then `=d...` becomes the digit d, a category name its letter. */
  function NormalizePluralKey(key: string): PropKey
  {
    var k := Trim(key);
    match ExactDigit(k)
    case Some(d) => NumKey(d)
    case None =>
      match PluralAbbreviation(k)
      case Some(a) => NameKey(a)
      case None => NameKey(k)
  }

  /** `normalizeKey`: as `NormalizePluralKey` without the abbreviation table. */
  function NormalizeKey(key: string): PropKey
  {
    var k := Trim(key);
    match ExactDigit(k)
    case Some(d) => NumKey(d)
    case None => NameKey(k)
  }

  /** A key becomes a numeric literal exactly when, trimmed, it starts with `=` and a digit; the number is that one digit. */
  lemma NumericKeyIff(key: string)
    ensures NormalizeKey(key).NumKey? <==> |Trim(key)| >= 2 && Trim(key)[0] == '=' && IsDigit(Trim(key)[1])
    ensures NormalizePluralKey(key).NumKey? <==> NormalizeKey(key).NumKey?
    ensures NormalizeKey(key).NumKey? ==>
              NormalizeKey(key).n < 10 && DigitChar(NormalizeKey(key).n) == Trim(key)[1]
              && NormalizePluralKey(key) == NormalizeKey(key)
  {
  }

  /**
   * A key that is not numeric becomes a name: under a select the trimmed key
   * itself, under a plural its one-letter abbreviation when the trimmed key
   * is a category name and the trimmed key otherwise.
   */
  lemma NameKeyIff(key: string)
    ensures NormalizeKey(key).NameKey? ==> NormalizeKey(key).name == Trim(key)
    ensures PluralAbbreviation(Trim(key)).Some? ==>
              NormalizePluralKey(key) == NameKey(PluralAbbreviation(Trim(key)).value)
              && |NormalizePluralKey(key).name| == 1
    ensures NormalizePluralKey(key).NameKey? && PluralAbbreviation(Trim(key)).None? ==>
              NormalizePluralKey(key).name == Trim(key)
  {
    var k := Trim(key);
    if PluralAbbreviation(k).Some? {
      assert k[0] != '=';
    }
  }

  /**
   * Only the first digit after `=` is read: `=d` followed by anything
   * (more digits included) selects the digit d.
   */
  lemma ExactKeyTakesOneDigit(d: nat, rest: string)
    requires d < 10
    requires rest != [] ==> !IsWhiteSpace(rest[|rest| - 1])
    ensures NormalizePluralKey(['=', DigitChar(d)] + rest) == NumKey(d)
    ensures NormalizeKey(['=', DigitChar(d)] + rest) == NumKey(d)
  {
    var k := ['=', DigitChar(d)] + rest;
    assert k[0] == '=' && k[1] == DigitChar(d) && k[|k| - 1] == if rest == [] then DigitChar(d) else rest[|rest| - 1];
    TrimIdentity(k);
    assert ExactDigit(k) == Some(d);
  }

  /** `=10` selects 1. */
  lemma TenKey()
    ensures NormalizePluralKey("=10") == NumKey(1)
  {
    assert "=10" == ['=', DigitChar(1)] + "0";
    ExactKeyTakesOneDigit(1, "0");
  }

  /** The key is trimmed before its digit is read: ` =42 ` selects 4. */
  lemma PaddedExactKey()
    ensures NormalizeKey(" =42 ") == NumKey(4)
  {
    var k := "=42";
    PaddedKeyTrimmed();
    assert |k| == 3 && k[0] == '=' && k[1] == '4';
    assert ExactDigit(k) == Some(4);
  }

  lemma PaddedKeyTrimmed()
    ensures Trim(" =42 ") == "=42"
  {
    LeadingSpaceTrimmed();
    TrailingSpaceTrimmed();
  }

  lemma LeadingSpaceTrimmed()
    ensures TrimStart(" =42 ") == "=42 "
  {
    var padded, inner := " =42 ", "=42 ";
    assert padded[1..] == inner;
    assert TrimStart(inner) == inner by {
      assert !IsWhiteSpace(inner[0]);
    }
  }

  lemma TrailingSpaceTrimmed()
    ensures TrimEnd("=42 ") == "=42"
  {
    var inner, key := "=42 ", "=42";
    assert inner[..3] == key;
    assert TrimEnd(key) == key by {
      assert !IsWhiteSpace(key[2]);
    }
  }

  /** The six category names become their one-letter abbreviation. */
  lemma CategoryKeysAbbreviated(c: Category)
    ensures NormalizePluralKey(CategoryName(c)) == NameKey(if c == Other then "h" else [CategoryName(c)[0]])
    ensures NormalizeKey(CategoryName(c)) == NameKey(CategoryName(c))
  {
    TrimIdentity(CategoryName(c));
  }

  /**
   * The two normalisations differ exactly on keys that trim to one of the
   * six category names; every other key is trimmed and passed through (or
   * turned into its digit) by both.
   */
  lemma PluralAndSelectKeysAgree(key: string)
    ensures NormalizePluralKey(key) != NormalizeKey(key) <==> PluralAbbreviation(Trim(key)).Some?
    ensures PluralAbbreviation(Trim(key)).None? && ExactDigit(Trim(key)).None? ==>
              NormalizePluralKey(key) == NameKey(Trim(key))
  {
    var k := Trim(key);
    if PluralAbbreviation(k).Some? {
      assert ExactDigit(k).None? by {
        assert k[0] != '=';
      }
      assert |PluralAbbreviation(k).value| == 1 && |k| > 1;
    }
  }

  /** Normalising a name that normalisation produced gives it back unchanged. */
  lemma NormalizeKeyIdempotent(key: string)
    requires NormalizeKey(key).NameKey?
    ensures NormalizeKey(NormalizeKey(key).name) == NormalizeKey(key)
  {
    var k := Trim(key);
    TrimIdentity(k);
  }
}
