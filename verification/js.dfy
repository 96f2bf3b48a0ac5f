/**
 * The small slice of JavaScript semantics the intl helpers and the markup
 * rewriters depend on: values and their truthiness, `a || b`, `String(n)` for
 * integers, property-key coercion, `String.prototype.trim` and
 * `JSON.stringify` of a string.
 */
module Js {

  datatype Option<+T> = None | Some(value: T)

  /** The outcome of an operation that can throw: its value, or the error it raises. */
  datatype Result<+T> = Ok(value: T) | Failure(error: string)

  /** A JavaScript value as the helpers see it; numbers are integers here. */
  datatype JsValue =
    | Undefined
    | Null
    | Bool(b: bool)
    | Number(n: int)
    | NaN
    | Str(s: string)
    | Object(id: nat)

  /** ToBoolean: `false`, `0`, `NaN`, `""`, `null` and `undefined` are falsy. */
  predicate Truthy(v: JsValue)
  {
    match v
    case Undefined => false
    case Null => false
    case Bool(b) => b
    case Number(n) => n != 0
    case NaN => false
    case Str(s) => s != ""
    case Object(_) => true
  }

  /** `a || b`: the left operand when it is truthy, the right one otherwise. */
  function Or(a: JsValue, b: JsValue): (r: JsValue)
    ensures Truthy(a) ==> r == a
    ensures !Truthy(a) ==> r == b
  {
    if Truthy(a) then a else b
  }

  function DigitChar(d: nat): (c: char)
    requires d < 10
    ensures '0' <= c <= '9' && c as int - '0' as int == d
  {
    ('0' as int + d) as char
  }

  predicate IsDigit(c: char)
  {
    '0' <= c <= '9'
  }

  /** Decimal digits of a natural number, without leading zeros. */
  function Digits(n: nat): (r: string)
    ensures |r| >= 1
    ensures forall i :: 0 <= i < |r| ==> IsDigit(r[i])
    ensures (|r| == 1) == (n < 10)
    ensures n < 10 ==> r == [DigitChar(n)]
    decreases n
  {
    if n < 10 then [DigitChar(n)] else Digits(n / 10) + [DigitChar(n % 10)]
  }

  /** `String(n)` for an integer `n`. */
  function DecimalString(n: int): (r: string)
    ensures |r| >= 1
    ensures (r[0] == '-') == (n < 0)
    ensures 0 <= n < 10 ==> r == [DigitChar(n)]
    ensures |r| == 1 ==> 0 <= n < 10
  {
    if n < 0 then "-" + Digits(-n) else Digits(n)
  }

  /** Two integers whose decimal strings agree, one of them a single digit, are equal. */
  lemma DecimalStringDigit(n: int, d: nat)
    requires d < 10
    ensures DecimalString(n) == [DigitChar(d)] <==> n == d
  {
    if DecimalString(n) == [DigitChar(d)] {
      assert 0 <= n < 10;
      assert DigitChar(n) == DigitChar(d);
    }
  }

  /** The property key `obj[v]` looks up: ToPropertyKey(v). */
  function ToPropertyKey(v: JsValue): (r: string)
    ensures v.Str? ==> r == v.s
    ensures v.Number? ==> r == DecimalString(v.n)
  {
    match v
    case Undefined => "undefined"
    case Null => "null"
    case Bool(b) => if b then "true" else "false"
    case Number(n) => DecimalString(n)
    case NaN => "NaN"
    case Str(s) => s
    case Object(_) => "[object Object]"
  }

  /** WhiteSpace and LineTerminator code points, the ones `trim` removes. */
  predicate IsWhiteSpace(c: char)
  {
    var n := c as int;
    || (0x9 <= n <= 0xD) || n == 0x20 || n == 0xA0 || n == 0x1680
    || (0x2000 <= n <= 0x200A) || n == 0x2028 || n == 0x2029 || n == 0x202F
    || n == 0x205F || n == 0x3000 || n == 0xFEFF
  }

  function TrimStart(s: string): (r: string)
    ensures |r| <= |s| && r == s[|s| - |r|..]
    ensures forall i :: 0 <= i < |s| - |r| ==> IsWhiteSpace(s[i])
    ensures r != [] ==> !IsWhiteSpace(r[0])
  {
    if s != [] && IsWhiteSpace(s[0]) then TrimStart(s[1..]) else s
  }

  function TrimEnd(s: string): (r: string)
    ensures |r| <= |s| && r == s[..|r|]
    ensures forall i :: |r| <= i < |s| ==> IsWhiteSpace(s[i])
    ensures r != [] ==> !IsWhiteSpace(r[|r| - 1])
  {
    if s != [] && IsWhiteSpace(s[|s| - 1]) then TrimEnd(s[..|s| - 1]) else s
  }

  /** `s` is `r` with white space added before (the first `i` characters) and after. */
  predicate PaddedBy(s: string, r: string, i: int)
  {
    && 0 <= i <= |s| - |r| && r == s[i..i + |r|]
    && (forall k :: 0 <= k < i ==> IsWhiteSpace(s[k]))
    && (forall k :: i + |r| <= k < |s| ==> IsWhiteSpace(s[k]))
  }

  /**
   * `s.trim()`: `s` is the result with a run of white space added on each
   * side, and the result neither starts nor ends with white space.
   */
  function Trim(s: string): (r: string)
    ensures exists i :: PaddedBy(s, r, i)
    ensures r != [] ==> !IsWhiteSpace(r[0]) && !IsWhiteSpace(r[|r| - 1])
  {
    var t := TrimStart(s);
    var r := TrimEnd(t);
    assert PaddedBy(s, r, |s| - |t|);
    r
  }

  /** A string with no white space at either end is its own trim. */
  lemma TrimIdentity(s: string)
    requires s != [] ==> !IsWhiteSpace(s[0]) && !IsWhiteSpace(s[|s| - 1])
    ensures Trim(s) == s
  {
  }

  function HexDigit(d: nat): (c: char)
    requires d < 16
  {
    if d < 10 then DigitChar(d) else ('a' as int + d - 10) as char
  }

  /** The characters `JSON.stringify` writes as an escape sequence. */
  predicate NeedsEscape(c: char)
  {
    c == '"' || c == '\\' || c < ' '
  }

  function EscapeChar(c: char): (r: string)
    ensures !NeedsEscape(c) ==> r == [c]
    ensures NeedsEscape(c) ==> |r| >= 2 && r[0] == '\\'
  {
    if c == '"' then "\\\""
    else if c == '\\' then "\\\\"
    else if c == '\U{8}' then "\\b"
    else if c == '\U{C}' then "\\f"
    else if c == '\n' then "\\n"
    else if c == '\r' then "\\r"
    else if c == '\t' then "\\t"
    else if c < ' ' then "\\u00" + [HexDigit(c as int / 16), HexDigit(c as int % 16)]
    else [c]
  }

  /** No character of `s` needs an escape. */
  predicate Plain(s: string)
  {
    forall i :: 0 <= i < |s| ==> !NeedsEscape(s[i])
  }

  function EscapeString(s: string): (r: string)
    ensures Plain(s) ==> r == s
    ensures |r| >= |s|
  {
    if s == [] then [] else EscapeChar(s[0]) + EscapeString(s[1..])
  }

  /** `JSON.stringify(s)` for a string `s`. */
  function JsonQuote(s: string): (r: string)
    ensures |r| >= |s| + 2 && r[0] == '"' && r[|r| - 1] == '"'
    ensures Plain(s) ==> r == "\"" + s + "\""
  {
    "\"" + EscapeString(s) + "\""
  }

  /** Two strings that agree after a common prefix agree. */
  lemma CancelPrefix<T>(p: seq<T>, a: seq<T>, b: seq<T>)
    requires p + a == p + b
    ensures a == b
  {
    assert a == (p + a)[|p|..];
    assert b == (p + b)[|p|..];
  }

  lemma HexDigitInjective(a: nat, b: nat)
    requires a < 16 && b < 16 && HexDigit(a) == HexDigit(b)
    ensures a == b
  {
  }

  /**
   * Escapes form a prefix code: the text `JSON.stringify` writes for one
   * character is never a proper start of the text it writes for another, so
   * the first character of an escaped string determines its escape.
   */
  lemma EscapeCharPrefix(c: char, d: char, x: string, y: string)
    requires EscapeChar(c) + x == EscapeChar(d) + y
    ensures c == d
  {
    var s := EscapeChar(c) + x;
    assert s[0] == EscapeChar(c)[0] && s[0] == EscapeChar(d)[0];
    if NeedsEscape(c) && NeedsEscape(d) {
      assert s[1] == EscapeChar(c)[1] && s[1] == EscapeChar(d)[1];
      if s[1] == 'u' {
        assert EscapeChar(c)[4] == HexDigit(c as int / 16) && EscapeChar(c)[5] == HexDigit(c as int % 16);
        assert EscapeChar(d)[4] == HexDigit(d as int / 16) && EscapeChar(d)[5] == HexDigit(d as int % 16);
        assert s[4] == EscapeChar(c)[4] && s[4] == EscapeChar(d)[4];
        assert s[5] == EscapeChar(c)[5] && s[5] == EscapeChar(d)[5];
        HexDigitInjective(c as int / 16, d as int / 16);
        HexDigitInjective(c as int % 16, d as int % 16);
      }
    }
  }

  /** An escaped string followed by `"` starts with `"` exactly when the string is empty: escapes never begin with `"`. */
  lemma QuoteFirst(s: string, x: string)
    ensures ((EscapeString(s) + "\"" + x)[0] == '"') <==> s == []
  {
    if s != [] {
      assert (EscapeString(s) + "\"" + x)[0] == EscapeChar(s[0])[0];
    }
  }

  /** Escaping a non-empty string: the first character's escape, then the rest escaped. */
  lemma EscapeStringStep(s: string, x: string)
    requires s != []
    ensures EscapeString(s) + "\"" + x == EscapeChar(s[0]) + (EscapeString(s[1..]) + "\"" + x)
  {
  }

  /** One step of the split: equal escaped texts start with the same character, and the rest is again equal. */
  lemma EscapedHeadsAgree(s: string, t: string, x: string, y: string)
    requires s != [] && t != []
    requires EscapeString(s) + "\"" + x == EscapeString(t) + "\"" + y
    ensures s[0] == t[0]
    ensures EscapeString(s[1..]) + "\"" + x == EscapeString(t[1..]) + "\"" + y
  {
    var u := EscapeString(s[1..]) + "\"" + x;
    var v := EscapeString(t[1..]) + "\"" + y;
    EscapeStringStep(s, x);
    EscapeStringStep(t, y);
    EscapeCharPrefix(s[0], t[0], u, v);
    CancelPrefix(EscapeChar(s[0]), u, v);
  }

  /**
   * The closing quote of `JSON.stringify(s)` is the first unescaped `"`:
   * an escaped string followed by `"` and more text splits in one way only.
   */
  lemma {:induction false} EscapedThenQuote(s: string, t: string, x: string, y: string)
    requires EscapeString(s) + "\"" + x == EscapeString(t) + "\"" + y
    ensures s == t && x == y
    decreases |s|
  {
    QuoteFirst(s, x);
    QuoteFirst(t, y);
    if s == [] {
      assert t == [];
      assert EscapeString(s) + "\"" + x == "\"" + x;
      assert EscapeString(t) + "\"" + y == "\"" + y;
      CancelPrefix("\"", x, y);
    } else {
      EscapedHeadsAgree(s, t, x, y);
      EscapedThenQuote(s[1..], t[1..], x, y);
      assert s == [s[0]] + s[1..] && t == [t[0]] + t[1..];
    }
  }

  lemma JsonQuoteThen(a: string, x: string)
    ensures JsonQuote(a) + x == "\"" + (EscapeString(a) + "\"" + x)
  {
    var e := EscapeString(a);
    assert JsonQuote(a) == "\"" + e + "\"";
  }

  /** `JSON.stringify` of a string can be read back: whatever follows it, the quoted string is recovered. */
  lemma JsonQuoteSplit(a: string, b: string, x: string, y: string)
    requires JsonQuote(a) + x == JsonQuote(b) + y
    ensures a == b && x == y
  {
    JsonQuoteThen(a, x);
    JsonQuoteThen(b, y);
    CancelPrefix("\"", EscapeString(a) + "\"" + x, EscapeString(b) + "\"" + y);
    EscapedThenQuote(a, b, x, y);
  }
}
