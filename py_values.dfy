/**
 * The values exp_scripts/bootstrap.py reads from its TOML run files and its
 * command line, and the Python conversions it applies to them: `int(...)`
 * inside `get_order`, and `str_to_bool`.
 */
module PyValues {
  import opened Wrappers

  /**
   * A TOML value as the `toml` package hands it over. `Float(num, den)` is
   * the finite float num/den; a zero `den` stands for inf and nan. `Other` is
   * an array, a table or a date-time.
   */
  datatype TomlValue =
    | Int(i: int)
    | Float(num: int, den: nat)
    | Str(s: string)
    | Bool(b: bool)
    | Other

  /** A pass of a run file: a TOML table. */
  type Pass = map<string, TomlValue>

  // ---- int(str) ----

  /** The whitespace `int()` strips: ASCII spaces, \t to \r, and the separators 0x1c to 0x1f. */
  predicate IsSpace(c: char)
  {
    c == ' ' || 9 <= c as int <= 13 || 28 <= c as int <= 31
  }

  predicate IsDigit(c: char)
  {
    '0' <= c <= '9'
  }

  /** `s.strip()`: drops whitespace at both ends. */
  function Strip(s: string): (t: string)
    ensures |t| <= |s|
    ensures t != [] ==> !IsSpace(t[0]) && !IsSpace(t[|t| - 1])
    decreases |s|
  {
    if s == [] then s
    else if IsSpace(s[0]) then Strip(s[1..])
    else if IsSpace(s[|s| - 1]) then Strip(s[..|s| - 1])
    else s
  }

  /** The digit part of a base-10 literal: digits, with single underscores only between two digits. */
  predicate DigitRun(s: string)
  {
    |s| > 0 && IsDigit(s[0]) && IsDigit(s[|s| - 1]) &&
    (forall i :: 0 <= i < |s| ==> IsDigit(s[i]) || s[i] == '_') &&
    (forall i :: 0 <= i < |s| - 1 ==> s[i] == '_' ==> s[i + 1] != '_')
  }

  /** The number a run of digits and underscores spells, underscores skipped. */
  function DigitValue(s: string): nat
  {
    if s == [] then 0
    else if s[|s| - 1] == '_' then DigitValue(s[..|s| - 1])
    else DigitValue(s[..|s| - 1]) * 10 + (s[|s| - 1] as int - '0' as int) % 10
  }

  /** `int(s)` for a string: surrounding whitespace, one optional sign, a digit run; None where Python raises. */
  function ParseInt(s: string): (r: Option<int>)
    ensures Strip(s) == [] ==> r.None?
  {
    var t := Strip(s);
    if t == [] then None
    else
      var body := if t[0] == '-' || t[0] == '+' then t[1..] else t;
      var v: int := DigitValue(body);
      if DigitRun(body) then Some(if t[0] == '-' then -v else v) else None
  }

  // ---- str(int) ----

  function DigitChar(d: nat): char
    requires d < 10
  {
    ('0' as int + d) as char
  }

  /** `str(n)` for n >= 0. */
  function ShowNat(n: nat): (s: string)
    ensures DigitRun(s)
  {
    if n < 10 then [DigitChar(n)]
    else
      var s := ShowNat(n / 10) + [DigitChar(n % 10)];
      assert forall i :: 0 <= i < |s| - 1 ==> s[i] == ShowNat(n / 10)[i];
      s
  }

  /** `str(n)`. */
  function Show(n: int): string
  {
    if n < 0 then "-" + ShowNat(-n) else ShowNat(n)
  }

  lemma {:induction false} ShowNatValue(n: nat)
    ensures DigitValue(ShowNat(n)) == n
  {
    if n >= 10 {
      var s := ShowNat(n);
      assert s[..|s| - 1] == ShowNat(n / 10);
      ShowNatValue(n / 10);
    }
  }

  /** `int(str(n)) == n`. */
  lemma ParseShow(n: int)
    ensures ParseInt(Show(n)) == Some(n)
  {
    var s := Show(n);
    assert Strip(s) == s;
    ShowNatValue(if n < 0 then -n else n);
    if n < 0 {
      assert s[1..] == ShowNat(-n);
    }
  }

  /** `int()` ignores whitespace around the literal. */
  lemma ParsePadded(s: string)
    ensures ParseInt(" " + s + "\n") == ParseInt(s)
  {
    StripPadded(s);
    SameStrip(" " + s + "\n", s);
  }

  lemma StripPadded(s: string)
    ensures Strip(" " + s + "\n") == Strip(s)
  {
    var p := " " + s + "\n";
    assert p[0] == ' ' && p[1..] == s + "\n";
    StripTrailing(s);
  }

  /** `int()` looks only at what `strip` keeps. */
  lemma SameStrip(a: string, b: string)
    requires Strip(a) == Strip(b)
    ensures ParseInt(a) == ParseInt(b)
  {
  }

  /** One trailing space more or less does not change what `Strip` keeps. */
  lemma {:induction false} StripBothEnds(s: string)
    requires |s| >= 2 && IsSpace(s[|s| - 1])
    ensures Strip(s) == Strip(s[..|s| - 1])
    decreases |s|
  {
    if IsSpace(s[0]) {
      var u := s[..|s| - 1];
      assert u[0] == s[0];
      if |s| == 2 {
        assert Strip(s[1..]) == Strip(s[1..][1..]);
        assert Strip(u) == Strip(u[1..]);
      } else {
        StripBothEnds(s[1..]);
        assert s[1..][..|s[1..]| - 1] == u[1..];
      }
    }
  }

  lemma StripTrailing(s: string)
    ensures Strip(s + "\n") == Strip(s)
  {
    var t := s + "\n";
    assert t[..|t| - 1] == s;
    if |t| >= 2 {
      StripBothEnds(t);
    }
  }

  // ---- int(x) for the other TOML values ----

  /** `int(f)` of a finite float: truncation toward zero, not Dafny's Euclidean division. */
  function TruncToward(num: int, den: nat): (r: int)
    requires den > 0
    ensures num >= 0 ==> 0 <= r * den <= num < r * den + den
    ensures num < 0 ==> r * den - den < num <= r * den <= 0
  {
    if num >= 0 then
      DivBounds(num, den);
      num / den
    else
      var q := (-num) / den;
      DivBounds(-num, den);
      assert (-q) * den == -(q * den);
      -q
  }

  lemma DivBounds(n: nat, d: nat)
    requires d > 0
    ensures 0 <= (n / d) * d <= n < (n / d) * d + d
  {
    assert n == (n / d) * d + n % d;
  }

  /** `int(v)`: None where Python raises. */
  function PyInt(v: TomlValue): (r: Option<int>)
    ensures v.Int? ==> r == Some(v.i)
    ensures v.Bool? ==> r == Some(if v.b then 1 else 0)
    ensures v.Float? ==> (r.Some? <==> v.den > 0)
    ensures v.Float? && v.den > 0 && v.num >= 0 ==> 0 <= r.value * v.den <= v.num < r.value * v.den + v.den
    ensures v.Float? && v.den > 0 && v.num < 0 ==> r.value * v.den - v.den < v.num <= r.value * v.den <= 0
    ensures v.Str? ==> r == ParseInt(v.s)
    ensures v.Other? ==> r.None?
  {
    match v
    case Int(i) => Some(i)
    case Bool(b) => Some(if b then 1 else 0)
    case Float(num, den) => if den == 0 then None else Some(TruncToward(num, den))
    case Str(s) => ParseInt(s)
    case Other => None
  }

  /** `get_order`: `int(p["order"])`, and 0 when the key is missing or the conversion raises. */
  function GetOrder(p: Pass): (r: int)
    ensures "order" !in p ==> r == 0
    ensures "order" in p && PyInt(p["order"]).Some? ==> r == PyInt(p["order"]).value
    ensures "order" in p && PyInt(p["order"]).None? ==> r == 0
  {
    if "order" in p then
      match PyInt(p["order"])
      case Some(i) => i
      case None => 0
    else 0
  }

  /** An order written as a string reads back as the number it spells. */
  lemma GetOrderOfShown(p: Pass, n: int)
    requires "order" in p && p["order"] == Str(Show(n))
    ensures GetOrder(p) == n
  {
    ParseShow(n);
  }

  // ---- str_to_bool ----

  /** A command-line flag value: already a bool (an argparse default) or a string. */
  datatype Flag = FlagBool(b: bool) | FlagStr(s: string)

  /** `str.lower()` on ASCII letters. */
  function Lower(s: string): (t: string)
    ensures |t| == |s|
    ensures forall i :: 0 <= i < |s| ==> ('A' <= s[i] <= 'Z' ==> t[i] == (s[i] as int + 32) as char) && (!('A' <= s[i] <= 'Z') ==> t[i] == s[i])
  {
    if s == [] then []
    else [if 'A' <= s[0] <= 'Z' then (s[0] as int + 32) as char else s[0]] + Lower(s[1..])
  }

  const FALSE_WORDS: set<string> := {"false", "f", "0", "no", "n"}
  const TRUE_WORDS: set<string> := {"true", "t", "1", "yes", "y"}

  /** `str_to_bool`: a bool passes through; a spelling of false or true converts; anything else falls off the end (None). */
  function StrToBool(v: Flag): (r: Option<bool>)
    ensures v.FlagBool? ==> r == Some(v.b)
    ensures v.FlagStr? ==> (r == Some(false) <==> Lower(v.s) in FALSE_WORDS)
    ensures v.FlagStr? ==> (r == Some(true) <==> Lower(v.s) in TRUE_WORDS)
    ensures v.FlagStr? ==> (r.None? <==> Lower(v.s) !in FALSE_WORDS + TRUE_WORDS)
  {
    match v
    case FlagBool(b) => Some(b)
    case FlagStr(s) =>
      if Lower(s) in FALSE_WORDS then Some(false)
      else if Lower(s) in TRUE_WORDS then Some(true)
      else None
  }

  /** `str_to_bool(str(b)) == b`: Python spells booleans "True" and "False". */
  lemma StrToBoolOfShown(b: bool)
    ensures StrToBool(FlagStr(if b then "True" else "False")) == Some(b)
  {
    assert Lower("True") == "true";
    assert Lower("False") == "false";
  }
}
