/** Configuration read from the process environment.  The environment is a
    value (`map<string, string>`) handed to the model instead of being read
    with `os.getenv`. */
module Environment {
  import opened Wrappers
  import opened Text

  type Env = map<string, string>

  /** `os.getenv(key, default)`. */
  function Getenv(env: Env, key: string, default: string): (r: string)
    ensures key in env ==> r == env[key]
    ensures key !in env ==> r == default
  {
    if key in env then env[key] else default
  }

  /** `os.getenv(key)`: `None` when the variable is unset. */
  function GetenvOpt(env: Env, key: string): (r: Option<string>)
    ensures r.Some? <==> key in env
    ensures r.Some? ==> r.value == env[key]
  {
    if key in env then Some(env[key]) else None
  }

  /** The boolean idiom `os.getenv(key, default).lower() == 'true'`. */
  predicate Flag(env: Env, key: string, default: string)
  {
    Lower(Getenv(env, key, default)) == "true"
  }

  /** A flag is set by exactly the spellings of `true` in any letter case; an
      unset flag takes its default, so a `'true'` default reads as set and a
      `'false'` default as clear. */
  lemma {:induction false} FlagMeaning(env: Env, key: string, default: string)
    ensures key in env ==> (Flag(env, key, default) <==> Lower(env[key]) == "true")
    ensures key !in env && default == "true" ==> Flag(env, key, default)
    ensures key !in env && default == "false" ==> !Flag(env, key, default)
    ensures key in env && env[key] == "TRUE" ==> Flag(env, key, default)
    ensures key in env && env[key] == "yes" ==> !Flag(env, key, default)
  {
    if key !in env && default == "false" {
      assert Lower("false")[0] == 'f';
    }
    if key in env && env[key] == "TRUE" {
      assert Lower("TRUE") == "true";
    }
    if key in env && env[key] == "yes" {
      assert |Lower("yes")| == 3;
    }
  }

  predicate IsDigit(c: char)
  {
    '0' <= c <= '9'
  }

  function DigitChar(d: nat): (c: char)
    requires d < 10
    ensures IsDigit(c)
  {
    ('0' as int + d) as char
  }

  /** The decimal value of a non-empty run of ASCII digits. */
  function DigitsValue(s: string): nat
    requires forall i :: 0 <= i < |s| ==> IsDigit(s[i])
    decreases |s|
  {
    if |s| == 0 then 0
    else
      assert IsDigit(s[|s| - 1]);
      DigitsValue(s[..|s| - 1]) * 10 + (s[|s| - 1] as int - '0' as int)
  }

  /** Python's `int(s)` on an optional sign followed by ASCII digits; any
      other text raises `ValueError`, modelled as `None`. */
  function ParseInt(s: string): (r: Option<int>)
    ensures |s| == 0 ==> r.None?
  {
    var sign := if |s| > 0 && (s[0] == '-' || s[0] == '+') then 1 else 0;
    var digits := s[sign..];
    if |digits| == 0 || exists i :: 0 <= i < |digits| && !IsDigit(digits[i]) then None
    else
      var magnitude: int := DigitsValue(digits);
      Some(if sign == 1 && s[0] == '-' then -magnitude else magnitude)
  }

  /** Python's `str(n)` for a natural number. */
  function ShowNat(n: nat): (s: string)
    ensures |s| > 0
    ensures forall i :: 0 <= i < |s| ==> IsDigit(s[i])
    decreases n
  {
    if n < 10 then [DigitChar(n)] else ShowNat(n / 10) + [DigitChar(n % 10)]
  }

  /** Python's `str(n)`. */
  function ShowInt(n: int): string
  {
    if n < 0 then "-" + ShowNat(-n) else ShowNat(n)
  }

  lemma {:induction false} DigitsOfShow(n: nat)
    ensures DigitsValue(ShowNat(n)) == n
    decreases n
  {
    var s := ShowNat(n);
    if n >= 10 {
      DigitsOfShow(n / 10);
      assert s[..|s| - 1] == ShowNat(n / 10);
    }
  }

  /** Reading back a printed integer gives the integer: `int(str(n)) == n`. */
  lemma {:induction false} ParseShow(n: int)
    ensures ParseInt(ShowInt(n)) == Some(n)
  {
    var s := ShowInt(n);
    if n < 0 {
      DigitsOfShow(-n);
      assert s[1..] == ShowNat(-n);
    } else {
      DigitsOfShow(n);
      assert !(s[0] == '-' || s[0] == '+');
      assert s[0..] == s;
    }
  }
}
