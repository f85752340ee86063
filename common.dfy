/** Small shared vocabulary: an optional value, a result-or-error, the
    ASCII subset of Ruby's case mapping, decimal rendering of integers, and
    the inflector that the bot borrows from Sequel (kept abstract: every
    caller receives it as a value holding functions). */
module Common {

  datatype Option<+T> = None | Some(value: T)

  /** A value, or the error a Ruby method would raise instead. */
  datatype Result<+T, +E> = Ok(value: T) | Err(error: E)

  /** Ruby's `downcase`, restricted to ASCII letters. */
  function LowerChar(c: char): (r: char)
    ensures 'A' <= c <= 'Z' ==> r as int == c as int + 32
    ensures !('A' <= c <= 'Z') ==> r == c
  {
    if 'A' <= c <= 'Z' then (c as int + 32) as char else c
  }

  function Lower(s: string): (r: string)
    ensures |r| == |s|
    ensures forall i :: 0 <= i < |s| ==> r[i] == LowerChar(s[i])
  {
    if s == [] then [] else [LowerChar(s[0])] + Lower(s[1..])
  }

  /** A string without capitals is its own lower case. */
  lemma LowerUnchanged(s: string)
    requires forall i :: 0 <= i < |s| ==> !('A' <= s[i] <= 'Z')
    ensures Lower(s) == s
  {
  }

  function DigitChar(d: nat): (c: char)
    requires d < 10
    ensures '0' <= c <= '9' && c as int - '0' as int == d
  {
    "0123456789"[d]
  }

  predicate AllDigits(s: string)
  {
    forall i :: 0 <= i < |s| ==> '0' <= s[i] <= '9'
  }

  /** The number a string of decimal digits denotes. */
  function DigitsValue(s: string): nat
    requires AllDigits(s)
  {
    if s == [] then 0 else 10 * DigitsValue(s[..|s| - 1]) + (s[|s| - 1] as int - '0' as int)
  }

  /** Ruby's `Integer#to_s` in base ten: the digits of `n`, without a
      leading zero unless `n` is 0. */
  function NatString(n: nat): (r: string)
    ensures |r| >= 1 && AllDigits(r)
    ensures DigitsValue(r) == n
    ensures r[0] == '0' ==> r == "0"
    decreases n
  {
    if n < 10 then [DigitChar(n)]
    else
      var r := NatString(n / 10) + [DigitChar(n % 10)];
      assert r[..|r| - 1] == NatString(n / 10);
      r
  }

  /** The other direction: a digit string without a leading zero is the
      rendering of its own value, so the rendering is the only one. */
  lemma {:induction false} NatStringOfDigits(s: string)
    requires |s| >= 1 && AllDigits(s)
    requires s[0] == '0' ==> s == "0"
    ensures NatString(DigitsValue(s)) == s
    decreases |s|
  {
    if |s| == 1 {
      var d := s[0] as int - '0' as int;
      assert DigitsValue(s) == 10 * DigitsValue([]) + d;
      assert NatString(d) == [DigitChar(d)];
    } else {
      var p := s[..|s| - 1];
      assert p[0] == s[0];
      NatStringOfDigits(p);
      LeadingDigitPositive(p);
      var d := s[|s| - 1] as int - '0' as int;
      var v := DigitsValue(s);
      assert v == 10 * DigitsValue(p) + d;
      assert v / 10 == DigitsValue(p) && v % 10 == d;
      assert NatString(v) == NatString(v / 10) + [DigitChar(v % 10)];
      assert s == p + [s[|s| - 1]];
    }
  }

  lemma {:induction false} LeadingDigitPositive(s: string)
    requires |s| >= 1 && AllDigits(s) && s[0] != '0'
    ensures DigitsValue(s) >= 1
    decreases |s|
  {
    if |s| > 1 {
      var p := s[..|s| - 1];
      assert p[0] == s[0];
      LeadingDigitPositive(p);
    }
  }

  /** Ruby's `Integer#to_s` for any integer: a minus sign before the digits
      of a negative number. */
  function IntString(n: int): (r: string)
    ensures |r| >= 1
    ensures n < 0 <==> r[0] == '-'
    ensures n >= 0 ==> AllDigits(r) && DigitsValue(r) == n
    ensures n < 0 ==> |r| >= 2 && AllDigits(r[1..]) && DigitsValue(r[1..]) == -n
    // no leading zero, except for 0 itself
    ensures n >= 0 ==> (r[0] == '0' ==> r == "0")
    ensures n < 0 ==> r[1] != '0'
  {
    if n < 0 then
      var r := "-" + NatString(-n);
      assert r[1..] == NatString(-n);
      r
    else NatString(n)
  }

  /** The inflector methods that Sequel adds to String. They are opaque to
      this model: callers pass them in, and no property of theirs is used. */
  datatype Inflector = Inflector(
    pluralize: string -> string,
    singularize: string -> string,
    camelize: string -> string,
    underscore: string -> string,
    tableize: string -> string,
    foreignKey: string -> string)
}
