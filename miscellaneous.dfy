/** `Pluralizer.plural` / `pl` and `String#ellipsify` (lib/miscellaneous.rb). */
module Miscellaneous {
  import opened Common

  /** The characters Ruby's `String#strip` removes: NUL, tab, line feed,
      vertical tab, form feed, carriage return and space. */
  predicate IsSpace(c: char)
  {
    c == '\0' || c == '\t' || c == '\n' || c == '\U{0B}' || c == '\U{0C}' || c == '\r' || c == ' '
  }

  /** The number of leading whitespace characters. */
  function Lead(s: string): (n: nat)
    ensures n <= |s|
    ensures forall i :: 0 <= i < n ==> IsSpace(s[i])
    ensures n < |s| ==> !IsSpace(s[n])
  {
    if s == [] || !IsSpace(s[0]) then 0 else 1 + Lead(s[1..])
  }

  /** The number of trailing whitespace characters. */
  function Trail(s: string): (n: nat)
    ensures n <= |s|
    ensures forall i :: |s| - n <= i < |s| ==> IsSpace(s[i])
    ensures n < |s| ==> !IsSpace(s[|s| - 1 - n])
  {
    if s == [] || !IsSpace(s[|s| - 1]) then 0 else 1 + Trail(s[..|s| - 1])
  }

  /** `String#strip`: the input without its leading and trailing whitespace. */
  function Strip(s: string): (r: string)
    ensures |r| <= |s|
    ensures r == [] || (!IsSpace(r[0]) && !IsSpace(r[|r| - 1]))
    ensures r == [] ==> forall i :: 0 <= i < |s| ==> IsSpace(s[i])
    ensures r != [] ==> |s| - Trail(s) == Lead(s) + |r| && r == s[Lead(s)..Lead(s) + |r|]
  {
    var a := Lead(s);
    if a == |s| then [] else
      var b := Trail(s);
      assert !IsSpace(s[a]);
      assert b < |s| - a;
      s[a..|s| - b]
  }

  /** The length of `s[0...e]` in Ruby, for a string of length `len`: a
      negative end counts from the end of the string, and a slice never
      runs past either end. */
  function PrefixLength(len: nat, e: int): (k: nat)
    ensures k <= len
    ensures 0 <= e <= len ==> k == e
  {
    if e >= 0 then (if e < len then e else len) else (if len + e > 0 then len + e else 0)
  }

  /** `String#ellipsify(n)`. */
  function Ellipsify(s: string, n: int): (r: string)
    // the doc comment's promise holds for n >= 3
    ensures n >= 3 ==> |r| <= n
    // a longer input is cut and marked
    ensures |s| > n ==> |r| >= 3 && r[|r| - 3..] == "..."
    ensures |s| > n && n >= 3 ==> r[..|r| - 3] == Strip(s[..n - 3])
    // a short enough input is only stripped
    ensures |s| <= n ==> r == Strip(s)
  {
    if |s| > n then Strip(s[..PrefixLength(|s|, n - 3)]) + "..." else Strip(s)
  }

  lemma StripStripped(s: string)
    requires s == [] || (!IsSpace(s[0]) && !IsSpace(s[|s| - 1]))
    ensures Strip(s) == s
  {
    if s != [] {
      assert Lead(s) == 0 && Trail(s) == 0;
    }
  }

  lemma StripIdempotent(s: string)
    ensures Strip(Strip(s)) == Strip(s)
  {
    StripStripped(Strip(s));
  }

  /** A stripped string with dots appended is left alone by `strip`. */
  lemma DotsStripped(body: string)
    requires body == [] || (!IsSpace(body[0]) && !IsSpace(body[|body| - 1]))
    ensures Strip(body + "...") == body + "..."
  {
    var t := body + "...";
    assert t[|t| - 1] == '.';
    if body == [] {
      assert t[0] == '.';
    } else {
      assert t[0] == body[0];
    }
    StripStripped(t);
  }

  /** Ellipsifying twice with the same n >= 3 gives the same string as
      ellipsifying once. */
  lemma EllipsifyIdempotent(s: string, n: int)
    requires n >= 3
    ensures Ellipsify(Ellipsify(s, n), n) == Ellipsify(s, n)
  {
    var r := Ellipsify(s, n);
    assert |r| <= n;
    if |s| > n {
      var body := Strip(s[..n - 3]);
      assert r == body + "...";
      DotsStripped(body);
    } else {
      StripIdempotent(s);
    }
  }

  /** The bound does not hold for n < 3: a negative slice end counts from
      the end of the string. */
  lemma EllipsifyShortLimit()
    ensures Ellipsify("abcdef", 2) == "abcde..."
  {
    assert PrefixLength(6, -1) == 5;
    assert "abcdef"[..5] == "abcde";
    StripStripped("abcde");
  }

  /** `Pluralizer.plural`: the count, a space, and the word in singular form
      when the count is 1, in plural form otherwise. */
  function Plural(count: int, word: string, inflector: Inflector): (r: string)
    ensures |r| > |IntString(count)| && r[..|IntString(count)| + 1] == IntString(count) + " "
    ensures count == 1 ==> r[|IntString(count)| + 1..] == inflector.singularize(word)
    ensures count != 1 ==> r[|IntString(count)| + 1..] == inflector.pluralize(word)
  {
    var number := IntString(count) + " ";
    if count != 1 then number + inflector.pluralize(word) else number + inflector.singularize(word)
  }

  /** `Pluralizer.pl`, an alias of `plural`. */
  function Pl(count: int, word: string, inflector: Inflector): (r: string)
    ensures r == Plural(count, word, inflector)
  {
    Plural(count, word, inflector)
  }
}
