/** ASCII string helpers shared by the model: Python's `str.lower`, `str.startswith`,
    `str.find` / `in`, `str.replace(pattern, replacement, 1)` and decimal formatting of integers. */
module Text {

  predicate IsUpper(c: char) { 'A' <= c <= 'Z' }
  predicate IsLower(c: char) { 'a' <= c <= 'z' }

  /** A "cased" character in the sense of Python's `str.title`, restricted to ASCII. */
  predicate IsCased(c: char) { IsUpper(c) || IsLower(c) }

  function ToLower(c: char): (r: char)
    ensures IsCased(r) == IsCased(c)
    ensures !IsUpper(r)
    ensures !IsCased(c) ==> r == c
  {
    if IsUpper(c) then (c as int + 32) as char else c
  }

  function ToUpper(c: char): (r: char)
    ensures IsCased(r) == IsCased(c)
    ensures !IsLower(r)
    ensures ToLower(r) == ToLower(c)
    ensures IsLower(c) ==> r as int == c as int - 32
    ensures IsUpper(c) ==> r == c
  {
    if IsLower(c) then (c as int - 32) as char else c
  }

  /** Changing case keeps the letter: lower-casing moves an upper-case letter 32 code
      points up to its lower-case partner, upper-casing moves a lower-case letter 32 down,
      and each leaves a letter already in the target case as it is. */
  lemma CaseMapsKeepLetter(c: char)
    ensures IsUpper(c) ==> ToLower(c) as int == c as int + 32
    ensures IsLower(c) ==> ToLower(c) == c
    ensures IsLower(c) ==> ToUpper(c) as int == c as int - 32
    ensures IsUpper(c) ==> ToUpper(c) == c
  {
  }

  /** Python's `str.lower` on ASCII text. */
  function Lower(s: string): (r: string)
    ensures |r| == |s|
    ensures forall i :: 0 <= i < |s| ==> r[i] == ToLower(s[i])
  {
    seq(|s|, i requires 0 <= i < |s| => ToLower(s[i]))
  }

  lemma LowerIdempotent(s: string)
    ensures Lower(Lower(s)) == Lower(s)
  {
  }

  /** Python's `str.title` on ASCII text, continuing after a character that was cased
      (`prevCased`) or not: a letter is upper-cased when it starts a word (follows a
      character that is not a letter) and lower-cased otherwise; other characters are
      kept. */
  function TitleFrom(s: string, prevCased: bool): (r: string)
    ensures |r| == |s|
    ensures forall i :: 0 <= i < |s| ==> ToLower(r[i]) == ToLower(s[i])
    ensures forall i :: 0 <= i < |s| ==> IsCased(r[i]) == IsCased(s[i])
    ensures forall i :: 0 <= i < |s| && !IsCased(s[i]) ==> r[i] == s[i]
    ensures |s| > 0 && IsCased(s[0]) ==> (IsUpper(r[0]) <==> !prevCased)
    ensures forall i :: 1 <= i < |s| && IsCased(s[i]) ==> (IsUpper(r[i]) <==> !IsCased(s[i - 1]))
    decreases |s|
  {
    if s == [] then []
    else
      var c := s[0];
      var first := if !IsCased(c) then c else if prevCased then ToLower(c) else ToUpper(c);
      var rest := TitleFrom(s[1..], IsCased(c));
      assert forall i :: 1 <= i < |s| ==> ([first] + rest)[i] == rest[i - 1] && s[i] == s[1..][i - 1];
      [first] + rest
  }

  /** Python's `str.title` on ASCII text. */
  function Title(s: string): string
  {
    TitleFrom(s, false)
  }

  /** Two letters with the same lower-case form and the same case are the same letter. */
  lemma SameLetter(a: char, b: char)
    requires IsCased(a) && IsCased(b) && ToLower(a) == ToLower(b) && IsUpper(a) == IsUpper(b)
    ensures a == b
  {
  }

  /** Title-casing a title-cased string changes nothing. */
  lemma TitleIdempotent(s: string)
    ensures Title(Title(s)) == Title(s)
  {
    var t := Title(s);
    var u := Title(t);
    forall i | 0 <= i < |s| ensures u[i] == t[i] {
      if IsCased(s[i]) {
        if i > 0 {
          assert IsCased(t[i - 1]) == IsCased(s[i - 1]);
        }
        SameLetter(u[i], t[i]);
      }
    }
  }

  predicate StartsWith(s: string, prefix: string)
  {
    |prefix| <= |s| && s[..|prefix|] == prefix
  }

  /** `sub` occurs in `s` starting at index `i`. */
  predicate OccursAt(s: string, sub: string, i: int)
  {
    0 <= i <= |s| - |sub| && s[i..i + |sub|] == sub
  }

  /** Python's `s.find(sub)`: the least index at which `sub` occurs in `s`, or -1. */
  function IndexOf(s: string, sub: string): (r: int)
    ensures r == -1 || OccursAt(s, sub, r)
    ensures forall i :: 0 <= i < r ==> !OccursAt(s, sub, i)
    ensures r == -1 ==> forall i :: !OccursAt(s, sub, i)
    decreases |s|
  {
    if |sub| > |s| then -1
    else if s[..|sub|] == sub then 0
    else
      var k := IndexOf(s[1..], sub);
      assert forall i {:trigger OccursAt(s, sub, i)} :: 1 <= i ==>
        OccursAt(s, sub, i) == OccursAt(s[1..], sub, i - 1);
      if k < 0 then -1 else k + 1
  }

  /** Python's `sub in s`. */
  predicate Contains(s: string, sub: string)
  {
    IndexOf(s, sub) >= 0
  }

  lemma PrefixIsFoundFirst(s: string, prefix: string)
    requires StartsWith(s, prefix)
    ensures IndexOf(s, prefix) == 0
  {
  }

  /** Python's `s.replace(pattern, replacement, 1)`: the leftmost occurrence of `pattern` is replaced. */
  function ReplaceFirst(s: string, pattern: string, replacement: string): (r: string)
    ensures !Contains(s, pattern) ==> r == s
    ensures Contains(s, pattern) ==>
      exists k :: && OccursAt(s, pattern, k)
                  && (forall i :: 0 <= i < k ==> !OccursAt(s, pattern, i))
                  && r == s[..k] + replacement + s[k + |pattern|..]
    ensures StartsWith(s, pattern) ==> r == replacement + s[|pattern|..]
  {
    var k := IndexOf(s, pattern);
    if k < 0 then s else s[..k] + replacement + s[k + |pattern|..]
  }

  function DigitChar(d: nat): (c: char)
    requires d < 10
    ensures '0' <= c <= '9'
  {
    ('0' as int + d) as char
  }

  function DigitValue(c: char): nat
    requires '0' <= c <= '9'
  {
    c as int - '0' as int
  }

  /** Python's `str(n)` / an f-string `{n}` for a non-negative integer. */
  function NatToString(n: nat): (r: string)
    ensures |r| >= 1
    ensures forall i :: 0 <= i < |r| ==> '0' <= r[i] <= '9'
    ensures r[0] == '0' ==> n == 0
  {
    if n < 10 then [DigitChar(n)] else NatToString(n / 10) + [DigitChar(n % 10)]
  }

  /** Reading a string of decimal digits back as a number: the inverse of `NatToString`. */
  function DecimalValue(s: string): nat
    requires forall i :: 0 <= i < |s| ==> '0' <= s[i] <= '9'
  {
    if s == [] then 0 else 10 * DecimalValue(s[..|s| - 1]) + DigitValue(s[|s| - 1])
  }

  lemma {:induction false} NatToStringRoundTrip(n: nat)
    ensures DecimalValue(NatToString(n)) == n
  {
    if n >= 10 {
      NatToStringRoundTrip(n / 10);
      var r := NatToString(n);
      assert r[..|r| - 1] == NatToString(n / 10);
    }
  }
}
