/** The string operations of the standard library that the source relies on. */
module Text {
  import opened Wrappers

  const U32_MAX: nat := 0xffff_ffff
  const U64_MAX: nat := 0xffff_ffff_ffff_ffff

  const U64_SIZE: nat := 0x1_0000_0000_0000_0000

  const I32_MAX: nat := 0x7fff_ffff

  function Min(a: nat, b: nat): nat {
    if a <= b then a else b
  }

  // ---------------------------------------------------------------------------
  // Sums
  // ---------------------------------------------------------------------------

  function Sum<T>(xs: seq<T>, f: T -> nat): nat {
    if xs == [] then 0 else Sum(xs[..|xs| - 1], f) + f(xs[|xs| - 1])
  }

  lemma {:induction false} SumWithout<T>(xs: seq<T>, i: nat, f: T -> nat)
    requires i < |xs|
    ensures Sum(xs, f) == Sum(xs[..i] + xs[i + 1..], f) + f(xs[i])
    decreases |xs|
  {
    var n := |xs| - 1;
    var rest := xs[..i] + xs[i + 1..];
    if i == n {
      assert rest == xs[..n];
    } else {
      SumWithout(xs[..n], i, f);
      assert |rest| == n && rest[n - 1] == xs[n] && xs[..n][i] == xs[i];
      assert rest[..n - 1] == xs[..n][..i] + xs[..n][i + 1..];
    }
  }

  lemma MultisetWithout<T>(xs: seq<T>, i: nat)
    requires i < |xs|
    ensures multiset(xs[..i] + xs[i + 1..]) == multiset(xs) - multiset{xs[i]}
  {
    assert xs == xs[..i] + [xs[i]] + xs[i + 1..];
    assert multiset(xs) == multiset(xs[..i]) + multiset{xs[i]} + multiset(xs[i + 1..]);
  }

  lemma {:induction false} SumOfPermutation<T>(xs: seq<T>, ys: seq<T>, f: T -> nat)
    requires multiset(xs) == multiset(ys)
    ensures Sum(xs, f) == Sum(ys, f)
    decreases |xs|
  {
    if xs == [] {
      assert |multiset(ys)| == 0;
    } else {
      var n := |xs| - 1;
      assert xs[n] in multiset(ys);
      var i :| 0 <= i < |ys| && ys[i] == xs[n];
      MultisetWithout(ys, i);
      MultisetWithout(xs, n);
      assert xs[..n] + xs[n + 1..] == xs[..n];
      SumWithout(ys, i, f);
      SumOfPermutation(xs[..n], ys[..i] + ys[i + 1..], f);
    }
  }

  // ---------------------------------------------------------------------------
  // Concatenation and slices
  // ---------------------------------------------------------------------------

  lemma SnocAssociates<T>(first: seq<T>, middle: seq<T>, last: seq<T>)
    ensures first + (middle + last) == first + middle + last
  {
  }

  lemma DropPrefix<T>(prefix: seq<T>, s: seq<T>, k: nat)
    requires k <= |s|
    ensures (prefix + s)[|prefix| + k..] == s[k..]
  {
  }

  lemma DropInside<T>(s: seq<T>, rest: seq<T>, k: nat)
    requires k <= |s|
    ensures (s + rest)[k..] == s[k..] + rest
  {
  }

  // ---------------------------------------------------------------------------
  // Decimal numbers
  // ---------------------------------------------------------------------------

  function Digit(d: nat): char
    requires d < 10
  {
    ['0', '1', '2', '3', '4', '5', '6', '7', '8', '9'][d]
  }

  predicate IsDigit(c: char) {
    '0' <= c <= '9'
  }

  function DigitValue(c: char): nat
    requires IsDigit(c)
  {
    (c as int) - ('0' as int)
  }

  /** `to_string` of an unsigned integer. */
  function Decimal(n: nat): (s: string)
    ensures s != [] && forall c :: c in s ==> IsDigit(c)
  {
    if n < 10 then [Digit(n)] else Decimal(n / 10) + [Digit(n % 10)]
  }

  predicate AllDigits(s: string) {
    forall c :: c in s ==> IsDigit(c)
  }

  function Value(s: string): nat
    requires AllDigits(s)
  {
    if s == [] then 0 else 10 * Value(s[..|s| - 1]) + DigitValue(s[|s| - 1])
  }

  /** `str::parse` for an unsigned integer type whose largest value is `max`. */
  function ParseUnsigned(s: string, max: nat): Option<nat> {
    var digits := if |s| > 1 && s[0] == '+' then s[1..] else s;
    if digits != [] && AllDigits(digits) && Value(digits) <= max then Some(Value(digits)) else None
  }

  lemma {:induction false} ValueOfDecimal(n: nat)
    ensures Value(Decimal(n)) == n
  {
    if n >= 10 {
      ValueOfDecimal(n / 10);
      var s := Decimal(n);
      assert s[..|s| - 1] == Decimal(n / 10);
    } else {
      assert Decimal(n)[..0] == [];
    }
  }

  lemma ParseDecimal(n: nat, max: nat)
    ensures ParseUnsigned(Decimal(n), max) == if n <= max then Some(n) else None
  {
    ValueOfDecimal(n);
    assert IsDigit(Decimal(n)[0]);
  }

  /** A plus sign in front changes nothing; on its own it is no number, nor is nothing at all. */
  lemma PlusIsSkipped(n: nat, max: nat)
    ensures ParseUnsigned("+" + Decimal(n), max) == ParseUnsigned(Decimal(n), max)
    ensures ParseUnsigned("+", max) == None && ParseUnsigned("", max) == None
  {
    var s := "+" + Decimal(n);
    assert s[1..] == Decimal(n);
    ParseDecimal(n, max);
    ValueOfDecimal(n);
    assert '+' in "+" && !IsDigit('+');
  }

  // ---------------------------------------------------------------------------
  // Searching
  // ---------------------------------------------------------------------------

  /** The index of the first `c`, or the length. */
  function IndexOf(s: string, c: char): (i: nat)
    ensures i <= |s|
    ensures i < |s| ==> s[i] == c
    ensures forall j :: 0 <= j < i ==> s[j] != c
  {
    if s == [] || s[0] == c then 0 else 1 + IndexOf(s[1..], c)
  }

  predicate StartsWith(s: string, prefix: string) {
    prefix <= s
  }

  /** The index of the first occurrence of `pattern`, or None. */
  function Find(s: string, pattern: string): (r: Option<nat>)
    ensures r.Some? ==> r.value + |pattern| <= |s|
  {
    if StartsWith(s, pattern) then Some(0)
    else if s == [] then None
    else
      match Find(s[1..], pattern)
      case None => None
      case Some(i) => Some(i + 1)
  }

  // ---------------------------------------------------------------------------
  // Words and lines
  // ---------------------------------------------------------------------------

  /** `char::is_whitespace`, the Unicode property White_Space. */
  predicate IsWhitespace(c: char) {
    var u := c as int;
    || 0x09 <= u <= 0x0d || u == 0x20 || u == 0x85 || u == 0xa0 || u == 0x1680
    || 0x2000 <= u <= 0x200a || u == 0x2028 || u == 0x2029 || u == 0x202f || u == 0x205f || u == 0x3000
  }

  predicate NoWhitespace(s: string) {
    forall c :: c in s ==> !IsWhitespace(c)
  }

  predicate IsWord(s: string) {
    s != [] && NoWhitespace(s)
  }

  /** The length of the longest prefix without whitespace. */
  function WordEnd(s: string): (n: nat)
    ensures n <= |s| && NoWhitespace(s[..n])
    ensures n < |s| ==> IsWhitespace(s[n])
  {
    if s == [] || IsWhitespace(s[0]) then 0
    else
      var n := 1 + WordEnd(s[1..]);
      assert s[..n] == [s[0]] + s[1..][..n - 1];
      n
  }

  /** `split_whitespace`, collected. */
  function Words(s: string): seq<string>
    decreases |s|
  {
    if s == [] then []
    else if IsWhitespace(s[0]) then Words(s[1..])
    else [s[..WordEnd(s)]] + Words(s[WordEnd(s)..])
  }

  lemma WordEndIsUnique(s: string, n: nat)
    requires n <= |s| && NoWhitespace(s[..n]) && (n < |s| ==> IsWhitespace(s[n]))
    ensures WordEnd(s) == n
  {
  }

  /** A word followed by nothing or by whitespace is the first word. */
  lemma FirstWord(word: string, rest: string)
    requires IsWord(word)
    requires rest == [] || IsWhitespace(rest[0])
    ensures Words(word + rest) == [word] + Words(rest)
  {
    var s := word + rest;
    assert s[..|word|] == word && s[|word|..] == rest;
    assert s[0] in word;
    WordEndIsUnique(s, |word|);
  }

  lemma LeadingSpace(space: char, rest: string)
    requires IsWhitespace(space)
    ensures Words([space] + rest) == Words(rest)
  {
    assert ([space] + rest)[1..] == rest;
  }

  /** Whatever follows a first word that whitespace ends, the first word is the same. */
  lemma FirstWordStays(s: string, rest: string)
    requires s != [] && !IsWhitespace(s[0])
    requires rest == [] || IsWhitespace(rest[0])
    ensures Words(s + rest) == [s[..WordEnd(s)]] + Words(s[WordEnd(s)..] + rest)
  {
    var n := WordEnd(s);
    DropInside(s, rest, n);
    assert (s + rest)[..n] == s[..n];
    assert n == |s| ==> s[n..] + rest == rest;
    WordEndIsUnique(s + rest, n);
  }

  /** Text that starts with whitespace adds its own words. */
  lemma {:induction false} WordsAppend(s: string, rest: string)
    requires rest == [] || IsWhitespace(rest[0])
    ensures Words(s + rest) == Words(s) + Words(rest)
    decreases |s|
  {
    if s == [] {
      assert s + rest == rest;
    } else if IsWhitespace(s[0]) {
      DropInside(s, rest, 1);
      WordsAppend(s[1..], rest);
    } else {
      var n := WordEnd(s);
      FirstWordStays(s, rest);
      WordsAppend(s[n..], rest);
      SnocAssociates([s[..n]], Words(s[n..]), Words(rest));
    }
  }

  /** Each word after a separator of one whitespace character. */
  function JoinAfter(space: char, words: seq<string>): string {
    if words == [] then [] else [space] + words[0] + JoinAfter(space, words[1..])
  }

  lemma JoinStartsWithSpace(space: char, words: seq<string>, rest: string)
    requires IsWhitespace(space) && (rest == [] || IsWhitespace(rest[0]))
    ensures var text := JoinAfter(space, words) + rest; text == [] || IsWhitespace(text[0])
  {
  }

  lemma SpacedWord(space: char, word: string, tail: string)
    requires IsWhitespace(space) && IsWord(word)
    requires tail == [] || IsWhitespace(tail[0])
    ensures Words([space] + (word + tail)) == [word] + Words(tail)
  {
    LeadingSpace(space, word + tail);
    FirstWord(word, tail);
  }

  lemma {:induction false} WordsOfJoin(space: char, words: seq<string>, rest: string)
    requires IsWhitespace(space)
    requires forall w :: w in words ==> IsWord(w)
    requires rest == [] || IsWhitespace(rest[0])
    ensures Words(JoinAfter(space, words) + rest) == words + Words(rest)
    decreases |words|
  {
    if words == [] {
      assert JoinAfter(space, words) + rest == rest;
    } else {
      var later := JoinAfter(space, words[1..]);
      WordsOfJoin(space, words[1..], rest);
      JoinStartsWithSpace(space, words[1..], rest);
      SpacedWord(space, words[0], later + rest);
      SnocAssociates([space] + words[0], later, rest);
      SnocAssociates([space], words[0], later + rest);
      SnocAssociates([words[0]], words[1..], Words(rest));
      assert [words[0]] + words[1..] == words;
    }
  }

  function StripCarriageReturn(s: string): string {
    if s != [] && s[|s| - 1] == '\r' then s[..|s| - 1] else s
  }

  /** `str::lines`, collected. */
  function Lines(s: string): seq<string>
    decreases |s|
  {
    var i := IndexOf(s, '\n');
    if s == [] then []
    else if i == |s| then [s]
    else [StripCarriageReturn(s[..i])] + Lines(s[i + 1..])
  }

  /** A line as it can stand in a text: it neither contains nor could be taken for a line end. */
  predicate IsLine(s: string) {
    '\n' !in s && (s != [] ==> s[|s| - 1] != '\r')
  }

  /** Every line followed by a newline. */
  function Unlines(lines: seq<string>): string {
    if lines == [] then [] else lines[0] + ['\n'] + Unlines(lines[1..])
  }

  lemma IndexAfterLine(line: string, rest: string)
    requires '\n' !in line
    ensures IndexOf(line + ['\n'] + rest, '\n') == |line|
  {
    var s := line + ['\n'] + rest;
    assert s[|line|] == '\n';
    assert forall j :: 0 <= j < |line| ==> s[j] == line[j] && s[j] in line;
  }

  lemma FirstLineOf(line: string, rest: string)
    requires IsLine(line)
    ensures Lines(line + ['\n'] + rest) == [line] + Lines(rest)
  {
    IndexAfterLine(line, rest);
    var s := line + ['\n'] + rest;
    assert s[..|line|] == line && s[|line| + 1..] == rest;
  }

  /** A carriage return before the newline belongs to the line end. */
  lemma FirstLineOfCrLf(line: string, rest: string)
    requires '\n' !in line
    ensures Lines(line + ['\r'] + ['\n'] + rest) == [line] + Lines(rest)
  {
    var full := line + ['\r'];
    IndexAfterLine(full, rest);
    var s := full + ['\n'] + rest;
    assert s[..|full|] == full && s[|full| + 1..] == rest;
    assert StripCarriageReturn(full) == line;
  }

  lemma {:induction false} LinesOfUnlines(lines: seq<string>)
    requires forall l :: l in lines ==> IsLine(l)
    ensures Lines(Unlines(lines)) == lines
    decreases |lines|
  {
    if lines != [] {
      FirstLineOf(lines[0], Unlines(lines[1..]));
      LinesOfUnlines(lines[1..]);
      assert lines == [lines[0]] + lines[1..];
    }
  }
}
