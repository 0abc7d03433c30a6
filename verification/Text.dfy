/**
 The few string operations of Go's `strings` package that the modelled code relies on,
 written as recursive definitions over `string`, with the laws the other modules use.
 */
module Text {

  /** `unicode.IsSpace`. */
  predicate IsSpace(c: char) {
    || '\t' <= c <= '\r'
    || c == ' '
    || c == '\U{0085}'
    || c == '\U{00A0}'
    || c == '\U{1680}'
    || '\U{2000}' <= c <= '\U{200A}'
    || c == '\U{2028}'
    || c == '\U{2029}'
    || c == '\U{202F}'
    || c == '\U{205F}'
    || c == '\U{3000}'
  }

  predicate IsDigit(c: char) {
    '0' <= c <= '9'
  }

  predicate AllDigits(s: string) {
    forall i :: 0 <= i < |s| ==> IsDigit(s[i])
  }

  /** A maximal run of non-blank characters, as `strings.Fields` returns it. */
  predicate IsWord(w: string) {
    |w| > 0 && forall i :: 0 <= i < |w| ==> !IsSpace(w[i])
  }

  predicate HasPrefix(s: string, prefix: string) {
    prefix <= s
  }

  predicate HasSuffix(s: string, suffix: string) {
    |suffix| <= |s| && s[|s| - |suffix|..] == suffix
  }

  /** Is there an occurrence of `sub` in `s` starting at position `at`? */
  predicate OccursAt(s: string, sub: string, at: nat) {
    at + |sub| <= |s| && s[at..at + |sub|] == sub
  }

  ghost predicate Contains(s: string, sub: string) {
    exists at: nat :: OccursAt(s, sub, at)
  }

  /** ASCII case mapping, as far as `strings.ToLower` matters here. */
  function LowerChar(c: char): char {
    if 'A' <= c <= 'Z' then ((c as int) + 32) as char else c
  }

  function ToLower(s: string): string {
    seq(|s|, i requires 0 <= i < |s| => LowerChar(s[i]))
  }

  // ---------------------------------------------------------------- trimming

  function TrimLeftSpace(s: string): string {
    if s != "" && IsSpace(s[0]) then TrimLeftSpace(s[1..]) else s
  }

  function TrimRightSpace(s: string): string {
    if s != "" && IsSpace(s[|s| - 1]) then TrimRightSpace(s[..|s| - 1]) else s
  }

  /** `strings.TrimSpace`. */
  function TrimSpace(s: string): string {
    TrimRightSpace(TrimLeftSpace(s))
  }

  /** `strings.TrimRight(s, string(c))`. */
  function TrimRight(s: string, c: char): string {
    if s != "" && s[|s| - 1] == c then TrimRight(s[..|s| - 1], c) else s
  }

  predicate Trimmed(s: string) {
    s != "" ==> !IsSpace(s[0]) && !IsSpace(s[|s| - 1])
  }

  lemma TrimRightSpaceIsPrefix(s: string)
    ensures TrimRightSpace(s) <= s
    ensures var t := TrimRightSpace(s); t != "" ==> !IsSpace(t[|t| - 1])
  {
  }

  lemma TrimSpaceIsTrimmed(s: string)
    ensures Trimmed(TrimSpace(s))
  {
    TrimLeftSpaceStart(s);
    TrimRightSpaceIsPrefix(TrimLeftSpace(s));
  }

  lemma TrimLeftSpaceStart(s: string)
    ensures var t := TrimLeftSpace(s); t != "" ==> !IsSpace(t[0])
  {
  }

  lemma TrimSpaceKeepsTrimmed(s: string)
    requires Trimmed(s)
    ensures TrimSpace(s) == s
  {
  }

  lemma {:induction false} TrimRightFacts(s: string, c: char)
    ensures var t := TrimRight(s, c); t <= s && (t != "" ==> t[|t| - 1] != c)
    ensures TrimRight(TrimRight(s, c), c) == TrimRight(s, c)
  {
    if s != "" && s[|s| - 1] == c {
      TrimRightFacts(s[..|s| - 1], c);
    }
  }

  // ------------------------------------------------------------------ fields

  /** `strings.Fields`: the words of `s`, separated by runs of white space. */
  function Fields(s: string): (words: seq<string>)
    ensures s != "" && !IsSpace(s[0]) ==> words != []
    ensures forall i :: 0 <= i < |words| ==> IsWord(words[i])
  {
    if s == "" then []
    else if IsSpace(s[0]) then Fields(s[1..])
    else if |s| == 1 || IsSpace(s[1]) then [[s[0]]] + Fields(s[1..])
    else
      var rest := Fields(s[1..]);
      [[s[0]] + rest[0]] + rest[1..]
  }

  /** White space between two texts separates their words. */
  lemma {:induction false} FieldsOfConcat(a: string, blank: char, b: string)
    requires IsSpace(blank)
    ensures Fields(a + [blank] + b) == Fields(a) + Fields(b)
  {
    var s := a + [blank] + b;
    if a == "" {
      assert s[1..] == b;
    } else {
      assert s[1..] == a[1..] + [blank] + b;
      FieldsOfConcat(a[1..], blank, b);
    }
  }

  lemma {:induction false} FieldsOfWord(w: string)
    requires IsWord(w)
    ensures Fields(w) == [w]
  {
    assert [w[0]] + w[1..] == w;
    if |w| == 1 {
      assert w[1..] == "" && [w[0]] == w;
    } else {
      FieldsOfWord(w[1..]);
    }
  }

  lemma {:induction false} FieldsIgnoreRightBlanks(s: string)
    ensures Fields(TrimRightSpace(s)) == Fields(s)
  {
    if s != "" && IsSpace(s[|s| - 1]) {
      FieldsIgnoreRightBlanks(s[..|s| - 1]);
      FieldsOfConcat(s[..|s| - 1], s[|s| - 1], "");
      assert s[..|s| - 1] + [s[|s| - 1]] + "" == s;
    }
  }

  lemma {:induction false} FieldsIgnoreLeftBlanks(s: string)
    ensures Fields(TrimLeftSpace(s)) == Fields(s)
  {
    if s != "" && IsSpace(s[0]) {
      FieldsIgnoreLeftBlanks(s[1..]);
    }
  }

  lemma FieldsIgnoreTrim(s: string)
    ensures Fields(TrimSpace(s)) == Fields(s)
  {
    FieldsIgnoreLeftBlanks(s);
    FieldsIgnoreRightBlanks(TrimLeftSpace(s));
  }

  lemma {:induction false} FieldsIgnoreTrailing(s: string, c: char)
    requires IsSpace(c)
    ensures Fields(TrimRight(s, c)) == Fields(s)
  {
    if s != "" && s[|s| - 1] == c {
      FieldsIgnoreTrailing(s[..|s| - 1], c);
      FieldsOfConcat(s[..|s| - 1], c, "");
      assert s[..|s| - 1] + [c] + "" == s;
    }
  }

  /** A text with no words trims to nothing, and otherwise both start with the same character. */
  lemma FirstFieldStartsText(s: string)
    requires Trimmed(s)
    ensures s == "" <==> Fields(s) == []
    ensures s != "" ==> Fields(s)[0][0] == s[0]
  {
  }

  // ------------------------------------------------------------ split and join

  /** `strings.Split(s, string(sep))`. */
  function Split(s: string, sep: char): (parts: seq<string>)
    ensures parts != []
    ensures forall i :: 0 <= i < |parts| ==> sep !in parts[i]
  {
    if s == "" then [""]
    else
      var rest := Split(s[1..], sep);
      if s[0] == sep then [""] + rest
      else [[s[0]] + rest[0]] + rest[1..]
  }

  /** `strings.Join(parts, sep)`. */
  function Join(parts: seq<string>, sep: string): string {
    if |parts| == 0 then ""
    else if |parts| == 1 then parts[0]
    else parts[0] + sep + Join(parts[1..], sep)
  }

  lemma {:induction false} SplitOfConcat(a: string, sep: char, b: string)
    ensures Split(a + [sep] + b, sep) == Split(a, sep) + Split(b, sep)
  {
    var s := a + [sep] + b;
    if a == "" {
      assert s[1..] == b;
    } else {
      assert s[1..] == a[1..] + [sep] + b;
      SplitOfConcat(a[1..], sep, b);
    }
  }

  lemma {:induction false} SplitWithoutSeparator(s: string, sep: char)
    requires sep !in s
    ensures Split(s, sep) == [s]
  {
    if s != "" {
      SplitWithoutSeparator(s[1..], sep);
      assert [s[0]] + s[1..] == s;
    }
  }

  function WithSuffix(parts: seq<string>, suffix: string): seq<string>
    requires parts != []
  {
    parts[..|parts| - 1] + [parts[|parts| - 1] + suffix]
  }

  lemma WithSuffixOfCons(first: string, rest: seq<string>, suffix: string)
    requires rest != []
    ensures WithSuffix([first] + rest, suffix) == [first] + WithSuffix(rest, suffix)
  {
    var n := |rest| - 1;
    assert ([first] + rest)[..n + 1] == [first] + rest[..n] && ([first] + rest)[n + 1] == rest[n];
  }

  lemma WithSuffixOfHead(c: char, parts: seq<string>, suffix: string)
    requires parts != []
    ensures WithSuffix([[c] + parts[0]] + parts[1..], suffix) ==
            [[c] + WithSuffix(parts, suffix)[0]] + WithSuffix(parts, suffix)[1..]
  {
    if |parts| == 1 {
      assert WithSuffix(parts, suffix) == [parts[0] + suffix];
      assert [c] + (parts[0] + suffix) == ([c] + parts[0]) + suffix;
    } else {
      WithSuffixOfCons([c] + parts[0], parts[1..], suffix);
      WithSuffixOfCons(parts[0], parts[1..], suffix);
      assert [parts[0]] + parts[1..] == parts;
    }
  }

  /** What follows the last separator goes with the last part. */
  lemma {:induction false} SplitBeforeSuffix(s: string, sep: char, suffix: string)
    requires sep !in suffix
    ensures Split(s + suffix, sep) == WithSuffix(Split(s, sep), suffix)
  {
    if s == "" {
      assert s + suffix == suffix;
      SplitWithoutSeparator(suffix, sep);
    } else {
      assert (s + suffix)[0] == s[0] && (s + suffix)[1..] == s[1..] + suffix;
      SplitBeforeSuffix(s[1..], sep, suffix);
      WithSuffixOfCons("", Split(s[1..], sep), suffix);
      WithSuffixOfHead(s[0], Split(s[1..], sep), suffix);
    }
  }

  lemma {:induction false} SplitOfJoin(parts: seq<string>, sep: char)
    requires parts != [] && forall i :: 0 <= i < |parts| ==> sep !in parts[i]
    ensures Split(Join(parts, [sep]), sep) == parts
  {
    SplitWithoutSeparator(parts[0], sep);
    if |parts| > 1 {
      SplitOfJoin(parts[1..], sep);
      SplitOfConcat(parts[0], sep, Join(parts[1..], [sep]));
      assert [parts[0]] + parts[1..] == parts;
    }
  }

  lemma {:induction false} JoinOfSplit(s: string, sep: char)
    ensures Join(Split(s, sep), [sep]) == s
  {
    if s != "" {
      JoinOfSplit(s[1..], sep);
    }
  }

  lemma {:induction false} JoinOfConcat(a: seq<string>, b: seq<string>, sep: string)
    requires a != [] && b != []
    ensures Join(a + b, sep) == Join(a, sep) + sep + Join(b, sep)
  {
    if |a| == 1 {
      assert (a + b)[1..] == b;
    } else {
      JoinOfConcat(a[1..], b, sep);
      assert (a + b)[1..] == a[1..] + b;
    }
  }

  /** Joining words with single blanks and splitting them again is the identity. */
  lemma {:induction false} FieldsOfJoin(words: seq<string>)
    requires forall i :: 0 <= i < |words| ==> IsWord(words[i])
    ensures Fields(Join(words, " ")) == words
  {
    if |words| == 1 {
      FieldsOfWord(words[0]);
    } else if |words| > 1 {
      FieldsOfJoin(words[1..]);
      FieldsOfWord(words[0]);
      FieldsOfConcat(words[0], ' ', Join(words[1..], " "));
      assert [words[0]] + words[1..] == words;
    }
  }

  // --------------------------------------------------------------- replacement

  /** `strings.ReplaceAll`: non-overlapping occurrences of `old`, from the left. */
  function ReplaceAll(s: string, what: string, with: string): string
    decreases |s|
  {
    if what == "" then with + (if s == "" then "" else [s[0]] + ReplaceAll(s[1..], what, with))
    else if s == "" then ""
    else if HasPrefix(s, what) then with + ReplaceAll(s[|what|..], what, with)
    else [s[0]] + ReplaceAll(s[1..], what, with)
  }

  lemma {:induction false} ReplaceAllAbsent(s: string, what: string, with: string)
    requires what != "" && !Contains(s, what)
    ensures ReplaceAll(s, what, with) == s
  {
    if s != "" {
      assert !OccursAt(s, what, 0);
      forall at: nat | OccursAt(s[1..], what, at)
        ensures false
      {
        assert OccursAt(s, what, at + 1);
      }
      ReplaceAllAbsent(s[1..], what, with);
    }
  }

  // -------------------------------------------------------------------- numbers

  /** The value of a string of decimal digits. */
  function DecimalValue(digits: string): nat
    requires AllDigits(digits)
  {
    if digits == "" then 0
    else DecimalValue(digits[..|digits| - 1]) * 10 + (digits[|digits| - 1] as int - '0' as int)
  }

  /** `strconv.Itoa` on the natural numbers. */
  function Itoa(n: nat): (s: string)
    ensures s != "" && AllDigits(s)
    ensures DecimalValue(s) == n
  {
    var last := (n % 10 + '0' as int) as char;
    if n < 10 then [last] else Itoa(n / 10) + [last]
  }
}
