/** String helpers shared by the whole model: the JavaScript/Python string operations the
    application relies on (trim, toLowerCase, split, join, slicing, decimal conversion),
    restricted to ASCII whitespace and ASCII letters, plus the lexicographic order that
    `localeCompare` induces on digit-and-hyphen date strings. */
module Text {
  import opened Wrappers

  /** ASCII whitespace: what `String.prototype.trim` and Python's `str.split()` strip here. */
  predicate IsSpace(c: char) {
    c == ' ' || c == '\t' || c == '\n' || c == '\r' || c == '\U{B}' || c == '\U{C}'
  }

  predicate IsDigit(c: char) { '0' <= c <= '9' }

  /** A (possibly empty) string of decimal digits. */
  predicate IsDigits(s: string) { forall i :: 0 <= i < |s| ==> IsDigit(s[i]) }

  function TrimStart(s: string): (r: string)
    ensures |r| <= |s| && r == s[|s| - |r|..]
    ensures r == [] || !IsSpace(r[0])
    ensures forall i :: 0 <= i < |s| - |r| ==> IsSpace(s[i])
  {
    if |s| > 0 && IsSpace(s[0]) then TrimStart(s[1..]) else s
  }

  function TrimEnd(s: string): (r: string)
    ensures |r| <= |s| && r == s[..|r|]
    ensures r == [] || !IsSpace(r[|r| - 1])
    ensures forall i :: |r| <= i < |s| ==> IsSpace(s[i])
  {
    if |s| > 0 && IsSpace(s[|s| - 1]) then TrimEnd(s[..|s| - 1]) else s
  }

  /** `s.trim()` / Python `s.strip()` on ASCII whitespace: the longest infix with no
      whitespace at either end, obtained by dropping only whitespace. */
  function Trim(s: string): (r: string)
    ensures |r| <= |s|
    ensures r == [] || (!IsSpace(r[0]) && !IsSpace(r[|r| - 1]))
    ensures exists k :: TrimmedAt(s, r, k)
  {
    var t := TrimStart(s);
    var r := TrimEnd(t);
    PrefixOfSuffix(s, t, r);
    r
  }

  /** r occurs in s at k, and everything in s before and after it is whitespace. */
  predicate TrimmedAt(s: string, r: string, k: int) {
    && InfixAt(s, r, k)
    && (forall i :: 0 <= i < k ==> IsSpace(s[i]))
    && (forall i :: k + |r| <= i < |s| ==> IsSpace(s[i]))
  }

  /** Cutting whitespace off the front of s and then off the back leaves an infix of s with
      only whitespace around it. */
  lemma PrefixOfSuffix(s: string, t: string, r: string)
    requires |t| <= |s| && t == s[|s| - |t|..] && |r| <= |t| && r == t[..|r|]
    requires forall i :: 0 <= i < |s| - |t| ==> IsSpace(s[i])
    requires forall i :: |r| <= i < |t| ==> IsSpace(t[i])
    ensures TrimmedAt(s, r, |s| - |t|)
  {
    var k := |s| - |t|;
    assert s[k..][..|r|] == s[k..k + |r|];
    assert forall i :: k + |r| <= i < |s| ==> s[i] == t[i - k];
  }

  /** r occurs in s starting at position k. */
  predicate InfixAt(s: string, r: string, k: int) {
    0 <= k <= |s| - |r| && s[k..k + |r|] == r
  }

  /** A blank string: nothing but whitespace, so that `!s.trim()` holds. */
  predicate IsBlank(s: string) {
    |s| == 0 || (IsSpace(s[0]) && IsBlank(s[1..]))
  }

  lemma {:induction false} BlankIffAllSpace(s: string)
    ensures IsBlank(s) <==> forall i :: 0 <= i < |s| ==> IsSpace(s[i])
  {
    if |s| > 0 {
      BlankIffAllSpace(s[1..]);
      assert forall i :: 1 <= i < |s| ==> s[i] == s[1..][i - 1];
    }
  }

  lemma {:induction false} TrimStartOfSpaces(s: string)
    requires forall i :: 0 <= i < |s| ==> IsSpace(s[i])
    ensures TrimStart(s) == []
  {
    if |s| > 0 {
      TrimStartOfSpaces(s[1..]);
    }
  }

  /** Trimming leaves nothing exactly when the string is blank. */
  lemma BlankIffTrimEmpty(s: string)
    ensures IsBlank(s) <==> Trim(s) == []
  {
    BlankIffAllSpace(s);
    if forall i :: 0 <= i < |s| ==> IsSpace(s[i]) {
      TrimStartOfSpaces(s);
    }
  }

  lemma {:induction false} TrimStartNoLeadingSpace(s: string)
    requires s == [] || !IsSpace(s[0])
    ensures TrimStart(s) == s
  {
  }

  lemma {:induction false} TrimEndNoTrailingSpace(s: string)
    requires s == [] || !IsSpace(s[|s| - 1])
    ensures TrimEnd(s) == s
  {
  }

  /** Trimming twice is trimming once. */
  lemma TrimIdempotent(s: string)
    ensures Trim(Trim(s)) == Trim(s)
  {
    var r := Trim(s);
    TrimStartNoLeadingSpace(r);
    TrimEndNoTrailingSpace(r);
  }

  /** `toLowerCase` on one character, for the ASCII letters A-Z. */
  function LowerChar(c: char): char {
    if 'A' <= c <= 'Z' then (c as int + 32) as char else c
  }

  /** `s.toLowerCase()` restricted to ASCII letters. */
  function Lower(s: string): string {
    seq(|s|, i requires 0 <= i < |s| => LowerChar(s[i]))
  }

  predicate HasNoUpper(s: string) { forall i :: 0 <= i < |s| ==> !('A' <= s[i] <= 'Z') }

  lemma LowerProperties(s: string)
    ensures |Lower(s)| == |s|
    ensures HasNoUpper(Lower(s))
    ensures Lower(Lower(s)) == Lower(s)
    ensures HasNoUpper(s) ==> Lower(s) == s
  {
  }

  /** `haystack.includes(needle)` / Python `needle in haystack`, scanning start positions. */
  predicate Contains(haystack: string, needle: string) {
    StartsWith(haystack, needle) || (|haystack| > 0 && Contains(haystack[1..], needle))
  }

  /** The scan finds the needle exactly when it occurs at some position. */
  lemma {:induction false} ContainsIffInfix(haystack: string, needle: string)
    ensures Contains(haystack, needle) <==> exists k :: InfixAt(haystack, needle, k)
  {
    if StartsWith(haystack, needle) {
      assert InfixAt(haystack, needle, 0);
    } else if |haystack| > 0 {
      var t := haystack[1..];
      ContainsIffInfix(t, needle);
      forall k | InfixAt(t, needle, k)
        ensures InfixAt(haystack, needle, k + 1)
      {
      }
      forall k | InfixAt(haystack, needle, k)
        ensures InfixAt(t, needle, k - 1)
      {
        InfixPastStart(haystack, needle, k);
      }
    }
  }

  /** An occurrence that is not at the start is one in the tail, one place earlier. */
  lemma InfixPastStart(s: string, r: string, k: int)
    requires |s| > 0 && !StartsWith(s, r) && InfixAt(s, r, k)
    ensures k > 0 && InfixAt(s[1..], r, k - 1)
  {
    assert |r| <= |s| && s[..|r|] != r;
    assert s[0..|r|] == s[..|r|];
    assert k > 0;
    assert s[1..][k - 1..k - 1 + |r|] == s[k..k + |r|];
  }

  predicate StartsWith(s: string, prefix: string) {
    |prefix| <= |s| && s[..|prefix|] == prefix
  }

  lemma ContainsItself(s: string)
    ensures Contains(s, s)
  {
  }

  /** JavaScript `slice(0, n)` / Python `[:n]` for n >= 0. */
  function Take<T>(s: seq<T>, n: nat): (r: seq<T>)
    ensures |r| == if n <= |s| then n else |s|
    ensures r == s[..|r|]
  {
    if n <= |s| then s[..n] else s
  }

  /** `s.replaceAll(c, "")` / `s.replace(/c/g, "")` for a single character c. */
  function RemoveChar(s: string, c: char): (r: string)
    ensures c !in r
    ensures |r| <= |s|
  {
    if |s| == 0 then [] else (if s[0] == c then [] else [s[0]]) + RemoveChar(s[1..], c)
  }

  /** Removing a character distributes over concatenation. */
  lemma {:induction false} RemoveCharConcat(a: string, b: string, c: char)
    ensures RemoveChar(a + b, c) == RemoveChar(a, c) + RemoveChar(b, c)
  {
    if |a| > 0 {
      assert (a + b)[1..] == a[1..] + b;
      RemoveCharConcat(a[1..], b, c);
    } else {
      assert a + b == b;
    }
  }

  /** A string without the character is left as it is. */
  lemma {:induction false} RemoveCharAbsent(s: string, c: char)
    requires c !in s
    ensures RemoveChar(s, c) == s
  {
    if |s| > 0 {
      RemoveCharAbsent(s[1..], c);
      assert s == [s[0]] + s[1..];
    }
  }

  /** JavaScript `s.slice(k)` for k >= 0: everything from position k on, or nothing. */
  function DropFront<T>(s: seq<T>, k: nat): (r: seq<T>)
    ensures |r| == if k <= |s| then |s| - k else 0
    ensures k <= |s| ==> r == s[k..]
  {
    if k <= |s| then s[k..] else []
  }

  /** JavaScript `s.substring(a, b)` for 0 <= a <= b: indices past the end are clamped. */
  function Substring<T>(s: seq<T>, a: nat, b: nat): (r: seq<T>)
    requires a <= b
    ensures b <= |s| ==> r == s[a..b]
    ensures |r| <= b - a
  {
    var hi := if b <= |s| then b else |s|;
    var lo := if a <= hi then a else hi;
    s[lo..hi]
  }

  /** `String(n)` for an integer: a minus sign before the digits of a negative number. */
  function IntToString(n: int): (r: string)
    ensures |r| >= 1
    ensures n >= 0 ==> r == NatToString(n)
    ensures n < 0 ==> r == "-" + NatToString(-n)
  {
    if n >= 0 then NatToString(n) else "-" + NatToString(-n)
  }

  /** JavaScript `s.slice(-2)`: the last two characters, or the whole of a shorter string. */
  function LastTwo<T>(s: seq<T>): (r: seq<T>)
    ensures |r| == if |s| >= 2 then 2 else |s|
    ensures r == s[|s| - |r|..]
  {
    if |s| >= 2 then s[|s| - 2..] else s
  }

  /** `parts.join(sep)` / Python `sep.join(parts)`. */
  function Join(parts: seq<string>, sep: string): string {
    if |parts| == 0 then ""
    else if |parts| == 1 then parts[0]
    else parts[0] + sep + Join(parts[1..], sep)
  }

  /** JavaScript `s.split(sep)` for a one-character separator: always at least one field. */
  function SplitOn(s: string, sep: char): (r: seq<string>)
    ensures |r| >= 1
    ensures forall i :: 0 <= i < |r| ==> sep !in r[i]
  {
    if |s| == 0 then [""]
    else
      var rest := SplitOn(s[1..], sep);
      if s[0] == sep then [""] + rest else [[s[0]] + rest[0]] + rest[1..]
  }

  /** Splitting on a character and joining with it gives the string back. */
  lemma {:induction false} JoinSplitOn(s: string, sep: char)
    ensures Join(SplitOn(s, sep), [sep]) == s
  {
    if |s| > 0 {
      var rest := SplitOn(s[1..], sep);
      JoinSplitOn(s[1..], sep);
      if s[0] != sep {
        if |rest| == 1 {
          assert SplitOn(s, sep) == [[s[0]] + rest[0]];
        } else {
          assert SplitOn(s, sep) == [[s[0]] + rest[0]] + rest[1..];
          assert rest == [rest[0]] + rest[1..];
          assert Join(rest, [sep]) == rest[0] + [sep] + Join(rest[1..], [sep]);
        }
      }
    }
  }

  /** A field without the separator, then the separator: the field comes first and the
      rest is split as before. */
  lemma {:induction false} SplitOnField(a: string, sep: char, b: string)
    requires sep !in a
    ensures SplitOn(a + [sep] + b, sep) == [a] + SplitOn(b, sep)
  {
    if |a| > 0 {
      SplitOnField(a[1..], sep, b);
      assert (a + [sep] + b)[1..] == a[1..] + [sep] + b;
      assert [a[0]] + a[1..] == a;
    } else {
      assert (a + [sep] + b)[1..] == b;
    }
  }

  /** A string without the separator is one field. */
  lemma {:induction false} SplitOnWhole(a: string, sep: char)
    requires sep !in a
    ensures SplitOn(a, sep) == [a]
  {
    if |a| > 0 {
      SplitOnWhole(a[1..], sep);
      assert [a[0]] + a[1..] == a;
    }
  }

  /** Joining fields that do not hold the separator and splitting again gives the fields
      back. */
  lemma {:induction false} SplitOnJoin(parts: seq<string>, sep: char)
    requires |parts| >= 1
    requires forall i :: 0 <= i < |parts| ==> sep !in parts[i]
    ensures SplitOn(Join(parts, [sep]), sep) == parts
  {
    if |parts| == 1 {
      SplitOnWhole(parts[0], sep);
    } else {
      SplitOnJoin(parts[1..], sep);
      SplitOnField(parts[0], sep, Join(parts[1..], [sep]));
      assert [parts[0]] + parts[1..] == parts;
    }
  }

  /** Each part occurs in the joined text. */
  lemma {:induction false} JoinHasPart(parts: seq<string>, sep: string, i: nat)
    requires i < |parts|
    ensures exists k :: InfixAt(Join(parts, sep), parts[i], k)
  {
    var joined := Join(parts, sep);
    if i == 0 {
      assert InfixAt(joined, parts[0], 0);
    } else {
      JoinHasPart(parts[1..], sep, i - 1);
      var k :| InfixAt(Join(parts[1..], sep), parts[i], k);
      var shift := |parts[0]| + |sep|;
      assert joined == parts[0] + sep + Join(parts[1..], sep);
      assert joined[shift..] == Join(parts[1..], sep);
      assert InfixAt(joined, parts[i], shift + k);
    }
  }

  /** Python's f"'{s}'": the text in single quotes. */
  function Quoted(s: string): (r: string)
    ensures |r| == |s| + 2 && r[0] == '\'' && r[|r| - 1] == '\'' && r[1..|r| - 1] == s
  {
    "'" + s + "'"
  }

  /** Splitting a quoted text that has no quote of its own at the quotes gives it back as
      the second field. */
  lemma QuotedReadBack(s: string, rest: string)
    requires '\'' !in s
    ensures SplitOn(Quoted(s) + rest, '\'')[1] == s
  {
    assert Quoted(s) + rest == [] + ['\''] + (s + ['\''] + rest);
    SplitOnField([], '\'', s + ['\''] + rest);
    SplitOnField(s, '\'', rest);
  }

  /** The maximal prefix of non-whitespace characters. */
  function Word(s: string): (w: string)
    ensures |w| <= |s| && w == s[..|w|]
    ensures forall i :: 0 <= i < |w| ==> !IsSpace(w[i])
    ensures |w| < |s| ==> IsSpace(s[|w|])
  {
    if |s| == 0 || IsSpace(s[0]) then [] else [s[0]] + Word(s[1..])
  }

  /** Python `s.split()` with no argument: the maximal runs of non-whitespace characters
      (see SplitWordsMeaning). */
  function SplitWords(s: string): (r: seq<string>)
    ensures forall i :: 0 <= i < |r| ==> IsWord(r[i])
    decreases |s|
  {
    var t := TrimStart(s);
    if t == [] then []
    else
      var w := Word(t);
      FirstWord(t);
      var rest := SplitWords(t[|w|..]);
      AllWords(w, rest);
      [w] + rest
  }

  /** A text that does not start with whitespace starts with a word. */
  lemma FirstWord(t: string)
    requires t != [] && !IsSpace(t[0])
    ensures IsWord(Word(t))
  {
  }

  lemma AllWords(w: string, rest: seq<string>)
    requires IsWord(w) && forall i :: 0 <= i < |rest| ==> IsWord(rest[i])
    ensures forall i :: 0 <= i < |[w] + rest| ==> IsWord(([w] + rest)[i])
  {
    var r := [w] + rest;
    assert forall i :: 1 <= i < |r| ==> r[i] == rest[i - 1];
  }

  /** A non-empty run of non-whitespace characters. */
  predicate IsWord(w: string) {
    |w| > 0 && forall j :: 0 <= j < |w| ==> !IsSpace(w[j])
  }

  /** w occurs in s at k as a maximal run of non-whitespace characters. */
  predicate RunAt(s: string, w: string, k: int) {
    && IsWord(w) && InfixAt(s, w, k)
    && (k == 0 || IsSpace(s[k - 1]))
    && (k + |w| == |s| || IsSpace(s[k + |w|]))
  }

  /** w is one of the maximal runs of non-whitespace characters of s. */
  ghost predicate IsRunOf(s: string, w: string) {
    exists k :: RunAt(s, w, k)
  }

  /** The characters of s that are not whitespace, in order. */
  function NonSpace(s: string): string {
    if |s| == 0 then [] else (if IsSpace(s[0]) then [] else [s[0]]) + NonSpace(s[1..])
  }

  /** `s.split()` takes the whitespace out of s and nothing else: the words glued together
      are the non-whitespace characters of s in order, each word is a maximal run of them in
      s, and there are no words exactly when s is blank. */
  lemma SplitWordsMeaning(s: string)
    ensures Join(SplitWords(s), "") == NonSpace(s)
    ensures forall i :: 0 <= i < |SplitWords(s)| ==> IsRunOf(s, SplitWords(s)[i])
    ensures SplitWords(s) == [] <==> forall i :: 0 <= i < |s| ==> IsSpace(s[i])
  {
    SplitWordsJoin(s);
    SplitWordsRuns(s);
    if TrimStart(s) == [] {
      SplitBlank(s);
    } else {
      var k, w, u := SplitUnfold(s);
      assert s[k..][0] == w[0];
    }
  }

  lemma {:induction false} SplitWordsJoin(s: string)
    ensures Join(SplitWords(s), "") == NonSpace(s)
    decreases |s|
  {
    if TrimStart(s) == [] {
      SplitBlank(s);
    } else {
      var k, w, u := SplitUnfold(s);
      SplitWordsJoin(u);
      JoinStep(s, k, w, u, SplitWords(u));
    }
  }

  lemma {:induction false} SplitWordsRuns(s: string)
    ensures forall i :: 0 <= i < |SplitWords(s)| ==> IsRunOf(s, SplitWords(s)[i])
    decreases |s|
  {
    if TrimStart(s) == [] {
      SplitBlank(s);
    } else {
      var k, w, u := SplitUnfold(s);
      SplitWordsRuns(u);
      RunsStep(s, k, w, u, SplitWords(u), SplitWords(s));
    }
  }

  /** s is whitespace up to k, then the word w, then u, which is empty or starts with
      whitespace. */
  predicate SplitShape(s: string, k: nat, w: string, u: string) {
    && k <= |s| && s[k..] == w + u && IsWord(w) && (u == [] || IsSpace(u[0]))
    && forall i :: 0 <= i < k ==> IsSpace(s[i])
  }

  /** A text with a word in it splits into leading whitespace, that word, and the rest. */
  lemma SplitUnfold(s: string) returns (k: nat, w: string, u: string)
    requires TrimStart(s) != []
    ensures SplitShape(s, k, w, u)
    ensures |u| < |s| && SplitWords(s) == [w] + SplitWords(u)
  {
    var t := TrimStart(s);
    k := |s| - |t|;
    w := Word(t);
    FirstWord(t);
    u := t[|w|..];
    WordThenRest(t, |w|);
  }

  lemma SplitBlank(s: string)
    requires TrimStart(s) == []
    ensures SplitWords(s) == [] && NonSpace(s) == []
    ensures forall i :: 0 <= i < |s| ==> IsSpace(s[i])
  {
    NonSpaceOfSpaces(s);
  }

  lemma WordThenRest(t: string, n: nat)
    requires n <= |t|
    ensures t == t[..n] + t[n..]
  {
  }

  lemma JoinStep(s: string, k: nat, w: string, u: string, rest: seq<string>)
    requires SplitShape(s, k, w, u)
    requires Join(rest, "") == NonSpace(u)
    ensures Join([w] + rest, "") == NonSpace(s)
  {
    var t := s[k..];
    assert s == s[..k] + t;
    NonSpaceOfSpaces(s[..k]);
    NonSpaceAppend(s[..k], t);
    NonSpaceAppend(w, u);
    NonSpaceOfWord(w);
    JoinNoSepFront(w, rest);
  }

  lemma RunsStep(s: string, k: nat, w: string, u: string, rest: seq<string>, r: seq<string>)
    requires SplitShape(s, k, w, u)
    requires forall i :: 0 <= i < |rest| ==> IsRunOf(u, rest[i])
    requires r == [w] + rest
    ensures forall i :: 0 <= i < |r| ==> IsRunOf(s, r[i])
  {
    var off := k + |w|;
    assert s[k..off] == w by {
      assert s[k..][..|w|] == s[k..off];
    }
    assert u == s[off..] by {
      assert s[k..][|w|..] == s[off..];
    }
    assert off < |s| ==> s[off] == u[0];
    FirstRun(s, k, w);
    RunsInSuffix(s, off, u, rest);
    RunsCons(s, w, k, rest);
  }

  /** A word at the front of the text left after the leading whitespace, followed by
      whitespace or the end, is a maximal run. */
  lemma FirstRun(s: string, k: int, w: string)
    requires 0 <= k <= |s| - |w| && s[k..k + |w|] == w && IsWord(w)
    requires forall i :: 0 <= i < k ==> IsSpace(s[i])
    requires k + |w| < |s| ==> IsSpace(s[k + |w|])
    ensures RunAt(s, w, k)
  {
  }

  /** Maximal runs of a suffix of s that follows whitespace are maximal runs of s. */
  lemma RunsInSuffix(s: string, off: int, u: string, ws: seq<string>)
    requires 0 <= off <= |s| && u == s[off..] && (0 < off < |s| ==> IsSpace(s[off]))
    requires forall i :: 0 <= i < |ws| ==> IsRunOf(u, ws[i])
    ensures forall i :: 0 <= i < |ws| ==> IsRunOf(s, ws[i])
  {
    forall i | 0 <= i < |ws|
      ensures IsRunOf(s, ws[i])
    {
      var j :| RunAt(s[off..], ws[i], j);
      RunInSuffix(s, off, ws[i], j);
    }
  }

  lemma RunInSuffix(s: string, off: int, w: string, j: int)
    requires 0 <= off <= |s| && (0 < off < |s| ==> IsSpace(s[off]))
    requires RunAt(s[off..], w, j)
    ensures RunAt(s, w, off + j)
  {
    var u := s[off..];
    assert u[j..j + |w|] == s[off + j..off + j + |w|];
    assert w[0] == u[j];
    assert j > 0 ==> u[j - 1] == s[off + j - 1];
    assert j + |w| < |u| ==> u[j + |w|] == s[off + j + |w|];
  }

  lemma RunsCons(s: string, w: string, k: int, rest: seq<string>)
    requires RunAt(s, w, k)
    requires forall i :: 0 <= i < |rest| ==> IsRunOf(s, rest[i])
    ensures forall i :: 0 <= i < |[w] + rest| ==> IsRunOf(s, ([w] + rest)[i])
  {
    var r := [w] + rest;
    assert IsRunOf(s, w);
    assert forall i :: 1 <= i < |r| ==> r[i] == rest[i - 1];
  }

  /** Joining with no separator puts the first part in front of the rest joined. */
  lemma JoinNoSepFront(w: string, rest: seq<string>)
    ensures Join([w] + rest, "") == w + Join(rest, "")
  {
    var p := [w] + rest;
    assert p[0] == w && p[1..] == rest;
    assert w + "" == w;
  }

  lemma {:induction false} NonSpaceAppend(a: string, b: string)
    ensures NonSpace(a + b) == NonSpace(a) + NonSpace(b)
  {
    if |a| == 0 {
      assert a + b == b;
    } else {
      assert (a + b)[1..] == a[1..] + b;
      NonSpaceAppend(a[1..], b);
    }
  }

  lemma {:induction false} NonSpaceOfSpaces(s: string)
    requires forall i :: 0 <= i < |s| ==> IsSpace(s[i])
    ensures NonSpace(s) == []
  {
    if |s| > 0 {
      NonSpaceOfSpaces(s[1..]);
    }
  }

  lemma {:induction false} NonSpaceOfWord(w: string)
    requires forall i :: 0 <= i < |w| ==> !IsSpace(w[i])
    ensures NonSpace(w) == w
  {
    if |w| > 0 {
      NonSpaceOfWord(w[1..]);
      assert [w[0]] + w[1..] == w;
    }
  }

  lemma {:induction false} SplitWordsOfBlank(s: string)
    requires forall i :: 0 <= i < |s| ==> IsSpace(s[i])
    ensures SplitWords(s) == []
  {
    TrimStartOfSpaces(s);
  }

  /** `String(n)` / `n.toString()` for a natural number. */
  function NatToString(n: nat): (r: string)
    ensures |r| >= 1 && IsDigits(r)
    ensures |r| > 1 ==> r[0] != '0'
  {
    if n < 10 then [('0' as int + n) as char]
    else NatToString(n / 10) + [('0' as int + n % 10) as char]
  }

  /** `Number(s)` / `parseInt(s)` on a string of decimal digits (the empty string reads as 0,
      as `Number("")` does). */
  function DigitsValue(s: string): nat
    requires IsDigits(s)
  {
    if |s| == 0 then 0 else DigitsValue(s[..|s| - 1]) * 10 + (s[|s| - 1] as int - '0' as int)
  }

  /** Decimal printing and digit parsing are inverse. */
  lemma {:induction false} DigitsValueOfNatToString(n: nat)
    ensures DigitsValue(NatToString(n)) == n
  {
    var r := NatToString(n);
    if n >= 10 {
      DigitsValueOfNatToString(n / 10);
      assert r[..|r| - 1] == NatToString(n / 10);
    }
  }

  /** Printing is injective: two numbers with the same decimal form are equal. */
  lemma NatToStringInjective(a: nat, b: nat)
    requires NatToString(a) == NatToString(b)
    ensures a == b
  {
    DigitsValueOfNatToString(a);
    DigitsValueOfNatToString(b);
  }

  lemma {:induction false} NatToStringLength(n: nat)
    ensures n < 10 <==> |NatToString(n)| == 1
    ensures 10 <= n < 100 <==> |NatToString(n)| == 2
  {
    if n >= 10 {
      NatToStringLength(n / 10);
    }
  }

  /** The last two decimal digits of a number of at least two digits read as the number
      modulo 100. */
  lemma LastTwoDigits(n: nat)
    requires n >= 10
    ensures |LastTwo(NatToString(n))| == 2 && IsDigits(LastTwo(NatToString(n)))
    ensures DigitsValue(LastTwo(NatToString(n))) == n % 100
  {
    var s := NatToString(n);
    var p := NatToString(n / 10);
    assert s == p + [('0' as int + n % 10) as char];
    assert p[|p| - 1] == ('0' as int + (n / 10) % 10) as char;
    var t := LastTwo(s);
    assert t == [p[|p| - 1], ('0' as int + n % 10) as char];
    assert t[..1] == [p[|p| - 1]];
    assert t[..1][..0] == [];
    assert DigitsValue(t[..1]) == (n / 10) % 10;
    assert DigitsValue(t) == ((n / 10) % 10) * 10 + n % 10;
    DivModHundred(n);
  }

  lemma DivModHundred(n: nat)
    ensures ((n / 10) % 10) * 10 + n % 10 == n % 100
  {
    var q := n / 100;
    var r := n % 100;
    assert n == 100 * q + r;
    assert n / 10 == 10 * q + r / 10;
    assert (n / 10) % 10 == r / 10;
    assert n % 10 == r % 10;
  }

  /** `s.padStart(2, "0")`. */
  function PadStart2(s: string): (r: string)
    ensures |r| == if |s| >= 2 then |s| else 2
    ensures r[|r| - |s|..] == s
    ensures forall i :: 0 <= i < |r| - |s| ==> r[i] == '0'
  {
    if |s| >= 2 then s else if |s| == 1 then "0" + s else "00"
  }

  /** `String(n).padStart(2, "0")` for n < 100 is two digits whose value is n. */
  lemma TwoDigits(n: nat)
    requires n < 100
    ensures |PadStart2(NatToString(n))| == 2 && IsDigits(PadStart2(NatToString(n)))
    ensures DigitsValue(PadStart2(NatToString(n))) == n
  {
    NatToStringLength(n);
    DigitsValueOfNatToString(n);
    var p := PadStart2(NatToString(n));
    if n < 10 {
      assert p == ['0'] + NatToString(n);
      assert p[..1] == ['0'];
    }
  }

  // ---------------------------------------------------------------------------
  // Lexicographic order: `a.localeCompare(b) <= 0` on digit and hyphen strings.

  predicate LexLe(a: string, b: string) {
    |a| == 0 || (|b| > 0 && (a[0] < b[0] || (a[0] == b[0] && LexLe(a[1..], b[1..]))))
  }

  lemma {:induction false} LexLeTotal(a: string, b: string)
    ensures LexLe(a, b) || LexLe(b, a)
  {
    if |a| > 0 && |b| > 0 && a[0] == b[0] {
      LexLeTotal(a[1..], b[1..]);
    }
  }

  lemma {:induction false} LexLeAntisymmetric(a: string, b: string)
    requires LexLe(a, b) && LexLe(b, a)
    ensures a == b
  {
    if |a| > 0 && |b| > 0 {
      LexLeAntisymmetric(a[1..], b[1..]);
      assert a == [a[0]] + a[1..] && b == [b[0]] + b[1..];
    }
  }

  lemma {:induction false} LexLeTransitive(a: string, b: string, c: string)
    requires LexLe(a, b) && LexLe(b, c)
    ensures LexLe(a, c)
  {
    if |a| > 0 && |b| > 0 && |c| > 0 && a[0] == b[0] == c[0] {
      LexLeTransitive(a[1..], b[1..], c[1..]);
    }
  }

  lemma LexLeReflexive(a: string)
    ensures LexLe(a, a)
  {
    LexLeTotal(a, a);
  }

  /** Strictly descending in lexicographic order (so also free of duplicates). */
  predicate StrictlyDescending(s: seq<string>) {
    forall i, j :: 0 <= i < j < |s| ==> LexLe(s[j], s[i]) && s[i] != s[j]
  }

  lemma GreatestExists(s: set<string>)
    requires s != {}
    ensures exists m :: m in s && forall x :: x in s ==> LexLe(x, m)
  {
    var m := GreatestOf(s);
  }

  /** The greatest element, found by taking one element out and comparing it with the
      greatest of the rest. */
  lemma {:induction false} GreatestOf(s: set<string>) returns (m: string)
    requires s != {}
    ensures m in s && forall x :: x in s ==> LexLe(x, m)
    decreases |s|
  {
    if forall y :: y !in s {
      assert false;
    }
    var y :| y in s;
    if s == {y} {
      LexLeReflexive(y);
      m := y;
    } else {
      var best := GreatestOf(s - {y});
      LexLeTotal(y, best);
      m := if LexLe(y, best) then best else y;
      forall x | x in s ensures LexLe(x, m) {
        if x == y {
          LexLeReflexive(y);
        } else {
          assert x in s - {y};
          if m == y { LexLeTransitive(x, best, y); }
        }
      }
    }
  }

  /** The greatest element of a non-empty set of strings. */
  function Greatest(s: set<string>): (m: string)
    requires s != {}
    ensures m in s && forall x :: x in s ==> LexLe(x, m)
  {
    GreatestExists(s);
    var m :| m in s && forall x :: x in s ==> LexLe(x, m);
    assert forall m' :: m' in s && (forall x :: x in s ==> LexLe(x, m')) ==> m' == m by {
      forall m' | m' in s && (forall x :: x in s ==> LexLe(x, m')) ensures m' == m {
        LexLeAntisymmetric(m, m');
      }
    }
    m
  }

  /** The elements of a set of strings, greatest first: what
      `Array.from(keys).sort((a, b) => b.localeCompare(a))` yields. */
  function SortDescending(s: set<string>): (r: seq<string>)
    ensures |r| == |s|
    ensures forall x :: x in r <==> x in s
    ensures StrictlyDescending(r)
    decreases |s|
  {
    if s == {} then []
    else
      var m := Greatest(s);
      var rest := SortDescending(s - {m});
      forall j | 0 <= j < |rest| ensures LexLe(rest[j], m) && rest[j] != m {
        assert rest[j] in rest;
      }
      [m] + rest
  }

  // ---------------------------------------------------------------------------
  // The same for integers (years and months, sorted with `b - a`).

  predicate IntsDescending(s: seq<int>) {
    forall i, j :: 0 <= i < j < |s| ==> s[i] > s[j]
  }

  lemma MaxExists(s: set<int>)
    requires s != {}
    ensures exists m :: m in s && forall x :: x in s ==> x <= m
  {
    var m := MaxOf(s);
  }

  /** The largest element, found by taking one element out and comparing it with the
      largest of the rest. */
  lemma {:induction false} MaxOf(s: set<int>) returns (m: int)
    requires s != {}
    ensures m in s && forall x :: x in s ==> x <= m
    decreases |s|
  {
    if forall y :: y !in s {
      assert false;
    }
    var y :| y in s;
    if s == {y} {
      m := y;
    } else {
      var best := MaxOf(s - {y});
      m := if y <= best then best else y;
      forall x | x in s ensures x <= m {
        if x != y { assert x in s - {y}; }
      }
    }
  }

  function Max(s: set<int>): (m: int)
    requires s != {}
    ensures m in s && forall x :: x in s ==> x <= m
  {
    MaxExists(s);
    var m :| m in s && forall x :: x in s ==> x <= m;
    m
  }

  /** The elements of a set of integers, largest first. */
  function SortIntsDescending(s: set<int>): (r: seq<int>)
    ensures |r| == |s|
    ensures forall x :: x in r <==> x in s
    ensures IntsDescending(r)
    decreases |s|
  {
    if s == {} then []
    else
      var m := Max(s);
      var rest := SortIntsDescending(s - {m});
      forall j | 0 <= j < |rest| ensures rest[j] < m {
        assert rest[j] in rest;
      }
      [m] + rest
  }

  // ---------------------------------------------------------------------------
  // Numbers read back from text.

  /** The longest run of digits at the front. */
  function LeadingDigits(s: string): (r: string)
    ensures IsDigits(r) && |r| <= |s| && r == s[..|r|]
    ensures |r| < |s| ==> !IsDigit(s[|r|])
  {
    if |s| > 0 && IsDigit(s[0]) then [s[0]] + LeadingDigits(s[1..]) else []
  }

  /** `parseInt(s)` read in decimal: leading whitespace skipped, an optional sign, then the
      leading digits; no digits is NaN (`None`). */
  function ParseInt(s: string): (r: Option<int>)
  {
    var t := TrimStart(s);
    var signed := |t| > 0 && (t[0] == '-' || t[0] == '+');
    var digits := LeadingDigits(if signed then t[1..] else t);
    if digits == [] then None
    else
      var v: int := DigitsValue(digits);
      if signed && t[0] == '-' then Some(-v) else Some(v)
  }

  /** Reading back a printed number gives the number. */
  lemma ParseIntOfNatToString(n: nat)
    ensures ParseInt(NatToString(n)) == Some(n)
  {
    var s := NatToString(n);
    ParseIntOfDigitsThen(s, []);
    assert s + [] == s;
    DigitsValueOfNatToString(n);
  }

  /** The same for any integer, a negative one printed with its minus sign. */
  lemma ParseIntOfIntToString(n: int)
    ensures ParseInt(IntToString(n)) == Some(n)
  {
    if n >= 0 {
      ParseIntOfNatToString(n);
    } else {
      var s := IntToString(n);
      var digits := NatToString(-n);
      assert s == "-" + digits && s[1..] == digits;
      assert TrimStart(s) == s;
      AllDigitsLead(digits);
      DigitsValueOfNatToString(-n);
    }
  }

  /** JavaScript truthiness of a number that may be missing: `undefined`, `null` and NaN
      (all `None` here) and 0 are false, every other number is true. */
  predicate Truthy(n: Option<int>) {
    n.Some? && n.value != 0
  }

  /** A printed number followed by text that does not start with a digit reads back as
      the number. */
  lemma ParseIntOfNatToStringThen(n: nat, rest: string)
    requires |rest| == 0 || !IsDigit(rest[0])
    ensures ParseInt(NatToString(n) + rest) == Some(n)
  {
    ParseIntOfDigitsThen(NatToString(n), rest);
    DigitsValueOfNatToString(n);
  }

  /** Digits followed by text that does not start with a digit read as their value. */
  lemma ParseIntOfDigitsThen(d: string, rest: string)
    requires |d| > 0 && IsDigits(d)
    requires |rest| == 0 || !IsDigit(rest[0])
    ensures ParseInt(d + rest) == Some(DigitsValue(d))
  {
    var t := d + rest;
    assert IsDigit(t[0]) by {
      assert t[0] == d[0];
    }
    TrimStartNoLeadingSpace(t);
    assert !(t[0] == '-' || t[0] == '+');
    LeadingDigitsThen(d, rest);
  }

  lemma {:induction false} LeadingDigitsThen(d: string, rest: string)
    requires IsDigits(d)
    requires |rest| == 0 || !IsDigit(rest[0])
    ensures LeadingDigits(d + rest) == d
  {
    if |d| > 0 {
      assert (d + rest)[1..] == d[1..] + rest;
      LeadingDigitsThen(d[1..], rest);
    } else {
      assert d + rest == rest;
    }
  }

  lemma {:induction false} AllDigitsLead(s: string)
    requires IsDigits(s)
    ensures LeadingDigits(s) == s
  {
    if |s| > 0 {
      AllDigitsLead(s[1..]);
    }
  }

  // ---------------------------------------------------------------------------
  // Subsequences.

  /** a can be obtained from b by deleting elements, order kept. */
  predicate IsSubsequence<T(==)>(a: seq<T>, b: seq<T>)
    decreases |b|
  {
    if |a| == 0 then true
    else if |b| == 0 then false
    else if a[|a| - 1] == b[|b| - 1] then IsSubsequence(a[..|a| - 1], b[..|b| - 1])
    else IsSubsequence(a, b[..|b| - 1])
  }

  /** Extending both lists by the same last element, kept or not in the first, keeps one a
      subsequence of the other. */
  lemma ExtendSubsequence<T>(a: seq<T>, b: seq<T>, x: T, keep: bool)
    requires IsSubsequence(a, b)
    ensures IsSubsequence(a + (if keep then [x] else []), b + [x])
  {
    var bx := b + [x];
    assert bx[..|bx| - 1] == b;
    if keep {
      var ax := a + [x];
      assert ax[..|ax| - 1] == a;
    } else {
      assert a + [] == a;
      SubsequenceOfLonger(a, b, x);
    }
  }

  /** A subsequence of a list is one of the list with one more element. */
  lemma {:induction false} SubsequenceOfLonger<T>(a: seq<T>, b: seq<T>, x: T)
    requires IsSubsequence(a, b)
    ensures IsSubsequence(a, b + [x])
    decreases |b|, 1
  {
    var bx := b + [x];
    assert bx[..|bx| - 1] == b;
    if |a| > 0 && a[|a| - 1] == x {
      SubsequenceShorter(a, b);
    }
  }

  /** Dropping the last element keeps a subsequence one. */
  lemma {:induction false} SubsequenceShorter<T>(a: seq<T>, b: seq<T>)
    requires |a| > 0 && IsSubsequence(a, b)
    ensures IsSubsequence(a[..|a| - 1], b)
    decreases |b|, 0
  {
    var init := a[..|a| - 1];
    var bInit := b[..|b| - 1];
    assert bInit + [b[|b| - 1]] == b;
    if a[|a| - 1] == b[|b| - 1] {
      SubsequenceOfLonger(init, bInit, b[|b| - 1]);
    } else {
      SubsequenceShorter(a, bInit);
      SubsequenceOfLonger(init, bInit, b[|b| - 1]);
    }
  }


  /** Subsequences of two lists, one after the other, form a subsequence of the two lists
      joined. */
  lemma {:induction false} SubsequenceConcat<T>(a1: seq<T>, b1: seq<T>, a2: seq<T>, b2: seq<T>)
    requires IsSubsequence(a1, b1) && IsSubsequence(a2, b2)
    ensures IsSubsequence(a1 + a2, b1 + b2)
    decreases |b2|
  {
    if |b2| == 0 {
      assert b1 + b2 == b1;
      if |a2| > 0 {
        assert false;
      }
      assert a1 + a2 == a1;
    } else {
      var b2i := b2[..|b2| - 1];
      var x := b2[|b2| - 1];
      assert (b1 + b2)[..|b1 + b2| - 1] == b1 + b2i;
      if |a2| > 0 && a2[|a2| - 1] == x {
        var a2i := a2[..|a2| - 1];
        SubsequenceConcat(a1, b1, a2i, b2i);
        assert (a1 + a2)[..|a1 + a2| - 1] == a1 + a2i;
      } else {
        SubsequenceConcat(a1, b1, a2, b2i);
        assert b1 + b2 == (b1 + b2i) + [x];
        SubsequenceOfLonger(a1 + a2, b1 + b2i, x);
      }
    }
  }

  /** A list comprehension with a condition (`[x for x in s if p(x)]`, `s.filter(p)`): the
      elements that satisfy p, in their order. */
  function Filter<T(==, !new)>(s: seq<T>, p: T -> bool): (r: seq<T>)
    ensures forall x :: x in r <==> x in s && p(x)
    ensures forall i :: 0 <= i < |r| ==> p(r[i])
    ensures IsSubsequence(r, s)
    decreases |s|
  {
    if |s| == 0 then
      SubsequenceReflexive(s);
      []
    else
      var init := s[..|s| - 1];
      var x := s[|s| - 1];
      var rest := Filter(init, p);
      assert s == init + [x];
      if p(x) then
        assert (rest + [x])[..|rest + [x]| - 1] == rest;
        rest + [x]
      else
        SubsequenceOfLonger(rest, init, x);
        rest
  }

  /** Filtering keeps every element that satisfies the condition as often as it occurs, and
      no other. */
  lemma {:induction false} FilterCounts<T(!new)>(s: seq<T>, p: T -> bool)
    ensures forall x :: multiset(Filter(s, p))[x] == if p(x) then multiset(s)[x] else 0
    decreases |s|
  {
    if |s| > 0 {
      var init := s[..|s| - 1];
      FilterCounts(init, p);
      assert s == init + [s[|s| - 1]];
    }
  }

  /** Every list is a subsequence of itself, and the empty list of every list. */
  lemma {:induction false} SubsequenceReflexive<T>(a: seq<T>)
    ensures IsSubsequence(a, a) && IsSubsequence([], a)
  {
    if |a| > 0 {
      SubsequenceReflexive(a[..|a| - 1]);
    }
  }
}
