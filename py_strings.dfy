/** The Python `str` operations the core relies on, over `seq<char>`. */
module PyStrings {

  import opened PyCore

  /** `str.isspace()` for one character; a `\s` in a `str` pattern matches the same set. */
  predicate IsSpace(c: char) {
    c == ' ' || ('\t' <= c <= '\r') || ('\U{1C}' <= c <= '\U{1F}') || c == '\U{85}' || c == '\U{A0}'
    || c == '\U{1680}' || ('\U{2000}' <= c <= '\U{200A}') || c == '\U{2028}' || c == '\U{2029}'
    || c == '\U{202F}' || c == '\U{205F}' || c == '\U{3000}'
  }

  predicate IsUpper(c: char) { 'A' <= c <= 'Z' }

  function LowerChar(c: char): (r: char)
    ensures !IsUpper(r)
    ensures IsUpper(c) ==> r as int == c as int + 32
    ensures !IsUpper(c) ==> r == c
  {
    if IsUpper(c) then (c as int + 32) as char else c
  }

  /** `str.lower()` on the ASCII letters. */
  function Lower(s: string): (r: string)
    ensures |r| == |s|
    ensures forall i :: 0 <= i < |s| ==> r[i] == LowerChar(s[i])
    ensures forall i :: 0 <= i < |r| ==> !IsUpper(r[i])
  {
    seq(|s|, i requires 0 <= i < |s| => LowerChar(s[i]))
  }

  /** Lower-casing a string without upper-case letters changes nothing. */
  lemma LowerOfLowerCase(s: string)
    requires forall i :: 0 <= i < |s| ==> !IsUpper(s[i])
    ensures Lower(s) == s
  {
    assert forall i :: 0 <= i < |s| ==> Lower(s)[i] == s[i];
  }

  /** `needle` occurs in `s` at position `i`. */
  predicate MatchAt(s: string, needle: string, i: int) {
    0 <= i && i + |needle| <= |s| && s[i..i + |needle|] == needle
  }

  /** `needle in s` for strings. */
  predicate Contains(s: string, needle: string) {
    exists i | 0 <= i <= |s| - |needle| :: MatchAt(s, needle, i)
  }

  /** A needle holding a character the text lacks does not occur in it. */
  lemma MissingCharNotContained(s: string, needle: string, c: char)
    requires c in needle && c !in s
    ensures !Contains(s, needle)
  {
  }

  /** Python truthiness of an optional string: present and non-empty. */
  predicate Truthy(s: string) { s != [] }

  // ---------------------------------------------------------------- strip

  /** The number of whitespace characters at the start of `s`. */
  function LeadingSpaces(s: string): (k: nat)
    ensures k <= |s|
    ensures forall j :: 0 <= j < k ==> IsSpace(s[j])
    ensures k < |s| ==> !IsSpace(s[k])
  {
    if s != [] && IsSpace(s[0]) then 1 + LeadingSpaces(s[1..]) else 0
  }

  /** The number of whitespace characters at the end of `s`. */
  function TrailingSpaces(s: string): (k: nat)
    ensures k <= |s|
    ensures forall j :: |s| - k <= j < |s| ==> IsSpace(s[j])
    ensures k < |s| ==> !IsSpace(s[|s| - 1 - k])
  {
    if s != [] && IsSpace(s[|s| - 1]) then 1 + TrailingSpaces(s[..|s| - 1]) else 0
  }

  /** `str.strip()`: drops whitespace at both ends. */
  function Strip(s: string): (r: string)
    ensures r == [] <==> forall j :: 0 <= j < |s| ==> IsSpace(s[j])
    ensures r != [] ==> !IsSpace(r[0]) && !IsSpace(r[|r| - 1])
    ensures r != [] ==> r == s[LeadingSpaces(s)..|s| - TrailingSpaces(s)]
  {
    var a := LeadingSpaces(s);
    if a == |s| then []
    else
      assert !IsSpace(s[a]);
      var b := |s| - TrailingSpaces(s);
      s[a..b]
  }

  // ---------------------------------------------------------------- split

  /** The characters of `s` that are not whitespace, in order. */
  function NonSpace(s: string): string {
    if s == [] then [] else (if IsSpace(s[0]) then [] else [s[0]]) + NonSpace(s[1..])
  }

  function Concat(words: seq<string>): string {
    if words == [] then [] else words[0] + Concat(words[1..])
  }

  /** The length of the run of non-whitespace characters at the start of `s`. */
  function WordLength(s: string): (k: nat)
    ensures k <= |s|
    ensures forall j :: 0 <= j < k ==> !IsSpace(s[j])
    ensures k < |s| ==> IsSpace(s[k])
  {
    if s != [] && !IsSpace(s[0]) then 1 + WordLength(s[1..]) else 0
  }

  /** Non-empty runs of non-whitespace characters. */
  predicate Words(words: seq<string>) {
    forall k :: 0 <= k < |words| ==> words[k] != [] && forall j :: 0 <= j < |words[k]| ==> !IsSpace(words[k][j])
  }

  /** `str.split()` with no separator: the maximal runs of non-whitespace characters. */
  function Split(s: string): seq<string>
    decreases |s|, 1
  {
    SplitTrimmed(s[LeadingSpaces(s)..])
  }

  /** `str.split()` on a text that does not start with whitespace. */
  function SplitTrimmed(t: string): seq<string>
    requires t != [] ==> !IsSpace(t[0])
    decreases |t|, 0
  {
    if t == [] then []
    else
      var n := WordLength(t);
      [t[..n]] + Split(t[n..])
  }

  /** The pieces `str.split()` returns are non-empty runs of non-whitespace characters. */
  lemma {:induction false} SplitGivesWords(s: string)
    ensures Words(Split(s))
    decreases |s|
  {
    var t := s[LeadingSpaces(s)..];
    if t != [] {
      var n := WordLength(t);
      SplitGivesWords(t[n..]);
      WordThenWords(t, Split(t[n..]));
    }
  }

  /** The first word of a text that does not start with whitespace, put before words that are
      non-empty runs of non-whitespace, gives such words again. */
  lemma WordThenWords(t: string, words: seq<string>)
    requires t != [] && !IsSpace(t[0])
    requires Words(words)
    ensures Words([t[..WordLength(t)]] + words)
  {
    var w := t[..WordLength(t)];
    assert w[0] == t[0];
    assert forall j :: 0 <= j < |w| ==> w[j] == t[j];
    var all := [w] + words;
    forall k | 0 <= k < |all|
      ensures all[k] != [] && forall j :: 0 <= j < |all[k]| ==> !IsSpace(all[k][j])
    {
      if k > 0 {
        assert all[k] == words[k - 1];
      }
    }
  }

  lemma {:induction false} NonSpaceAppend(a: string, b: string)
    ensures NonSpace(a + b) == NonSpace(a) + NonSpace(b)
    decreases |a|
  {
    if a != [] {
      assert (a + b)[0] == a[0] && (a + b)[1..] == a[1..] + b;
      NonSpaceAppend(a[1..], b);
    } else {
      assert a + b == b;
    }
  }

  lemma {:induction false} NonSpaceOfSpaces(s: string)
    requires forall j :: 0 <= j < |s| ==> IsSpace(s[j])
    ensures NonSpace(s) == []
    decreases |s|
  {
    if s != [] { NonSpaceOfSpaces(s[1..]); }
  }

  lemma {:induction false} NonSpaceOfWord(s: string)
    requires forall j :: 0 <= j < |s| ==> !IsSpace(s[j])
    ensures NonSpace(s) == s
    decreases |s|
  {
    if s != [] { NonSpaceOfWord(s[1..]); }
  }

  /** Leading whitespace contributes no non-whitespace characters. */
  lemma NonSpaceSkipsLeading(s: string)
    ensures NonSpace(s) == NonSpace(s[LeadingSpaces(s)..])
  {
    var a := LeadingSpaces(s);
    var spaces := s[..a];
    assert forall j :: 0 <= j < |spaces| ==> IsSpace(spaces[j]);
    NonSpaceOfSpaces(spaces);
    assert spaces + s[a..] == s;
    NonSpaceAppend(spaces, s[a..]);
  }

  /** The non-whitespace characters of a text are those of its first word, then the rest's. */
  lemma NonSpaceOfFirstWord(t: string)
    ensures NonSpace(t) == t[..WordLength(t)] + NonSpace(t[WordLength(t)..])
  {
    var n := WordLength(t);
    var w := t[..n];
    assert w + t[n..] == t;
    assert forall j :: 0 <= j < |w| ==> !IsSpace(w[j]);
    NonSpaceOfWord(w);
    NonSpaceAppend(w, t[n..]);
  }

  lemma ConcatCons(w: string, words: seq<string>)
    ensures Concat([w] + words) == w + Concat(words)
  {
    assert ([w] + words)[0] == w && ([w] + words)[1..] == words;
  }

  /** `str.split()` loses only whitespace: its words, joined, are the non-whitespace characters of `s`. */
  lemma {:induction false} SplitKeepsNonSpace(s: string)
    ensures Concat(Split(s)) == NonSpace(s)
    decreases |s|
  {
    var t := s[LeadingSpaces(s)..];
    NonSpaceSkipsLeading(s);
    if t != [] {
      var n := WordLength(t);
      NonSpaceOfFirstWord(t);
      SplitKeepsNonSpace(t[n..]);
      ConcatCons(t[..n], Split(t[n..]));
    }
  }

  /** Whitespace before a text that starts with a non-blank is exactly the leading run. */
  lemma {:induction false} LeadingSpacesOfBlanks(blanks: string, t: string)
    requires forall j :: 0 <= j < |blanks| ==> IsSpace(blanks[j])
    requires t != [] ==> !IsSpace(t[0])
    ensures LeadingSpaces(blanks + t) == |blanks|
    decreases |blanks|
  {
    if blanks == [] {
      assert blanks + t == t;
    } else {
      assert (blanks + t)[1..] == blanks[1..] + t;
      LeadingSpacesOfBlanks(blanks[1..], t);
    }
  }

  /** A run of non-whitespace ends at the next blank. */
  lemma {:induction false} WordLengthOfWord(w: string, rest: string)
    requires forall j :: 0 <= j < |w| ==> !IsSpace(w[j])
    requires rest != [] ==> IsSpace(rest[0])
    ensures WordLength(w + rest) == |w|
    decreases |w|
  {
    if w != [] {
      assert (w + rest)[1..] == w[1..] + rest;
      WordLengthOfWord(w[1..], rest);
    } else {
      assert w + rest == rest;
    }
  }

  /** `str.split()` of blank text is empty. */
  lemma SplitBlank(s: string)
    requires forall j :: 0 <= j < |s| ==> IsSpace(s[j])
    ensures Split(s) == []
  {
    assert LeadingSpaces(s) == |s|;
  }

  /** The pieces of `str.split()` are maximal: after any blanks, a non-empty run of
      non-whitespace that ends at a blank or at the end of the text is the first piece, whole,
      and the split goes on after it. With `SplitBlank` this determines `split()`: "ab" splits
      as ["ab"], never as ["a", "b"]. */
  lemma SplitMaximal(blanks: string, w: string, rest: string)
    requires forall j :: 0 <= j < |blanks| ==> IsSpace(blanks[j])
    requires w != [] && forall j :: 0 <= j < |w| ==> !IsSpace(w[j])
    requires rest != [] ==> IsSpace(rest[0])
    ensures Split(blanks + w + rest) == [w] + Split(rest)
  {
    assert blanks + w + rest == blanks + (w + rest);
    SplitAfterBlanks(blanks, w + rest);
    SplitTrimmedWord(w, rest);
  }

  /** `str.split()` skips the leading blanks. */
  lemma SplitAfterBlanks(blanks: string, t: string)
    requires forall j :: 0 <= j < |blanks| ==> IsSpace(blanks[j])
    requires t != [] ==> !IsSpace(t[0])
    ensures Split(blanks + t) == SplitTrimmed(t)
  {
    LeadingSpacesOfBlanks(blanks, t);
    assert (blanks + t)[|blanks|..] == t;
  }

  /** A text that starts with a whole word splits as that word and the rest. */
  lemma SplitTrimmedWord(w: string, rest: string)
    requires w != [] && forall j :: 0 <= j < |w| ==> !IsSpace(w[j])
    requires rest != [] ==> IsSpace(rest[0])
    ensures SplitTrimmed(w + rest) == [w] + Split(rest)
  {
    WordLengthOfWord(w, rest);
    assert (w + rest)[..|w|] == w && (w + rest)[|w|..] == rest;
  }

  // ---------------------------------------------------------------- search

  /** The first position at or after `from` where `sep` occurs in `s`. */
  function FindFrom(s: string, sep: string, from: nat): (r: Option<nat>)
    requires from <= |s|
    ensures r.Some? ==> from <= r.value && MatchAt(s, sep, r.value)
    ensures r.Some? ==> forall i :: from <= i < r.value ==> !MatchAt(s, sep, i)
    ensures r.None? ==> forall i :: from <= i ==> !MatchAt(s, sep, i)
    decreases |s| - from
  {
    if from + |sep| > |s| then None
    else if s[from..from + |sep|] == sep then Some(from)
    else FindFrom(s, sep, from + 1)
  }

  /** `s.split(sep, 1)[0]`: the text before the first occurrence of `sep`, or all of `s`. */
  function BeforeFirst(s: string, sep: string): (r: string)
    requires sep != []
    ensures r <= s
    ensures !Contains(s, sep) <==> r == s
    ensures Contains(s, sep) ==> MatchAt(s, sep, |r|) && forall i :: 0 <= i < |r| ==> !MatchAt(s, sep, i)
  {
    match FindFrom(s, sep, 0)
    case None => s
    case Some(i) => s[..i]
  }

  /** The position of the last `c` in `s`. */
  function LastIndexOf(s: string, c: char): (r: Option<nat>)
    ensures r.Some? ==> r.value < |s| && s[r.value] == c && forall j :: r.value < j < |s| ==> s[j] != c
    ensures r.None? <==> c !in s
  {
    if s == [] then None
    else if s[|s| - 1] == c then Some(|s| - 1)
    else LastIndexOf(s[..|s| - 1], c)
  }

  // ---------------------------------------------------------------- replace

  /** `s.replace(pat, rep)`: every non-overlapping occurrence, scanning left to right. */
  function ReplaceAll(s: string, pat: string, rep: string): string
    requires pat != []
    decreases |s|
  {
    if s == [] then []
    else if pat <= s then rep + ReplaceAll(s[|pat|..], pat, rep)
    else [s[0]] + ReplaceAll(s[1..], pat, rep)
  }

  lemma {:induction false} ReplaceAllWithout(s: string, pat: string, rep: string)
    requires pat != []
    requires !Contains(s, pat)
    ensures ReplaceAll(s, pat, rep) == s
    decreases |s|
  {
    if s != [] {
      assert !(pat <= s) by {
        if pat <= s { assert MatchAt(s, pat, 0); }
      }
      assert !Contains(s[1..], pat) by {
        forall i | 0 <= i <= |s| - 1 - |pat|
          ensures !MatchAt(s[1..], pat, i)
        {
          assert !MatchAt(s, pat, i + 1);
          assert s[1..][i..i + |pat|] == s[i + 1..i + 1 + |pat|];
        }
      }
      ReplaceAllWithout(s[1..], pat, rep);
    }
  }

  /** A replacement that is longer than the pattern lengthens every string that contains the pattern. */
  lemma {:induction false} ReplaceAllGrows(s: string, pat: string, rep: string)
    requires pat != [] && |rep| > |pat|
    ensures |ReplaceAll(s, pat, rep)| >= |s|
    ensures Contains(s, pat) ==> |ReplaceAll(s, pat, rep)| > |s|
    decreases |s|
  {
    if s != [] {
      if pat <= s {
        ReplaceAllGrows(s[|pat|..], pat, rep);
      } else {
        ReplaceAllGrows(s[1..], pat, rep);
        if Contains(s, pat) {
          var i :| 0 <= i <= |s| - |pat| && MatchAt(s, pat, i);
          assert MatchAt(s, pat, 0) ==> pat <= s;
          assert MatchAt(s[1..], pat, i - 1) by {
            assert s[1..][i - 1..i - 1 + |pat|] == s[i..i + |pat|];
          }
        }
      }
    }
  }

  // ---------------------------------------------------------------- numbers

  function DigitChar(d: nat): (c: char)
    requires d < 10
    ensures '0' <= c <= '9'
  {
    ('0' as int + d) as char
  }

  /** `str(n)` for a non-negative integer. */
  function NatToString(n: nat): (r: string)
    ensures r != []
    ensures forall j :: 0 <= j < |r| ==> '0' <= r[j] <= '9'
    decreases n
  {
    if n < 10 then [DigitChar(n)] else NatToString(n / 10) + [DigitChar(n % 10)]
  }

  /** `str(i)` for an integer. */
  function IntToString(i: int): string {
    if i < 0 then "-" + NatToString(-i) else NatToString(i)
  }

  /** Reads a string of decimal digits back. */
  function ParseDigits(s: string): nat
    requires forall j :: 0 <= j < |s| ==> '0' <= s[j] <= '9'
  {
    if s == [] then 0 else 10 * ParseDigits(s[..|s| - 1]) + (s[|s| - 1] as int - '0' as int)
  }

  /** The decimal rendering of a count reads back as that count. */
  lemma {:induction false} NatToStringRoundTrip(n: nat)
    ensures ParseDigits(NatToString(n)) == n
    decreases n
  {
    if n >= 10 {
      NatToStringRoundTrip(n / 10);
      var r := NatToString(n);
      assert r[..|r| - 1] == NatToString(n / 10);
    }
  }
}
