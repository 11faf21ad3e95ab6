/** `TextParser`: the identity parse, keyword extraction and shape detection over a
    request's text. */
module TextParser {

  import opened PyCore
  import opened PyStrings

  /** `parse_text`: the text is returned as it is. */
  function ParseText(text: string): (r: string)
    ensures r == text
  {
    text
  }

  // ---------------------------------------------------------------- keywords

  predicate IsAsciiAlnum(c: char) {
    'a' <= c <= 'z' || 'A' <= c <= 'Z' || '0' <= c <= '9'
  }

  /** `str.isalnum()` on the characters outside ASCII: true for the Unicode letters and digits
      (`ä`, `ß`, `٣`), false for punctuation, symbols and marks (`„`, `–`, `€`, `°`). The Unicode
      character database is not part of this model, so the table is a parameter. */
  type UnicodeAlnum = char -> bool

  /** The regular-expression class `\w` of a `str` pattern: the characters `str.isalnum()`
      accepts, and the underscore. */
  predicate IsWordChar(alnum: UnicodeAlnum, c: char) {
    IsAsciiAlnum(c) || c == '_' || (c > '\U{7F}' && alnum(c))
  }

  /** `re.sub(r'[^\w\s]', '', s)`: every character that is neither a word character nor
      whitespace is dropped. */
  function RemovePunctuation(alnum: UnicodeAlnum, s: string): (r: string)
    ensures |r| <= |s|
    ensures forall j :: 0 <= j < |r| ==> IsWordChar(alnum, r[j]) || IsSpace(r[j])
  {
    if s == [] then []
    else
      var rest := RemovePunctuation(alnum, s[1..]);
      if IsWordChar(alnum, s[0]) || IsSpace(s[0]) then [s[0]] + rest else rest
  }

  /** Nothing is dropped from a text without punctuation, and nothing is added: a text
      without capitals keeps none. */
  lemma {:induction false} RemovePunctuationKeeps(alnum: UnicodeAlnum, s: string)
    ensures (forall j :: 0 <= j < |s| ==> IsWordChar(alnum, s[j]) || IsSpace(s[j])) ==> RemovePunctuation(alnum, s) == s
    ensures (forall j :: 0 <= j < |s| ==> !IsUpper(s[j])) ==>
      forall j :: 0 <= j < |RemovePunctuation(alnum, s)| ==> !IsUpper(RemovePunctuation(alnum, s)[j])
  {
    if s != [] {
      RemovePunctuationKeeps(alnum, s[1..]);
    }
  }

  lemma {:induction false} RemovePunctuationAppend(alnum: UnicodeAlnum, a: string, b: string)
    ensures RemovePunctuation(alnum, a + b) == RemovePunctuation(alnum, a) + RemovePunctuation(alnum, b)
  {
    if a != [] {
      assert (a + b)[0] == a[0];
      assert (a + b)[1..] == a[1..] + b;
      RemovePunctuationAppend(alnum, a[1..], b);
    } else {
      assert a + b == b;
    }
  }

  /** German quotation marks and the euro sign are neither letters nor digits, so they go:
      "„Zahnrad“ 5€" is cleaned to "zahnrad 5". */
  lemma QuotedGermanWordCleaned(alnum: UnicodeAlnum)
    requires !alnum('\U{201E}') && !alnum('\U{201C}') && !alnum('\U{20AC}')
    ensures RemovePunctuation(alnum, Lower("\U{201E}Zahnrad\U{201C} 5\U{20AC}")) == "zahnrad 5"
  {
    QuotedGermanWordLowered();
    DroppedChar(alnum, '\U{201E}');
    DroppedChar(alnum, '\U{201C}');
    DroppedChar(alnum, '\U{20AC}');
    PlainTextKept(alnum, "zahnrad");
    PlainTextKept(alnum, " 5");
    KeptBetweenDropped(alnum, "\U{201E}", "zahnrad", "\U{201C}", " 5", "\U{20AC}");
  }

  /** Removing punctuation from five pieces, of which the first, third and fifth vanish. */
  lemma KeptBetweenDropped(alnum: UnicodeAlnum, a: string, b: string, c: string, d: string, e: string)
    requires RemovePunctuation(alnum, a) == [] && RemovePunctuation(alnum, c) == [] && RemovePunctuation(alnum, e) == []
    ensures RemovePunctuation(alnum, a + (b + (c + (d + e)))) == RemovePunctuation(alnum, b) + RemovePunctuation(alnum, d)
  {
    RemovePunctuationAppend(alnum, d, e);
    RemovePunctuationAppend(alnum, c, d + e);
    RemovePunctuationAppend(alnum, b, c + (d + e));
    RemovePunctuationAppend(alnum, a, b + (c + (d + e)));
  }

  /** ASCII letters, digits and blanks all stay. */
  lemma PlainTextKept(alnum: UnicodeAlnum, s: string)
    requires forall j :: 0 <= j < |s| ==> IsAsciiAlnum(s[j]) || s[j] == ' '
    ensures RemovePunctuation(alnum, s) == s
  {
    RemovePunctuationKeeps(alnum, s);
  }

  /** A character that is neither a word character nor whitespace is removed. */
  lemma DroppedChar(alnum: UnicodeAlnum, c: char)
    requires !IsWordChar(alnum, c) && !IsSpace(c)
    ensures RemovePunctuation(alnum, [c]) == []
  {
  }

  lemma QuotedGermanWordLowered()
    ensures Lower("\U{201E}Zahnrad\U{201C} 5\U{20AC}") == "\U{201E}" + ("zahnrad" + ("\U{201C}" + (" 5" + "\U{20AC}")))
  {
    var s := "\U{201E}Zahnrad\U{201C} 5\U{20AC}";
    var r := "\U{201E}" + ("zahnrad" + ("\U{201C}" + (" 5" + "\U{20AC}")));
    assert |r| == |s| == 12;
    forall i | 0 <= i < 12
      ensures Lower(s)[i] == r[i]
    {
    }
  }

  /** The 37 stop words. */
  const StopWords: set<string> := {
    "a", "an", "the", "is", "are", "was", "were", "be", "been", "being",
    "have", "has", "had", "do", "does", "did", "will", "would", "could",
    "should", "may", "might", "must", "can", "and", "or", "but", "if",
    "then", "else", "when", "where", "what", "how", "why", "who", "which"
  }

  predicate KeepWord(w: string) {
    w !in StopWords && |w| > 2
  }

  /** The comprehension `[w for w in words if w not in stop_words and len(w) > 2]`. */
  function FilterWords(words: seq<string>): (r: seq<string>)
    ensures |r| <= |words|
    ensures forall k :: 0 <= k < |r| ==> KeepWord(r[k])
  {
    if words == [] then []
    else (if KeepWord(words[0]) then [words[0]] else []) + FilterWords(words[1..])
  }

  /** The filter keeps exactly the qualifying words, duplicates included, in their order. */
  lemma {:induction false} FilterWordsAppend(a: seq<string>, b: seq<string>)
    ensures FilterWords(a + b) == FilterWords(a) + FilterWords(b)
  {
    if a != [] {
      assert (a + b)[0] == a[0];
      assert (a + b)[1..] == a[1..] + b;
      FilterWordsAppend(a[1..], b);
    } else {
      assert a + b == b;
    }
  }

  lemma {:induction false} FilterWordsMembers(words: seq<string>)
    ensures forall w :: w in FilterWords(words) <==> w in words && KeepWord(w)
    ensures forall w :: KeepWord(w) ==> multiset(FilterWords(words))[w] == multiset(words)[w]
  {
    if words != [] {
      FilterWordsMembers(words[1..]);
      assert words == [words[0]] + words[1..];
    }
  }

  /** A lower-case word character or whitespace: what is left after lower-casing and
      removing punctuation. */
  predicate CleanChar(alnum: UnicodeAlnum, c: char) {
    (IsWordChar(alnum, c) || IsSpace(c)) && !IsUpper(c)
  }

  /** Words made of lower-case word characters only. */
  predicate CleanWords(alnum: UnicodeAlnum, words: seq<string>) {
    forall k, j :: 0 <= k < |words| && 0 <= j < |words[k]| ==> IsWordChar(alnum, words[k][j]) && !IsUpper(words[k][j])
  }

  /** Splitting a cleaned text gives words of lower-case word characters. */
  lemma {:induction false} SplitOfClean(alnum: UnicodeAlnum, s: string)
    requires forall j :: 0 <= j < |s| ==> CleanChar(alnum, s[j])
    ensures CleanWords(alnum, Split(s))
    decreases |s|
  {
    var t := s[LeadingSpaces(s)..];
    if t != [] {
      var n := WordLength(t);
      CleanSlice(alnum, s, LeadingSpaces(s), |s|);
      CleanSlice(alnum, t, n, |t|);
      SplitOfClean(alnum, t[n..]);
      CleanWordThenWords(alnum, t, Split(t[n..]));
    }
  }

  /** The first word of a clean text, put before clean words, gives clean words. */
  lemma CleanWordThenWords(alnum: UnicodeAlnum, t: string, words: seq<string>)
    requires forall j :: 0 <= j < |t| ==> CleanChar(alnum, t[j])
    requires CleanWords(alnum, words)
    ensures CleanWords(alnum, [t[..WordLength(t)]] + words)
  {
    CleanWord(alnum, t);
    WordsOfCons(alnum, t[..WordLength(t)], words);
  }

  /** A slice of a clean text is clean. */
  lemma CleanSlice(alnum: UnicodeAlnum, s: string, lo: nat, hi: nat)
    requires lo <= hi <= |s| && forall j :: 0 <= j < |s| ==> CleanChar(alnum, s[j])
    ensures forall j :: 0 <= j < |s[lo..hi]| ==> CleanChar(alnum, s[lo..hi][j])
  {
    forall j | 0 <= j < |s[lo..hi]|
      ensures CleanChar(alnum, s[lo..hi][j])
    {
      assert s[lo..hi][j] == s[lo + j];
    }
  }

  /** The first word of a clean text is clean and has no whitespace. */
  lemma CleanWord(alnum: UnicodeAlnum, t: string)
    requires forall j :: 0 <= j < |t| ==> CleanChar(alnum, t[j])
    ensures forall j :: 0 <= j < |t[..WordLength(t)]| ==> CleanChar(alnum, t[..WordLength(t)][j]) && !IsSpace(t[..WordLength(t)][j])
  {
    var n := WordLength(t);
    forall j | 0 <= j < n
      ensures CleanChar(alnum, t[..n][j]) && !IsSpace(t[..n][j])
    {
      assert t[..n][j] == t[j];
    }
  }

  /** Prepending one clean word to clean words. */
  lemma WordsOfCons(alnum: UnicodeAlnum, w: string, words: seq<string>)
    requires forall j :: 0 <= j < |w| ==> CleanChar(alnum, w[j]) && !IsSpace(w[j])
    requires CleanWords(alnum, words)
    ensures CleanWords(alnum, [w] + words)
  {
    var all := [w] + words;
    forall k, j | 0 <= k < |all| && 0 <= j < |all[k]|
      ensures IsWordChar(alnum, all[k][j]) && !IsUpper(all[k][j])
    {
      if k == 0 {
        assert all[k] == w;
      } else {
        assert all[k] == words[k - 1];
      }
    }
  }


  /** `extract_keywords`: lower-case, drop punctuation, split on whitespace, drop stop words and
      words of at most two characters. */
  function ExtractKeywords(alnum: UnicodeAlnum, text: string): (keywords: seq<string>)
    ensures text == [] ==> keywords == []
  {
    if text == [] then [] else FilterWords(Split(RemovePunctuation(alnum, Lower(text))))
  }

  /** Every keyword is lower-case, made of word characters only, longer than two characters and
      not a stop word. */
  lemma KeywordsAreClean(alnum: UnicodeAlnum, text: string)
    ensures forall k :: 0 <= k < |ExtractKeywords(alnum, text)| ==>
      var w := ExtractKeywords(alnum, text)[k];
      |w| > 2 && w !in StopWords && forall j :: 0 <= j < |w| ==> IsWordChar(alnum, w[j]) && !IsUpper(w[j])
  {
    if text != [] {
      var cleaned := RemovePunctuation(alnum, Lower(text));
      RemovePunctuationKeeps(alnum, Lower(text));
      SplitOfClean(alnum, cleaned);
      var words := Split(cleaned);
      FilterWordsMembers(words);
      var keywords := FilterWords(words);
      forall k, j | 0 <= k < |keywords| && 0 <= j < |keywords[k]|
        ensures IsWordChar(alnum, keywords[k][j]) && !IsUpper(keywords[k][j])
      {
        assert keywords[k] in words;
        var m :| 0 <= m < |words| && words[m] == keywords[k];
      }
    }
  }

  /** The keywords are, in order and with repeats, the qualifying words of the cleaned text. */
  lemma KeywordsAreWordsOfText(alnum: UnicodeAlnum, text: string)
    requires text != []
    ensures forall w :: w in ExtractKeywords(alnum, text) <==> w in Split(RemovePunctuation(alnum, Lower(text))) && KeepWord(w)
  {
    FilterWordsMembers(Split(RemovePunctuation(alnum, Lower(text))));
  }

  lemma {:induction false} SplitWordThenRest(w: string, rest: string)
    requires w != [] && forall j :: 0 <= j < |w| ==> !IsSpace(w[j])
    ensures Split(w + [' '] + rest) == [w] + Split(rest)
  {
    var s := w + [' '] + rest;
    assert LeadingSpaces(s) == 0;
    assert s[0..] == s;
    WordLengthOfWord(w, [' '] + rest);
    assert s == w + ([' '] + rest);
    var n := |w|;
    assert s[..n] == w;
    assert s[n..] == [' '] + rest;
    assert Split(s) == [w] + Split([' '] + rest);
    SplitSkipsBlank(rest);
  }

  /** A leading blank does not change the split. */
  lemma SplitSkipsBlank(rest: string)
    ensures Split([' '] + rest) == Split(rest)
  {
    var u := [' '] + rest;
    assert LeadingSpaces(u) == 1 + LeadingSpaces(rest) by {
      assert u[1..] == rest;
    }
    assert u[LeadingSpaces(u)..] == rest[LeadingSpaces(rest)..];
  }

  lemma {:induction false} WordLengthAll(w: string)
    requires forall j :: 0 <= j < |w| ==> !IsSpace(w[j])
    ensures WordLength(w) == |w|
  {
    if w != [] {
      WordLengthAll(w[1..]);
    }
  }

  lemma SplitLastWord(w: string)
    requires w != [] && forall j :: 0 <= j < |w| ==> !IsSpace(w[j])
    ensures Split(w) == [w]
  {
    assert LeadingSpaces(w) == 0;
    assert w[0..] == w;
    WordLengthAll(w);
    assert w[..|w|] == w;
    assert w[|w|..] == [];
    assert Split([]) == [] by {
      assert LeadingSpaces([]) == 0;
    }
  }

  lemma {:induction false} LowerAppend(a: string, b: string)
    ensures Lower(a + b) == Lower(a) + Lower(b)
  {
    assert forall i :: 0 <= i < |a + b| ==> Lower(a + b)[i] == (Lower(a) + Lower(b))[i];
  }

  predicate AsciiWord(w: string) {
    w != [] && forall j :: 0 <= j < |w| ==> IsAsciiAlnum(w[j])
  }

  /** The keywords of `text` apart from the empty-text guard. */
  function KeywordsOf(alnum: UnicodeAlnum, text: string): seq<string> {
    FilterWords(Split(RemovePunctuation(alnum, Lower(text))))
  }

  /** A leading word of letters and digits followed by a blank contributes its lower-cased self,
      if it qualifies, ahead of the keywords of the rest. */
  lemma WordThenRest(alnum: UnicodeAlnum, w: string, rest: string)
    requires AsciiWord(w)
    ensures KeywordsOf(alnum, w + " " + rest) == FilterWords([Lower(w)]) + KeywordsOf(alnum, rest)
  {
    var lw := Lower(w);
    assert forall j :: 0 <= j < |lw| ==> IsAsciiAlnum(lw[j]);
    RemovePunctuationKeeps(alnum, lw);
    LowerAppend(w + " ", rest);
    LowerAppend(w, " ");
    assert Lower(" ") == " ";
    RemovePunctuationAppend(alnum, lw + " ", Lower(rest));
    RemovePunctuationAppend(alnum, lw, " ");
    assert RemovePunctuation(alnum, " ") == " ";
    SplitWordThenRest(lw, RemovePunctuation(alnum, Lower(rest)));
    assert RemovePunctuation(alnum, Lower(w + " " + rest)) == lw + [' '] + RemovePunctuation(alnum, Lower(rest));
    FilterWordsAppend([lw], Split(RemovePunctuation(alnum, Lower(rest))));
  }

  /** The last word, followed by a full stop. */
  lemma LastWordThenStop(alnum: UnicodeAlnum, w: string)
    requires AsciiWord(w)
    ensures KeywordsOf(alnum, w + ".") == FilterWords([Lower(w)])
  {
    var lw := Lower(w);
    assert forall j :: 0 <= j < |lw| ==> IsAsciiAlnum(lw[j]);
    RemovePunctuationKeeps(alnum, lw);
    LowerAppend(w, ".");
    assert Lower(".") == ".";
    RemovePunctuationAppend(alnum, lw, ".");
    assert RemovePunctuation(alnum, ".") == [];
    assert RemovePunctuation(alnum, Lower(w + ".")) == lw;
    SplitLastWord(lw);
  }

  lemma FilterOne(w: string)
    ensures FilterWords([w]) == if KeepWord(w) then [w] else []
  {
    assert [w][1..] == [];
  }

  /** Words joined by single blanks. */
  function JoinWords(words: seq<string>): string
    requires words != []
  {
    if |words| == 1 then words[0] else words[0] + " " + JoinWords(words[1..])
  }

  function LowerAll(words: seq<string>): (r: seq<string>)
    ensures |r| == |words| && forall k :: 0 <= k < |words| ==> r[k] == Lower(words[k])
  {
    if words == [] then [] else [Lower(words[0])] + LowerAll(words[1..])
  }

  /** A sentence of plain words ending in a full stop: its keywords are its lower-cased words
      that pass the filter, in order. */
  lemma {:induction false} SentenceKeywords(alnum: UnicodeAlnum, words: seq<string>)
    requires words != [] && forall k :: 0 <= k < |words| ==> AsciiWord(words[k])
    ensures KeywordsOf(alnum, JoinWords(words) + ".") == FilterWords(LowerAll(words))
  {
    if |words| == 1 {
      LastWordThenStop(alnum, words[0]);
      assert LowerAll(words) == [Lower(words[0])];
    } else {
      SentenceKeywords(alnum, words[1..]);
      assert JoinWords(words) + "." == words[0] + " " + (JoinWords(words[1..]) + ".");
      WordThenRest(alnum, words[0], JoinWords(words[1..]) + ".");
      assert LowerAll(words) == [Lower(words[0])] + LowerAll(words[1..]);
      FilterWordsAppend([Lower(words[0])], LowerAll(words[1..]));
    }
  }

  /** The words of the keyword test sentence from "sample" on: lower-case and all kept. */
  const SampleTail: seq<string> := ["sample", "text", "for", "testing", "keyword", "extraction"]

  /** The words of the keyword test sentence. */
  const SampleWords: seq<string> := ["This", "is", "a"] + SampleTail

  lemma {:induction false} FilterCons(w: string, rest: seq<string>)
    ensures FilterWords([w] + rest) == (if KeepWord(w) then [w] else []) + FilterWords(rest)
  {
    assert ([w] + rest)[1..] == rest;
  }

  /** Words that all pass the filter come through it unchanged. */
  lemma {:induction false} FilterAllKept(words: seq<string>)
    requires forall k :: 0 <= k < |words| ==> KeepWord(words[k])
    ensures FilterWords(words) == words
  {
    if words != [] {
      FilterAllKept(words[1..]);
    }
  }

  /** Lower-casing words without capitals changes none of them. */
  lemma {:induction false} LowerAllOfLowerCase(words: seq<string>)
    requires forall k, i :: 0 <= k < |words| && 0 <= i < |words[k]| ==> !IsUpper(words[k][i])
    ensures LowerAll(words) == words
  {
    if words != [] {
      LowerOfLowerCase(words[0]);
      LowerAllOfLowerCase(words[1..]);
    }
  }

  lemma SampleLongWordsKept()
    ensures KeepWord("sample") && KeepWord("testing") && KeepWord("keyword") && KeepWord("extraction")
  {
  }

  lemma SampleShortWordsKept()
    ensures KeepWord("this") && KeepWord("text") && KeepWord("for")
  {
  }

  lemma SampleWordsDropped()
    ensures !KeepWord("is") && !KeepWord("a")
  {
  }

  lemma SampleTailKept()
    ensures FilterWords(SampleTail) == SampleTail
  {
    SampleLongWordsKept();
    SampleShortWordsKept();
    FilterAllKept(SampleTail);
  }

  lemma SampleLowered()
    ensures LowerAll(SampleWords) == ["this", "is", "a"] + SampleTail
  {
    var rest := ["is", "a"] + SampleTail;
    assert SampleWords[1..] == rest;
    assert Lower("This") == "this";
    LowerAllOfLowerCase(rest);
  }

  /** The first three words: "this" is kept, "is" and "a" are dropped. */
  lemma SampleHeadFiltered(rest: seq<string>)
    ensures FilterWords(["this", "is", "a"] + rest) == ["this"] + FilterWords(rest)
  {
    SampleShortWordsKept();
    SampleWordsDropped();
    var t2 := ["a"] + rest;
    FilterCons("a", rest);
    var t1 := ["is"] + t2;
    FilterCons("is", t2);
    FilterCons("this", t1);
    assert ["this"] + t1 == ["this", "is", "a"] + rest;
  }

  lemma SampleFiltered()
    ensures FilterWords(LowerAll(SampleWords)) == ["this"] + SampleTail
  {
    SampleLowered();
    SampleHeadFiltered(SampleTail);
    SampleTailKept();
  }

  /** The sentence of the keyword test, "This is a sample text for testing keyword extraction.":
      "this" and "for" are kept, since neither is a stop word, the stop words "is" and "a" go,
      and so does the full stop. */
  lemma SampleKeywords(alnum: UnicodeAlnum)
    ensures ExtractKeywords(alnum, JoinWords(SampleWords) + ".") == ["this"] + SampleTail
  {
    SampleWordsPlain();
    SentenceKeywords(alnum, SampleWords);
    SampleFiltered();
  }

  /** `extract_keywords("„Zahnrad“ 5€")` is `["zahnrad"]`: the quotation marks and the euro sign
      are removed, and "5" is too short to be kept. */
  lemma QuotedGermanWordKeywords(alnum: UnicodeAlnum)
    requires !alnum('\U{201E}') && !alnum('\U{201C}') && !alnum('\U{20AC}')
    ensures ExtractKeywords(alnum, "\U{201E}Zahnrad\U{201C} 5\U{20AC}") == ["zahnrad"]
  {
    QuotedGermanWordCleaned(alnum);
    ZahnradFiveSplit();
    ZahnradFiveFiltered();
  }

  lemma ZahnradFiveSplit()
    ensures Split("zahnrad 5") == ["zahnrad", "5"]
  {
    SplitWordThenRest("zahnrad", "5");
    assert "zahnrad 5" == "zahnrad" + [' '] + "5";
    SplitLastWord("5");
  }

  lemma ZahnradFiveFiltered()
    ensures FilterWords(["zahnrad", "5"]) == ["zahnrad"]
  {
    FilterCons("zahnrad", ["5"]);
    FilterOne("5");
  }

  lemma SampleWordsPlain()
    ensures forall k :: 0 <= k < |SampleWords| ==> AsciiWord(SampleWords[k])
  {
  }

  // ---------------------------------------------------------------- shapes

  /** The shape names searched for, in priority order. */
  const Shapes: seq<string> := ["cube", "sphere", "cylinder", "cone", "torus", "gear", "spring", "thread"]

  /** The first of `shapes` that occurs in `lowered`. */
  function FirstShape(lowered: string, shapes: seq<string>): (r: Option<string>)
    ensures r.Some? ==> r.value in shapes && Contains(lowered, r.value)
    ensures r.None? <==> forall k :: 0 <= k < |shapes| ==> !Contains(lowered, shapes[k])
  {
    if shapes == [] then None
    else if Contains(lowered, shapes[0]) then Some(shapes[0])
    else FirstShape(lowered, shapes[1..])
  }

  /** A shape is chosen only when every shape listed before it is absent. */
  lemma {:induction false} FirstShapeIsFirst(lowered: string, shapes: seq<string>)
    ensures FirstShape(lowered, shapes).Some? ==>
      exists k :: 0 <= k < |shapes| && shapes[k] == FirstShape(lowered, shapes).value
        && forall j :: 0 <= j < k ==> !Contains(lowered, shapes[j])
  {
    if shapes != [] && !Contains(lowered, shapes[0]) {
      FirstShapeIsFirst(lowered, shapes[1..]);
      if FirstShape(lowered, shapes[1..]).Some? {
        var k :| 0 <= k < |shapes[1..]| && shapes[1..][k] == FirstShape(lowered, shapes[1..]).value
          && forall j :: 0 <= j < k ==> !Contains(lowered, shapes[1..][j]);
        assert shapes[k + 1] == FirstShape(lowered, shapes).value;
      }
    } else if shapes != [] {
      assert shapes[0] == FirstShape(lowered, shapes).value;
    }
  }

  /** The shape detection of `extract_parameters`: the loop over the shape names that stops at
      the first one found in the lower-cased text. `None` stands for the absent `shape` key. */
  method DetectShape(text: string) returns (shape: Option<string>)
    ensures shape == FirstShape(Lower(text), Shapes)
  {
    var lowered := Lower(text);
    shape := None;
    var i := 0;
    while i < |Shapes|
      invariant 0 <= i <= |Shapes|
      invariant FirstShape(lowered, Shapes) == FirstShape(lowered, Shapes[i..])
      decreases |Shapes| - i
    {
      FirstShapeStep(lowered, Shapes, i);
      if Contains(lowered, Shapes[i]) {
        shape := Some(Shapes[i]);
        break;
      }
      i := i + 1;
    }
  }

  /** One step of the search: the shape at `i`, if present, else the search from `i + 1`. */
  lemma FirstShapeStep(lowered: string, shapes: seq<string>, i: nat)
    requires i < |shapes|
    ensures FirstShape(lowered, shapes[i..]) ==
      if Contains(lowered, shapes[i]) then Some(shapes[i]) else FirstShape(lowered, shapes[i + 1..])
  {
    assert shapes[i..][1..] == shapes[i + 1..];
  }

  /** The list order decides, not the position in the text: "Spring gear" is a gear. */
  lemma SpringGearIsGear()
    ensures FirstShape(Lower("Spring gear"), Shapes) == Some("gear")
  {
    assert Lower("Spring gear") == "spring gear";
    SpringGearLacksEarlierShapes();
    assert MatchAt("spring gear", "gear", 7);
  }

  /** None of the five shapes listed before "gear" occurs in "spring gear". */
  lemma SpringGearLacksEarlierShapes()
    ensures !Contains("spring gear", "cube") && !Contains("spring gear", "sphere")
    ensures !Contains("spring gear", "cylinder") && !Contains("spring gear", "cone")
    ensures !Contains("spring gear", "torus")
  {
    MissingCharNotContained("spring gear", "cube", 'c');
    MissingCharNotContained("spring gear", "sphere", 'h');
    MissingCharNotContained("spring gear", "cylinder", 'c');
    MissingCharNotContained("spring gear", "cone", 'c');
    MissingCharNotContained("spring gear", "torus", 't');
  }
}
