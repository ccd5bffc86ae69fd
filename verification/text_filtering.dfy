/**
 * The two text filters applied to donor-supplied text: masking banned
 * words with asterisks, and replacing links with a fixed placeholder.
 *
 * Case-insensitive matching is modelled by a per-character folding function
 * `fold`: two characters match when they fold to the same character. Nothing
 * here assumes an alphabet.
 */
module TextFiltering {
  import opened PyStrings

  const Mask: char := '*'

  // ---------------------------------------------------------------------------
  // Banned words
  // ---------------------------------------------------------------------------

  /** `word` occurs at position i of s, character by character under `fold`. */
  predicate MatchesAt(fold: char -> char, s: string, i: nat, word: string) {
    i + |word| <= |s| && forall k :: 0 <= k < |word| ==> fold(s[i + k]) == fold(word[k])
  }

  /** `word` occurs nowhere in s. */
  predicate FreeOf(fold: char -> char, s: string, word: string) {
    forall i :: 0 <= i < |s| ==> !MatchesAt(fold, s, i, word)
  }

  /** r has the length of orig and every position keeps its character or holds the mask. */
  predicate MaskedFrom(orig: string, r: string) {
    |r| == |orig| && forall i :: 0 <= i < |r| ==> r[i] == orig[i] || r[i] == Mask
  }

  /** No character of `word` matches the mask character. */
  predicate MaskFree(fold: char -> char, word: string) {
    forall k :: 0 <= k < |word| ==> fold(word[k]) != fold(Mask)
  }

  function Stars(n: nat): (r: string)
    ensures |r| == n && forall i :: 0 <= i < n ==> r[i] == Mask
  {
    seq(n, _ => Mask)
  }

  /**
   * Substitution of one non-empty literal word, case-insensitively, by as many
   * asterisks as it has characters: occurrences are taken left to right and
   * do not overlap.
   */
  function SubstituteWord(fold: char -> char, s: string, word: string): (r: string)
    requires word != []
    ensures MaskedFrom(s, r)
    decreases |s|
  {
    if MatchesAt(fold, s, 0, word) then Stars(|word|) + SubstituteWord(fold, s[|word|..], word)
    else if s == [] then []
    else [s[0]] + SubstituteWord(fold, s[1..], word)
  }

  /** The words applied one after the other in list order, empty words skipped. */
  function ApplyWords(fold: char -> char, s: string, words: seq<string>): (r: string)
    ensures MaskedFrom(s, r)
    decreases |words|
  {
    if words == [] then s
    else
      var prev := ApplyWords(fold, s, words[..|words| - 1]);
      var word := words[|words| - 1];
      if word == [] then prev else SubstituteWord(fold, prev, word)
  }

  /** What filter_text_with_banwords returns. */
  function FilterBanwords(fold: char -> char, text: string, banwords: seq<string>): (r: string)
    ensures MaskedFrom(text, r)
  {
    if text == [] || banwords == [] then text else ApplyWords(fold, text, banwords)
  }

  /** filter_text_with_banwords: the loop over the word list, reassigning the text. */
  method FilterTextWithBanwords(fold: char -> char, text: string, banwords: seq<string>)
    returns (filtered: string)
    ensures filtered == FilterBanwords(fold, text, banwords)
    ensures text == [] || banwords == [] ==> filtered == text
    ensures MaskedFrom(text, filtered)
  {
    if text == [] || banwords == [] {
      return text;
    }
    filtered := text;
    for i := 0 to |banwords|
      invariant filtered == ApplyWords(fold, text, banwords[..i])
    {
      assert banwords[..i + 1][..i] == banwords[..i];
      var word := banwords[i];
      if word != [] {
        filtered := SubstituteWord(fold, filtered, word);
      }
    }
    assert banwords[..|banwords|] == banwords;
  }

  /** A match in a masked copy is a match in the original, when the mask cannot match the word. */
  lemma MaskedMatchIsOriginalMatch(fold: char -> char, orig: string, r: string, word: string, i: nat)
    requires MaskedFrom(orig, r) && MaskFree(fold, word)
    ensures MatchesAt(fold, r, i, word) ==> MatchesAt(fold, orig, i, word)
  {
    if MatchesAt(fold, r, i, word) {
      forall k | 0 <= k < |word| ensures fold(orig[i + k]) == fold(word[k]) {
        assert fold(r[i + k]) == fold(word[k]);
      }
    }
  }

  /** Matching at n + i in s is matching at i in the tail of s from n. */
  lemma MatchInTail(fold: char -> char, s: string, n: nat, t: string, i: nat, word: string)
    requires n <= |s| && s[n..] == t
    ensures MatchesAt(fold, s, n + i, word) <==> MatchesAt(fold, t, i, word)
  {
    if MatchesAt(fold, t, i, word) {
      forall k | 0 <= k < |word| ensures fold(s[n + i + k]) == fold(word[k]) {
        assert s[n + i + k] == t[i + k];
      }
    }
    if MatchesAt(fold, s, n + i, word) {
      forall k | 0 <= k < |word| ensures fold(t[i + k]) == fold(word[k]) {
        assert t[i + k] == s[n + i + k];
      }
    }
  }

  /** Masking never creates an occurrence of a word the mask cannot match. */
  lemma MaskingKeepsFreeOf(fold: char -> char, orig: string, r: string, word: string)
    requires MaskedFrom(orig, r) && MaskFree(fold, word)
    requires FreeOf(fold, orig, word)
    ensures FreeOf(fold, r, word)
  {
    forall i | 0 <= i < |r| ensures !MatchesAt(fold, r, i, word) {
      MaskedMatchIsOriginalMatch(fold, orig, r, word, i);
    }
  }

  /** After substituting a word that has no mask-matching character, it occurs nowhere. */
  lemma {:induction false} SubstituteWordRemovesWord(fold: char -> char, s: string, word: string)
    requires word != [] && MaskFree(fold, word)
    ensures FreeOf(fold, SubstituteWord(fold, s, word), word)
    decreases |s|
  {
    var r := SubstituteWord(fold, s, word);
    var n := |word|;
    if MatchesAt(fold, s, 0, word) {
      var rest := SubstituteWord(fold, s[n..], word);
      SubstituteWordRemovesWord(fold, s[n..], word);
      assert r[n..] == rest;
      forall i | 0 <= i < |r| ensures !MatchesAt(fold, r, i, word) {
        if i < n {
          assert r[i] == Mask;
          assert fold(r[i + 0]) != fold(word[0]);
        } else {
          MatchInTail(fold, r, n, rest, i - n, word);
        }
      }
    } else if s != [] {
      var rest := SubstituteWord(fold, s[1..], word);
      SubstituteWordRemovesWord(fold, s[1..], word);
      assert r[1..] == rest;
      forall i | 0 <= i < |r| ensures !MatchesAt(fold, r, i, word) {
        if i == 0 {
          MaskedMatchIsOriginalMatch(fold, s, r, word, 0);
        } else {
          MatchInTail(fold, r, 1, rest, i - 1, word);
        }
      }
    }
  }

  /** Substituting a word that does not occur changes nothing. */
  lemma {:induction false} SubstituteAbsentWord(fold: char -> char, s: string, word: string)
    requires word != [] && FreeOf(fold, s, word)
    ensures SubstituteWord(fold, s, word) == s
    decreases |s|
  {
    if s != [] {
      assert !MatchesAt(fold, s, 0, word);
      forall i | 0 <= i < |s[1..]| ensures !MatchesAt(fold, s[1..], i, word) {
        MatchInTail(fold, s, 1, s[1..], i, word);
      }
      SubstituteAbsentWord(fold, s[1..], word);
      assert [s[0]] + s[1..] == s;
    }
  }

  /** After all words are applied, none of the non-empty, mask-free words occurs. */
  lemma {:induction false} ApplyWordsRemovesAll(fold: char -> char, s: string, words: seq<string>)
    requires forall j :: 0 <= j < |words| ==> MaskFree(fold, words[j])
    ensures forall j :: 0 <= j < |words| && words[j] != [] ==> FreeOf(fold, ApplyWords(fold, s, words), words[j])
    decreases |words|
  {
    if words != [] {
      var init := words[..|words| - 1];
      var last := words[|words| - 1];
      var prev := ApplyWords(fold, s, init);
      var r := ApplyWords(fold, s, words);
      ApplyWordsRemovesAll(fold, s, init);
      if last != [] {
        SubstituteWordRemovesWord(fold, prev, last);
      }
      forall j | 0 <= j < |words| && words[j] != []
        ensures FreeOf(fold, r, words[j])
      {
        if j < |words| - 1 {
          assert words[j] == init[j];
          MaskingKeepsFreeOf(fold, prev, r, words[j]);
        }
      }
    }
  }

  /** Applying words none of which occurs changes nothing. */
  lemma {:induction false} ApplyAbsentWords(fold: char -> char, s: string, words: seq<string>)
    requires forall j :: 0 <= j < |words| && words[j] != [] ==> FreeOf(fold, s, words[j])
    ensures ApplyWords(fold, s, words) == s
    decreases |words|
  {
    if words != [] {
      var init := words[..|words| - 1];
      ApplyAbsentWords(fold, s, init);
      var last := words[|words| - 1];
      if last != [] {
        SubstituteAbsentWord(fold, s, last);
      }
    }
  }

  /** If no banned word has a character the mask matches, none occurs in the filtered text. */
  lemma FilterRemovesEveryBanword(fold: char -> char, text: string, banwords: seq<string>)
    requires forall j :: 0 <= j < |banwords| ==> MaskFree(fold, banwords[j])
    ensures forall j :: 0 <= j < |banwords| && banwords[j] != [] ==>
      FreeOf(fold, FilterBanwords(fold, text, banwords), banwords[j])
  {
    ApplyWordsRemovesAll(fold, text, banwords);
  }

  /** Filtering twice is filtering once, for banned words without mask-matching characters. */
  lemma FilterBanwordsIdempotent(fold: char -> char, text: string, banwords: seq<string>)
    requires forall j :: 0 <= j < |banwords| ==> MaskFree(fold, banwords[j])
    ensures FilterBanwords(fold, FilterBanwords(fold, text, banwords), banwords)
         == FilterBanwords(fold, text, banwords)
  {
    var once := FilterBanwords(fold, text, banwords);
    if once != [] && banwords != [] {
      FilterRemovesEveryBanword(fold, text, banwords);
      ApplyAbsentWords(fold, once, banwords);
    }
  }

  /** Without the mask-free condition the filter is not idempotent: "a*" over "aa*". */
  lemma FilterWithMaskInWordNotIdempotent()
    ensures FilterBanwords(c => c, "aa*", ["a*"]) == "a**"
    ensures FilterBanwords(c => c, "a**", ["a*"]) == "***"
  {
    var id := (c: char) => c;
    assert "aa*"[0 + 1] != "a*"[1];
    assert !MatchesAt(id, "aa*", 0, "a*");
    assert MatchesAt(id, "aa*"[1..], 0, "a*");
    assert "aa*"[1..][2..] == [];
    assert SubstituteWord(id, "aa*"[1..], "a*") == "**";
    assert ApplyWords(id, "aa*", ["a*"]) == "a**";
    assert MatchesAt(id, "a**", 0, "a*");
    assert "a**"[2..] == "*";
    assert !MatchesAt(id, "*", 0, "a*");
    assert "*"[1..] == [];
    assert SubstituteWord(id, "*", "a*") == "*";
    assert ApplyWords(id, "a**", ["a*"]) == "***";
  }

  /** The words that are not empty, in list order. */
  function NonEmptyWords(words: seq<string>): (r: seq<string>)
    ensures forall j :: 0 <= j < |r| ==> r[j] != []
    decreases |words|
  {
    if words == [] then []
    else
      var last := words[|words| - 1];
      NonEmptyWords(words[..|words| - 1]) + (if last == [] then [] else [last])
  }

  /** Empty strings in the word list are skipped. */
  lemma {:induction false} EmptyWordsSkipped(fold: char -> char, text: string, words: seq<string>)
    ensures ApplyWords(fold, text, words) == ApplyWords(fold, text, NonEmptyWords(words))
    decreases |words|
  {
    if words != [] {
      var init := words[..|words| - 1];
      var last := words[|words| - 1];
      EmptyWordsSkipped(fold, text, init);
      var ne := NonEmptyWords(init);
      if last != [] {
        assert NonEmptyWords(words) == ne + [last];
        assert (ne + [last])[..|ne|] == ne;
      } else {
        assert NonEmptyWords(words) == ne;
      }
    }
  }

  /** Applying a + b is applying a and then b to the result: the words act in list order. */
  lemma {:induction false} ApplyWordsInOrder(fold: char -> char, text: string, a: seq<string>, b: seq<string>)
    ensures ApplyWords(fold, text, a + b) == ApplyWords(fold, ApplyWords(fold, text, a), b)
    decreases |b|
  {
    if b == [] {
      assert a + b == a;
    } else {
      var binit := b[..|b| - 1];
      ApplyWordsInOrder(fold, text, a, binit);
      assert (a + b)[..|a + b| - 1] == a + binit;
      assert (a + b)[|a + b| - 1] == b[|b| - 1];
    }
  }

  // ---------------------------------------------------------------------------
  // Links
  // ---------------------------------------------------------------------------

  const UrlPlaceholder: string := "[URL REMOVED]"
  const Http: string := "http://"
  const Https: string := "https://"
  const Www: string := "www."

  /** s starts with the literal `lit` followed by at least one non-whitespace character. */
  predicate LiteralThenToken(s: string, lit: string) {
    |lit| < |s| && s[..|lit|] == lit && !IsSpace(s[|lit|])
  }

  /** The pattern https?://\S+|www\.\S+ matches at the start of s. */
  predicate StartsUrl(s: string) {
    LiteralThenToken(s, Http) || LiteralThenToken(s, Https) || LiteralThenToken(s, Www)
  }

  /** s contains no match of the link pattern. */
  predicate NoUrl(s: string) {
    forall i :: 0 <= i < |s| ==> !StartsUrl(s[i..])
  }

  /** Length of the longest run of non-whitespace characters at the start of s (greedy \S*). */
  function TokenLength(s: string): (n: nat)
    ensures n <= |s|
    ensures forall k :: 0 <= k < n ==> !IsSpace(s[k])
    ensures n == |s| || IsSpace(s[n])
    decreases |s|
  {
    if s == [] || IsSpace(s[0]) then 0 else 1 + TokenLength(s[1..])
  }

  /** Length of the link match at the start of s: the literal, then \S+ taken greedily. */
  function UrlMatchLength(s: string): (n: nat)
    requires StartsUrl(s)
    ensures 0 < n <= |s|
    ensures forall k :: 0 <= k < n ==> !IsSpace(s[k])
    ensures n == |s| || IsSpace(s[n])
  {
    var lit := if LiteralThenToken(s, Http) then Http
               else if LiteralThenToken(s, Https) then Https
               else Www;
    assert forall k :: 0 <= k < |lit| ==> s[k] == lit[k];
    var n := |lit| + TokenLength(s[|lit|..]);
    assert forall k :: |lit| <= k < n ==> s[k] == s[|lit|..][k - |lit|];
    n
  }

  /** url_pattern.sub('[URL REMOVED]', s): matches left to right, the rest copied. */
  function ReplaceUrls(s: string): (r: string)
    decreases |s|
  {
    if s == [] then []
    else if StartsUrl(s) then UrlPlaceholder + ReplaceUrls(s[UrlMatchLength(s)..])
    else [s[0]] + ReplaceUrls(s[1..])
  }

  /** filter_urls_from_text. */
  function FilterUrlsFromText(text: string, shouldFilter: bool): (r: string)
    ensures !shouldFilter || text == [] ==> r == text
    ensures shouldFilter ==> NoUrl(r)
  {
    if text == [] || !shouldFilter then text
    else
      ReplaceUrlsLeavesNoUrl(text);
      ReplaceUrls(text)
  }

  /** Every match begins with 'h' or 'w'. */
  lemma UrlStartsWithLetter(s: string)
    requires StartsUrl(s)
    ensures s[0] == 'h' || s[0] == 'w'
  {
    var lit := if LiteralThenToken(s, Http) then Http else if LiteralThenToken(s, Https) then Https else Www;
    assert s[0] == s[..|lit|][0] == lit[0];
  }

  /** Text starting with any other character starts no link. */
  lemma NoUrlAtOtherLetter(s: string)
    requires s != [] && s[0] != 'h' && s[0] != 'w'
    ensures !StartsUrl(s)
  {
    if StartsUrl(s) {
      UrlStartsWithLetter(s);
      assert false;
    }
  }

  /** Position of the first match in s, or |s| when there is none. */
  function FirstUrlStart(s: string): (q: nat)
    ensures q <= |s|
    ensures q < |s| ==> StartsUrl(s[q..])
    ensures q > 0 ==> !StartsUrl(s)
    decreases |s|
  {
    if s == [] || StartsUrl(s) then 0
    else
      var q := 1 + FirstUrlStart(s[1..]);
      assert q < |s| ==> s[q..] == s[1..][q - 1..];
      q
  }

  /** The text before the first link is copied unchanged. */
  lemma {:induction false} ReplaceUrlsCopiesPrefix(s: string)
    ensures ReplaceUrls(s) == s[..FirstUrlStart(s)] + ReplaceUrls(s[FirstUrlStart(s)..])
    decreases |s|
  {
    if s != [] && !StartsUrl(s) {
      var q := FirstUrlStart(s);
      var q1 := FirstUrlStart(s[1..]);
      assert q == 1 + q1;
      ReplaceUrlsCopiesPrefix(s[1..]);
      var a := s[1..][..q1];
      var b := ReplaceUrls(s[1..][q1..]);
      ConsSplit(s, q);
      calc {
        ReplaceUrls(s);
        [s[0]] + ReplaceUrls(s[1..]);
        [s[0]] + (a + b);
        { ConsAssoc(s[0], a, b); }
        ([s[0]] + a) + b;
      }
    }
  }

  /** Splitting off the first element commutes with taking and dropping. */
  lemma ConsSplit<T>(s: seq<T>, q: nat)
    requires 1 <= q <= |s|
    ensures [s[0]] + s[1..][..q - 1] == s[..q]
    ensures s[1..][q - 1..] == s[q..]
  {
  }

  lemma ConsAssoc<T>(x: T, a: seq<T>, b: seq<T>)
    ensures [x] + (a + b) == ([x] + a) + b
  {
  }

  /** When s[q..] starts a link and s does not start with `lit`, neither does s[..q] + "[URL REMOVED]" + tail. */
  lemma LiteralBeforePlaceholder(s: string, q: nat, tail: string, lit: string)
    requires q < |s| && StartsUrl(s[q..])
    requires '[' !in lit
    requires !LiteralThenToken(s, lit)
    ensures !LiteralThenToken(s[..q] + UrlPlaceholder + tail, lit)
  {
    var r := s[..q] + UrlPlaceholder + tail;
    if q < |lit| {
      assert lit[q] in lit;
      assert |lit| <= |r| ==> r[..|lit|][q] == '[';
    } else if q == |lit| {
      assert s[..|lit|] == r[..|lit|];
      UrlStartsWithLetter(s[q..]);
      assert s[|lit|] == s[q..][0];
    } else {
      assert s[..|lit|] == r[..|lit|];
      assert s[|lit|] == r[|lit|];
    }
  }

  /** Where s starts a link, the placeholder comes first in the output. */
  lemma ReplaceUrlsAtUrl(s: string)
    requires StartsUrl(s)
    ensures ReplaceUrls(s) == UrlPlaceholder + ReplaceUrls(s[UrlMatchLength(s)..])
  {
  }

  /** The output of the substitution never begins with a link. */
  lemma ReplaceUrlsDoesNotStartWithUrl(s: string)
    ensures !StartsUrl(ReplaceUrls(s))
  {
    var q := FirstUrlStart(s);
    ReplaceUrlsCopiesPrefix(s);
    var r := ReplaceUrls(s);
    if q == |s| {
      assert s[..q] == s && s[q..] == [];
      assert r == s;
    } else {
      var t := s[q..];
      ReplaceUrlsAtUrl(t);
      var tail := ReplaceUrls(t[UrlMatchLength(t)..]);
      assert r == s[..q] + UrlPlaceholder + tail;
      if q == 0 {
        assert r[0] == '[';
        NoUrlAtOtherLetter(r);
      } else {
        LiteralBeforePlaceholder(s, q, tail, Http);
        LiteralBeforePlaceholder(s, q, tail, Https);
        LiteralBeforePlaceholder(s, q, tail, Www);
      }
    }
  }

  /** The substitution leaves no link anywhere in its output. */
  lemma {:induction false} ReplaceUrlsLeavesNoUrl(s: string)
    ensures NoUrl(ReplaceUrls(s))
    decreases |s|
  {
    var r := ReplaceUrls(s);
    if s != [] {
      if StartsUrl(s) {
        var rest := ReplaceUrls(s[UrlMatchLength(s)..]);
        ReplaceUrlsLeavesNoUrl(s[UrlMatchLength(s)..]);
        var P := UrlPlaceholder;
        forall i | 0 <= i < |r| ensures !StartsUrl(r[i..]) {
          if i < |P| {
            assert r[i..][0] == P[i];
            NoUrlAtOtherLetter(r[i..]);
          } else {
            assert r[i..] == rest[i - |P|..];
          }
        }
      } else {
        var rest := ReplaceUrls(s[1..]);
        ReplaceUrlsLeavesNoUrl(s[1..]);
        forall i | 0 <= i < |r| ensures !StartsUrl(r[i..]) {
          if i == 0 {
            ReplaceUrlsDoesNotStartWithUrl(s);
            assert r[0..] == r;
          } else {
            assert r[i..] == rest[i - 1..];
          }
        }
      }
    }
  }

  /** Text without links passes through unchanged. */
  lemma {:induction false} ReplaceUrlsWithoutUrl(s: string)
    requires NoUrl(s)
    ensures ReplaceUrls(s) == s
    decreases |s|
  {
    if s != [] {
      assert s[0..] == s;
      forall i | 0 <= i < |s[1..]| ensures !StartsUrl(s[1..][i..]) {
        assert s[1..][i..] == s[i + 1..];
      }
      ReplaceUrlsWithoutUrl(s[1..]);
      assert [s[0]] + s[1..] == s;
    }
  }

  /** Filtering links twice is filtering them once. */
  lemma FilterUrlsIdempotent(text: string, shouldFilter: bool)
    ensures FilterUrlsFromText(FilterUrlsFromText(text, shouldFilter), shouldFilter)
         == FilterUrlsFromText(text, shouldFilter)
  {
    var once := FilterUrlsFromText(text, shouldFilter);
    if shouldFilter && once != [] {
      ReplaceUrlsWithoutUrl(once);
    }
  }
}
