/**
 * `extractKeywords` on the journal page: the words of a text that are longer
 * than three characters and not common English words, each once, most
 * frequent first.
 */
module Keywords {
  import opened Seqs
  import opened Sorting
  import opened Text
  import opened JsObjects

  /** The common words left out, as listed on the page ("her" appears twice there). */
  const StopWords: seq<string> := [
    "the", "and", "or", "but", "in", "on", "at", "to", "for", "of", "with", "by",
    "a", "an", "is", "was", "are", "were", "been", "be", "have", "has", "had", "do",
    "does", "did", "will", "would", "could", "should", "may", "might", "can", "this",
    "that", "these", "those", "i", "you", "he", "she", "it", "we", "they", "me",
    "him", "her", "us", "them", "my", "your", "his", "her", "its", "our", "their"]

  /** The characters `replace(/[^\w\s]/g, '')` keeps. */
  predicate KeepChar(c: char) {
    IsWordChar(c) || IsSpace(c)
  }

  predicate IsCandidate(w: string) {
    |w| > 3 && w !in StopWords
  }

  /** What a returned keyword looks like. */
  predicate IsKeyword(w: string) {
    |w| > 3 && w !in StopWords && forall i :: 0 <= i < |w| ==> IsWordChar(w[i]) && !IsUpper(w[i])
  }

  /** The text lowercased, stripped of punctuation and split on whitespace. */
  function Tokens(text: string): (r: seq<string>)
    ensures forall i, j :: 0 <= i < |r| && 0 <= j < |r[i]| ==> IsWordChar(r[i][j]) && !IsUpper(r[i][j])
  {
    var lower := ToLower(text);
    var kept := Filter(lower, KeepChar);
    forall c | c in kept ensures KeepChar(c) && !IsUpper(c) {
      var k :| 0 <= k < |kept| && kept[k] == c;
      assert c in multiset(lower);
      var m :| 0 <= m < |lower| && lower[m] == c;
    }
    SplitWhitespace(kept)
  }

  /** The words the frequency count sees, in text order and with repetitions. */
  function Candidates(text: string): seq<string> {
    Filter(Tokens(text), IsCandidate)
  }

  /** Every word counted is lowercase, longer than three characters, made of word characters and not a common word. */
  lemma CandidatesWellFormed(text: string)
    ensures forall i :: 0 <= i < |Candidates(text)| ==> IsKeyword(Candidates(text)[i])
  {
    var tokens := Tokens(text);
    var r := Candidates(text);
    forall i | 0 <= i < |r| ensures IsKeyword(r[i]) {
      assert r[i] in multiset(tokens);
      var k :| 0 <= k < |tokens| && tokens[k] == r[i];
    }
  }

  // ---- The frequency object and its entries -------------------------------

  datatype Entry = Entry(word: string, count: nat)

  /** The entries of the frequency object built from `words`. */
  function Frequencies(words: seq<string>): (r: seq<Entry>)
    ensures |r| == |EntryKeys(words)|
    ensures forall i :: 0 <= i < |r| ==> r[i].word == EntryKeys(words)[i]
    ensures forall e :: e in r ==> e.count == multiset(words)[e.word] && e.word in words
  {
    var keys := EntryKeys(words);
    seq(|keys|, i requires 0 <= i < |keys| => Entry(keys[i], multiset(words)[keys[i]]))
  }

  function NegCount(e: Entry): int {
    -(e.count as int)
  }

  function WordsOf(entries: seq<Entry>): (r: seq<string>)
    ensures |r| == |entries|
    ensures forall i :: 0 <= i < |r| ==> r[i] == entries[i].word
  {
    seq(|entries|, i requires 0 <= i < |entries| => entries[i].word)
  }

  /** The distinct words, most frequent first; words of equal frequency keep the entry order. */
  function Ranked(words: seq<string>): seq<string> {
    WordsOf(SortBy(Frequencies(words), NegCount))
  }

  /**
   * The `forEach` that fills the frequency dictionary: `keys` lists its keys
   * in the order they were added.
   */
  method CountWords(words: seq<string>) returns (frequency: map<string, nat>, keys: seq<string>)
    ensures keys == Distinct(words)
    ensures forall w :: w in frequency <==> w in words
    ensures forall w :: w in frequency ==> frequency[w] == multiset(words)[w]
  {
    frequency, keys := map[], [];
    for i := 0 to |words|
      invariant keys == Distinct(words[..i])
      invariant forall w :: w in frequency <==> w in words[..i]
      invariant forall w :: w in frequency ==> frequency[w] == multiset(words[..i])[w]
    {
      assert words[..i + 1] == words[..i] + [words[i]];
      frequency, keys := CountWord(frequency, keys, words[..i], words[i]);
    }
    assert words[..|words|] == words;
  }

  /**
   * The `forEach` callback: `frequency[word] = (frequency[word] || 0) + 1`.
   * `seen` are the words already counted; `keys` lists the dictionary's keys
   * in the order they were added.
   */
  method CountWord(frequency: map<string, nat>, keys: seq<string>, ghost seen: seq<string>, word: string)
    returns (frequency': map<string, nat>, keys': seq<string>)
    requires keys == Distinct(seen)
    requires forall w :: w in frequency <==> w in seen
    requires forall w :: w in frequency ==> frequency[w] == multiset(seen)[w]
    ensures keys' == Distinct(seen + [word])
    ensures forall w :: w in frequency' <==> w in seen + [word]
    ensures forall w :: w in frequency' ==> frequency'[w] == multiset(seen + [word])[w]
  {
    DistinctAppend(seen, word);
    keys' := if word in frequency then keys else keys + [word];
    var n := if word in frequency then frequency[word] else 0;
    frequency' := frequency[word := n + 1];
  }

  /**
   * `extractKeywords(text)`: counts the candidate words in a dictionary, then
   * sorts its entries by descending count and keeps the words.
   */
  method ExtractKeywords(text: string) returns (keywords: seq<string>)
    ensures keywords == Ranked(Candidates(text))
  {
    var words := Candidates(text);
    keywords := RankWords(words);
  }

  /** The counting and sorting half of `extractKeywords`. */
  method RankWords(words: seq<string>) returns (keywords: seq<string>)
    ensures keywords == Ranked(words)
  {
    var frequency, keys := CountWords(words);
    var order := KeyOrder(keys);
    CountedEntries(words, frequency, keys);
    var entries := EntriesOf(order, frequency);
    var sorted := SortBy(entries, NegCount);
    keywords := WordsOf(sorted);
  }

  /** `Object.entries(frequency)` for the keys listed in `order`. */
  function EntriesOf(order: seq<string>, frequency: map<string, nat>): (entries: seq<Entry>)
    requires forall k :: 0 <= k < |order| ==> order[k] in frequency
    ensures |entries| == |order|
    ensures forall k :: 0 <= k < |order| ==> entries[k] == Entry(order[k], frequency[order[k]])
  {
    seq(|order|, k requires 0 <= k < |order| => Entry(order[k], frequency[order[k]]))
  }

  /** The entries of the counted dictionary are the frequencies of the words. */
  lemma CountedEntries(words: seq<string>, frequency: map<string, nat>, keys: seq<string>)
    requires keys == Distinct(words)
    requires forall w :: w in frequency <==> w in words
    requires forall w :: w in frequency ==> frequency[w] == multiset(words)[w]
    ensures forall k :: 0 <= k < |KeyOrder(keys)| ==> KeyOrder(keys)[k] in frequency
    ensures EntriesOf(KeyOrder(keys), frequency) == Frequencies(words)
  {
    OrderedKeysCounted(keys, frequency);
    var order := KeyOrder(keys);
    var entries, spec := EntriesOf(order, frequency), Frequencies(words);
    assert order == EntryKeys(words);
    forall i | 0 <= i < |entries| ensures entries[i] == spec[i] {
      var w := order[i];
      assert spec[i].word == w;
      assert spec[i] in spec;
      assert spec[i].count == multiset(words)[w];
      assert entries[i] == Entry(w, frequency[w]);
    }
  }

  lemma OrderedKeysCounted(keys: seq<string>, frequency: map<string, nat>)
    requires forall w :: w in keys ==> w in frequency
    ensures forall k :: 0 <= k < |KeyOrder(keys)| ==> KeyOrder(keys)[k] in frequency
  {
    var order := KeyOrder(keys);
    forall k | 0 <= k < |order| ensures order[k] in frequency {
      assert order[k] in multiset(keys);
    }
  }

  // ---- Properties ---------------------------------------------------------

  /** The entries after sorting, before the words are taken out. */
  ghost function RankedEntries(words: seq<string>): seq<Entry> {
    SortBy(Frequencies(words), NegCount)
  }

  lemma RankedEntriesFacts(words: seq<string>)
    ensures var s := RankedEntries(words);
      && NoDuplicates(s)
      && (forall i :: 0 <= i < |s| ==> s[i].count == multiset(words)[s[i].word] && s[i].word in words)
      && (forall i, j :: 0 <= i < j < |s| ==> s[i].count >= s[j].count)
      && (forall w :: w in words ==> exists i :: 0 <= i < |s| && s[i].word == w)
  {
    RankedEntriesDistinct(words);
    RankedEntriesCounted(words);
    RankedEntriesDescending(words);
    RankedEntriesCover(words);
  }

  lemma RankedEntriesDistinct(words: seq<string>)
    ensures NoDuplicates(RankedEntries(words))
  {
    var entries, keys := Frequencies(words), EntryKeys(words);
    assert NoDuplicates(entries) by {
      forall i, j | 0 <= i < j < |entries| ensures entries[i] != entries[j] {
        assert entries[i].word == keys[i] && entries[j].word == keys[j];
      }
    }
    PermutationNoDuplicates(entries, RankedEntries(words));
  }

  lemma RankedEntriesCounted(words: seq<string>)
    ensures var s := RankedEntries(words);
      forall i :: 0 <= i < |s| ==> s[i].count == multiset(words)[s[i].word] && s[i].word in words
  {
    var entries, s := Frequencies(words), RankedEntries(words);
    forall i | 0 <= i < |s| ensures s[i].count == multiset(words)[s[i].word] && s[i].word in words {
      assert s[i] in multiset(s);
      assert s[i] in multiset(entries);
    }
  }

  lemma RankedEntriesDescending(words: seq<string>)
    ensures var s := RankedEntries(words);
      forall i, j :: 0 <= i < j < |s| ==> s[i].count >= s[j].count
  {
    var s := RankedEntries(words);
    assert SortedBy(s, NegCount);
    forall i, j | 0 <= i < j < |s| ensures s[i].count >= s[j].count {
      assert NegCount(s[i]) <= NegCount(s[j]);
    }
  }

  lemma RankedEntriesCover(words: seq<string>)
    ensures var s := RankedEntries(words);
      forall w :: w in words ==> exists i :: 0 <= i < |s| && s[i].word == w
  {
    var entries, keys, s := Frequencies(words), EntryKeys(words), RankedEntries(words);
    forall w | w in words ensures exists i :: 0 <= i < |s| && s[i].word == w {
      var k :| 0 <= k < |keys| && keys[k] == w;
      assert entries[k] in multiset(entries);
      assert entries[k] in multiset(s);
      var i :| 0 <= i < |s| && s[i] == entries[k];
    }
  }

  /** The ranking holds exactly the words counted. */
  lemma RankedElements(words: seq<string>)
    ensures forall w :: w in Ranked(words) <==> w in words
  {
    RankedEntriesFacts(words);
    var s, r := RankedEntries(words), Ranked(words);
    forall w ensures w in r <==> w in words {
      if w in words {
        var i :| 0 <= i < |s| && s[i].word == w;
        assert r[i] == w;
      }
    }
  }

  /** No word is ranked twice. */
  lemma RankedNoDuplicates(words: seq<string>)
    ensures NoDuplicates(Ranked(words))
  {
    RankedEntriesFacts(words);
    var s, r := RankedEntries(words), Ranked(words);
    forall i, j | 0 <= i < j < |r| ensures r[i] != r[j] {
      assert r[i] == s[i].word && r[j] == s[j].word;
    }
  }

  /**
   * Along the ranking the number of occurrences never increases, and the
   * entries with the same count keep the order `Object.entries` lists them in.
   */
  lemma RankedByFrequency(words: seq<string>)
    ensures var r := Ranked(words);
      forall i, j :: 0 <= i < j < |r| ==> multiset(words)[r[i]] >= multiset(words)[r[j]]
    ensures forall v :: WithKey(RankedEntries(words), NegCount, v) == WithKey(Frequencies(words), NegCount, v)
  {
    RankedEntriesFacts(words);
    var s, r := RankedEntries(words), Ranked(words);
    forall i, j | 0 <= i < j < |r| ensures multiset(words)[r[i]] >= multiset(words)[r[j]] {
      assert r[i] == s[i].word && r[j] == s[j].word;
    }
    forall v ensures WithKey(RankedEntries(words), NegCount, v) == WithKey(Frequencies(words), NegCount, v) {
      SortByStable(Frequencies(words), NegCount, v);
    }
  }

  /** Every keyword is lowercase, longer than three characters, made of word characters and not a common word. */
  lemma KeywordsWellFormed(text: string)
    ensures forall w :: w in Ranked(Candidates(text)) ==> IsKeyword(w)
  {
    RankedElements(Candidates(text));
    CandidatesWellFormed(text);
  }

  /** Text with no word of four or more letters yields no keywords. */
  lemma NoCandidatesNoKeywords(text: string)
    requires Candidates(text) == []
    ensures Ranked(Candidates(text)) == []
  {
    RankedElements(Candidates(text));
  }

  lemma EmptyTextNoKeywords()
    ensures Candidates("") == []
  {
    assert SplitWhitespace("") == [""];
  }
}
