/**
 * Keyword-based product categories: `ProductCategory`, the two keyword tables
 * of `CategoryMatcher` (Russian/English and Ukrainian) and `match_category`,
 * which lowercases the text and returns the first category in table order one
 * of whose keywords occurs in it.
 */
module ProductCategories {
  import opened Strings

  datatype ProductCategory = Smartphone | Laptop | Tv | Tablet | Headphones | Unknown

  /** One row of a keyword table: a category and the words that select it. */
  datatype Entry = Entry(category: ProductCategory, words: seq<string>)

  /** `category_keywords`, in the order the dictionary is written. */
  const Keywords: seq<Entry> := [
    Entry(Smartphone, ["смартфон", "телефон", "smartphone", "phone", "iphone", "android", "мобильный"]),
    Entry(Laptop, ["ноутбук", "laptop", "нетбук", "macbook", "ultrabook", "ультрабук"]),
    Entry(Tv, ["телевизор", "tv", "смарт тв", "smart tv", "монитор", "monitor"]),
    Entry(Tablet, ["планшет", "tablet", "ipad", "galaxy tab"]),
    Entry(Headphones, ["наушники", "headphones", "earbuds", "airpods", "гарнитура", "headset"])
  ]

  /** `uk_category_keywords`, in the order the dictionary is written. */
  const UkKeywords: seq<Entry> := [
    Entry(Smartphone, ["смартфон", "телефон", "мобільний"]),
    Entry(Laptop, ["ноутбук", "нетбук", "ультрабук"]),
    Entry(Tv, ["телевізор", "монітор"]),
    Entry(Tablet, ["планшет"]),
    Entry(Headphones, ["навушники", "гарнітура"])
  ]

  /** Only the exact language code "uk" selects the Ukrainian table. */
  function TableFor(language: string): seq<Entry> {
    if language == "uk" then UkKeywords else Keywords
  }

  /** `any(word in text for word in words)`. */
  predicate AnyWordIn(words: seq<string>, text: string)
    decreases |words|
  {
    words != [] && (Contains(text, words[0]) || AnyWordIn(words[1..], text))
  }

  /** The loop over the table's rows, returning at the first row with a word in the text. */
  function FirstCategory(table: seq<Entry>, text: string): ProductCategory
    decreases |table|
  {
    if table == [] then Unknown
    else if AnyWordIn(table[0].words, text) then table[0].category
    else FirstCategory(table[1..], text)
  }

  /** `CategoryMatcher.match_category`. */
  function MatchCategory(text: string, language: string): ProductCategory {
    FirstCategory(TableFor(language), Lower(text))
  }

  /** No row of the table stands for "unknown". */
  predicate KnownRows(table: seq<Entry>) {
    forall k :: 0 <= k < |table| ==> table[k].category != Unknown
  }

  lemma {:induction false} AnyWordInIff(words: seq<string>, text: string)
    ensures AnyWordIn(words, text) <==> exists w :: w in words && Contains(text, w)
    decreases |words|
  {
    if words != [] {
      AnyWordInIff(words[1..], text);
      if Contains(text, words[0]) {
        assert words[0] in words;
      }
      forall w | w in words && Contains(text, w) && w != words[0]
        ensures w in words[1..]
      {
      }
    }
  }

  /**
   * The search returns the row at the smallest index whose words occur in the
   * text, or "unknown" exactly when no row's words occur.
   */
  lemma {:induction false} FirstCategoryIsFirst(table: seq<Entry>, text: string)
    requires KnownRows(table)
    ensures FirstCategory(table, text) == Unknown <==>
              forall k :: 0 <= k < |table| ==> !AnyWordIn(table[k].words, text)
    ensures FirstCategory(table, text) != Unknown ==>
              exists k :: 0 <= k < |table| && table[k].category == FirstCategory(table, text)
                && AnyWordIn(table[k].words, text)
                && forall j :: 0 <= j < k ==> !AnyWordIn(table[j].words, text)
    decreases |table|
  {
    if table != [] {
      var rest := table[1..];
      assert KnownRows(rest) by {
        forall k | 0 <= k < |rest| ensures rest[k].category != Unknown {
          assert rest[k] == table[k + 1];
        }
      }
      FirstCategoryIsFirst(rest, text);
      if AnyWordIn(table[0].words, text) {
        assert table[0].category != Unknown;
      } else {
        forall k | 0 <= k < |table| && k > 0 ensures table[k] == rest[k - 1] { }
        if FirstCategory(rest, text) != Unknown {
          var k :| 0 <= k < |rest| && rest[k].category == FirstCategory(rest, text)
                   && AnyWordIn(rest[k].words, text)
                   && forall j :: 0 <= j < k ==> !AnyWordIn(rest[j].words, text);
          assert table[k + 1] == rest[k];
          assert forall j :: 0 <= j < k + 1 ==> !AnyWordIn(table[j].words, text) by {
            forall j | 0 <= j < k + 1 ensures !AnyWordIn(table[j].words, text) {
              if j > 0 {
                assert table[j] == rest[j - 1];
              }
            }
          }
        }
      }
    }
  }

  /** No row having a word in the text is the same as no keyword of the table occurring in it. */
  lemma NoRowMatchesIff(table: seq<Entry>, text: string)
    ensures (forall k :: 0 <= k < |table| ==> !AnyWordIn(table[k].words, text)) <==>
            (forall e, w :: e in table && w in e.words ==> !Contains(text, w))
  {
    if exists k :: 0 <= k < |table| && AnyWordIn(table[k].words, text) {
      var k :| 0 <= k < |table| && AnyWordIn(table[k].words, text);
      var e := table[k];
      AnyWordInIff(e.words, text);
      var w :| w in e.words && Contains(text, w);
      assert e in table;
    } else {
      forall e, w | e in table && w in e.words ensures !Contains(text, w) {
        var k :| 0 <= k < |table| && table[k] == e;
        AnyWordInIff(e.words, text);
      }
    }
  }

  /** Every row names a real category and holds no empty word. */
  predicate WellFormedRows(table: seq<Entry>)
    decreases |table|
  {
    table == [] ||
    (table[0].category != Unknown && NoEmptyWord(table[0].words) && WellFormedRows(table[1..]))
  }

  predicate NoEmptyWord(words: seq<string>)
    decreases |words|
  {
    words == [] || (|words[0]| > 0 && NoEmptyWord(words[1..]))
  }

  lemma {:induction false} NoEmptyWordIn(words: seq<string>)
    requires NoEmptyWord(words)
    ensures forall w :: w in words ==> |w| > 0
    decreases |words|
  {
    if words != [] {
      NoEmptyWordIn(words[1..]);
    }
  }

  lemma {:induction false} WellFormedRowsMeaning(table: seq<Entry>)
    requires WellFormedRows(table)
    ensures KnownRows(table)
    ensures forall e, w :: e in table && w in e.words ==> |w| > 0
    decreases |table|
  {
    if table != [] {
      WellFormedRowsMeaning(table[1..]);
      NoEmptyWordIn(table[0].words);
      forall k | 0 < k < |table| ensures table[k] == table[1..][k - 1] { }
    }
  }

  /** Both tables are well formed. */
  lemma TablesWellFormed()
    ensures KnownRows(Keywords) && KnownRows(UkKeywords)
    ensures forall e, w :: e in Keywords && w in e.words ==> |w| > 0
    ensures forall e, w :: e in UkKeywords && w in e.words ==> |w| > 0
  {
    KeywordsWellFormed();
    UkKeywordsWellFormed();
    WellFormedRowsMeaning(Keywords);
    WellFormedRowsMeaning(UkKeywords);
  }

  lemma KeywordsWellFormed()
    ensures WellFormedRows(Keywords)
  {
    KeywordRow4();
    assert WellFormedRows(Keywords[4..]);
    KeywordRow3();
    assert WellFormedRows(Keywords[3..]);
    KeywordRow2();
    assert WellFormedRows(Keywords[2..]);
    KeywordRow1();
    assert WellFormedRows(Keywords[1..]);
    KeywordRow0();
  }

  lemma KeywordRow0()
    ensures NoEmptyWord(Keywords[0].words)
  {
    RowWords(Keywords[0].words);
  }

  lemma KeywordRow1()
    ensures NoEmptyWord(Keywords[1].words)
  {
    RowWords(Keywords[1].words);
  }

  lemma KeywordRow2()
    ensures NoEmptyWord(Keywords[2].words)
  {
    RowWords(Keywords[2].words);
  }

  lemma KeywordRow3()
    ensures NoEmptyWord(Keywords[3].words)
  {
    RowWords(Keywords[3].words);
  }

  lemma KeywordRow4()
    ensures NoEmptyWord(Keywords[4].words)
  {
    RowWords(Keywords[4].words);
  }

  /** A row whose words all have a first character holds no empty word. */
  lemma {:induction false} RowWords(words: seq<string>)
    requires forall i :: 0 <= i < |words| ==> |words[i]| > 0
    ensures NoEmptyWord(words)
    decreases |words|
  {
    if words != [] {
      RowWords(words[1..]);
    }
  }

  lemma UkKeywordsWellFormed()
    ensures WellFormedRows(UkKeywords)
  {
    assert WellFormedRows(UkKeywords) by {
      assert WellFormedRows(UkKeywords[5..]);
      assert WellFormedRows(UkKeywords[4..]);
      assert WellFormedRows(UkKeywords[3..]);
      assert WellFormedRows(UkKeywords[2..]);
      assert WellFormedRows(UkKeywords[1..]);
    }
  }

  /**
   * `match_category` answers "unknown" exactly when no keyword of the table the
   * language selects occurs in the lowercased text.
   */
  lemma MatchUnknownIff(text: string, language: string)
    ensures MatchCategory(text, language) == Unknown <==>
              forall e, w :: e in TableFor(language) && w in e.words ==> !Contains(Lower(text), w)
  {
    var table := TableFor(language);
    TablesWellFormed();
    FirstCategoryIsFirst(table, Lower(text));
    NoRowMatchesIff(table, Lower(text));
  }

  /**
   * A known answer is the category of the earliest row (smartphone, laptop, TV,
   * tablet, headphones) with a keyword in the lowercased text.
   */
  lemma MatchEarliest(text: string, language: string)
    ensures MatchCategory(text, language) != Unknown ==>
              exists k :: 0 <= k < |TableFor(language)|
                && TableFor(language)[k].category == MatchCategory(text, language)
                && AnyWordIn(TableFor(language)[k].words, Lower(text))
                && forall j :: 0 <= j < k ==> !AnyWordIn(TableFor(language)[j].words, Lower(text))
  {
    TablesWellFormed();
    FirstCategoryIsFirst(TableFor(language), Lower(text));
  }

  /** Matching ignores the case of the text: its lowercased form gets the same answer. */
  lemma MatchIgnoresCase(text: string, language: string)
    ensures MatchCategory(Lower(text), language) == MatchCategory(text, language)
  {
    LowerIdempotent(text);
  }

  /** Empty text matches nothing. */
  lemma MatchEmpty(language: string)
    ensures MatchCategory("", language) == Unknown
  {
    MatchUnknownIff("", language);
    TablesWellFormed();
    assert Lower("") == "";
  }

  /** The English word "laptop" is in the Russian/English table only. */
  lemma LaptopNeedsEnglishTable()
    ensures MatchCategory("laptop", "uk") == Unknown
  {
    var t := "laptop";
    assert Lower(t) == t by {
      LowerUnchanged(t);
    }
    forall k | 0 <= k < |UkKeywords| ensures !AnyWordIn(UkKeywords[k].words, t) {
      FirstLettersAbsent(UkKeywords[k].words, t);
    }
    TablesWellFormed();
    FirstCategoryIsFirst(UkKeywords, t);
  }

  /** No word whose first letter is missing from the text occurs in it. */
  lemma {:induction false} FirstLettersAbsent(words: seq<string>, text: string)
    requires forall i :: 0 <= i < |words| ==> |words[i]| > 0 && words[i][0] !in text
    ensures !AnyWordIn(words, text)
    decreases |words|
  {
    if words != [] {
      if Contains(text, words[0]) {
        ContainsFirstChar(text, words[0]);
      }
      FirstLettersAbsent(words[1..], text);
    }
  }
}
