/**
 * The text helpers of the parsers' common base class: `clean_text`, and the
 * string part of `extract_price` (the number-and-currency search, the number
 * clean-up and the currency table). Converting the cleaned number with
 * Python's `float` is a parameter of the model.
 */
module BaseParser {
  import opened Wrappers
  import opened Strings

  // ---------------------------------------------------------------------------
  // clean_text
  // ---------------------------------------------------------------------------

  /** `s.lstrip()`: `s` without its leading whitespace. */
  function TrimLeft(s: string): (r: string)
    ensures |r| <= |s| && r == s[|s| - |r|..]
    ensures r == [] || !IsSpace(r[0])
    ensures s != [] && IsSpace(s[0]) ==> |r| < |s|
    decreases |s|
  {
    if s != [] && IsSpace(s[0]) then TrimLeft(s[1..]) else s
  }

  /** `s.rstrip()`: `s` without its trailing whitespace. */
  function TrimRight(s: string): (r: string)
    ensures |r| <= |s| && r == s[..|r|]
    ensures r == [] || !IsSpace(r[|r| - 1])
    decreases |s|
  {
    if s != [] && IsSpace(s[|s| - 1]) then TrimRight(s[..|s| - 1]) else s
  }

  /** `s.strip()`. */
  function Strip(s: string): string {
    TrimRight(TrimLeft(s))
  }

  /** `re.sub(r'\s+', ' ', s)`: every maximal run of whitespace becomes one space. */
  function Collapse(s: string): string
    decreases |s|
  {
    if s == [] then []
    else if IsSpace(s[0]) then " " + Collapse(TrimLeft(s))
    else [s[0]] + Collapse(s[1..])
  }

  /** `BaseParser.clean_text`; `None` stands for Python's `None`. */
  function CleanText(text: Option<string>): (r: string)
    ensures text == None || text == Some("") ==> r == ""
  {
    match text
    case None => ""
    case Some(t) => if t == "" then "" else Collapse(Strip(t))
  }

  /** The non-whitespace characters of `s`, in order. */
  function Words(s: string): string {
    if s == [] then [] else (if IsSpace(s[0]) then [] else [s[0]]) + Words(s[1..])
  }

  /** Every whitespace character is a plain space, directly followed by a non-space (or the end). */
  predicate SingleSpaced(s: string) {
    forall i :: 0 <= i < |s| && IsSpace(s[i]) ==> s[i] == ' ' && (i + 1 == |s| || !IsSpace(s[i + 1]))
  }

  /** No whitespace at either end, and single spaces inside. */
  predicate Tidy(s: string) {
    (s == [] || (!IsSpace(s[0]) && !IsSpace(s[|s| - 1]))) && SingleSpaced(s)
  }

  lemma {:induction false} WordsAppend(a: string, b: string)
    ensures Words(a + b) == Words(a) + Words(b)
    decreases |a|
  {
    if a == [] {
      assert a + b == b;
    } else {
      assert (a + b)[1..] == a[1..] + b;
      WordsAppend(a[1..], b);
    }
  }

  lemma {:induction false} WordsTrimLeft(s: string)
    ensures Words(TrimLeft(s)) == Words(s)
    decreases |s|
  {
    if s != [] && IsSpace(s[0]) {
      WordsTrimLeft(s[1..]);
    }
  }

  lemma {:induction false} WordsTrimRight(s: string)
    ensures Words(TrimRight(s)) == Words(s)
    decreases |s|
  {
    if s != [] && IsSpace(s[|s| - 1]) {
      var init := s[..|s| - 1];
      WordsTrimRight(init);
      assert s == init + [s[|s| - 1]];
      WordsAppend(init, [s[|s| - 1]]);
    }
  }

  /** Collapsing keeps the ends' kind (space or not) and empties only the empty string. */
  lemma {:induction false} CollapseEnds(s: string)
    ensures (Collapse(s) == []) == (s == [])
    ensures s != [] ==> (IsSpace(Collapse(s)[0]) <==> IsSpace(s[0]))
    ensures s != [] ==> (IsSpace(Collapse(s)[|Collapse(s)| - 1]) <==> IsSpace(s[|s| - 1]))
    decreases |s|
  {
    if s == [] {
    } else if IsSpace(s[0]) {
      var t := TrimLeft(s);
      var r := Collapse(t);
      assert Collapse(s) == " " + r;
      CollapseEnds(t);
      if t == [] {
        AllSpaceWhenTrimmedEmpty(s);
        assert Collapse(s) == " ";
      } else {
        assert t[|t| - 1] == s[|s| - 1];
        assert Collapse(s)[|Collapse(s)| - 1] == r[|r| - 1];
      }
    } else {
      var r := Collapse(s[1..]);
      assert Collapse(s) == [s[0]] + r;
      CollapseEnds(s[1..]);
      if |s| > 1 {
        assert s[1..][|s| - 2] == s[|s| - 1];
        assert Collapse(s)[|Collapse(s)| - 1] == r[|r| - 1];
      }
    }
  }

  lemma {:induction false} AllSpaceWhenTrimmedEmpty(s: string)
    requires s != [] && TrimLeft(s) == []
    ensures IsSpace(s[|s| - 1])
    decreases |s|
  {
    if |s| > 1 {
      AllSpaceWhenTrimmedEmpty(s[1..]);
    }
  }

  /** Putting a non-space, or a space before a non-space, in front keeps a string single-spaced. */
  lemma SingleSpacedCons(c: char, r: string)
    requires SingleSpaced(r)
    requires IsSpace(c) ==> c == ' ' && (r == [] || !IsSpace(r[0]))
    ensures SingleSpaced([c] + r)
  {
    var s := [c] + r;
    forall i | 0 <= i < |s| && IsSpace(s[i])
      ensures s[i] == ' ' && (i + 1 == |s| || !IsSpace(s[i + 1]))
    {
      if i > 0 {
        assert s[i] == r[i - 1];
        if i + 1 < |s| {
          assert s[i + 1] == r[i];
        }
      }
    }
  }

  lemma {:induction false} CollapseSingleSpaced(s: string)
    ensures SingleSpaced(Collapse(s))
    decreases |s|
  {
    if s == [] {
    } else if IsSpace(s[0]) {
      var t := TrimLeft(s);
      CollapseSingleSpaced(t);
      CollapseEnds(t);
      SingleSpacedCons(' ', Collapse(t));
    } else {
      CollapseSingleSpaced(s[1..]);
      SingleSpacedCons(s[0], Collapse(s[1..]));
    }
  }

  lemma {:induction false} CollapseKeepsWords(s: string)
    ensures Words(Collapse(s)) == Words(s)
    decreases |s|
  {
    if s == [] {
    } else if IsSpace(s[0]) {
      var t := TrimLeft(s);
      CollapseKeepsWords(t);
      WordsAppend(" ", Collapse(t));
      WordsTrimLeft(s);
    } else {
      CollapseKeepsWords(s[1..]);
      WordsAppend([s[0]], Collapse(s[1..]));
    }
  }

  /** A single-spaced string is left as it is by the whitespace substitution. */
  lemma {:induction false} CollapseFixpoint(s: string)
    requires SingleSpaced(s)
    ensures Collapse(s) == s
    decreases |s|
  {
    if s != [] {
      var rest := s[1..];
      SingleSpacedTail(s);
      CollapseFixpoint(rest);
      if IsSpace(s[0]) {
        assert s[0] == ' ' && (rest == [] || !IsSpace(rest[0]));
        assert TrimLeft(s) == TrimLeft(rest);
        assert TrimLeft(rest) == rest;
        assert Collapse(s) == " " + Collapse(rest);
      } else {
        assert Collapse(s) == [s[0]] + Collapse(rest);
      }
      assert s == [s[0]] + rest;
    }
  }

  lemma SingleSpacedTail(s: string)
    requires s != [] && SingleSpaced(s)
    ensures SingleSpaced(s[1..])
  {
    var rest := s[1..];
    forall i | 0 <= i < |rest| && IsSpace(rest[i])
      ensures rest[i] == ' ' && (i + 1 == |rest| || !IsSpace(rest[i + 1]))
    {
      assert rest[i] == s[i + 1];
      if i + 1 < |rest| {
        assert rest[i + 1] == s[i + 2];
      }
    }
  }

  lemma StripEnds(s: string)
    ensures Strip(s) == [] || (!IsSpace(Strip(s)[0]) && !IsSpace(Strip(s)[|Strip(s)| - 1]))
  {
    var t := TrimLeft(s);
    var r := TrimRight(t);
    if r != [] {
      assert r[0] == t[0];
    }
  }

  /** The result of `clean_text` has no whitespace at its ends and single spaces inside. */
  lemma CleanTextTidy(text: Option<string>)
    ensures Tidy(CleanText(text))
  {
    if text.Some? && text.value != "" {
      var s := Strip(text.value);
      var r := Collapse(s);
      assert CleanText(text) == r;
      StripEnds(text.value);
      CollapseSingleSpaced(s);
      CollapseEnds(s);
    }
  }

  /**
   * `clean_text` keeps the non-whitespace characters in their order, and its
   * result is empty exactly when the input has none.
   */
  lemma CleanTextKeepsWords(t: string)
    ensures Words(CleanText(Some(t))) == Words(t)
    ensures CleanText(Some(t)) == "" <==> Words(t) == ""
  {
    if t != "" {
      var s := TrimLeft(t);
      WordsTrimLeft(t);
      WordsTrimRight(s);
      CollapseKeepsWords(Strip(t));
    }
    var r := CleanText(Some(t));
    CleanTextTidy(Some(t));
    if r != "" {
      assert Words(r) == [r[0]] + Words(r[1..]);
    }
  }

  /** Cleaning a cleaned text changes nothing. */
  lemma CleanTextIdempotent(text: Option<string>)
    ensures CleanText(Some(CleanText(text))) == CleanText(text)
  {
    var r := CleanText(text);
    CleanTextTidy(text);
    if r != "" {
      StripTrimmed(r);
      CollapseFixpoint(r);
      assert CleanText(Some(r)) == Collapse(Strip(r));
    }
  }

  /** Stripping a text with no whitespace at its ends changes nothing. */
  lemma StripTrimmed(r: string)
    requires r != [] && !IsSpace(r[0]) && !IsSpace(r[|r| - 1])
    ensures Strip(r) == r
  {
    assert TrimLeft(r) == r;
    assert TrimRight(r) == r;
  }

  /** The length of the run of non-whitespace characters that starts `s`. */
  function WordLen(s: string): (n: nat)
    ensures n <= |s|
    ensures s != [] && !IsSpace(s[0]) ==> n > 0
    decreases |s|
  {
    if s == [] || IsSpace(s[0]) then 0 else 1 + WordLen(s[1..])
  }

  /** The run is whitespace-free and ends at whitespace or at the end of the text. */
  lemma {:induction false} WordLenRun(s: string)
    ensures forall k :: 0 <= k < WordLen(s) ==> !IsSpace(s[k])
    ensures WordLen(s) == |s| || IsSpace(s[WordLen(s)])
    decreases |s|
  {
    if s != [] && !IsSpace(s[0]) {
      WordLenRun(s[1..]);
      forall k | 1 <= k < WordLen(s) ensures s[k] == s[1..][k - 1] { }
    }
  }

  /** Text after a word's end does not change where the word ends. */
  lemma {:induction false} WordLenPrefix(a: string, b: string)
    requires WordLen(a) < |a|
    ensures WordLen(a + b) == WordLen(a)
    decreases |a|
  {
    assert (a + b)[0] == a[0];
    if !IsSpace(a[0]) {
      assert (a + b)[1..] == a[1..] + b;
      WordLenPrefix(a[1..], b);
    }
  }

  /** A whitespace-free text followed by whitespace (or nothing) is one word. */
  lemma {:induction false} WordLenWhole(a: string, b: string)
    requires WordLen(a) == |a|
    requires b == [] || IsSpace(b[0])
    ensures WordLen(a + b) == |a|
    decreases |a|
  {
    if a == [] {
      assert a + b == b;
    } else {
      assert (a + b)[0] == a[0];
      assert (a + b)[1..] == a[1..] + b;
      WordLenWhole(a[1..], b);
    }
  }

  /** `s.split()`: the maximal runs of non-whitespace characters of `s`, in order. */
  function SplitWords(s: string): seq<string>
    decreases |s|
  {
    if s == [] then []
    else if IsSpace(s[0]) then SplitWords(s[1..])
    else
      var n := WordLen(s);
      [s[..n]] + SplitWords(s[n..])
  }

  /** Every piece of the split is non-empty and holds no whitespace. */
  lemma {:induction false} SplitWordsShape(s: string)
    ensures forall w :: w in SplitWords(s) ==> w != [] && forall k :: 0 <= k < |w| ==> !IsSpace(w[k])
    decreases |s|
  {
    if s != [] {
      if IsSpace(s[0]) {
        SplitWordsShape(s[1..]);
      } else {
        var n := WordLen(s);
        WordLenRun(s);
        SplitWordsShape(s[n..]);
        var w := s[..n];
        assert forall k :: 0 <= k < |w| ==> w[k] == s[k];
        assert SplitWords(s) == [w] + SplitWords(s[n..]);
      }
    }
  }

  /**
   * `clean_text` of a text is its words, in order, separated by single
   * spaces: every inner run of whitespace becomes one space and the ends are
   * stripped (Python's `' '.join(text.split())`).
   */
  lemma CleanTextJoinsWords(t: string)
    ensures CleanText(Some(t)) == Join(SplitWords(t), " ")
  {
    if t != "" {
      StripEnds(t);
      CollapseStripped(Strip(t));
      SplitWordsTrimRight(TrimLeft(t));
      SplitWordsTrimLeft(t);
    } else {
      assert TrimLeft(t) == [];
    }
  }

  /** Leading whitespace is skipped. */
  lemma SplitWordsSpace(s: string)
    requires s != [] && IsSpace(s[0])
    ensures SplitWords(s) == SplitWords(s[1..])
  {
  }

  /** A text that starts with a word splits into that word and the split of the rest. */
  lemma SplitWordsWord(s: string)
    requires s != [] && !IsSpace(s[0])
    ensures SplitWords(s) == [s[..WordLen(s)]] + SplitWords(s[WordLen(s)..])
  {
  }

  /** Splitting at a whitespace boundary splits each side on its own. */
  lemma {:induction false} SplitWordsAppend(a: string, b: string)
    requires a == [] || b == [] || IsSpace(a[|a| - 1]) || IsSpace(b[0])
    ensures SplitWords(a + b) == SplitWords(a) + SplitWords(b)
    decreases |a|, 1
  {
    if a == [] {
      assert a + b == b;
    } else if IsSpace(a[0]) {
      SplitWordsAppendSpace(a, b);
    } else if WordLen(a) < |a| {
      SplitWordsAppendWord(a, b);
    } else {
      WordLenRun(a);
      SplitWordsAppendWhole(a, b);
    }
  }

  lemma {:induction false} SplitWordsAppendSpace(a: string, b: string)
    requires a != [] && IsSpace(a[0])
    requires b == [] || IsSpace(a[|a| - 1]) || IsSpace(b[0])
    ensures SplitWords(a + b) == SplitWords(a) + SplitWords(b)
    decreases |a|, 0
  {
    var x := a + b;
    var a' := a[1..];
    assert x[0] == a[0];
    assert x[1..] == a' + b;
    if a' != [] {
      assert a'[|a'| - 1] == a[|a| - 1];
    }
    SplitWordsAppend(a', b);
    SplitWordsSpace(x);
    SplitWordsSpace(a);
  }

  lemma {:induction false} SplitWordsAppendWord(a: string, b: string)
    requires a != [] && !IsSpace(a[0]) && WordLen(a) < |a|
    requires b == [] || IsSpace(a[|a| - 1]) || IsSpace(b[0])
    ensures SplitWords(a + b) == SplitWords(a) + SplitWords(b)
    decreases |a|, 0
  {
    var x := a + b;
    var m := WordLen(a);
    assert x[0] == a[0];
    WordLenPrefix(a, b);
    assert x[..m] == a[..m];
    assert x[m..] == a[m..] + b;
    SplitWordsAppend(a[m..], b);
    SplitWordsWord(a);
    SplitWordsWord(x);
  }

  lemma SplitWordsAppendWhole(a: string, b: string)
    requires a != [] && !IsSpace(a[0]) && WordLen(a) == |a|
    requires b == [] || IsSpace(b[0])
    ensures SplitWords(a + b) == SplitWords(a) + SplitWords(b)
  {
    var x := a + b;
    assert a[..|a|] == a && a[|a|..] == [];
    if b == [] {
      assert x == a;
    } else {
      assert x[0] == a[0];
      WordLenWhole(a, b);
      assert x[..|a|] == a;
      assert x[|a|..] == b;
      SplitWordsWord(a);
      SplitWordsWord(x);
    }
  }

  /** The characters `rstrip` removes are whitespace. */
  lemma {:induction false} TrimRightRest(s: string)
    ensures forall k :: |TrimRight(s)| <= k < |s| ==> IsSpace(s[k])
    decreases |s|
  {
    if s != [] && IsSpace(s[|s| - 1]) {
      TrimRightRest(s[..|s| - 1]);
    }
  }

  lemma AllSpaceNoWords(s: string)
    requires forall k :: 0 <= k < |s| ==> IsSpace(s[k])
    ensures SplitWords(s) == []
  {
  }

  /** Trailing whitespace separates no word. */
  lemma SplitWordsTrimRight(s: string)
    ensures SplitWords(TrimRight(s)) == SplitWords(s)
  {
    var r := TrimRight(s);
    var rest := s[|r|..];
    assert s == r + rest;
    TrimRightRest(s);
    forall k | 0 <= k < |rest| ensures IsSpace(rest[k]) {
      assert rest[k] == s[|r| + k];
    }
    AllSpaceNoWords(rest);
    SplitWordsAppend(r, rest);
  }

  /** Leading whitespace separates no word. */
  lemma {:induction false} SplitWordsTrimLeft(s: string)
    ensures SplitWords(TrimLeft(s)) == SplitWords(s)
    decreases |s|
  {
    if s != [] && IsSpace(s[0]) {
      SplitWordsTrimLeft(s[1..]);
    }
  }

  /** A word in front passes through the whitespace substitution unchanged. */
  lemma {:induction false} CollapseWord(w: string, rest: string)
    requires forall k :: 0 <= k < |w| ==> !IsSpace(w[k])
    ensures Collapse(w + rest) == w + Collapse(rest)
    decreases |w|
  {
    if w == [] {
      assert w + rest == rest;
    } else {
      var x := w + rest;
      var tail := w[1..];
      assert x[0] == w[0] && x[1..] == tail + rest;
      assert !IsSpace(x[0]);
      assert Collapse(x) == [w[0]] + Collapse(tail + rest);
      assert forall k :: 0 <= k < |tail| ==> tail[k] == w[k + 1];
      CollapseWord(tail, rest);
      assert w == [w[0]] + tail;
    }
  }

  /** On a text with no whitespace at its ends, the substitution joins its words with single spaces. */
  lemma {:induction false} CollapseStripped(s: string)
    requires s == [] || (!IsSpace(s[0]) && !IsSpace(s[|s| - 1]))
    ensures Collapse(s) == Join(SplitWords(s), " ")
    decreases |s|, 1
  {
    if s != [] {
      var n := WordLen(s);
      var word := s[..n];
      var rest := s[n..];
      CollapseFirstWord(s);
      if n == |s| {
        assert rest == [] && word == s;
        assert Collapse(s) == s + [];
        assert SplitWords(s) == [s] + [];
      } else {
        assert rest[|rest| - 1] == s[|s| - 1];
        CollapseAfterWord(rest);
        var tail := Join(SplitWords(rest), " ");
        JoinCons(word, SplitWords(rest), " ");
        assert Collapse(s) == word + (" " + tail);
        ConcatAssoc(word, " ", tail);
      }
    }
  }

  lemma ConcatAssoc(a: string, b: string, c: string)
    ensures a + (b + c) == a + b + c
  {
  }

  /** The first word of a text passes through both the substitution and the split whole. */
  lemma CollapseFirstWord(s: string)
    requires s != [] && !IsSpace(s[0])
    ensures var n := WordLen(s);
      0 < n <= |s| && (n < |s| ==> IsSpace(s[n])) &&
      Collapse(s) == s[..n] + Collapse(s[n..]) &&
      SplitWords(s) == [s[..n]] + SplitWords(s[n..])
  {
    var n := WordLen(s);
    var word := s[..n];
    var rest := s[n..];
    WordLenRun(s);
    assert s == word + rest;
    assert forall k :: 0 <= k < |word| ==> word[k] == s[k];
    CollapseWord(word, rest);
    SplitWordsWord(s);
  }

  /** Past the first word: a run of whitespace followed by more words becomes one space before them. */
  lemma {:induction false} CollapseAfterWord(rest: string)
    requires rest != [] && IsSpace(rest[0]) && !IsSpace(rest[|rest| - 1])
    ensures SplitWords(rest) != []
    ensures Collapse(rest) == " " + Join(SplitWords(rest), " ")
    decreases |rest|, 0
  {
    var u := TrimLeft(rest);
    TrimLeftKeepsLast(rest);
    CollapseStripped(u);
    SplitWordsTrimLeft(rest);
    SplitWordsWord(u);
  }

  /** Left-stripping a text that ends in a non-space keeps that last character. */
  lemma TrimLeftKeepsLast(s: string)
    requires s != [] && !IsSpace(s[|s| - 1])
    ensures TrimLeft(s) != [] && TrimLeft(s)[|TrimLeft(s)| - 1] == s[|s| - 1]
    ensures !IsSpace(TrimLeft(s)[0])
  {
    if TrimLeft(s) == [] {
      AllSpaceWhenTrimmedEmpty(s);
    }
  }

  lemma JoinCons(w: string, ws: seq<string>, sep: string)
    requires ws != []
    ensures Join([w] + ws, sep) == w + sep + Join(ws, sep)
  {
    assert ([w] + ws)[1..] == ws;
  }

  // ---------------------------------------------------------------------------
  // extract_price
  // ---------------------------------------------------------------------------

  /** A member of the number group `[\d\s.,]` of the price pattern. */
  predicate IsNumberChar(c: char) {
    IsDigit(c) || IsSpace(c) || c == '.' || c == ','
  }

  /** One alternative of the currency group: a literal token, or the anchor `$`. */
  datatype Alternative = Token(text: string) | EndOfText

  /** The currency group as the source writes it: the bare `$` is an end-of-text anchor. */
  const WrittenCurrencies: seq<Alternative> :=
    [Token("₴"), Token("грн"), Token("₽"), Token("руб"), EndOfText,
     Token("€"), Token("UAH"), Token("RUB"), Token("USD"), Token("EUR")]

  /** The currency group with the dollar sign escaped (`\$`), as the currency table expects. */
  const Currencies: seq<Alternative> :=
    [Token("₴"), Token("грн"), Token("₽"), Token("руб"), Token("$"),
     Token("€"), Token("UAH"), Token("RUB"), Token("USD"), Token("EUR")]

  /** The text an alternative matches: its token, or nothing for the anchor. */
  function Spelling(a: Alternative): string {
    match a
    case Token(t) => t
    case EndOfText => ""
  }

  /**
   * What an alternative matches at position `e` of `s`. Python's `$` matches
   * at the end of the text and just before a final newline, matching nothing.
   */
  function AlternativeAt(s: string, e: nat, alt: Alternative): (r: Option<string>)
    requires e <= |s|
    ensures r.Some? ==> r.value == Spelling(alt)
  {
    match alt
    case Token(t) => if StartsWith(s[e..], t) then Some(t) else None
    case EndOfText => if e == |s| || s[e..] == "\n" then Some("") else None
  }

  /** The first alternative, in the group's order, that matches at `e`. */
  function FirstAlternative(s: string, e: nat, alts: seq<Alternative>): (r: Option<string>)
    requires e <= |s|
    ensures r.Some? ==> exists a :: a in alts && r.value == Spelling(a)
  {
    if alts == [] then None
    else if AlternativeAt(s, e, alts[0]).Some? then AlternativeAt(s, e, alts[0])
    else FirstAlternative(s, e, alts[1..])
  }

  /** The end of the run of number characters that starts at `i`. */
  function RunEnd(s: string, i: nat): (e: nat)
    requires i <= |s|
    ensures i <= e <= |s|
    ensures forall k :: i <= k < e ==> IsNumberChar(s[k])
    ensures e == |s| || !IsNumberChar(s[e])
    decreases |s| - i
  {
    if i < |s| && IsNumberChar(s[i]) then RunEnd(s, i + 1) else i
  }

  /**
   * The start of the first run of number characters, scanning from `from`,
   * whose end is followed by a currency alternative.
   */
  function FirstPricedRun(s: string, from: nat, alts: seq<Alternative>): (i: Option<nat>)
    requires from <= |s|
    ensures i.Some? ==> from <= i.value < |s|
    decreases |s| - from
  {
    if from == |s| then None
    else if !IsNumberChar(s[from]) then FirstPricedRun(s, from + 1, alts)
    else if FirstAlternative(s, RunEnd(s, from), alts).Some? then Some(from)
    else FirstPricedRun(s, RunEnd(s, from), alts)
  }

  /**
   * `re.search(r'([\d\s.,]+)\s*(<alternatives>)', s)`, giving the two groups.
   * Whitespace belongs to the number group, so the greedy group swallows the
   * whole run of number characters and `\s*` is left empty; nothing follows the
   * currency group, so a start inside a run succeeds exactly when the first
   * alternative matching at the run's end exists. The search thus captures the
   * first run followed by a currency, and the first alternative matching there.
   */
  function PriceSearch(s: string, alts: seq<Alternative>): (r: Option<(string, string)>)
  {
    match FirstPricedRun(s, 0, alts)
    case None => None
    case Some(i) =>
      var e := RunEnd(s, i);
      if FirstAlternative(s, e, alts).Some? then Some((s[i..e], FirstAlternative(s, e, alts).value)) else None
  }

  /** A run of number characters starts at `i`: the character before it, if scanned, is not one. */
  predicate RunStart(s: string, from: nat, i: nat)
    requires from <= i < |s|
  {
    IsNumberChar(s[i]) && (i == from || !IsNumberChar(s[i - 1]))
  }

  /** The run starting at `i` is followed by one of the alternatives. */
  predicate Priced(s: string, i: nat, alts: seq<Alternative>)
    requires i <= |s|
  {
    FirstAlternative(s, RunEnd(s, i), alts).Some?
  }

  lemma {:induction false} FirstPricedRunIsFirst(s: string, from: nat, alts: seq<Alternative>)
    requires from <= |s|
    ensures FirstPricedRun(s, from, alts).None? <==>
              forall i :: from <= i < |s| && RunStart(s, from, i) ==> !Priced(s, i, alts)
    ensures FirstPricedRun(s, from, alts).Some? ==>
              RunStart(s, from, FirstPricedRun(s, from, alts).value)
              && Priced(s, FirstPricedRun(s, from, alts).value, alts)
              && forall j :: from <= j < FirstPricedRun(s, from, alts).value && RunStart(s, from, j) ==> !Priced(s, j, alts)
    decreases |s| - from
  {
    if from < |s| {
      if !IsNumberChar(s[from]) {
        FirstPricedRunIsFirst(s, from + 1, alts);
        assert !RunStart(s, from, from);
        forall i | from + 1 <= i < |s| ensures RunStart(s, from, i) == RunStart(s, from + 1, i) { }
      } else if !Priced(s, from, alts) {
        var e := RunEnd(s, from);
        FirstPricedRunIsFirst(s, e, alts);
        forall i | from < i < |s| && i <= e ensures !RunStart(s, from, i) || i == e {
          if i < e {
            assert IsNumberChar(s[i - 1]);
          }
        }
        if e < |s| {
          assert !RunStart(s, from, e) && !RunStart(s, e, e);
        }
        forall i | e < i < |s| ensures RunStart(s, from, i) == RunStart(s, e, i) { }
      }
    }
  }

  /**
   * The search captures a whole run of number characters `s[i..RunEnd(s, i)]`
   * and the first alternative matching where it ends; no earlier run is
   * followed by an alternative, and nothing is found exactly when no run is.
   */
  lemma PriceSearchMeaning(s: string, alts: seq<Alternative>)
    ensures PriceSearch(s, alts).None? <==> forall i :: 0 <= i < |s| && RunStart(s, 0, i) ==> !Priced(s, i, alts)
    ensures PriceSearch(s, alts).Some? ==>
              exists i :: 0 <= i < |s| && RunStart(s, 0, i) && Priced(s, i, alts)
                && (forall j :: 0 <= j < i && RunStart(s, 0, j) ==> !Priced(s, j, alts))
                && PriceSearch(s, alts).value == (s[i..RunEnd(s, i)], FirstAlternative(s, RunEnd(s, i), alts).value)
  {
    FirstPricedRunIsFirst(s, 0, alts);
    if FirstPricedRun(s, 0, alts).Some? {
      var i := FirstPricedRun(s, 0, alts).value;
      assert RunStart(s, 0, i) && Priced(s, i, alts);
    }
  }

  /** The search as the source writes it, with `$` as an anchor. */
  function PriceMatchAsWritten(s: string): Option<(string, string)> {
    PriceSearch(s, WrittenCurrencies)
  }

  /** The search with a literal dollar sign, as the currency table intends. */
  function PriceMatch(s: string): Option<(string, string)> {
    PriceSearch(s, Currencies)
  }

  /** `re.sub(r'[^\d.,]', '', g).replace(',', '.')`. */
  function CleanNumber(g: string): string {
    if g == [] then []
    else (if IsDigit(g[0]) || g[0] == '.' then [g[0]] else if g[0] == ',' then "." else [])
         + CleanNumber(g[1..])
  }

  /** The number of characters of `g` that are digits, points or commas. */
  function KeptCount(g: string): nat {
    if g == [] then 0 else (if IsDigit(g[0]) || g[0] == '.' || g[0] == ',' then 1 else 0) + KeptCount(g[1..])
  }

  /**
   * The cleaned number holds only digits and points, one for each digit, point
   * or comma of the group, and keeps the group's digits in their order.
   */
  lemma {:induction false} CleanNumberShape(g: string)
    ensures forall k :: 0 <= k < |CleanNumber(g)| ==> IsDigit(CleanNumber(g)[k]) || CleanNumber(g)[k] == '.'
    ensures |CleanNumber(g)| == KeptCount(g)
    ensures Digits(CleanNumber(g)) == Digits(g)
    decreases |g|
  {
    if g != [] {
      CleanNumberShape(g[1..]);
      var head := if IsDigit(g[0]) || g[0] == '.' then [g[0]] else if g[0] == ',' then "." else [];
      var r := CleanNumber(g[1..]);
      assert CleanNumber(g) == head + r;
      DigitsAppend(head, r);
    }
  }

  /** Cleaning works character by character: it distributes over concatenation. */
  lemma {:induction false} CleanNumberAppend(a: string, b: string)
    ensures CleanNumber(a + b) == CleanNumber(a) + CleanNumber(b)
    decreases |a|
  {
    if a == [] {
      assert a + b == b;
    } else {
      assert (a + b)[1..] == a[1..] + b;
      CleanNumberAppend(a[1..], b);
    }
  }

  /** Each digit and point is kept, each comma becomes a point, and anything else is dropped. */
  lemma CleanNumberChar(c: char)
    ensures IsDigit(c) || c == '.' ==> CleanNumber([c]) == [c]
    ensures c == ',' ==> CleanNumber([c]) == "."
    ensures !IsDigit(c) && c != '.' && c != ',' ==> CleanNumber([c]) == []
  {
    assert [c][1..] == [];
  }

  lemma {:induction false} DigitsAppend(a: string, b: string)
    ensures Digits(a + b) == Digits(a) + Digits(b)
    decreases |a|
  {
    if a == [] {
      assert a + b == b;
    } else {
      assert (a + b)[1..] == a[1..] + b;
      DigitsAppend(a[1..], b);
    }
  }

  /** `currency_map.get(currency, currency)`: the source's table of symbols to codes; anything else is kept. */
  function NormalizeCurrency(c: string): (code: string)
    ensures c in {"₴", "грн"} ==> code == "UAH"
    ensures c in {"₽", "руб"} ==> code == "RUB"
    ensures c == "$" ==> code == "USD"
    ensures c == "€" ==> code == "EUR"
    ensures c !in {"₴", "грн", "₽", "руб", "$", "€"} ==> code == c
  {
    if c == "₴" || c == "грн" then "UAH"
    else if c == "₽" || c == "руб" then "RUB"
    else if c == "$" then "USD"
    else if c == "€" then "EUR"
    else c
  }

  /** The record `extract_price` builds; the time stamp is left out. */
  datatype ProductPrice = ProductPrice(value: real, currency: string)

  /**
   * `extract_price` over a currency group. `toFloat` is Python's `float` on the
   * cleaned number, `None` where it raises `ValueError`.
   */
  function PriceWith(text: string, alts: seq<Alternative>, toFloat: string -> Option<real>): Option<ProductPrice> {
    if text == "" then None
    else
      match PriceSearch(text, alts)
      case None => None
      case Some((number, currency)) =>
        match toFloat(CleanNumber(number))
        case None => None
        case Some(v) => Some(ProductPrice(v, NormalizeCurrency(currency)))
  }

  /** `BaseParser.extract_price` as written, with `$` an anchor. */
  function ExtractPrice(text: string, toFloat: string -> Option<real>): (p: Option<ProductPrice>)
    ensures text == "" ==> p == None
  {
    PriceWith(text, WrittenCurrencies, toFloat)
  }

  /** `extract_price` with the dollar sign escaped, as the currency table intends. */
  function ExtractPriceIntended(text: string, toFloat: string -> Option<real>): (p: Option<ProductPrice>)
    ensures text == "" ==> p == None
  {
    PriceWith(text, Currencies, toFloat)
  }

  /**
   * A price is found only when some run of number characters is followed by a
   * currency; it is then `float` of the cleaned first such run, with the
   * table's code for the first alternative matching after it.
   */
  lemma ExtractPriceMeaning(text: string, toFloat: string -> Option<real>)
    ensures (forall i :: 0 <= i < |text| && RunStart(text, 0, i) ==> !Priced(text, i, WrittenCurrencies)) ==>
              ExtractPrice(text, toFloat) == None
    ensures ExtractPrice(text, toFloat).Some? ==>
              exists i :: 0 <= i < |text| && RunStart(text, 0, i) && Priced(text, i, WrittenCurrencies)
                && (forall j :: 0 <= j < i && RunStart(text, 0, j) ==> !Priced(text, j, WrittenCurrencies))
                && toFloat(CleanNumber(text[i..RunEnd(text, i)])).Some?
                && ExtractPrice(text, toFloat).value
                   == ProductPrice(toFloat(CleanNumber(text[i..RunEnd(text, i)])).value,
                                   NormalizeCurrency(FirstAlternative(text, RunEnd(text, i), WrittenCurrencies).value))
  {
    PriceSearchMeaning(text, WrittenCurrencies);
  }

  /** The anchor is the only alternative matching nothing, so an empty currency means the text ends there. */
  lemma {:induction false} EmptyAlternative(s: string, e: nat, alts: seq<Alternative>)
    requires e <= |s|
    requires TokensNonEmpty(alts)
    ensures FirstAlternative(s, e, alts) == Some("") ==> e == |s| || s[e..] == "\n"
    decreases |alts|
  {
    if alts != [] && AlternativeAt(s, e, alts[0]).None? {
      EmptyAlternative(s, e, alts[1..]);
    }
  }

  /** Every token of a group is non-empty. */
  predicate TokensNonEmpty(alts: seq<Alternative>) {
    forall a :: a in alts && a.Token? ==> a.text != ""
  }

  /** At the end of the text no token matches, so a group holding the anchor matches it. */
  lemma {:induction false} AnchorAtEnd(s: string, alts: seq<Alternative>)
    requires TokensNonEmpty(alts) && EndOfText in alts
    ensures FirstAlternative(s, |s|, alts) == Some("")
    decreases |alts|
  {
    if alts[0] != EndOfText {
      assert alts[0] in alts;
      assert EndOfText in alts[1..];
      AnchorAtEnd(s, alts[1..]);
    }
  }

  /** Where only "$" is left, the only alternative that can match is the literal dollar sign. */
  lemma {:induction false} OnlyDollarLeft(s: string, e: nat, alts: seq<Alternative>)
    requires e <= |s| && s[e..] == "$" && TokensNonEmpty(alts)
    ensures FirstAlternative(s, e, alts) == (if Token("$") in alts then Some("$") else None)
    decreases |alts|
  {
    if alts != [] {
      assert alts[0] in alts;
      if alts[0] != Token("$") {
        assert AlternativeAt(s, e, alts[0]).None? by {
          if alts[0].EndOfText? {
            assert s[e..] != "\n";
          }
        }
        OnlyDollarLeft(s, e, alts[1..]);
      }
    }
  }

  lemma WrittenShape()
    ensures TokensNonEmpty(WrittenCurrencies)
    ensures EndOfText in WrittenCurrencies && Token("$") !in WrittenCurrencies
  {
  }

  lemma IntendedShape()
    ensures TokensNonEmpty(Currencies) && Token("$") in Currencies
  {
    assert Currencies[4] == Token("$");
  }

  /** Every alternative of the source's group spells a key of the currency table or nothing. */
  lemma WrittenSpellings(c: string)
    requires exists a :: a in WrittenCurrencies && c == Spelling(a)
    ensures c in {"₴", "грн", "₽", "руб", "€", "UAH", "RUB", "USD", "EUR", ""}
  {
  }

  /** At the end of the text, the source's group matches the anchor. */
  lemma WrittenAtEnd(s: string)
    ensures FirstAlternative(s, |s|, WrittenCurrencies) == Some("")
  {
    WrittenShape();
    AnchorAtEnd(s, WrittenCurrencies);
  }

  /**
   * As written, a price's currency is one of the four codes or empty, and it
   * is empty exactly when the captured number runs to the end of the text.
   */
  lemma ExtractPriceCurrencyCode(text: string, toFloat: string -> Option<real>)
    ensures ExtractPrice(text, toFloat).Some? ==>
              ExtractPrice(text, toFloat).value.currency in {"UAH", "RUB", "USD", "EUR", ""}
    ensures ExtractPrice(text, toFloat).Some? ==>
              FirstPricedRun(text, 0, WrittenCurrencies).Some?
              && (ExtractPrice(text, toFloat).value.currency == ""
                  <==> RunEnd(text, FirstPricedRun(text, 0, WrittenCurrencies).value) == |text|)
  {
    if ExtractPrice(text, toFloat).Some? {
      var i := FirstPricedRun(text, 0, WrittenCurrencies).value;
      var e := RunEnd(text, i);
      assert ExtractPrice(text, toFloat).value.currency == NormalizeCurrency(FirstAlternative(text, e, WrittenCurrencies).value);
      WrittenCurrencyAt(text, e);
    }
  }

  /** The code the source's group yields where a run of number characters ends. */
  lemma WrittenCurrencyAt(text: string, e: nat)
    requires e <= |text| && (e == |text| || !IsNumberChar(text[e]))
    requires FirstAlternative(text, e, WrittenCurrencies).Some?
    ensures var code := NormalizeCurrency(FirstAlternative(text, e, WrittenCurrencies).value);
      code in {"UAH", "RUB", "USD", "EUR", ""} && (code == "" <==> e == |text|)
  {
    var c := FirstAlternative(text, e, WrittenCurrencies).value;
    WrittenSpellings(c);
    WrittenShape();
    EmptyAlternative(text, e, WrittenCurrencies);
    if e == |text| {
      WrittenAtEnd(text);
    } else {
      assert text[e..] != "\n" by {
        assert text[e..][0] == text[e];
      }
    }
  }

  // ---------------------------------------------------------------------------
  // The unescaped `$` of the currency group
  // ---------------------------------------------------------------------------

  /** As written, no match ever captures "$", so the table's "$" entry is dead. */
  lemma WrittenNeverCapturesDollar(s: string)
    ensures PriceMatchAsWritten(s).Some? ==> PriceMatchAsWritten(s).value.1 != "$"
  {
    if PriceMatchAsWritten(s).Some? {
      var i := FirstPricedRun(s, 0, WrittenCurrencies).value;
      var c := FirstAlternative(s, RunEnd(s, i), WrittenCurrencies).value;
      var a :| a in WrittenCurrencies && c == Spelling(a);
    }
  }

  /** At the end of "100$" no alternative of the source's group matches. */
  lemma WrittenNothingAfterHundred()
    ensures FirstAlternative("100$", 3, WrittenCurrencies) == None
  {
    var s := "100$";
    assert s[3..] == "$";
    WrittenShape();
    OnlyDollarLeft(s, 3, WrittenCurrencies);
  }

  /** "100$" is one run of number characters ending at its sign. */
  lemma HundredRun()
    ensures RunEnd("100$", 0) == 3
  {
    var s := "100$";
    assert RunEnd(s, 3) == 3;
    assert RunEnd(s, 2) == 3;
    assert RunEnd(s, 1) == 3;
  }

  /** As written, a dollar price is not found at all. */
  lemma WrittenDollarCounterexample(toFloat: string -> Option<real>)
    ensures PriceMatchAsWritten("100$") == None
    ensures ExtractPrice("100$", toFloat) == None
  {
    var s := "100$";
    HundredRun();
    WrittenNothingAfterHundred();
    assert FirstPricedRun(s, 4, WrittenCurrencies) == None;
    assert FirstPricedRun(s, 3, WrittenCurrencies) == None;
    assert FirstPricedRun(s, 0, WrittenCurrencies) == None;
  }

  /** "1 200" is one run of number characters. */
  lemma TwelveHundredRun()
    ensures RunEnd("1 200", 0) == 5
  {
    var s := "1 200";
    assert RunEnd(s, 5) == 5;
    assert RunEnd(s, 4) == 5;
    assert RunEnd(s, 3) == 5;
    assert RunEnd(s, 2) == 5;
    assert RunEnd(s, 1) == 5;
  }

  lemma CleanTwelveHundred()
    ensures CleanNumber("1 200") == "1200"
  {
    assert "1 200" == "1" + " " + "200";
    CleanNumberAppend("1" + " ", "200");
    CleanNumberAppend("1", " ");
    CleanNumberChar('1');
    CleanNumberChar(' ');
    assert "200" == "2" + "00";
    CleanNumberAppend("2", "00");
    CleanNumberChar('2');
    assert "00" == "0" + "0";
    CleanNumberAppend("0", "0");
    CleanNumberChar('0');
  }

  /** As written, a number with no currency after it is a price with an empty currency. */
  lemma WrittenBareNumber(toFloat: string -> Option<real>)
    ensures PriceMatchAsWritten("1 200") == Some(("1 200", ""))
    ensures toFloat("1200").Some? ==> ExtractPrice("1 200", toFloat) == Some(ProductPrice(toFloat("1200").value, ""))
  {
    WrittenBareMatch();
    CleanTwelveHundred();
    if toFloat("1200").Some? {
      PriceOfMatch("1 200", WrittenCurrencies, toFloat, "1 200", "");
    }
  }

  lemma WrittenBareMatch()
    ensures PriceSearch("1 200", WrittenCurrencies) == Some(("1 200", ""))
  {
    var s := "1 200";
    TwelveHundredRun();
    WrittenAtEnd(s);
    WholeRunPriced(s, WrittenCurrencies);
  }

  /** A text that is one run of number characters, with an alternative at its end, is captured whole. */
  lemma WholeRunPriced(s: string, alts: seq<Alternative>)
    requires s != [] && RunEnd(s, 0) == |s| && FirstAlternative(s, |s|, alts).Some?
    ensures PriceSearch(s, alts) == Some((s, FirstAlternative(s, |s|, alts).value))
  {
    assert IsNumberChar(s[0]);
    assert FirstPricedRun(s, 0, alts) == Some(0);
    assert s[0..|s|] == s;
  }

  /** A run of number characters closed by a dollar sign is captured with it by a group holding the literal sign. */
  lemma DollarClosesRun(s: string, alts: seq<Alternative>)
    requires |s| >= 2 && RunEnd(s, 0) == |s| - 1 && s[|s| - 1] == '$'
    requires TokensNonEmpty(alts) && Token("$") in alts
    ensures PriceSearch(s, alts) == Some((s[..|s| - 1], "$"))
  {
    var e := |s| - 1;
    assert s[e..] == "$";
    OnlyDollarLeft(s, e, alts);
    assert IsNumberChar(s[0]);
    assert FirstPricedRun(s, 0, alts) == Some(0);
  }

  /** With the dollar sign escaped, a dollar price is found. */
  lemma DollarMatched()
    ensures PriceMatch("100$") == Some(("100", "$"))
  {
    var s := "100$";
    HundredRun();
    IntendedShape();
    DollarClosesRun(s, Currencies);
    assert s[..3] == "100";
  }

  /** With the dollar sign escaped, a dollar price is normalised to USD. */
  lemma DollarPriceFound(toFloat: string -> Option<real>)
    ensures toFloat("100").Some? ==> ExtractPriceIntended("100$", toFloat) == Some(ProductPrice(toFloat("100").value, "USD"))
  {
    DollarMatched();
    CleanHundred();
    assert NormalizeCurrency("$") == "USD";
    if toFloat("100").Some? {
      PriceOfMatch("100$", Currencies, toFloat, "100", "$");
    }
  }

  lemma CleanHundred()
    ensures CleanNumber("100") == "100"
  {
    assert "0"[1..] == "" && "00"[1..] == "0" && "100"[1..] == "00";
    assert CleanNumber("0") == "0";
    assert CleanNumber("00") == "00";
  }

  /** The price of a text whose first match is known. */
  lemma PriceOfMatch(text: string, alts: seq<Alternative>, toFloat: string -> Option<real>, number: string, currency: string)
    requires PriceSearch(text, alts) == Some((number, currency))
    requires toFloat(CleanNumber(number)).Some?
    ensures PriceWith(text, alts, toFloat) == Some(ProductPrice(toFloat(CleanNumber(number)).value, NormalizeCurrency(currency)))
  {
    assert text != "";
  }
}
