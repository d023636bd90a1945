/**
 * The self-learning locator store `SmartParser`.
 *
 * The store maps each of five fields (price, title, model, brand,
 * availability) to a list of CSS locators. `discover_patterns` proposes the
 * locators of elements whose text looks like a field value, `learn` merges the
 * proposals into the store and saves it, and `extract_data` reads each field
 * through the first stored locator that yields a usable value.
 *
 * The parsed HTML document is abstract: an element is its chain of
 * `(name, classes, id)` from itself up to the root, a document is its text
 * nodes, its elements and the text `select_one(locator)` finds, and each
 * regular expression is a recognizer given as a parameter.
 */
module Smart {
  import opened Wrappers
  import opened Strings

  /** The five fields the store keeps locators for. */
  datatype Field = Price | Title | Model | Brand | Availability

  /** A CSS locator such as `div.card > span.price`. */
  type Locator = string

  /** The field-keyed locator lists (`self.patterns`). */
  type Store = map<Field, seq<Locator>>

  /** Every field has a list; a store without one makes the operations fail with a missing key. */
  predicate Complete(store: Store) {
    forall f: Field :: f in store
  }

  /** A map display naming the five fields is complete. */
  lemma CompleteDisplay<V>(store: map<Field, V>)
    requires Price in store && Title in store && Model in store && Brand in store && Availability in store
    ensures forall f: Field :: f in store
  {
    forall f: Field ensures f in store {
      match f
      case Price =>
      case Title =>
      case Model =>
      case Brand =>
      case Availability =>
    }
  }

  /** What `load_patterns` finds at the storage path: no file, a file it cannot read or decode, or a stored store. */
  datatype PatternFile = Missing | Unreadable | Stored(contents: Store)

  /** The store `load_patterns` falls back to: the five fields, each with no locator. */
  function DefaultPatterns(): (store: Store)
    ensures Complete(store)
    ensures forall f: Field :: store[f] == []
  {
    var store := map[Price := [], Title := [], Model := [], Brand := [], Availability := []];
    CompleteDisplay(store);
    store
  }

  // ---------------------------------------------------------------------------
  // Locators of elements (`get_selector_path`)
  // ---------------------------------------------------------------------------

  /** A document node as the locator builder sees it: tag name, class list, and id ("" when there is none). */
  datatype Node = Node(name: string, classes: seq<string>, id: string)

  /**
   * An element followed by its ancestors, innermost first. The parser's root
   * object is the last node (its name is "[document]"); its parent is missing.
   */
  type Chain = seq<Node>

  /** The tag name, then "." and the classes joined by ".", then "#" and the id. */
  function Descriptor(n: Node): string {
    n.name
    + (if n.classes != [] then "." + Join(n.classes, ".") else "")
    + (if n.id != "" then "#" + n.id else "")
  }

  /** The descriptors of the element and its ancestors, innermost first, up to the first node without a name. */
  function Descriptors(chain: Chain): seq<string>
    decreases |chain|
  {
    if chain == [] || chain[0].name == "" then []
    else [Descriptor(chain[0])] + Descriptors(chain[1..])
  }

  /** The locator of an element: its descriptors outermost first, joined by " > "; "" for a missing element. */
  function SelectorPath(element: Option<Chain>): string {
    if element.None? then "" else Join(Reversed(Descriptors(element.value)), " > ")
  }

  lemma DescriptorNonEmpty(n: Node)
    requires n.name != ""
    ensures |Descriptor(n)| > 0
  {
  }

  lemma {:induction false} JoinSnoc(parts: seq<string>, last: string, sep: string)
    requires parts != []
    ensures Join(parts + [last], sep) == Join(parts, sep) + sep + last
    decreases |parts|
  {
    if |parts| == 1 {
      assert parts + [last] == [parts[0], last];
      assert [parts[0], last][1..] == [last];
    } else {
      assert (parts + [last])[1..] == parts[1..] + [last];
      JoinSnoc(parts[1..], last, sep);
    }
  }

  lemma {:induction false} JoinNonEmpty(parts: seq<string>, sep: string)
    requires parts != [] && parts[0] != ""
    ensures Join(parts, sep) != ""
  {
    assert |parts| == 1 || Join(parts, sep) == parts[0] + sep + Join(parts[1..], sep);
  }

  /** The locator is empty exactly when the element is missing or has no name. */
  lemma SelectorPathEmptyIff(element: Option<Chain>)
    ensures SelectorPath(element) == "" <==>
              element.None? || element.value == [] || element.value[0].name == ""
  {
    if element.Some? && element.value != [] && element.value[0].name != "" {
      var ds := Descriptors(element.value);
      var outer := Reversed(ds)[0];
      assert outer == ds[|ds| - 1];
      assert ds[|ds| - 1] != "" by {
        OuterDescriptorNonEmpty(element.value);
      }
      JoinNonEmpty(Reversed(ds), " > ");
    }
  }

  lemma {:induction false} OuterDescriptorNonEmpty(chain: Chain)
    requires chain != [] && chain[0].name != ""
    ensures Descriptors(chain) != []
    ensures Descriptors(chain)[|Descriptors(chain)| - 1] != ""
    decreases |chain|
  {
    DescriptorNonEmpty(chain[0]);
    if chain[1..] != [] && chain[1..][0].name != "" {
      OuterDescriptorNonEmpty(chain[1..]);
    }
  }

  /**
   * How a locator grows by one level: the locator of a named element is the
   * locator of its parent, " > ", and its own descriptor; when the parent has
   * no name (or there is none) it is its own descriptor alone.
   */
  lemma SelectorPathOfChild(n: Node, ancestors: Chain)
    requires n.name != ""
    ensures ancestors != [] && ancestors[0].name != "" ==>
              SelectorPath(Some([n] + ancestors)) == SelectorPath(Some(ancestors)) + " > " + Descriptor(n)
    ensures ancestors == [] || ancestors[0].name == "" ==>
              SelectorPath(Some([n] + ancestors)) == Descriptor(n)
  {
    var chain := [n] + ancestors;
    assert chain[1..] == ancestors;
    var up := Descriptors(ancestors);
    assert Descriptors(chain) == [Descriptor(n)] + up;
    assert Reversed([Descriptor(n)] + up) == Reversed(up) + [Descriptor(n)];
    if ancestors != [] && ancestors[0].name != "" {
      OuterDescriptorNonEmpty(ancestors);
      JoinSnoc(Reversed(up), Descriptor(n), " > ");
    } else {
      assert up == [];
      assert Reversed(up) + [Descriptor(n)] == [Descriptor(n)];
    }
  }

  /** The name BeautifulSoup gives the root object of a parsed page. */
  const DocumentRoot := Node("[document]", [], "")

  /**
   * The loop climbs to the root object too, since its name "[document]" is
   * truthy: the locator of any element of a parsed page, every node of whose
   * chain is named, starts with "[document]".
   */
  lemma {:induction false} SelectorPathFromRoot(chain: Chain)
    requires chain != [] && chain[|chain| - 1] == DocumentRoot
    requires forall k :: 0 <= k < |chain| ==> chain[k].name != ""
    ensures StartsWith(SelectorPath(Some(chain)), "[document]")
    decreases |chain|
  {
    var n := chain[0];
    var ancestors := chain[1..];
    assert chain == [n] + ancestors;
    SelectorPathOfChild(n, ancestors);
    if ancestors == [] {
      assert Descriptor(n) == "[document]";
    } else {
      assert ancestors[|ancestors| - 1] == DocumentRoot;
      SelectorPathFromRoot(ancestors);
      var up := SelectorPath(Some(ancestors));
      assert (up + " > " + Descriptor(n))[..10] == up[..10];
    }
  }

  // ---------------------------------------------------------------------------
  // Documents and recognizers
  // ---------------------------------------------------------------------------

  /** A text node of the document with the chain of the element holding it. */
  datatype TextNode = TextNode(text: string, parent: Chain)

  /**
   * A parsed document: its text nodes and its elements in document order, and
   * for each locator the stripped text of the first element it selects, if any.
   */
  datatype Page = Page(strings: seq<TextNode>, elements: seq<Chain>, select: Locator -> Option<string>)

  /**
   * The regular expressions of the store. `price` and `availability` tell
   * whether the price pattern (a number followed by "грн" or "₴") and the
   * stock pattern ("в наявності", "немає в наявності") occur in a text;
   * `model` and `brand` give the captured word after "Модель:"/"Артикул:" and
   * after "Виробник:"/"Бренд:", when there is one. Discovery searches for the
   * same two patterns without the group, so it finds a text exactly when the
   * extractor gives a value.
   */
  datatype Recognizers = Recognizers(
    price: string -> bool,
    model: string -> Option<string>,
    brand: string -> Option<string>,
    availability: string -> bool)

  /** The tag names `discover_patterns` looks for titles under; ".product-name" is compared as a tag name. */
  const TitleNames: seq<string> := ["h1", "h2", ".product-name"]

  /** The parents of the text nodes a recognizer finds something in, in document order. */
  function Parents(strings: seq<TextNode>, found: string -> bool): seq<Chain>
    decreases |strings|
  {
    if strings == [] then []
    else
      var rest := Parents(strings[..|strings| - 1], found);
      var last := strings[|strings| - 1];
      if found(last.text) then rest + [last.parent] else rest
  }

  /** The elements whose tag name is one of the title names, in document order. */
  function Titled(elements: seq<Chain>): seq<Chain>
    decreases |elements|
  {
    if elements == [] then []
    else
      var rest := Titled(elements[..|elements| - 1]);
      var last := elements[|elements| - 1];
      if last != [] && last[0].name in TitleNames then rest + [last] else rest
  }

  /** The elements `discover_patterns` takes a locator from for one field. */
  function Candidates(page: Page, rec: Recognizers, f: Field): seq<Chain> {
    match f
    case Price => Parents(page.strings, rec.price)
    case Title => Titled(page.elements)
    case Model => Parents(page.strings, t => rec.model(t).Some?)
    case Brand => Parents(page.strings, t => rec.brand(t).Some?)
    case Availability => Parents(page.strings, rec.availability)
  }

  /** The locators of a list of elements. */
  function Paths(candidates: seq<Chain>): (paths: seq<Locator>)
    ensures |paths| == |candidates|
    ensures forall i :: 0 <= i < |candidates| ==> paths[i] == SelectorPath(Some(candidates[i]))
  {
    seq(|candidates|, i requires 0 <= i < |candidates| => SelectorPath(Some(candidates[i])))
  }

  // ---------------------------------------------------------------------------
  // Discovery
  // ---------------------------------------------------------------------------

  /** The loop of one field in `discover_patterns`: keep each non-empty locator the field does not hold yet. */
  function Proposals(candidates: seq<Chain>, known: seq<Locator>): seq<Locator>
    decreases |candidates|
  {
    if candidates == [] then []
    else
      var selector := SelectorPath(Some(candidates[|candidates| - 1]));
      Proposals(candidates[..|candidates| - 1], known)
      + (if selector != "" && selector !in known then [selector] else [])
  }

  /** What `discover_patterns` returns for a store. */
  function Discovered(page: Page, rec: Recognizers, store: Store): (found: Store)
    requires Complete(store)
    ensures Complete(found)
  {
    var found := map[Price := Proposals(Candidates(page, rec, Price), store[Price]),
                     Title := Proposals(Candidates(page, rec, Title), store[Title]),
                     Model := Proposals(Candidates(page, rec, Model), store[Model]),
                     Brand := Proposals(Candidates(page, rec, Brand), store[Brand]),
                     Availability := Proposals(Candidates(page, rec, Availability), store[Availability])];
    CompleteDisplay(found);
    found
  }

  /** A locator is proposed exactly when it is the non-empty locator of a candidate and not yet known. */
  lemma {:induction false} ProposalsMeaning(candidates: seq<Chain>, known: seq<Locator>)
    ensures forall s :: s in Proposals(candidates, known) <==>
              s != "" && s !in known && s in Paths(candidates)
    decreases |candidates|
  {
    if candidates != [] {
      var init := candidates[..|candidates| - 1];
      ProposalsMeaning(init, known);
      assert Paths(candidates) == Paths(init) + [SelectorPath(Some(candidates[|candidates| - 1]))];
    }
  }

  /**
   * `discover_patterns` proposes, for each of the five fields, exactly the
   * non-empty locators of the field's candidates that the store does not hold.
   */
  lemma DiscoveredMeaning(page: Page, rec: Recognizers, store: Store)
    requires Complete(store)
    ensures Complete(Discovered(page, rec, store))
    ensures forall f: Field, s ::
              s in Discovered(page, rec, store)[f] <==>
                s != "" && s !in store[f] && s in Paths(Candidates(page, rec, f))
  {
    var found := Discovered(page, rec, store);
    forall f: Field
      ensures forall s :: s in found[f] <==> s != "" && s !in store[f] && s in Paths(Candidates(page, rec, f))
    {
      DiscoveredField(page, rec, store, f);
      ProposalsMeaning(Candidates(page, rec, f), store[f]);
    }
  }

  /** Each field's entry of the discovery result is that field's proposals. */
  lemma DiscoveredField(page: Page, rec: Recognizers, store: Store, f: Field)
    requires Complete(store)
    ensures Discovered(page, rec, store)[f] == Proposals(Candidates(page, rec, f), store[f])
  {
    var found := Discovered(page, rec, store);
    match f
    case Price =>
    case Title =>
    case Model =>
    case Brand =>
    case Availability =>
  }

  // ---------------------------------------------------------------------------
  // Values, extraction and validation
  // ---------------------------------------------------------------------------

  /** The Python values the data dictionaries hold. */
  datatype Value =
    | Int(i: int)
    | Real(r: real)
    | Bool(b: bool)
    | Str(s: string)
    | StrList(items: seq<string>)
    | StrMap(entries: map<string, string>)
    | Null

  /** The digits of a text read as one number, when there is at least one digit. */
  function DigitPrice(text: string): (price: Option<nat>)
    ensures price.Some? <==> exists i :: 0 <= i < |text| && IsDigit(text[i])
    ensures price.Some? ==> price.value == DigitsValue(Digits(text))
  {
    DigitsEmptyIff(text);
    var ds := Digits(text);
    if ds != "" then Some(DigitsValue(ds)) else None
  }

  lemma {:induction false} DigitsEmptyIff(text: string)
    ensures Digits(text) == "" <==> forall i :: 0 <= i < |text| ==> !IsDigit(text[i])
    decreases |text|
  {
    if text != [] {
      DigitsEmptyIff(text[1..]);
      assert forall i :: 1 <= i < |text| ==> text[i] == text[1..][i - 1];
    }
  }

  /** The dictionary key `extract_data` stores a field under. */
  function Key(f: Field): string {
    match f
    case Price => "price"
    case Title => "title"
    case Model => "model"
    case Brand => "brand"
    case Availability => "available"
  }

  /** What `extract_data` makes of the text of an element found for a field, or None when it moves on. */
  function Reading(f: Field, rec: Recognizers, text: string): Option<Value> {
    match f
    case Price => if DigitPrice(text).Some? then Some(Real(DigitPrice(text).value as real)) else None
    case Title => if text != "" then Some(Str(text)) else None
    case Model => if rec.model(text).Some? then Some(Str(rec.model(text).value)) else None
    case Brand => if rec.brand(text).Some? then Some(Str(rec.brand(text).value)) else None
    case Availability => Some(Bool(AvailabilityAsWritten(text)))
  }

  /** `"наявності" in text.lower()`, the availability test as `extract_data` writes it. */
  predicate AvailabilityAsWritten(text: string) {
    Contains(Lower(text), "наявності")
  }

  /**
   * The availability test as evidently intended: the stock phrase, but not
   * the "немає в наявності" (not in stock) that discovery also collects. The
   * model's `Reading` keeps the test as written; this is the corrected test.
   */
  predicate InStock(text: string) {
    Contains(Lower(text), "наявності") && !Contains(Lower(text), "немає в наявності")
  }

  lemma LowerOutOfStock()
    ensures Lower("Немає в наявності") == "немає в наявності"
  {
    var t := "немає в наявності";
    forall i | 0 <= i < |t| ensures Lower("Немає в наявності")[i] == t[i] {
    }
  }

  lemma LowerInStock()
    ensures Lower("В наявності") == "в наявності"
  {
    var t := "в наявності";
    forall i | 0 <= i < |t| ensures Lower("В наявності")[i] == t[i] {
    }
  }

  /** As written, the out-of-stock text "Немає в наявності" reads as available. */
  lemma OutOfStockReadAsAvailable(rec: Recognizers)
    ensures AvailabilityAsWritten("Немає в наявності")
    ensures Reading(Availability, rec, "Немає в наявності") == Some(Bool(true))
  {
    LowerOutOfStock();
    var t := "немає в наявності";
    assert t[8..] == "наявності";
    ContainsAt(t, "наявності", 8);
  }

  /** The intended test tells "В наявності" (in stock) from "Немає в наявності" (out of stock). */
  lemma InStockDistinguishes()
    ensures InStock("В наявності")
    ensures !InStock("Немає в наявності")
    ensures forall text :: Contains(Lower(text), "немає в наявності") ==> !InStock(text)
  {
    InStockPhrase();
    OutOfStockPhrase();
  }

  /** The lowered in-stock phrase holds "наявності" and is too short to hold the out-of-stock phrase. */
  lemma InStockPhrase()
    ensures Contains(Lower("В наявності"), "наявності")
    ensures !Contains(Lower("В наявності"), "немає в наявності")
  {
    LowerInStock();
    var t := "в наявності";
    assert t[2..] == "наявності";
    ContainsAt(t, "наявності", 2);
    ContainsLonger(t, "немає в наявності");
  }

  /** The lowered out-of-stock phrase holds itself. */
  lemma OutOfStockPhrase()
    ensures Contains(Lower("Немає в наявності"), "немає в наявності")
  {
    LowerOutOfStock();
    ContainsAt("немає в наявності", "немає в наявності", 0);
  }

  /** A locator selects an element whose text gives the field a value. */
  predicate Usable(page: Page, rec: Recognizers, f: Field, locator: Locator) {
    page.select(locator).Some? && Reading(f, rec, page.select(locator).value).Some?
  }

  /** The value of the first locator, in store order, that is usable. */
  function FirstReading(locators: seq<Locator>, page: Page, rec: Recognizers, f: Field): Option<Value>
    decreases |locators|
  {
    if locators == [] then None
    else if Usable(page, rec, f, locators[0]) then Reading(f, rec, page.select(locators[0]).value)
    else FirstReading(locators[1..], page, rec, f)
  }

  /** The field's value is the reading of the first usable locator; there is none when no locator is usable. */
  lemma {:induction false} FirstReadingIsFirst(locators: seq<Locator>, page: Page, rec: Recognizers, f: Field)
    ensures FirstReading(locators, page, rec, f).None? <==>
              forall i :: 0 <= i < |locators| ==> !Usable(page, rec, f, locators[i])
    ensures FirstReading(locators, page, rec, f).Some? ==>
              exists i :: 0 <= i < |locators| && Usable(page, rec, f, locators[i])
                && FirstReading(locators, page, rec, f) == Reading(f, rec, page.select(locators[i]).value)
                && forall j :: 0 <= j < i ==> !Usable(page, rec, f, locators[j])
    decreases |locators|
  {
    if locators != [] {
      var rest := locators[1..];
      FirstReadingIsFirst(rest, page, rec, f);
      forall i | 1 <= i < |locators| ensures locators[i] == rest[i - 1] { }
      if !Usable(page, rec, f, locators[0]) && FirstReading(rest, page, rec, f).Some? {
        var i :| 0 <= i < |rest| && Usable(page, rec, f, rest[i])
                 && FirstReading(rest, page, rec, f) == Reading(f, rec, page.select(rest[i]).value)
                 && forall j :: 0 <= j < i ==> !Usable(page, rec, f, rest[j]);
        assert locators[i + 1] == rest[i];
        forall j | 0 <= j < i + 1 ensures !Usable(page, rec, f, locators[j]) {
          if j > 0 {
            assert locators[j] == rest[j - 1];
          }
        }
      }
    }
  }

  /** Adds the entry when there is a value. */
  function Put(data: map<string, Value>, key: string, v: Option<Value>): map<string, Value> {
    if v.Some? then data[key := v.value] else data
  }

  /** What `extract_data` returns for a store. */
  function Extracted(page: Page, rec: Recognizers, store: Store): map<string, Value>
    requires Complete(store)
  {
    var data := Put(map[], "price", FirstReading(store[Price], page, rec, Price));
    var data := Put(data, "title", FirstReading(store[Title], page, rec, Title));
    var data := Put(data, "model", FirstReading(store[Model], page, rec, Model));
    var data := Put(data, "brand", FirstReading(store[Brand], page, rec, Brand));
    Put(data, "available", FirstReading(store[Availability], page, rec, Availability))
  }

  /**
   * The result holds a field exactly when some stored locator of the field is
   * usable, and then holds the first one's reading; it holds no other key.
   */
  lemma ExtractedFields(page: Page, rec: Recognizers, store: Store)
    requires Complete(store)
    ensures forall k :: k in Extracted(page, rec, store) ==> k in RuleKeys
    ensures forall f: Field :: Key(f) in Extracted(page, rec, store) <==> FirstReading(store[f], page, rec, f).Some?
    ensures forall f: Field :: Key(f) in Extracted(page, rec, store) ==>
              Extracted(page, rec, store)[Key(f)] == FirstReading(store[f], page, rec, f).value
  {
    ExtractedKeys(page, rec, store);
    forall f: Field
      ensures Key(f) in Extracted(page, rec, store) <==> FirstReading(store[f], page, rec, f).Some?
      ensures Key(f) in Extracted(page, rec, store) ==>
                Extracted(page, rec, store)[Key(f)] == FirstReading(store[f], page, rec, f).value
    {
      ExtractedField(page, rec, store, f);
    }
  }

  lemma ExtractedKeys(page: Page, rec: Recognizers, store: Store)
    requires Complete(store)
    ensures forall k :: k in Extracted(page, rec, store) ==> k in RuleKeys
  {
  }

  lemma ExtractedField(page: Page, rec: Recognizers, store: Store, f: Field)
    requires Complete(store)
    ensures Key(f) in Extracted(page, rec, store) <==> FirstReading(store[f], page, rec, f).Some?
    ensures Key(f) in Extracted(page, rec, store) ==>
              Extracted(page, rec, store)[Key(f)] == FirstReading(store[f], page, rec, f).value
  {
    assert "price"[0] == 'p' && "title"[0] == 't' && "model"[0] == 'm' && "brand"[0] == 'b'
      && "available"[0] == 'a';
  }

  /**
   * The extracted price comes from the first stored price locator whose element
   * text has a digit, and is the number those digits alone spell, so it is
   * never negative.
   */
  lemma ExtractedPrice(page: Page, rec: Recognizers, store: Store)
    requires Complete(store)
    ensures "price" in Extracted(page, rec, store) <==>
              exists i :: 0 <= i < |store[Price]| && Usable(page, rec, Price, store[Price][i])
    ensures "price" in Extracted(page, rec, store) ==>
              exists i :: 0 <= i < |store[Price]| && Usable(page, rec, Price, store[Price][i])
                && (forall j :: 0 <= j < i ==> !Usable(page, rec, Price, store[Price][j]))
                && Extracted(page, rec, store)["price"]
                   == Real(DigitsValue(Digits(page.select(store[Price][i]).value)) as real)
    ensures "price" in Extracted(page, rec, store) ==>
              Extracted(page, rec, store)["price"].Real? && Extracted(page, rec, store)["price"].r >= 0.0
  {
    ExtractedFields(page, rec, store);
    FirstReadingIsFirst(store[Price], page, rec, Price);
  }

  /** The keys `validate_data` has a rule for. */
  const RuleKeys: seq<string> := ["price", "title", "model", "brand", "available"]

  predicate IsModelChar(c: char) {
    'A' <= c <= 'Z' || 'a' <= c <= 'z' || '0' <= c <= '9' || c == '-'
  }

  predicate AllModelChars(s: string) {
    forall i :: 0 <= i < |s| ==> IsModelChar(s[i])
  }

  /**
   * `re.match(r'^[A-Za-z0-9-]+$', s)`: one or more letters, digits or dashes;
   * `$` also matches just before a final newline, so one trailing "\n" is let through.
   */
  predicate ModelShaped(s: string) {
    (|s| > 0 && AllModelChars(s)) || (|s| > 1 && s[|s| - 1] == '\n' && AllModelChars(s[..|s| - 1]))
  }

  /**
   * The rule of each key. A Python bool is an int, so `True` is a valid price.
   */
  predicate Rule(key: string, v: Value) {
    if key == "price" then (v.Int? && v.i > 0) || (v.Real? && v.r > 0.0) || (v.Bool? && v.b)
    else if key == "title" then v.Str? && |v.s| > 5
    else if key == "model" then v.Str? && ModelShaped(v.s)
    else if key == "brand" then v.Str? && |v.s| > 1
    else if key == "available" then v.Bool?
    else true
  }

  /** `all(key not in data or rules[key](data[key]) for key in keys)`. */
  function AllRulesHold(keys: seq<string>, data: map<string, Value>): bool
    decreases |keys|
  {
    keys == [] || ((keys[0] !in data || Rule(keys[0], data[keys[0]])) && AllRulesHold(keys[1..], data))
  }

  /** `validate_data`. */
  function ValidateData(data: map<string, Value>): bool {
    AllRulesHold(RuleKeys, data)
  }

  lemma {:induction false} AllRulesHoldIff(keys: seq<string>, data: map<string, Value>)
    ensures AllRulesHold(keys, data) <==> forall k :: k in keys && k in data ==> Rule(k, data[k])
    decreases |keys|
  {
    if keys != [] {
      AllRulesHoldIff(keys[1..], data);
      assert forall k :: k in keys ==> k == keys[0] || k in keys[1..];
    }
  }

  /** The data is valid exactly when every key it holds that has a rule satisfies that rule. */
  lemma ValidateDataIff(data: map<string, Value>)
    ensures ValidateData(data) <==> forall k :: k in RuleKeys && k in data ==> Rule(k, data[k])
  {
    AllRulesHoldIff(RuleKeys, data);
  }

  /** An empty dictionary is valid. */
  lemma ValidateEmpty()
    ensures ValidateData(map[])
  {
    ValidateDataIff(map[]);
  }

  /** Keys without a rule do not change the verdict. */
  lemma ValidateIgnoresOtherKeys(data: map<string, Value>, key: string, v: Value)
    requires key !in RuleKeys
    ensures ValidateData(data[key := v]) == ValidateData(data)
  {
    ValidateDataIff(data);
    ValidateDataIff(data[key := v]);
  }

  /** A two-character title fails even beside a good price. */
  lemma ValidateShortTitle()
    ensures !ValidateData(map["title" := Str("Hi"), "price" := Int(50)])
  {
    var data := map["title" := Str("Hi"), "price" := Int(50)];
    ValidateDataIff(data);
    assert "title" in RuleKeys && "title" in data && !Rule("title", data["title"]);
  }

  /** The bool `True` passes as a price, and a model may end in one newline. */
  lemma ValidateQuirks()
    ensures ValidateData(map["price" := Bool(true)])
    ensures ValidateData(map["model" := Str("AB-1\n")])
    ensures !ValidateData(map["model" := Str("AB 1")])
  {
    ValidateDataIff(map["price" := Bool(true)]);
    var good := map["model" := Str("AB-1\n")];
    ValidateDataIff(good);
    assert AllModelChars("AB-1\n"[..4]) by {
      assert "AB-1\n"[..4] == "AB-1";
    }
    var bad := map["model" := Str("AB 1")];
    ValidateDataIff(bad);
    assert !IsModelChar("AB 1"[2]);
  }

  // ---------------------------------------------------------------------------
  // Learning
  // ---------------------------------------------------------------------------

  /** `list(set(xs))`: the same elements without repeats (in one fixed order). */
  function Dedup<T(==)>(xs: seq<T>): (r: seq<T>)
    ensures NoDuplicates(r)
    ensures Elems(r) == Elems(xs)
    decreases |xs|
  {
    if xs == [] then []
    else
      var init := xs[..|xs| - 1];
      var r := Dedup(init);
      var last := xs[|xs| - 1];
      assert Elems(xs) == Elems(init) + {last} by {
        assert xs == init + [last];
      }
      if last in r then r else r + [last]
  }

  /**
   * Learning the same page twice changes nothing the second time: once every
   * proposal is in the store, the page proposes nothing new, and the sets of
   * locators stay the same.
   */
  lemma LearnIdempotent(page: Page, rec: Recognizers, s0: Store, s1: Store, s2: Store)
    requires Complete(s0) && Complete(s1) && Complete(s2)
    requires forall f: Field :: Elems(s1[f]) == Elems(s0[f]) + Elems(Discovered(page, rec, s0)[f])
    requires forall f: Field :: Elems(s2[f]) == Elems(s1[f]) + Elems(Discovered(page, rec, s1)[f])
    ensures forall f: Field, s :: s !in Discovered(page, rec, s1)[f]
    ensures forall f: Field :: Elems(s2[f]) == Elems(s1[f])
  {
    DiscoveredMeaning(page, rec, s0);
    DiscoveredMeaning(page, rec, s1);
    forall f: Field, s | s != "" && s in Paths(Candidates(page, rec, f))
      ensures s in s1[f]
    {
      assert s in s0[f] || s in Discovered(page, rec, s0)[f];
      assert s in Elems(s1[f]);
    }
  }

  // ---------------------------------------------------------------------------
  // The store
  // ---------------------------------------------------------------------------

  /** Every field's list followed by that field's proposals (the `extend` loop of `learn`). */
  function Extend(store: Store, found: Store): (extended: Store)
    requires Complete(store) && Complete(found)
    ensures Complete(extended)
  {
    var extended := map[Price := store[Price] + found[Price],
                        Title := store[Title] + found[Title],
                        Model := store[Model] + found[Model],
                        Brand := store[Brand] + found[Brand],
                        Availability := store[Availability] + found[Availability]];
    CompleteDisplay(extended);
    extended
  }

  lemma ExtendField(store: Store, found: Store, f: Field)
    requires Complete(store) && Complete(found)
    ensures Extend(store, found)[f] == store[f] + found[f]
  {
    match f
    case Price =>
    case Title =>
    case Model =>
    case Brand =>
    case Availability =>
  }

  /** Every field's list without repeats (the `list(set(...))` loop of `learn`). */
  function DedupAll(store: Store): (deduped: Store)
    requires Complete(store)
    ensures Complete(deduped)
  {
    var deduped := map[Price := Dedup(store[Price]),
                       Title := Dedup(store[Title]),
                       Model := Dedup(store[Model]),
                       Brand := Dedup(store[Brand]),
                       Availability := Dedup(store[Availability])];
    CompleteDisplay(deduped);
    deduped
  }

  lemma DedupAllField(store: Store, f: Field)
    requires Complete(store)
    ensures DedupAll(store)[f] == Dedup(store[f])
  {
    match f
    case Price =>
    case Title =>
    case Model =>
    case Brand =>
    case Availability =>
  }

  class SmartParser {
    /** The locator lists (`self.patterns`). */
    var patterns: Store
    /** The contents of the pattern file at the storage path. */
    var file: PatternFile

    /** `__init__` and `load_patterns`: the stored store, or the default one when there is no readable file. */
    constructor (stored: PatternFile)
      ensures file == stored
      ensures patterns == (if stored.Stored? then stored.contents else DefaultPatterns())
    {
      file := stored;
      patterns := if stored.Stored? then stored.contents else DefaultPatterns();
    }

    /** `get_selector_path`. */
    method GetSelectorPath(element: Option<Chain>) returns (path: string)
      ensures path == SelectorPath(element)
    {
      if element.None? {
        return "";
      }
      var parts: seq<string> := [];
      var current := element.value;
      while current != [] && current[0].name != ""
        invariant Descriptors(element.value) == parts + Descriptors(current)
        decreases |current|
      {
        parts := parts + [Descriptor(current[0])];
        current := current[1..];
      }
      assert Descriptors(current) == [];
      assert parts == Descriptors(element.value);
      path := Join(Reversed(parts), " > ");
    }

    /** One field's loop of `discover_patterns`. */
    method Propose(candidates: seq<Chain>, known: seq<Locator>) returns (proposed: seq<Locator>)
      ensures proposed == Proposals(candidates, known)
    {
      proposed := [];
      for i := 0 to |candidates|
        invariant proposed == Proposals(candidates[..i], known)
      {
        var selector := GetSelectorPath(Some(candidates[i]));
        assert candidates[..i + 1][..i] == candidates[..i];
        if selector != "" && selector !in known {
          proposed := proposed + [selector];
        }
      }
      assert candidates[..|candidates|] == candidates;
    }

    /** `discover_patterns`; the store is left as it is. */
    method DiscoverPatterns(page: Page, rec: Recognizers) returns (found: Store)
      requires Complete(patterns)
      ensures found == Discovered(page, rec, patterns)
    {
      var price := Propose(Candidates(page, rec, Price), patterns[Price]);
      var title := Propose(Candidates(page, rec, Title), patterns[Title]);
      var model := Propose(Candidates(page, rec, Model), patterns[Model]);
      var brand := Propose(Candidates(page, rec, Brand), patterns[Brand]);
      var availability := Propose(Candidates(page, rec, Availability), patterns[Availability]);
      found := map[Price := price, Title := title, Model := model, Brand := brand,
                   Availability := availability];
    }

    /** One field's loop of `extract_data`: the reading of the first usable locator. */
    method FirstValue(locators: seq<Locator>, page: Page, rec: Recognizers, f: Field) returns (v: Option<Value>)
      ensures v == FirstReading(locators, page, rec, f)
    {
      var i := 0;
      while i < |locators|
        invariant 0 <= i <= |locators|
        invariant FirstReading(locators, page, rec, f) == FirstReading(locators[i..], page, rec, f)
      {
        assert locators[i..][1..] == locators[i + 1..];
        var element := page.select(locators[i]);
        if element.Some? {
          var reading := Reading(f, rec, element.value);
          if reading.Some? {
            return reading;
          }
        }
        i := i + 1;
      }
      return None;
    }

    /** `extract_data`; the store is left as it is. */
    method ExtractData(page: Page, rec: Recognizers) returns (data: map<string, Value>)
      requires Complete(patterns)
      ensures data == Extracted(page, rec, patterns)
    {
      data := map[];
      var price := FirstValue(patterns[Price], page, rec, Price);
      data := Put(data, "price", price);
      var title := FirstValue(patterns[Title], page, rec, Title);
      data := Put(data, "title", title);
      var model := FirstValue(patterns[Model], page, rec, Model);
      data := Put(data, "model", model);
      var brand := FirstValue(patterns[Brand], page, rec, Brand);
      data := Put(data, "brand", brand);
      var available := FirstValue(patterns[Availability], page, rec, Availability);
      data := Put(data, "available", available);
    }

    /**
     * `learn`: every field keeps what it held and gains what the page
     * proposes, without repeats, and the store is saved. The data the
     * caller passes plays no part.
     */
    method Learn(page: Page, rec: Recognizers, successData: map<string, Value>)
      requires Complete(patterns)
      modifies this
      ensures Complete(patterns)
      ensures forall f: Field :: NoDuplicates(patterns[f])
      ensures forall f: Field ::
                Elems(patterns[f]) == Elems(old(patterns)[f]) + Elems(Discovered(page, rec, old(patterns))[f])
      ensures file == Stored(patterns)
    {
      var found := DiscoverPatterns(page, rec);
      ghost var before := patterns;
      patterns := Extend(patterns, found);
      ghost var extended := patterns;
      patterns := DedupAll(patterns);
      file := Stored(patterns);
      forall f: Field
        ensures NoDuplicates(patterns[f])
        ensures Elems(patterns[f]) == Elems(before[f]) + Elems(found[f])
      {
        ExtendField(before, found, f);
        DedupAllField(extended, f);
        ElemsConcat(before[f], found[f]);
      }
    }
  }
}
