/**
 * The LUGI store parser: the links of a search result page, the fixed-selector
 * reading of a product page (`_standard_parse`), and the rule that falls back
 * to the self-learning store when that reading finds nothing, or teaches the
 * store when it does.
 *
 * Pages are abstract as in module `Smart`: the stripped text of the first
 * element a locator selects, plus the few structures `_standard_parse` walks
 * (image attributes, specification rows).
 */
module Lugi {
  import opened Wrappers
  import opened Strings
  import opened Smart

  /** `LUGIParser.BASE_URL`. */
  const BaseUrl: string := "https://lugi.com.ua"

  /** A link made absolute: one that does not start with "http" gets the site address in front. */
  function Absolute(href: string): (url: string)
    ensures StartsWith(url, "http")
    ensures StartsWith(href, "http") ==> url == href
    ensures !StartsWith(href, "http") ==> url == BaseUrl + href
  {
    if StartsWith(href, "http") then href
    else
      assert (BaseUrl + href)[..4] == BaseUrl[..4];
      BaseUrl + href
  }

  /** A present, non-empty attribute value (Python truthiness of `get(...)`). */
  predicate HasValue(v: Option<string>) {
    v.Some? && v.value != ""
  }

  // ---------------------------------------------------------------------------
  // Search results (`search_products`)
  // ---------------------------------------------------------------------------

  /** A product card of the search page: the `href` of its `.image a` and of its `.product-name a`, if any. */
  datatype Card = Card(imageHref: Option<string>, nameHref: Option<string>)

  /** The link of a card: the image link when it has an href, else the name link when it has one. */
  function CardLink(card: Card): (link: Option<string>)
    ensures link.Some? <==> HasValue(card.imageHref) || HasValue(card.nameHref)
    ensures HasValue(card.imageHref) ==> link == card.imageHref
    ensures !HasValue(card.imageHref) && HasValue(card.nameHref) ==> link == card.nameHref
  {
    if HasValue(card.imageHref) then card.imageHref
    else if HasValue(card.nameHref) then card.nameHref
    else None
  }

  /** Python's `xs[:limit]`: a negative limit drops that many elements from the end. */
  function Slice<T>(xs: seq<T>, limit: int): (r: seq<T>)
    ensures limit >= 0 ==> |r| == if limit < |xs| then limit else |xs|
    ensures limit < 0 ==> |r| == if |xs| + limit > 0 then |xs| + limit else 0
    ensures r == xs[..|r|]
  {
    if limit >= 0 then (if limit < |xs| then xs[..limit] else xs)
    else if |xs| + limit > 0 then xs[..|xs| + limit] else []
  }

  /** The absolute links of the cards that have one, in card order. */
  function Links(cards: seq<Card>): (urls: seq<string>)
    ensures |urls| <= |cards|
    ensures forall u :: u in urls ==> StartsWith(u, "http")
    decreases |cards|
  {
    if cards == [] then []
    else
      var urls := Links(cards[..|cards| - 1]);
      var link := CardLink(cards[|cards| - 1]);
      if link.Some? then urls + [Absolute(link.value)] else urls
  }

  /** Every card with a link gives exactly one URL: its own link, made absolute. */
  lemma {:induction false} LinksMeaning(cards: seq<Card>)
    ensures forall u :: u in Links(cards) <==>
              exists i :: 0 <= i < |cards| && CardLink(cards[i]).Some? && u == Absolute(CardLink(cards[i]).value)
    decreases |cards|
  {
    if cards != [] {
      var init := cards[..|cards| - 1];
      LinksMeaning(init);
      forall i | 0 <= i < |init| ensures init[i] == cards[i] { }
    }
  }

  // ---------------------------------------------------------------------------
  // Product pages (`_standard_parse`)
  // ---------------------------------------------------------------------------

  /**
   * What `_standard_parse` reads from a product page: the document, the text
   * of `#tab-description` with its scripts and styles removed, the attributes
   * of `.image a img` and of each `.additional-images img`, and the cell texts
   * of each `#tab-specification tr`.
   */
  datatype ProductPage = ProductPage(
    page: Page,
    description: Option<string>,
    mainImage: Option<map<string, string>>,
    additionalImages: seq<map<string, string>>,
    specRows: seq<seq<string>>)

  /** The title selectors, tried in this order. */
  const TitleSelectors: seq<Locator> :=
    ["h1.product-name", "h1.product-title", "h1.name", "h1[itemprop='name']", ".product-name h1", "#product h1"]

  /** The text of the first selector that finds an element, even when that text is empty. */
  function FirstTitle(select: Locator -> Option<string>, selectors: seq<Locator>): Option<string>
    decreases |selectors|
  {
    if selectors == [] then None
    else if select(selectors[0]).Some? then select(selectors[0])
    else FirstTitle(select, selectors[1..])
  }

  /** The title comes from the first selector, in order, that finds an element. */
  lemma {:induction false} FirstTitleIsFirst(select: Locator -> Option<string>, selectors: seq<Locator>)
    ensures FirstTitle(select, selectors).None? <==> forall i :: 0 <= i < |selectors| ==> select(selectors[i]).None?
    ensures FirstTitle(select, selectors).Some? ==>
              exists i :: 0 <= i < |selectors| && FirstTitle(select, selectors) == select(selectors[i])
                && forall j :: 0 <= j < i ==> select(selectors[j]).None?
    decreases |selectors|
  {
    if selectors != [] {
      var rest := selectors[1..];
      FirstTitleIsFirst(select, rest);
      forall i | 1 <= i < |selectors| ensures selectors[i] == rest[i - 1] { }
      if select(selectors[0]).None? && FirstTitle(select, rest).Some? {
        var i :| 0 <= i < |rest| && FirstTitle(select, rest) == select(rest[i])
                 && forall j :: 0 <= j < i ==> select(rest[j]).None?;
        assert selectors[i + 1] == rest[i];
        forall j | 0 <= j < i + 1 ensures select(selectors[j]).None? {
          if j > 0 {
            assert selectors[j] == rest[j - 1];
          }
        }
      }
    }
  }

  /** The image attributes, in order of preference. */
  const ImageAttrs: seq<string> := ["data-additional-hover", "src"]

  /** The attribute is present with a non-empty value (`img.get(attr)` is truthy). */
  predicate HasSource(attrs: map<string, string>, name: string) {
    name in attrs && attrs[name] != ""
  }

  /** The first preferred attribute with a non-empty value, made absolute. */
  function FirstSource(attrs: map<string, string>, names: seq<string>): (src: Option<string>)
    ensures src.Some? ==> StartsWith(src.value, "http")
    decreases |names|
  {
    if names == [] then None
    else if HasSource(attrs, names[0]) then Some(Absolute(attrs[names[0]]))
    else FirstSource(attrs, names[1..])
  }

  /**
   * There is a source exactly when some attribute of the list is present and
   * non-empty, and then it is the absolute form of the first such attribute.
   */
  lemma {:induction false} FirstSourceIsFirst(attrs: map<string, string>, names: seq<string>)
    ensures FirstSource(attrs, names).None? <==> forall i :: 0 <= i < |names| ==> !HasSource(attrs, names[i])
    ensures FirstSource(attrs, names).Some? ==>
              exists i :: 0 <= i < |names| && HasSource(attrs, names[i])
                && FirstSource(attrs, names).value == Absolute(attrs[names[i]])
                && forall j :: 0 <= j < i ==> !HasSource(attrs, names[j])
    decreases |names|
  {
    if names != [] && !HasSource(attrs, names[0]) {
      var rest := names[1..];
      FirstSourceIsFirst(attrs, rest);
      forall i | 1 <= i < |names| ensures names[i] == rest[i - 1] { }
      if FirstSource(attrs, rest).Some? {
        var i :| 0 <= i < |rest| && HasSource(attrs, rest[i])
                 && FirstSource(attrs, rest).value == Absolute(attrs[rest[i]])
                 && forall j :: 0 <= j < i ==> !HasSource(attrs, rest[j]);
        assert names[i + 1] == rest[i];
        forall j | 0 <= j < i + 1 ensures !HasSource(attrs, names[j]) {
          if j > 0 {
            assert names[j] == rest[j - 1];
          }
        }
      }
    }
  }

  /** The source of an image: `data-additional-hover` over `src`, made absolute. */
  function ImageSource(attrs: map<string, string>): (src: Option<string>)
    ensures src.Some? ==> StartsWith(src.value, "http")
  {
    FirstSource(attrs, ImageAttrs)
  }

  /**
   * A non-empty `data-additional-hover` gives the image source; without one, a
   * non-empty `src` does; with neither the image has no source.
   */
  lemma ImageSourcePreference(attrs: map<string, string>)
    ensures HasSource(attrs, "data-additional-hover") ==>
              ImageSource(attrs) == Some(Absolute(attrs["data-additional-hover"]))
    ensures !HasSource(attrs, "data-additional-hover") && HasSource(attrs, "src") ==>
              ImageSource(attrs) == Some(Absolute(attrs["src"]))
    ensures !HasSource(attrs, "data-additional-hover") && !HasSource(attrs, "src") ==> ImageSource(attrs) == None
  {
    assert ImageAttrs[1..] == ["src"] && ImageAttrs[1..][1..] == [];
  }

  /** The image list that starts from the main image and takes each new additional source. */
  function Gallery(main: Option<map<string, string>>, additional: seq<map<string, string>>): seq<string>
    decreases |additional|
  {
    if additional == [] then
      if main.Some? && ImageSource(main.value).Some? then [ImageSource(main.value).value] else []
    else
      var images := Gallery(main, additional[..|additional| - 1]);
      var src := ImageSource(additional[|additional| - 1]);
      if src.Some? && src.value !in images then images + [src.value] else images
  }

  /**
   * The image list has no repeats and only absolute links; it starts with the
   * main image's source when there is one, and holds exactly that source and
   * the sources of the additional images.
   */
  lemma {:induction false} GalleryMeaning(main: Option<map<string, string>>, additional: seq<map<string, string>>)
    ensures NoDuplicates(Gallery(main, additional))
    ensures forall u :: u in Gallery(main, additional) ==> StartsWith(u, "http")
    ensures main.Some? && ImageSource(main.value).Some? ==>
              Gallery(main, additional) != [] && Gallery(main, additional)[0] == ImageSource(main.value).value
    ensures forall u :: u in Gallery(main, additional) <==>
              (main.Some? && ImageSource(main.value) == Some(u))
              || exists k :: 0 <= k < |additional| && ImageSource(additional[k]) == Some(u)
    decreases |additional|
  {
    if additional != [] {
      var init := additional[..|additional| - 1];
      GalleryMeaning(main, init);
      forall k | 0 <= k < |init| ensures init[k] == additional[k] { }
    }
  }

  /** A specification row is kept when it has two cells and both the name and the value are non-empty. */
  predicate SpecRow(row: seq<string>) {
    |row| >= 2 && row[0] != "" && row[1] != ""
  }

  /** The specification table: the rows that qualify, a later row with the same name overwriting an earlier one. */
  function SpecTable(rows: seq<seq<string>>): map<string, string>
    decreases |rows|
  {
    if rows == [] then map[]
    else
      var table := SpecTable(rows[..|rows| - 1]);
      var row := rows[|rows| - 1];
      if SpecRow(row) then table[row[0] := row[1]] else table
  }

  /** A name is in the table exactly when some qualifying row has it, and its value is the last such row's. */
  lemma SpecTableMeaning(rows: seq<seq<string>>)
    ensures forall name :: name in SpecTable(rows) <==>
              exists i :: 0 <= i < |rows| && SpecRow(rows[i]) && rows[i][0] == name
    ensures forall name :: name in SpecTable(rows) ==>
              exists i :: 0 <= i < |rows| && SpecRow(rows[i]) && rows[i][0] == name
                && SpecTable(rows)[name] == rows[i][1]
                && forall j :: i < j < |rows| && SpecRow(rows[j]) ==> rows[j][0] != name
  {
    forall name
      ensures name in SpecTable(rows) <==> exists i :: 0 <= i < |rows| && SpecRow(rows[i]) && rows[i][0] == name
      ensures name in SpecTable(rows) ==>
                exists i :: 0 <= i < |rows| && SpecRow(rows[i]) && rows[i][0] == name
                  && SpecTable(rows)[name] == rows[i][1]
                  && forall j :: i < j < |rows| && SpecRow(rows[j]) ==> rows[j][0] != name
    {
      SpecTableEntry(rows, name);
    }
  }

  /** `SpecTableMeaning` for one name. */
  lemma {:induction false} SpecTableEntry(rows: seq<seq<string>>, name: string)
    ensures name in SpecTable(rows) <==> exists i :: 0 <= i < |rows| && SpecRow(rows[i]) && rows[i][0] == name
    ensures name in SpecTable(rows) ==>
              exists i :: 0 <= i < |rows| && SpecRow(rows[i]) && rows[i][0] == name
                && SpecTable(rows)[name] == rows[i][1]
                && forall j :: i < j < |rows| && SpecRow(rows[j]) ==> rows[j][0] != name
    decreases |rows|
  {
    if rows != [] {
      var init := rows[..|rows| - 1];
      var last := |rows| - 1;
      SpecTableEntry(init, name);
      if SpecRow(rows[last]) && rows[last][0] == name {
        assert SpecTable(rows)[name] == rows[last][1];
      } else {
        assert name in SpecTable(rows) <==> name in SpecTable(init);
        assert name in SpecTable(rows) ==> SpecTable(rows)[name] == SpecTable(init)[name];
        if exists i :: 0 <= i < |rows| && SpecRow(rows[i]) && rows[i][0] == name {
          var i :| 0 <= i < |rows| && SpecRow(rows[i]) && rows[i][0] == name;
          assert i < last;
          assert init[i] == rows[i];
        }
        if name in SpecTable(init) {
          var i :| 0 <= i < |init| && SpecRow(init[i]) && init[i][0] == name
                   && SpecTable(init)[name] == init[i][1]
                   && forall j :: i < j < |init| && SpecRow(init[j]) ==> init[j][0] != name;
          assert rows[i] == init[i];
          forall j | i < j < |rows| && SpecRow(rows[j]) ensures rows[j][0] != name {
            if j < last {
              assert rows[j] == init[j];
            }
          }
        }
      }
    }
  }

  /** The stock test as `_standard_parse` writes it: one of the two stock phrases in the lowercased text. */
  predicate StockAsWritten(text: string) {
    Contains(Lower(text), "в наявності") || Contains(Lower(text), "в наличии")
  }

  /**
   * The stock test as evidently intended: a stock phrase, but not "немає в
   * наявності" or "нет в наличии" (not in stock), which contain one. The
   * model's `StandardData` keeps the test as written; this is the corrected test.
   */
  predicate StockInStock(text: string) {
    StockAsWritten(text)
    && !Contains(Lower(text), "немає в наявності") && !Contains(Lower(text), "нет в наличии")
  }

  /** As written, the out-of-stock text "Немає в наявності" reads as available. */
  lemma OutOfStockInStockAsWritten()
    ensures StockAsWritten("Немає в наявності")
  {
    LowerOutOfStock();
    var t := "немає в наявності";
    assert t[6..] == "в наявності";
    ContainsAt(t, "в наявності", 6);
  }

  /** As written, a page whose stock label says "Немає в наявності" is read as available. */
  lemma OutOfStockPageAvailable(product: ProductPage)
    requires product.page.select(".stock-status") == Some("Немає в наявності")
    ensures "available" in StandardData(product) && StandardData(product)["available"] == Bool(true)
  {
    StandardDataLists(product);
    OutOfStockInStockAsWritten();
  }

  /** The intended test tells "В наявності" from "Немає в наявності". */
  lemma StockInStockDistinguishes()
    ensures StockInStock("В наявності")
    ensures !StockInStock("Немає в наявності")
    ensures forall text :: Contains(Lower(text), "немає в наявності") ==> !StockInStock(text)
  {
    StockPhrase();
    OutOfStockPhrase();
  }

  /** The lowered in-stock phrase holds itself and is too short to hold either out-of-stock phrase. */
  lemma StockPhrase()
    ensures Contains(Lower("В наявності"), "в наявності")
    ensures !Contains(Lower("В наявності"), "немає в наявності")
    ensures !Contains(Lower("В наявності"), "нет в наличии")
  {
    LowerInStock();
    var t := "в наявності";
    ContainsAt(t, "в наявності", 0);
    ContainsLonger(t, "немає в наявності");
    ContainsLonger(t, "нет в наличии");
  }

  /** The data `_standard_parse` returns for a page. */
  function StandardData(product: ProductPage): map<string, Value> {
    var select := product.page.select;
    var title := FirstTitle(select, TitleSelectors);
    var price := select(".autocalc-product-price");
    var stock := select(".stock-status");
    var data := Put(map[], "title", if title.Some? then Some(Str(title.value)) else None);
    var data := Put(data, "price",
                    if price.Some? && DigitPrice(price.value).Some?
                    then Some(Real(DigitPrice(price.value).value as real)) else None);
    var data := Put(data, "description",
                    if product.description.Some? then Some(Str(product.description.value)) else None);
    var data := data["images" := StrList(Gallery(product.mainImage, product.additionalImages))];
    var data := data["specifications" := StrMap(SpecTable(product.specRows))];
    Put(data, "available", if stock.Some? then Some(Bool(StockAsWritten(stock.value))) else None)
  }

  /** The keys of the standard data, told apart by their first letters. */
  lemma DataKeysDiffer()
    ensures "images"[0] == 'i' && "specifications"[0] == 's' && "title"[0] == 't'
    ensures "price"[0] == 'p' && "description"[0] == 'd' && "available"[0] == 'a'
  {
  }

  /**
   * The standard data always holds the image list and the specification table
   * (so it is never empty); it holds a title exactly when a title selector
   * finds an element, and a price exactly when the price element's text has a
   * digit, that price being the number its digits spell.
   */
  lemma StandardDataFields(product: ProductPage)
    ensures "images" in StandardData(product) && "specifications" in StandardData(product)
    ensures StandardData(product)["images"] == StrList(Gallery(product.mainImage, product.additionalImages))
    ensures StandardData(product)["specifications"] == StrMap(SpecTable(product.specRows))
    ensures "title" in StandardData(product) <==>
              exists i :: 0 <= i < |TitleSelectors| && product.page.select(TitleSelectors[i]).Some?
    ensures "price" in StandardData(product) <==>
              product.page.select(".autocalc-product-price").Some?
              && exists i :: 0 <= i < |product.page.select(".autocalc-product-price").value|
                   && IsDigit(product.page.select(".autocalc-product-price").value[i])
    ensures "price" in StandardData(product) ==>
              StandardData(product)["price"]
              == Real(DigitsValue(Digits(product.page.select(".autocalc-product-price").value)) as real)
    ensures "available" in StandardData(product) <==> product.page.select(".stock-status").Some?
    ensures "available" in StandardData(product) ==>
              StandardData(product)["available"] == Bool(StockAsWritten(product.page.select(".stock-status").value))
  {
    StandardDataLists(product);
    StandardDataTitle(product);
    StandardDataPrice(product);
  }

  /** The image list, the specification table and the stock entry of the standard data. */
  lemma StandardDataLists(product: ProductPage)
    ensures "images" in StandardData(product) && "specifications" in StandardData(product)
    ensures StandardData(product)["images"] == StrList(Gallery(product.mainImage, product.additionalImages))
    ensures StandardData(product)["specifications"] == StrMap(SpecTable(product.specRows))
    ensures "available" in StandardData(product) <==> product.page.select(".stock-status").Some?
    ensures "available" in StandardData(product) ==>
              StandardData(product)["available"] == Bool(StockAsWritten(product.page.select(".stock-status").value))
  {
    DataKeysDiffer();
  }

  /** The title entry of the standard data. */
  lemma StandardDataTitle(product: ProductPage)
    ensures "title" in StandardData(product) <==>
              exists i :: 0 <= i < |TitleSelectors| && product.page.select(TitleSelectors[i]).Some?
  {
    DataKeysDiffer();
    FirstTitleIsFirst(product.page.select, TitleSelectors);
  }

  /** The price entry of the standard data. */
  lemma StandardDataPrice(product: ProductPage)
    ensures "price" in StandardData(product) <==>
              product.page.select(".autocalc-product-price").Some?
              && exists i :: 0 <= i < |product.page.select(".autocalc-product-price").value|
                   && IsDigit(product.page.select(".autocalc-product-price").value[i])
    ensures "price" in StandardData(product) ==>
              StandardData(product)["price"]
              == Real(DigitsValue(Digits(product.page.select(".autocalc-product-price").value)) as real)
  {
    DataKeysDiffer();
  }

  /** Python truthiness of a value. */
  predicate Truthy(v: Value) {
    match v
    case Int(i) => i != 0
    case Real(r) => r != 0.0
    case Bool(b) => b
    case Str(s) => s != ""
    case StrList(items) => items != []
    case StrMap(entries) => entries != map[]
    case Null => false
  }

  /** `any(data.values())`. */
  predicate AnyTruthy(data: map<string, Value>) {
    exists k :: k in data && Truthy(data[k])
  }

  /** The standard data counts as a success exactly when it found an image, a specification, a non-empty title or description, a non-zero price, or stock. */
  lemma StandardSuccessIff(product: ProductPage)
    ensures AnyTruthy(StandardData(product)) <==>
              Gallery(product.mainImage, product.additionalImages) != []
              || SpecTable(product.specRows) != map[]
              || (exists k :: k in StandardData(product) && k in ["title", "price", "description", "available"]
                    && Truthy(StandardData(product)[k]))
  {
    var data := StandardData(product);
    StandardDataFields(product);
    DataKeysDiffer();
    assert forall k :: k in data ==> k in ["images", "specifications", "title", "price", "description", "available"];
  }

  // ---------------------------------------------------------------------------
  // The parser
  // ---------------------------------------------------------------------------

  class LugiParser {
    /** The self-learning store the parser falls back to and teaches. */
    var smart: SmartParser

    constructor (stored: PatternFile)
      ensures fresh(smart)
      ensures smart.file == stored
      ensures smart.patterns == (if stored.Stored? then stored.contents else DefaultPatterns())
    {
      smart := new SmartParser(stored);
    }

    /** The links of the first `limit` cards of a search page (`search_products`, after the page is loaded). */
    method SearchProducts(cards: seq<Card>, limit: int) returns (urls: seq<string>)
      ensures urls == Links(Slice(cards, limit))
      ensures limit >= 0 ==> |urls| <= limit
      ensures forall u :: u in urls ==> StartsWith(u, "http")
    {
      var chosen := Slice(cards, limit);
      urls := [];
      for i := 0 to |chosen|
        invariant urls == Links(chosen[..i])
      {
        assert chosen[..i + 1][..i] == chosen[..i];
        var link: Option<string> := None;
        if HasValue(chosen[i].imageHref) {
          link := chosen[i].imageHref;
        }
        if link.None? {
          if HasValue(chosen[i].nameHref) {
            link := chosen[i].nameHref;
          }
        }
        if link.Some? && link.value != "" {
          var url := link.value;
          if !StartsWith(url, "http") {
            url := BaseUrl + url;
          }
          urls := urls + [url];
        }
      }
      assert chosen[..|chosen|] == chosen;
    }

    /** The title loop of `_standard_parse`. */
    method FindTitle(select: Locator -> Option<string>) returns (title: Option<string>)
      ensures title == FirstTitle(select, TitleSelectors)
    {
      var i := 0;
      while i < |TitleSelectors|
        invariant 0 <= i <= |TitleSelectors|
        invariant FirstTitle(select, TitleSelectors) == FirstTitle(select, TitleSelectors[i..])
      {
        assert TitleSelectors[i..][1..] == TitleSelectors[i + 1..];
        var element := select(TitleSelectors[i]);
        if element.Some? {
          return element;
        }
        i := i + 1;
      }
      return None;
    }

    /** The attribute loop for one image: the first preferred attribute with a value, made absolute. */
    method PickSource(attrs: map<string, string>) returns (src: Option<string>)
      ensures src == ImageSource(attrs)
    {
      var i := 0;
      while i < |ImageAttrs|
        invariant 0 <= i <= |ImageAttrs|
        invariant FirstSource(attrs, ImageAttrs) == FirstSource(attrs, ImageAttrs[i..])
      {
        assert ImageAttrs[i..][1..] == ImageAttrs[i + 1..];
        var name := ImageAttrs[i];
        if name in attrs && attrs[name] != "" {
          var url := attrs[name];
          if !StartsWith(url, "http") {
            url := BaseUrl + url;
          }
          return Some(url);
        }
        i := i + 1;
      }
      return None;
    }

    /** The image loops of `_standard_parse`. */
    method CollectImages(main: Option<map<string, string>>, additional: seq<map<string, string>>)
      returns (images: seq<string>)
      ensures images == Gallery(main, additional)
    {
      images := [];
      if main.Some? {
        var src := PickSource(main.value);
        if src.Some? {
          images := images + [src.value];
        }
      }
      assert images == Gallery(main, additional[..0]);
      for k := 0 to |additional|
        invariant images == Gallery(main, additional[..k])
      {
        assert additional[..k + 1][..k] == additional[..k];
        var src := PickSource(additional[k]);
        if src.Some? {
          if src.value !in images {
            images := images + [src.value];
          }
        }
      }
      assert additional[..|additional|] == additional;
    }

    /** The specification loop of `_standard_parse`. */
    method CollectSpecs(rows: seq<seq<string>>) returns (specs: map<string, string>)
      ensures specs == SpecTable(rows)
    {
      specs := map[];
      for i := 0 to |rows|
        invariant specs == SpecTable(rows[..i])
      {
        assert rows[..i + 1][..i] == rows[..i];
        var cells := rows[i];
        if |cells| >= 2 {
          var name := cells[0];
          var value := cells[1];
          if name != "" && value != "" {
            specs := specs[name := value];
          }
        }
      }
      assert rows[..|rows|] == rows;
    }

    /** `_standard_parse`. */
    method StandardParse(product: ProductPage) returns (data: map<string, Value>)
      ensures data == StandardData(product)
    {
      var select := product.page.select;
      data := map[];
      var title := FindTitle(select);
      if title.Some? {
        data := data["title" := Str(title.value)];
      }
      var priceElement := select(".autocalc-product-price");
      if priceElement.Some? {
        var price := DigitPrice(priceElement.value);
        if price.Some? {
          data := data["price" := Real(price.value as real)];
        }
      }
      if product.description.Some? {
        data := data["description" := Str(product.description.value)];
      }
      var images := CollectImages(product.mainImage, product.additionalImages);
      data := data["images" := StrList(images)];
      var specs := CollectSpecs(product.specRows);
      data := data["specifications" := StrMap(specs)];
      var stock := select(".stock-status");
      if stock.Some? {
        data := data["available" := Bool(StockAsWritten(stock.value))];
      }
    }

    /**
     * Lines 111-121 of `parse_product_page`: when the standard reading finds
     * nothing truthy, the store's reading replaces it if it is non-empty and
     * valid; otherwise the store learns from the page and the standard
     * reading is kept.
     */
    method ParseProductData(product: ProductPage, rec: Recognizers) returns (data: map<string, Value>)
      requires Complete(smart.patterns)
      modifies smart
      ensures Complete(smart.patterns)
      ensures AnyTruthy(StandardData(product)) ==> data == StandardData(product)
      ensures AnyTruthy(StandardData(product)) ==>
                (forall f: Field :: NoDuplicates(smart.patterns[f]))
                && (forall f: Field :: Elems(smart.patterns[f])
                      == Elems(old(smart.patterns)[f]) + Elems(Discovered(product.page, rec, old(smart.patterns))[f]))
                && smart.file == Stored(smart.patterns)
      ensures !AnyTruthy(StandardData(product)) ==>
                smart.patterns == old(smart.patterns) && smart.file == old(smart.file)
                && data == (var found := Extracted(product.page, rec, old(smart.patterns));
                            if found != map[] && ValidateData(found) then found else StandardData(product))
    {
      data := StandardParse(product);
      if data == map[] || !AnyTruthy(data) {
        var smartData := smart.ExtractData(product.page, rec);
        if smartData != map[] && ValidateData(smartData) {
          data := smartData;
        }
      } else {
        smart.Learn(product.page, rec, data);
      }
    }
  }
}
