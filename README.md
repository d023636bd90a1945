# Product-page parsers: a Dafny model

This project models the core of a small Python scraper for Ukrainian online
stores. It covers five parts:

- **The self-learning locator store `SmartParser`** (module `Smart`).
  - It keeps, for five fields (price, title, model, brand, availability), a list of CSS locators.
  - It proposes new locators from a page's elements (`discover_patterns`).
  - It merges the proposals into the store, removes repeats and saves (`learn`).
  - It reads a page through the first stored locator that gives a usable value (`extract_data`).
  - It checks a data dictionary against one rule per key (`validate_data`).
- **The LUGI store parser** (module `Lugi`).
  - It picks and absolutises the product links of a search page (`search_products`).
  - It reads a product page through fixed selectors (`_standard_parse`).
  - It decides whether the self-learning store's reading replaces the standard one, or whether the store learns from the page.
- **Keyword categories** (module `ProductCategories`): `match_category` over the Russian/English and the Ukrainian keyword tables.
- **Feature extraction** (module `Features`): `extract_features`, assembling feature records from regular-expression matches, with unit normalisation.
- **Text helpers of the base parser** (module `BaseParser`): `clean_text`, and the number-and-currency part of `extract_price`.

`Strings` and `Wrappers` hold shared helpers: lowercasing, substring search, digit strings, joins, and `Option`.

Pages are abstract:

- An element is its chain of `(tag name, classes, id)` from itself up to the document root.
- A document is its text nodes, its elements, and a function from a locator to the stripped text of the first element it selects.
- Each regular expression that the parsers apply to page text is a parameter: a recognizer, or a function giving the matches in text order.
- The price pattern of `extract_price` is the exception: it is modelled concretely, character by character.

The stateful code follows the source's own form.

- `SmartParser` and `LugiParser` are classes.
- The loops of `get_selector_path`, `discover_patterns`, `extract_data`, `_standard_parse`, `search_products` and `extract_features` are methods.
- Each such loop is proved equal to a specification function, and the lemmas state the properties of those functions.
- `learn` is a method too. Its two loops over the five fields become whole-store updates by the functions `Extend` and `DedupAll`, and its contract states each field's new locators as a set without repeats.

In these places the model follows the code's behaviour:

- **Title discovery.** `discover_patterns` looks for titles with `find_all(['h1', 'h2', '.product-name'])`. These are tag names, so `.product-name` never matches an element (`Smart.TitleNames`).
- **Zero prices.** Both price readings keep any digit string, so a text "0 грн" yields the price 0 (`Smart.ExtractedPrice` states only `>= 0`).
- **Locators from the root.** `get_selector_path` climbs up to BeautifulSoup's root object, whose name "[document]" is truthy, so every locator it builds for an element of a parsed page starts with "[document]" (`Smart.SelectorPathFromRoot`).
- **Availability and stock tests.** `extract_data` and `_standard_parse` use the substring tests exactly as written, so the out-of-stock phrase reads as available (see "## Findings").
- **The currency group.** `extract_price` uses the currency group exactly as written, with its bare `$` (see "## Findings").
- **Model rule.** The `$` of the model rule `^[A-Za-z0-9-]+$` also matches before a final newline (`Smart.ModelShaped`).
- **Bool prices.** A Python `bool` is an `int`, so `True` passes the price rule (`Smart.ValidateQuirks`).

## Model

| member | source | states |
|---|---|---|
| BaseParser.CleanText | parsers/base_parser.py:176-177 | `None` and the empty string clean to the empty string |
| BaseParser.CleanTextJoinsWords | parsers/base_parser.py:176-178 | cleaning a text gives its whitespace-separated words joined by single spaces, exactly `' '.join(text.split())` |
| BaseParser.SplitWordsShape | parsers/base_parser.py:178 | the words of a text are non-empty and hold no whitespace |
| BaseParser.CleanTextTidy | parsers/base_parser.py:178 | the cleaned text has no whitespace at either end, and each internal whitespace run is exactly one space |
| BaseParser.CleanTextKeepsWords | parsers/base_parser.py:178 | cleaning keeps the non-whitespace characters in their order; the result is empty exactly when the input has none |
| BaseParser.CleanTextIdempotent | parsers/base_parser.py:178 | cleaning a cleaned text changes nothing |
| BaseParser.FirstPricedRunIsFirst | parsers/base_parser.py:195 | the scan finds the start of the first run of number characters followed by a currency alternative, or nothing exactly when no run is |
| BaseParser.PriceSearchMeaning | parsers/base_parser.py:195 | the search captures a whole maximal run of number characters and the first alternative matching where it ends; no earlier run is followed by an alternative; there is no match exactly when no run is |
| BaseParser.CleanNumberShape | parsers/base_parser.py:198-199 | the cleaned number holds only digits and points, with one character per digit, point or comma of the group; it keeps the group's digits in order |
| BaseParser.CleanNumberAppend | parsers/base_parser.py:198-199 | cleaning works character by character: it distributes over concatenation |
| BaseParser.CleanNumberChar | parsers/base_parser.py:198-199 | a digit or point is kept, a comma becomes a point in its place, and every other character is dropped |
| BaseParser.NormalizeCurrency | parsers/base_parser.py:207-218 | ₴ and грн map to UAH, ₽ and руб to RUB, $ to USD and € to EUR; every other currency is kept as it is |
| BaseParser.ExtractPrice | parsers/base_parser.py:191-192 | an empty text gives no price |
| BaseParser.ExtractPriceMeaning | parsers/base_parser.py:191-220 | there is no price when no run of number characters is followed by a currency alternative; a price is `float` of the cleaned first such run, with the table's code for the first alternative matching after it |
| BaseParser.ExtractPriceCurrencyCode | parsers/base_parser.py:195-218 | a price's currency is UAH, RUB, USD, EUR or the empty string, and it is empty exactly when the captured number runs to the end of the text |
| BaseParser.WrittenNeverCapturesDollar | parsers/base_parser.py:195 | as written, the currency group never captures "$" |
| BaseParser.WrittenDollarCounterexample | parsers/base_parser.py:195 | as written, "100$" gives no match and no price |
| BaseParser.WrittenBareNumber | parsers/base_parser.py:195-218 | as written, a bare "1 200" matches with the empty string as its currency, and gives the price 1200 with currency "" |
| BaseParser.ExtractPriceIntended | parsers/base_parser.py:191-192 | with the dollar sign escaped, an empty text still gives no price |
| BaseParser.DollarMatched | parsers/base_parser.py:195 | with the dollar sign escaped, "100$" matches the number "100" and the currency "$" |
| BaseParser.DollarPriceFound | parsers/base_parser.py:195-218 | with the dollar sign escaped, "100$" gives a USD price |
| ProductCategories.AnyWordInIff | ai/product_categories.py:73 | a row matches exactly when one of its words occurs in the text |
| ProductCategories.FirstCategoryIsFirst | ai/product_categories.py:72-76 | the search returns the category of the first matching row, or UNKNOWN exactly when no row matches |
| ProductCategories.TablesWellFormed | ai/product_categories.py:14-53 | no row of either table stands for UNKNOWN or holds an empty keyword |
| ProductCategories.MatchUnknownIff | ai/product_categories.py:66-76 | UNKNOWN exactly when no keyword of the selected table occurs in the lowercased text |
| ProductCategories.MatchEarliest | ai/product_categories.py:14-74 | a known answer is the earliest row in table order with a keyword in the text |
| ProductCategories.LaptopNeedsEnglishTable | ai/product_categories.py:37-69 | "laptop" with language "uk" is UNKNOWN, since only "uk" selects the Ukrainian table |
| ProductCategories.MatchIgnoresCase | ai/product_categories.py:66 | the lowercased text gets the same answer as the text itself |
| ProductCategories.MatchEmpty | ai/product_categories.py:66-76 | empty text is UNKNOWN |
| Smart.DefaultPatterns | parsers/smart_parser.py:24-30 | the fallback store has all five fields, each with no locator |
| Smart.SmartParser.constructor | parsers/smart_parser.py:12-30 | the store is the stored file's contents, or the fallback when the file is missing or unreadable |
| Smart.SelectorPathEmptyIff | parsers/smart_parser.py:43-47 | the locator is empty exactly when the element is missing or has no tag name |
| Smart.SelectorPathOfChild | parsers/smart_parser.py:46-62 | the locator of a named element is its parent's locator, " > ", then its own descriptor (name, "." and the joined classes, "#" and the id); an element under an unnamed parent gets only its own descriptor |
| Smart.SelectorPathFromRoot | parsers/smart_parser.py:47-62 | the loop climbs to the root object named "[document]", so the locator of an element of a parsed page starts with "[document]" |
| Smart.SmartParser.GetSelectorPath | parsers/smart_parser.py:41-62 | the loop builds the descriptors of the named ancestors-or-self, outermost first, joined by " > " |
| Smart.ProposalsMeaning | parsers/smart_parser.py:79-82 | a locator is proposed exactly when it is non-empty, not yet stored for the field, and the locator of a candidate |
| Smart.Discovered | parsers/smart_parser.py:67-73 | discovery returns all five fields |
| Smart.DiscoveredMeaning | parsers/smart_parser.py:64-118 | for every field, the proposals are exactly the non-empty candidate locators the store lacks |
| Smart.SmartParser.Propose | parsers/smart_parser.py:79-82 | the per-field loop yields the proposals |
| Smart.SmartParser.DiscoverPatterns | parsers/smart_parser.py:64-118 | discovery yields the specified proposals and leaves the store as it is |
| Smart.DigitPrice | parsers/smart_parser.py:129-132 | there is a price exactly when the text has a digit, and it is the number the digits alone spell |
| Smart.FirstReadingIsFirst | parsers/smart_parser.py:126-170 | a field's value is the reading of the first locator, in store order, that selects an element with a usable text; there is none when no locator is usable |
| Smart.ExtractedFields | parsers/smart_parser.py:120-172 | the data holds a field exactly when some stored locator is usable; it then holds the first one's reading and no other key |
| Smart.ExtractedPrice | parsers/smart_parser.py:126-133 | the price comes from the first locator whose text has a digit, is the number those digits spell, and is never negative |
| Smart.SmartParser.FirstValue | parsers/smart_parser.py:126-133 | the per-field loop with `break` yields the first usable reading |
| Smart.SmartParser.ExtractData | parsers/smart_parser.py:120-172 | the data is the specified reading, with availability by the substring test as written, and the store is left as it is |
| Smart.OutOfStockReadAsAvailable | parsers/smart_parser.py:164-170 | as written, "Немає в наявності" (out of stock) passes the availability test and is read as available |
| Smart.InStockDistinguishes | parsers/smart_parser.py:164-170 | the corrected test accepts "В наявності" and rejects every text containing "немає в наявності" |
| Smart.AllRulesHoldIff | parsers/smart_parser.py:201-204 | the `all(...)` loop holds exactly when every listed key present in the data meets its rule |
| Smart.ValidateDataIff | parsers/smart_parser.py:191-204 | valid exactly when every present key among price, title, model, brand and available meets its rule |
| Smart.ValidateEmpty | parsers/smart_parser.py:201-204 | the empty dictionary is valid |
| Smart.ValidateIgnoresOtherKeys | parsers/smart_parser.py:201-204 | a key without a rule does not change the verdict |
| Smart.ValidateShortTitle | parsers/smart_parser.py:195 | a title of two characters is invalid, even beside a good price |
| Smart.ValidateQuirks | parsers/smart_parser.py:194-196 | `True` is a valid price, a model may end in one newline, and a model with a space is invalid |
| Smart.Dedup | parsers/smart_parser.py:184 | `list(set(xs))` has no repeats and the same elements as `xs` |
| Smart.SmartParser.Learn | parsers/smart_parser.py:174-189 | afterwards no field has repeats; each field holds exactly its old locators plus the proposals; the file holds the new store; the caller's data plays no part |
| Smart.LearnIdempotent | parsers/smart_parser.py:64-184 | learning the same page a second time proposes nothing and leaves every field's set of locators unchanged |
| Lugi.Absolute | parsers/store_specific/lugi_parser.py:72-73 | the result starts with "http": a link that already does is unchanged, others get the site address in front |
| Lugi.CardLink | parsers/store_specific/lugi_parser.py:57-70 | a card has a link exactly when its image or name link has an href, and the image link is preferred |
| Lugi.Slice | parsers/store_specific/lugi_parser.py:55 | `cards[:limit]` is a prefix of the cards, of length `limit` capped by the number of cards (a negative limit counts from the end) |
| Lugi.Links | parsers/store_specific/lugi_parser.py:55-77 | at most one URL per card, each starting with "http" |
| Lugi.LinksMeaning | parsers/store_specific/lugi_parser.py:57-77 | a URL is in the list exactly when it is the absolutised link of a card that has one; cards without a link are skipped |
| Lugi.LugiParser.SearchProducts | parsers/store_specific/lugi_parser.py:55-77 | the loop yields the links of the first `limit` cards: at most `limit` URLs, all absolute |
| Lugi.FirstTitleIsFirst | parsers/store_specific/lugi_parser.py:158-171 | the title is the text of the first selector, in list order, that finds an element; there is none when no selector finds one |
| Lugi.LugiParser.FindTitle | parsers/store_specific/lugi_parser.py:167-171 | the title loop with `break` yields the first selector's text |
| Lugi.FirstSource | parsers/store_specific/lugi_parser.py:192-198 | a chosen image source starts with "http" |
| Lugi.FirstSourceIsFirst | parsers/store_specific/lugi_parser.py:192-198 | the source is the absolutised value of the first attribute, in list order, that is present and non-empty; there is none exactly when no attribute is |
| Lugi.ImageSourcePreference | parsers/store_specific/lugi_parser.py:192-198 | a non-empty `data-additional-hover` wins; otherwise a non-empty `src`; otherwise the image has no source |
| Lugi.LugiParser.PickSource | parsers/store_specific/lugi_parser.py:202-209 | the attribute loop yields the image's source |
| Lugi.GalleryMeaning | parsers/store_specific/lugi_parser.py:188-211 | the image list has no repeats and only absolute links; the main image comes first; it holds exactly the main and additional sources |
| Lugi.LugiParser.CollectImages | parsers/store_specific/lugi_parser.py:188-211 | the image loops yield that list |
| Lugi.SpecTableMeaning | parsers/store_specific/lugi_parser.py:213-224 | a name is in the table exactly when a row with two or more cells and a non-empty name and value has it; its value is the last such row's |
| Lugi.LugiParser.CollectSpecs | parsers/store_specific/lugi_parser.py:213-224 | the row loop yields that table |
| Lugi.OutOfStockInStockAsWritten | parsers/store_specific/lugi_parser.py:230 | as written, "Немає в наявності" (out of stock) reads as available |
| Lugi.StockInStockDistinguishes | parsers/store_specific/lugi_parser.py:226-230 | the corrected test accepts "В наявності" and rejects every text containing "немає в наявності" |
| Lugi.StandardDataFields | parsers/store_specific/lugi_parser.py:152-232 | the data always holds the gallery and the specification table; a title exactly when a title selector finds an element; a price exactly when the price text has a digit, valued by those digits; availability exactly when the stock element exists, valued by the substring test as written |
| Lugi.OutOfStockPageAvailable | parsers/store_specific/lugi_parser.py:226-230 | as written, a page whose stock element says "Немає в наявності" gets `available` true |
| Lugi.LugiParser.StandardParse | parsers/store_specific/lugi_parser.py:152-232 | the standard reading builds exactly that data |
| Lugi.StandardSuccessIff | parsers/store_specific/lugi_parser.py:115 | `any(data.values())` fails exactly when there is no image, no specification row, and no truthy title, price, description or availability |
| Lugi.LugiParser.constructor | parsers/store_specific/lugi_parser.py:19-24 | a fresh self-learning store, loaded from the pattern file |
| Lugi.LugiParser.ParseProductData | parsers/store_specific/lugi_parser.py:111-121 | a truthy standard reading (as written) is kept and the store learns from the page; otherwise the store is untouched, and its reading replaces the standard one exactly when that reading is non-empty and valid |
| Features.NormalizeExamples | ai/feature_extractor.py:46-81 | ГБ becomes GB, мАч mAh, дюйм inch; "GB", "gb" and "гб" stay as captured; no unit stays none |
| Features.PixelsNotNormalized | ai/feature_extractor.py:74-81 | the unit "pixels" is not rewritten |
| Features.TableShape | ai/feature_extractor.py:17-43 | six feature types in order; every pattern captures at least one group, and the resolution patterns capture two |
| Features.MakeFeature | ai/feature_extractor.py:72-87 | a resolution has value "g1xg2" and unit "pixels"; other features take group 1 as value and the normalised group 2 as unit, or no unit for a one-group pattern |
| Features.MatchFeatures | ai/feature_extractor.py:71-87 | one feature per match |
| Features.FeaturesMeaning | ai/feature_extractor.py:55-89 | every feature comes from a match of some pattern, and every match gives its feature |
| Features.NoMatchNoFeature | ai/feature_extractor.py:65-89 | the result is empty exactly when no pattern matches |
| Features.FeatureShapes | ai/feature_extractor.py:17-87 | every feature is named after one of the six types; a resolution has unit "pixels" and value "g1xg2" of a resolution match |
| Features.OneGroupNoUnit | ai/feature_extractor.py:76-77 | a match of a one-group pattern gives a feature with no unit |
| Features.MatchFeaturesMeaning | ai/feature_extractor.py:71-87 | the features of a match list are exactly the features of its matches |
| Features.MatchesFit | ai/feature_extractor.py:17-77 | every match of a table pattern has the groups its type reads |
| Features.PatternFeaturesMeaning | ai/feature_extractor.py:69-87 | a feature of the first patterns of a type comes from a match of one of them, and each such match gives its feature |
| Features.TypeFeaturesMeaning | ai/feature_extractor.py:68-87 | a feature of the first types comes from a match of one of their patterns, and each such match gives its feature |
| Features.BuildFeature | ai/feature_extractor.py:72-87 | the innermost loop body builds that match's feature |
| Features.FeaturesOfMatches | ai/feature_extractor.py:71-87 | the match loop yields one feature per match, in match order |
| Features.FeaturesOfType | ai/feature_extractor.py:69-87 | the pattern loop yields the features of the type's patterns in pattern order |
| Features.ExtractFeatures | ai/feature_extractor.py:55-89 | the nested loops yield the features in type order, then pattern order, then match order |

## Left out

- **Browsers and HTTP.** Playwright, page loading, waits, time-outs and browser closing are left out. So is the `try`/`except` that turns any failure into `[]` or `None` (lugi_parser.py:33-85, 91-150).
- **Product record assembly.** The assembly of `ProductInfo` after the data is chosen (lugi_parser.py:125-146) is left out. This includes the buy-button availability and the string-price conversion. `models/product_info.py` is not part of this model.
- **HTML parsing and CSS selection.** BeautifulSoup parsing and its selector engine are abstract: the document's `select` function, its elements and its text nodes.
- **Script and style removal.** The removal of scripts and styles from the description (lugi_parser.py:184-185) is folded into the given description text.
- **Regular-expression engines.** The engines of `discover_patterns`, `extract_data` and `extract_features` are parameters (`Smart.Recognizers`, the `finditer` function of `Features`). The model assumes discovery finds a text exactly when extraction captures from it.
- **Case-insensitive matching.** The model does not derive the `re.IGNORECASE` matches themselves.
- **Float conversion.**
  - Python's `float` is a parameter of `BaseParser.ExtractPrice`, with `None` standing for `ValueError`.
  - The digit-only prices are the natural number their digits spell, as a real.
  - NaN, infinities and rounding are not modelled.
- **The pattern file.**
  - JSON reading and writing, directory creation and a failing save are left out. A load is `Smart.PatternFile`, and a save sets `file` to the store.
  - A stored file's contents are taken as field-keyed lists of strings.
  - A file missing one of the five keys would make the operations fail with `KeyError`. The operations therefore require `Smart.Complete`.
- **Per-field loops of `learn`.** `Smart.SmartParser.Learn` updates all five fields at once through `Extend` and `DedupAll` rather than field by field; the fields are independent, so only the order of the updates is lost.
- **Dedup order.** `Smart.SmartParser.Learn` does not state the order of the lists after `list(set(...))`, because Python's set order depends on hashing. It states set contents and the absence of repeats. `Smart.Dedup` keeps first occurrences.
- **Determinism.** That the same element chain always gives the same locator holds because `Smart.SelectorPath` is a function; no separate lemma states it.
- **Digits and case.**
  - Python's `str.isdigit` accepts every Unicode digit; the model accepts ASCII digits only.
  - `lower()` is modelled for Latin and Cyrillic letters only.
- **The time stamp and confidence.** The time stamp of `ProductPrice` is not modelled. The confidence of each feature is fixed at its default 1.0.
- **Logging.** All logging is left out.
- **Other code.**
  - The rozetka, aliexpress and amazon parsers are left out.
  - `ai/classifier.py` is a machine-learning pipeline and is left out.
  - The example scripts, `main.py` and `setup.py` are left out.
  - The browser helpers of the base parser are left out.

## Findings

| source | as written | input that shows it | evidently intended | confidence | as-written member | corrected member |
|---|---|---|---|---|---|---|
| parsers/base_parser.py:195 | the currency group holds a bare `$`, which is an end-of-text anchor, so "$" is never captured and the `'$': 'USD'` entry at line 212 is dead | "100$" gives no price; "1 200" gives currency "" | an escaped `\$`, so that "100$" is 100 USD | high; not executed | BaseParser.WrittenDollarCounterexample | BaseParser.DollarPriceFound |
| parsers/smart_parser.py:169 | availability is `"наявності" in text`, and discovery also collects the out-of-stock phrase "Немає в наявності" (line 111) | "Немає в наявності" reads as available | out-of-stock text reads as not available | medium; not executed | Smart.OutOfStockReadAsAvailable | Smart.InStockDistinguishes |
| parsers/store_specific/lugi_parser.py:230 | in stock is `"в наявності" in text`, which "немає в наявності" contains | "Немає в наявності" reads as available | out-of-stock text reads as not available | medium; not executed | Lugi.OutOfStockInStockAsWritten | Lugi.StockInStockDistinguishes |

The operations model the code as written:

- `BaseParser.ExtractPrice` searches with the group as written, `BaseParser.WrittenCurrencies`.
- `Smart.Reading` uses `Smart.AvailabilityAsWritten`.
- `Lugi.StandardData` uses `Lugi.StockAsWritten`.

The corrected tests are separate definitions with their intended properties proved: `BaseParser.ExtractPriceIntended` (over `BaseParser.Currencies`), `Smart.InStock` and `Lugi.StockInStock`.
