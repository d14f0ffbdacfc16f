/**
 * The scraper object. Its state is the list of selected fields and the debug
 * flag, both set by the configuration dialogue and read by everything else.
 * The HTTP session, the headers and the base URL are not modelled: the pages
 * come from an oracle `fetch`, and timestamps from `clock(page)`.
 */
module Scraper {
  import opened Wrappers
  import opened Assoc
  import opened Text
  import opened Seqs
  import opened Fields
  import opened Preferences
  import opened Listing
  import opened Page
  import opened Query
  import opened Pagination
  import opened PostProcess

  class EbayScraper {
    var selectedFields: seq<FieldId>
    var debugMode: bool

    /** A new scraper selects no field and has debug mode off. */
    constructor()
      ensures selectedFields == [] && !debugMode
    {
      selectedFields := [];
      debugMode := false;
    }

    /**
     * The configuration dialogue. The field menu is asked until an answer
     * selects something; each rejected answer stores the empty selection, so
     * when the answers run out after at least one of them the selection is
     * empty. The selection is stored before the price bounds are read, so a
     * bound that does not parse leaves it in place. Debug mode is set last,
     * only when the dialogue gets that far.
     */
    method GetUserPreferences(answers: Answers, parseFloat: string -> Option<real>)
      returns (r: Result<Config, PreferenceError>)
      modifies this
      ensures r == Configure(answers, parseFloat)
      ensures selectedFields ==
        if FirstValidSelection(answers.fieldChoices).Some? then FirstValidSelection(answers.fieldChoices).value
        else if answers.fieldChoices == [] then old(selectedFields)
        else []
      ensures debugMode == if r.Success? then DebugAnswer(answers) else old(debugMode)
    {
      var selected, _ := PromptFields(answers.fieldChoices);
      if selected.None? {
        if answers.fieldChoices != [] {
          selectedFields := [];
        }
        return Failure(NoValidFieldSelection);
      }
      selectedFields := selected.value;
      var query := Strip(answers.query);
      var minText := Strip(answers.minPrice);
      var maxText := Strip(answers.maxPrice);
      var minPrice := ParsePriceBound(minText, parseFloat);
      if minPrice.Failure? {
        return Failure(BadPrice(minPrice.error));
      }
      var maxPrice := ParsePriceBound(maxText, parseFloat);
      if maxPrice.Failure? {
        return Failure(BadPrice(maxPrice.error));
      }
      var condition := ConditionChoice(Strip(answers.condition));
      var sortBy := SortChoice(Strip(answers.sort));
      var maxPages := ParseMaxPages(Strip(answers.pages));
      var exportFormat := ExportChoice(Strip(answers.exportChoice));
      debugMode := Lower(Strip(answers.debug)) == "y";
      r := Success(Config(query, minPrice.value, maxPrice.value, condition, sortBy, maxPages, exportFormat));
    }

    /**
     * The value stored for a selected field other than the title: the text of
     * the first element its selectors find, the link's href, the image's src
     * or data-src, or the field's sentinel when there is none.
     */
    method FieldText(item: ListingNode, f: FieldId) returns (value: string)
      requires f != Title
      ensures value == FieldValue(item, f)
    {
      match f {
        case Title =>
          assert false;
        case Price =>
          value := if item.priceSpan.Some? then item.priceSpan.value else NotAvailable;
        case Condition =>
          var conditionElem := FirstFound([item.secondaryInfo, item.conditionWordSpan]);
          value := if conditionElem.Some? then conditionElem.value else NotAvailable;
        case Shipping =>
          var shippingElem := FirstFound([item.shippingSpan, item.logisticsSpan]);
          value := if shippingElem.Some? then shippingElem.value else NotAvailable;
        case Url =>
          value := if item.link.Some? && item.link.value.href.Some? then item.link.value.href.value else NotAvailable;
        case Location =>
          var locationElem := FirstFound([item.locationSpan, item.itemLocationSpan]);
          value := if locationElem.Some? then locationElem.value else NotAvailable;
        case ImageUrl =>
          value := NotAvailable;
          if item.image.Some? {
            var img := item.image.value;
            value := if img.src.Some? then img.src.value else if img.dataSrc.Some? then img.dataSrc.value else NotAvailable;
            assert FirstFound([img.src, img.dataSrc]) == if img.src.Some? then img.src else img.dataSrc;
          }
        case SoldCount =>
          value := if item.soldSpan.Some? then item.soldSpan.value else "0";
      }
    }

    /**
     * The record for one listing node, built field by field in extraction
     * order; None for a missing or placeholder title, or when nothing but
     * the timestamp would be stored.
     */
    method ExtractProductData(item: ListingNode, now: string) returns (product: Option<Record>)
      ensures product == Extract(item, selectedFields, now)
    {
      var fields := selectedFields;
      var record: Record := [];
      if Title in fields {
        var titleElem := TitleElement(item);
        if titleElem.None? {
          return None;
        }
        var title := titleElem.value;
        if title in RejectedTitles {
          return None;
        }
        record := record + [(Key(Title), title)];
      }
      assert ExtractionOrder[..0] == [];
      EntriesStep(item, fields, 0);
      record := AddOtherFields(record, item);
      record := record + [(TimestampKey, now)];
      product := if |record| > 1 then Some(record) else None;
    }

    /** The field blocks after the title, in extraction order. */
    method AddOtherFields(record: Record, item: ListingNode) returns (r: Record)
      requires record == Entries(item, selectedFields, ExtractionOrder[..1])
      ensures r == Entries(item, selectedFields, ExtractionOrder)
    {
      r := AddField(record, item, 1);
      r := AddField(r, item, 2);
      r := AddField(r, item, 3);
      r := AddField(r, item, 4);
      r := AddField(r, item, 5);
      r := AddField(r, item, 6);
      r := AddField(r, item, 7);
      assert ExtractionOrder[..8] == ExtractionOrder;
    }

    /** The block of field `ExtractionOrder[k]`: when the field is selected, its entry is appended. */
    method AddField(record: Record, item: ListingNode, k: nat) returns (r: Record)
      requires 0 < k < |ExtractionOrder|
      requires record == Entries(item, selectedFields, ExtractionOrder[..k])
      ensures r == Entries(item, selectedFields, ExtractionOrder[..k + 1])
    {
      var f := ExtractionOrder[k];
      EntriesStep(item, selectedFields, k);
      r := record;
      if f in selectedFields {
        var value := FieldText(item, f);
        r := r + [(Key(f), value)];
      }
    }

    /**
     * One results page: the primary listing nodes, or the alternative ones
     * when there are none, each extracted in turn and kept when accepted. A
     * failed request or parse gives no records.
     */
    method ScrapePage(url: PageAddress, fetch: PageAddress -> FetchOutcome, now: string) returns (products: seq<Record>)
      ensures products == PageProducts(fetch(url), selectedFields, now)
    {
      var outcome := fetch(url);
      if outcome.Failed? {
        return [];
      }
      var items := outcome.itemNodes;
      if items == [] {
        items := outcome.wrapperNodes;
      }
      products := [];
      for idx := 0 to |items|
        invariant products == Accepted(items[..idx], selectedFields, now)
      {
        var product := ExtractProductData(items[idx], now);
        assert items[..idx + 1][..idx] == items[..idx];
        if product.Some? {
          products := products + [product.value];
        }
      }
      assert items[..|items|] == items;
    }

    /**
     * The search: the parameters are built once, then page after page gets
     * its `_pgn` set, is scraped and has its records appended. The loop stops
     * early only when page 1 yields nothing, and pauses after every other
     * page. The ghost `log` records the requests and pauses.
     */
    method Search(query: string, maxPages: int, sortBy: string, minPrice: Option<real>, maxPrice: Option<real>,
                  fetch: PageAddress -> FetchOutcome, clock: int -> string)
      returns (allProducts: seq<Record>, ghost log: seq<Action>)
      ensures var params := SearchParams(query, sortBy, minPrice, maxPrice);
              var results := PageResults(selectedFields, params, fetch, clock);
              var firstEmpty := maxPages >= 1 && results(1) == [];
              && allProducts == Gathered(results, PagesAttempted(maxPages, firstEmpty))
              && log == SearchLog(params, maxPages, firstEmpty)
    {
      ghost var initial := SearchParams(query, sortBy, minPrice, maxPrice);
      ghost var results := PageResults(selectedFields, initial, fetch, clock);
      ghost var urls := PageUrlOf(initial);
      var params := SearchParams(query, sortBy, minPrice, maxPrice);
      allProducts := [];
      log := [];
      var page := 1;
      ghost var stoppedEarly := false;
      while page <= maxPages
        invariant !stoppedEarly
        invariant 1 <= page && (maxPages >= 1 ==> page <= maxPages + 1) && (maxPages < 1 ==> page == 1)
        invariant page == 1 ==> params == initial
        invariant page > 1 ==> params == SetParam(initial, Pgn, Int(page - 1))
        invariant page > 1 ==> results(1) != []
        invariant allProducts == Gathered(results, page - 1)
        invariant log == Rounds(urls, page - 1)
      {
        PageParamUpdate(initial, params, page);
        params := SetParam(params, Pgn, Int(page));
        assert params == SetParam(initial, Pgn, Int(page));
        var url := PageAddress(BaseUrl, params);
        assert url == urls(page);
        var products := ScrapePage(url, fetch, clock(page));
        GatheredStep(selectedFields, initial, fetch, clock, page, products);
        allProducts := allProducts + products;
        if |products| == 0 && page == 1 {
          log := log + [Get(url)];
          stoppedEarly := true;
          break;
        }
        log := log + [Get(url), Sleep];
        ghost var current := Int(page);
        page := page + 1;
        assert current == Int(page - 1);
      }
      SearchEnd(results, initial, maxPages, page, stoppedEarly, allProducts, log);
    }

    /**
     * The condition filter, record by record: with no filter the records come
     * back as they are; otherwise a record stays when its lower-cased
     * condition (empty when it has none) contains the lower-cased filter.
     */
    method FilterByCondition(products: seq<Record>, condition: Option<string>) returns (filtered: seq<Record>)
      ensures filtered == FilteredByCondition(products, condition)
    {
      if condition.None? || condition.value == "" {
        return products;
      }
      var wanted := Lower(condition.value);
      filtered := [];
      for i := 0 to |products|
        invariant filtered == Filter(products[..i], Matching(condition.value))
      {
        var product := products[i];
        var prodCondition := Lower(Lookup(product, Key(Condition)).GetOr(""));
        assert products[..i + 1][..i] == products[..i];
        if Contains(prodCondition, wanted) {
          filtered := filtered + [product];
        }
      }
      assert products[..|products|] == products;
    }

    /**
     * The figures of the summary: the number of records, and, when the price
     * field is selected and some price parses, the average, lowest and
     * highest price. A price that does not parse is skipped.
     */
    method DisplaySummary(products: seq<Record>, parse: string -> Option<real>)
      returns (total: nat, stats: Option<PriceStats>)
      ensures total == |products|
      ensures stats == Summary(selectedFields, products, parse)
    {
      total := |products|;
      stats := None;
      if Price in selectedFields && |products| > 0 {
        var prices := CollectPrices(products, parse);
        if |prices| > 0 {
          stats := Some(PriceStats(Sum(prices) / |prices| as real, Min(prices), Max(prices)));
        }
      }
      SummaryOfPrices(selectedFields, products, parse);
    }

    /** The summary's price loop: each record's normalised price text, parsed or skipped. */
    method CollectPrices(products: seq<Record>, parse: string -> Option<real>) returns (prices: seq<real>)
      ensures prices == Prices(products, parse)
    {
      prices := [];
      for i := 0 to |products|
        invariant prices == Prices(products[..i], parse)
      {
        var priceStr := Normalize(Lookup(products[i], Key(Price)).GetOr(""));
        var price := parse(PriceText(priceStr));
        PricesStep(products, i, parse);
        if price.Some? {
          prices := prices + [price.value];
        }
      }
      assert products[..|products|] == products;
    }
  }
}
