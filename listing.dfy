/**
 * One listing of a results page and the record extracted from it.
 *
 * The HTML parser is abstracted away: a listing node carries, for every
 * element the extractor looks for, the stripped text of the first element the
 * parser finds (`find(...)` then `get_text(strip=True)`), or None when it finds
 * none. A found element counts even when its text is empty, because a parsed
 * tag is always truthy in the `a or b or c` chains.
 */
module Listing {
  import opened Wrappers
  import opened Assoc
  import opened Fields

  /** The text of the first element a selector finds, None when it finds nothing. */
  type Found = Option<string>

  /** `a.s-item__link` and its `href` attribute, if it has one. */
  datatype Anchor = Anchor(href: Option<string>)

  /** The first `img` and its `src` and `data-src` attributes. */
  datatype Image = Image(src: Option<string>, dataSrc: Option<string>)

  datatype ListingNode = ListingNode(
    headingSpan: Found,       // span[role=heading]
    titleDiv: Found,          // div.s-item__title
    titleHeader: Found,       // h3.s-item__title
    priceSpan: Found,         // span.s-item__price
    secondaryInfo: Found,     // span.SECONDARY_INFO
    conditionWordSpan: Found, // first span whose string mentions New, Used or Pre-Owned
    shippingSpan: Found,      // span.s-item__shipping
    logisticsSpan: Found,     // span.s-item__logisticsCost
    link: Option<Anchor>,     // a.s-item__link
    locationSpan: Found,      // span.s-item__location
    itemLocationSpan: Found,  // span.s-item__itemLocation
    image: Option<Image>,     // img
    soldSpan: Found           // span.s-item__quantitySold
  )

  /** A product record: a dict from field keys to strings, in insertion order. */
  type Record = seq<(string, string)>

  const TimestampKey := "scraped_at"
  const NotAvailable := "N/A"

  /** Title texts of banners and badges that are not products. */
  const RejectedTitles: seq<string> := ["Shop on eBay", "New Listing", ""]

  /** The order in which the extractor fills in the fields (url before location, unlike the menu). */
  const ExtractionOrder: seq<FieldId> := [Title, Price, Condition, Shipping, Url, Location, ImageUrl, SoldCount]

  /** A selector chain `a or b or ...`: the first selector that finds an element wins. */
  function FirstFound(chain: seq<Found>): (r: Found)
    ensures r.None? <==> forall i :: 0 <= i < |chain| ==> chain[i].None?
    ensures forall i :: 0 <= i < |chain| && chain[i].Some? && (forall j :: 0 <= j < i ==> chain[j].None?) ==> r == chain[i]
  {
    if chain == [] then None
    else if chain[0].Some? then chain[0]
    else
      var r := FirstFound(chain[1..]);
      assert forall i :: 1 <= i < |chain| ==> chain[1..][i - 1] == chain[i];
      r
  }

  function TitleElement(n: ListingNode): Found
  {
    FirstFound([n.headingSpan, n.titleDiv, n.titleHeader])
  }

  /** The title selectors are tried heading span, then div, then h3, and the first found wins. */
  lemma TitleSelectorOrder(n: ListingNode)
    ensures TitleElement(n) == if n.headingSpan.Some? then n.headingSpan
                               else if n.titleDiv.Some? then n.titleDiv
                               else n.titleHeader
  {
    var chain := [n.headingSpan, n.titleDiv, n.titleHeader];
    if n.headingSpan.None? && n.titleDiv.None? && n.titleHeader.Some? {
      assert chain[2].Some? && forall j :: 0 <= j < 2 ==> chain[j].None?;
    } else if n.headingSpan.None? && n.titleDiv.Some? {
      assert chain[1].Some? && forall j :: 0 <= j < 1 ==> chain[j].None?;
    }
  }

  /** A node whose title element is missing or a known placeholder is not a product. */
  predicate TitleRejected(n: ListingNode)
  {
    match TitleElement(n)
    case None => true
    case Some(t) => t in RejectedTitles
  }

  /** What a field holds when its element is missing: '0' sold, otherwise 'N/A'. */
  function Sentinel(f: FieldId): string
  {
    if f == SoldCount then "0" else NotAvailable
  }

  /** The text or attribute the extractor reads for a field, None when nothing is found. */
  function FieldSource(n: ListingNode, f: FieldId): Found
  {
    match f
    case Title => TitleElement(n)
    case Price => n.priceSpan
    case Condition => FirstFound([n.secondaryInfo, n.conditionWordSpan])
    case Shipping => FirstFound([n.shippingSpan, n.logisticsSpan])
    case Url => if n.link.Some? then n.link.value.href else None
    case Location => FirstFound([n.locationSpan, n.itemLocationSpan])
    case ImageUrl => if n.image.Some? then FirstFound([n.image.value.src, n.image.value.dataSrc]) else None
    case SoldCount => n.soldSpan
  }

  /** The value stored for a field: what was found, or the field's sentinel. */
  function FieldValue(n: ListingNode, f: FieldId): string
  {
    FieldSource(n, f).GetOr(Sentinel(f))
  }

  /** The entries for the selected fields among `order`, in that order. */
  function Entries(n: ListingNode, selected: seq<FieldId>, order: seq<FieldId>): (r: Record)
    ensures |r| <= |order|
    ensures forall e :: e in r ==> exists f :: f in order && f in selected && e == (Key(f), FieldValue(n, f))
    ensures forall f :: f in order && f in selected ==> (Key(f), FieldValue(n, f)) in r
  {
    if order == [] then []
    else
      var init := order[..|order| - 1];
      var last := order[|order| - 1];
      assert order == init + [last];
      Entries(n, selected, init) + (if last in selected then [(Key(last), FieldValue(n, last))] else [])
  }

  /** The entries of the first k + 1 fields of the extraction order: those of the first k, then field k if selected. */
  lemma EntriesStep(n: ListingNode, selected: seq<FieldId>, k: nat)
    requires k < |ExtractionOrder|
    ensures Entries(n, selected, ExtractionOrder[..k + 1]) == Entries(n, selected, ExtractionOrder[..k])
      + (if ExtractionOrder[k] in selected then [(Key(ExtractionOrder[k]), FieldValue(n, ExtractionOrder[k]))] else [])
  {
    assert ExtractionOrder[..k + 1][..k] == ExtractionOrder[..k];
  }

  /** The extractor as a whole: None for a rejected node or an empty selection, else the record. */
  function Extract(n: ListingNode, selected: seq<FieldId>, now: string): Option<Record>
  {
    if Title in selected && TitleRejected(n) then None
    else
      var product := Entries(n, selected, ExtractionOrder) + [(TimestampKey, now)];
      if |product| > 1 then Some(product) else None
  }

  lemma ExtractionOrderComplete(f: FieldId)
    ensures f in ExtractionOrder
  {
    match f
    case Title => assert ExtractionOrder[0] == f;
    case Price => assert ExtractionOrder[1] == f;
    case Condition => assert ExtractionOrder[2] == f;
    case Shipping => assert ExtractionOrder[3] == f;
    case Url => assert ExtractionOrder[4] == f;
    case Location => assert ExtractionOrder[5] == f;
    case ImageUrl => assert ExtractionOrder[6] == f;
    case SoldCount => assert ExtractionOrder[7] == f;
  }

  lemma {:induction false} EntriesOfNothing(n: ListingNode, order: seq<FieldId>)
    ensures Entries(n, [], order) == []
    decreases |order|
  {
    if order != [] {
      EntriesOfNothing(n, order[..|order| - 1]);
    }
  }

  /**
   * A node is rejected exactly when the title is selected and its title is
   * missing or a placeholder, or when nothing is selected (the record would
   * hold only the timestamp).
   */
  lemma ExtractRejects(n: ListingNode, selected: seq<FieldId>, now: string)
    ensures Extract(n, selected, now).None? <==> (Title in selected && TitleRejected(n)) || selected == []
  {
    var entries := Entries(n, selected, ExtractionOrder);
    if selected != [] {
      ExtractionOrderComplete(selected[0]);
      assert (Key(selected[0]), FieldValue(n, selected[0])) in entries;
    } else {
      EntriesOfNothing(n, ExtractionOrder);
    }
  }

  lemma {:induction false} EntriesDistinct(n: ListingNode, selected: seq<FieldId>, order: seq<FieldId>)
    requires forall i, j :: 0 <= i < j < |order| ==> order[i] != order[j]
    ensures DistinctKeys(Entries(n, selected, order))
  {
    var r := Entries(n, selected, order);
    if order != [] {
      var init := order[..|order| - 1];
      var last := order[|order| - 1];
      var head := Entries(n, selected, init);
      EntriesDistinct(n, selected, init);
      assert r == head + (if last in selected then [(Key(last), FieldValue(n, last))] else []);
      forall i | 0 <= i < |head|
        ensures head[i].0 != Key(last)
      {
        assert head[i] in head;
        var f :| f in init && f in selected && head[i] == (Key(f), FieldValue(n, f));
        KeysDistinct(f, last);
      }
    }
  }

  /** The keys of the entries are those of the selected fields among `order`. */
  lemma EntriesKeys(n: ListingNode, selected: seq<FieldId>, order: seq<FieldId>, k: string)
    ensures k in Keys(Entries(n, selected, order)) <==> exists f :: f in order && f in selected && Key(f) == k
  {
    var entries := Entries(n, selected, order);
    if k in Keys(entries) {
      var i :| 0 <= i < |entries| && Keys(entries)[i] == k;
      assert entries[i] in entries;
    }
    if exists f :: f in order && f in selected && Key(f) == k {
      var f :| f in order && f in selected && Key(f) == k;
      var i :| 0 <= i < |entries| && entries[i] == (Key(f), FieldValue(n, f));
      assert Keys(entries)[i] == k;
    }
  }

  /** An accepted record is the selected entries followed by the timestamp, with distinct keys. */
  lemma AcceptedShape(n: ListingNode, selected: seq<FieldId>, now: string, r: Record)
    requires Extract(n, selected, now) == Some(r)
    ensures r == Entries(n, selected, ExtractionOrder) + [(TimestampKey, now)]
    ensures r[|r| - 1] == (TimestampKey, now)
    ensures DistinctKeys(r)
  {
    var entries := Entries(n, selected, ExtractionOrder);
    EntriesDistinct(n, selected, ExtractionOrder);
    EntriesKeys(n, selected, ExtractionOrder, TimestampKey);
    if TimestampKey in Keys(entries) {
      var f :| f in ExtractionOrder && f in selected && Key(f) == TimestampKey;
      KeysDistinct(f, f);
    }
    forall i, j | 0 <= i < j < |r|
      ensures r[i].0 != r[j].0
    {
      if j == |r| - 1 {
        assert Keys(entries)[i] == r[i].0;
      }
    }
  }

  /**
   * An accepted record's keys are exactly the selected fields' keys plus the
   * timestamp, which comes last, and no key appears twice.
   */
  lemma ExtractedKeys(n: ListingNode, selected: seq<FieldId>, now: string, r: Record)
    requires Extract(n, selected, now) == Some(r)
    ensures r[|r| - 1] == (TimestampKey, now)
    ensures DistinctKeys(r)
    ensures forall k :: k in Keys(r) <==> k == TimestampKey || exists f :: f in selected && Key(f) == k
  {
    AcceptedShape(n, selected, now, r);
    var entries := Entries(n, selected, ExtractionOrder);
    KeysAppend(entries, [(TimestampKey, now)]);
    assert Keys([(TimestampKey, now)]) == [TimestampKey];
    forall k
      ensures k in Keys(r) <==> k == TimestampKey || exists f :: f in selected && Key(f) == k
    {
      EntriesKeys(n, selected, ExtractionOrder, k);
      if exists f :: f in selected && Key(f) == k {
        var f :| f in selected && Key(f) == k;
        ExtractionOrderComplete(f);
      }
    }
  }

  /**
   * In an accepted record every selected field holds its found value or its
   * sentinel, and every unselected field is absent.
   */
  lemma ExtractedValues(n: ListingNode, selected: seq<FieldId>, now: string, r: Record)
    requires Extract(n, selected, now) == Some(r)
    ensures forall f :: f in selected ==> Lookup(r, Key(f)) == Some(FieldValue(n, f))
    ensures forall f :: f !in selected ==> Lookup(r, Key(f)) == None
  {
    AcceptedShape(n, selected, now, r);
    ExtractedKeys(n, selected, now, r);
    var entries := Entries(n, selected, ExtractionOrder);
    forall f | f in selected
      ensures Lookup(r, Key(f)) == Some(FieldValue(n, f))
    {
      ExtractionOrderComplete(f);
      var i :| 0 <= i < |entries| && entries[i] == (Key(f), FieldValue(n, f));
      assert r[i] == entries[i];
      LookupDistinct(r, i);
    }
    forall f | f !in selected
      ensures Lookup(r, Key(f)) == None
    {
      KeysDistinct(f, f);
      if Key(f) in Keys(r) {
        var g :| g in selected && Key(g) == Key(f);
        KeysDistinct(f, g);
      }
    }
  }

  /** When the title is selected, an accepted record's title is the first title element found, and no placeholder. */
  lemma ExtractedTitle(n: ListingNode, selected: seq<FieldId>, now: string)
    requires Title in selected && Extract(n, selected, now).Some?
    ensures TitleElement(n) == Some(FieldValue(n, Title))
    ensures FieldValue(n, Title) !in RejectedTitles
  {
  }

  lemma {:induction false} EntriesSameSelection(n: ListingNode, s1: seq<FieldId>, s2: seq<FieldId>, order: seq<FieldId>)
    requires forall f :: f in s1 <==> f in s2
    ensures Entries(n, s1, order) == Entries(n, s2, order)
    decreases |order|
  {
    if order != [] {
      EntriesSameSelection(n, s1, s2, order[..|order| - 1]);
    }
  }

  /**
   * Only which fields are selected matters: the order the user typed them in
   * and any repeats change nothing in the record.
   */
  lemma ExtractSelectionAsSet(n: ListingNode, s1: seq<FieldId>, s2: seq<FieldId>, now: string)
    requires forall f :: f in s1 <==> f in s2
    ensures Extract(n, s1, now) == Extract(n, s2, now)
  {
    EntriesSameSelection(n, s1, s2, ExtractionOrder);
  }

  /** A node on which no selector finds anything. */
  const EmptyNode := ListingNode(None, None, None, None, None, None, None, None, None, None, None, None, None)

  /**
   * A node that matches no selector is rejected when the title is selected;
   * otherwise every selected field holds its sentinel.
   */
  lemma EmptyNodeExtraction(selected: seq<FieldId>, now: string)
    ensures Title in selected ==> Extract(EmptyNode, selected, now) == None
    ensures Title !in selected && selected != [] ==>
      exists r :: Extract(EmptyNode, selected, now) == Some(r)
        && forall f :: f in selected ==> Lookup(r, Key(f)) == Some(Sentinel(f))
  {
    ExtractRejects(EmptyNode, selected, now);
    if Title !in selected && selected != [] {
      var r := Extract(EmptyNode, selected, now).value;
      ExtractedValues(EmptyNode, selected, now, r);
      forall f | f in selected
        ensures FieldValue(EmptyNode, f) == Sentinel(f)
      {
        assert FieldSource(EmptyNode, f).None?;
      }
    }
  }
}
