/**
 * The search URL, kept as its ordered list of query parameters rather than
 * as percent-encoded text.
 */
module Query {
  import opened Wrappers
  import opened Assoc

  /** The query parameters the scraper sends. */
  datatype ParamKey = Nkw | Sop | Ipg | Udlo | Udhi | Pgn
  {
    /** The parameter's name in the URL. */
    function Name(): string
    {
      match this
      case Nkw => "_nkw"
      case Sop => "_sop"
      case Ipg => "_ipg"
      case Udlo => "_udlo"
      case Udhi => "_udhi"
      case Pgn => "_pgn"
    }
  }

  datatype ParamValue = Text(text: string) | Int(n: int) | Num(x: real)

  /** The `params` dict, in insertion order. */
  type Params = seq<(ParamKey, ParamValue)>

  datatype PageAddress = PageAddress(base: string, params: Params)

  const BaseUrl := "https://www.ebay.com/sch/i.html"
  const ItemsPerPage := 60
  const DefaultSortCode := 12

  /** The eBay sort code for a sort key; an unknown key gets the best-match code 12. */
  function SortCode(sortBy: string): (code: int)
    ensures code in [10, 12, 15, 16]
    ensures code != DefaultSortCode <==> sortBy in ["price_low", "price_high", "newest"]
    ensures sortBy == "price_low" ==> code == 15
    ensures sortBy == "price_high" ==> code == 16
    ensures sortBy == "newest" ==> code == 10
  {
    if sortBy == "best_match" then 12
    else if sortBy == "price_low" then 15
    else if sortBy == "price_high" then 16
    else if sortBy == "newest" then 10
    else DefaultSortCode
  }

  /** Python truthiness of an optional price bound: None and 0 are false. */
  predicate Truthy(bound: Option<real>)
  {
    bound.Some? && bound.value != 0.0
  }

  /** A price bound's parameter, present only when the bound is truthy. */
  function BoundParam(k: ParamKey, bound: Option<real>): Params
  {
    if Truthy(bound) then [(k, Num(bound.value))] else []
  }

  /** The parameters every search sends: the query, the sort code and the page size. */
  function FixedParams(query: string, sortBy: string): Params
  {
    [(Nkw, Text(query)), (Sop, Int(SortCode(sortBy))), (Ipg, Int(ItemsPerPage))]
  }

  /** The parameters before the page loop starts. */
  function SearchParams(query: string, sortBy: string, minPrice: Option<real>, maxPrice: Option<real>): Params
  {
    FixedParams(query, sortBy) + BoundParam(Udlo, minPrice) + BoundParam(Udhi, maxPrice)
  }

  lemma FixedParamsLookup(query: string, sortBy: string, key: ParamKey)
    ensures Keys(FixedParams(query, sortBy)) == [Nkw, Sop, Ipg]
    ensures Lookup(FixedParams(query, sortBy), key)
      == match key
         case Nkw => Some(Text(query))
         case Sop => Some(Int(SortCode(sortBy)))
         case Ipg => Some(Int(ItemsPerPage))
         case _ => None
  {
    var ps := FixedParams(query, sortBy);
    assert ps[1..] == [(Sop, Int(SortCode(sortBy))), (Ipg, Int(ItemsPerPage))];
    assert ps[1..][1..] == [(Ipg, Int(ItemsPerPage))];
  }

  lemma BoundParamLookup(k: ParamKey, bound: Option<real>, key: ParamKey)
    ensures Keys(BoundParam(k, bound)) == if Truthy(bound) then [k] else []
    ensures Lookup(BoundParam(k, bound), key) == if Truthy(bound) && key == k then Some(Num(bound.value)) else None
  {
  }

  /** `params[k] = v`: an existing key keeps its place and takes the new value, a new key goes last. */
  function SetParam(ps: Params, k: ParamKey, v: ParamValue): (r: Params)
    ensures Keys(r) == if k in Keys(ps) then Keys(ps) else Keys(ps) + [k]
  {
    if ps == [] then [(k, v)]
    else if ps[0].0 == k then [(k, v)] + ps[1..]
    else [ps[0]] + SetParam(ps[1..], k, v)
  }

  /** After `params[k] = v`, looking up `k` gives `v`. */
  lemma {:induction false} SetParamLookup(ps: Params, k: ParamKey, v: ParamValue)
    ensures Lookup(SetParam(ps, k, v), k) == Some(v)
  {
    if ps != [] && ps[0].0 != k {
      SetParamLookup(ps[1..], k, v);
    }
  }

  /** Assigning one key leaves every other key's value as it was. */
  lemma {:induction false} SetParamOthers(ps: Params, k: ParamKey, v: ParamValue, other: ParamKey)
    requires other != k
    ensures Lookup(SetParam(ps, k, v), other) == Lookup(ps, other)
  {
    if ps != [] && ps[0].0 != k {
      SetParamOthers(ps[1..], k, v, other);
    }
  }

  /** Assigning the same key twice leaves only the second value. */
  lemma {:induction false} SetParamTwice(ps: Params, k: ParamKey, v1: ParamValue, v2: ParamValue)
    ensures SetParam(SetParam(ps, k, v1), k, v2) == SetParam(ps, k, v2)
  {
    if ps != [] && ps[0].0 != k {
      SetParamTwice(ps[1..], k, v1, v2);
    }
  }

  /** The URL requested for page `page`: the search parameters with `_pgn` set to the page number. */
  function PageUrl(params: Params, page: int): PageAddress
  {
    PageAddress(BaseUrl, SetParam(params, Pgn, Int(page)))
  }

  /** The keys a search starts from, in order: a price bound only when it is truthy. */
  lemma SearchParamsKeys(query: string, sortBy: string, minPrice: Option<real>, maxPrice: Option<real>)
    ensures Keys(SearchParams(query, sortBy, minPrice, maxPrice))
      == [Nkw, Sop, Ipg] + (if Truthy(minPrice) then [Udlo] else []) + (if Truthy(maxPrice) then [Udhi] else [])
  {
    var head := FixedParams(query, sortBy);
    var lo, hi := BoundParam(Udlo, minPrice), BoundParam(Udhi, maxPrice);
    FixedParamsLookup(query, sortBy, Nkw);
    KeysAppend(head, lo);
    KeysAppend(head + lo, hi);
    BoundParamLookup(Udlo, minPrice, Udlo);
    BoundParamLookup(Udhi, maxPrice, Udhi);
  }

  lemma LookupInParts(head: Params, lo: Params, hi: Params, k: ParamKey)
    ensures Lookup((head + lo) + hi, k)
      == if k in Keys(head) then Lookup(head, k) else if k in Keys(lo) then Lookup(lo, k) else Lookup(hi, k)
  {
    LookupAppend(head + lo, hi, k);
    LookupAppend(head, lo, k);
    KeysAppend(head, lo);
  }

  lemma FixedValues(query: string, sortBy: string, minPrice: Option<real>, maxPrice: Option<real>)
    ensures var ps := SearchParams(query, sortBy, minPrice, maxPrice);
      && Lookup(ps, Nkw) == Some(Text(query))
      && Lookup(ps, Sop) == Some(Int(SortCode(sortBy)))
      && Lookup(ps, Ipg) == Some(Int(ItemsPerPage))
  {
    var head := FixedParams(query, sortBy);
    var lo, hi := BoundParam(Udlo, minPrice), BoundParam(Udhi, maxPrice);
    LookupInParts(head, lo, hi, Nkw);
    LookupInParts(head, lo, hi, Sop);
    LookupInParts(head, lo, hi, Ipg);
    FixedParamsLookup(query, sortBy, Nkw);
    FixedParamsLookup(query, sortBy, Sop);
    FixedParamsLookup(query, sortBy, Ipg);
  }

  lemma BoundValues(query: string, sortBy: string, minPrice: Option<real>, maxPrice: Option<real>)
    ensures var ps := SearchParams(query, sortBy, minPrice, maxPrice);
      && Lookup(ps, Udlo) == (if Truthy(minPrice) then Some(Num(minPrice.value)) else None)
      && Lookup(ps, Udhi) == (if Truthy(maxPrice) then Some(Num(maxPrice.value)) else None)
  {
    var head := FixedParams(query, sortBy);
    var lo, hi := BoundParam(Udlo, minPrice), BoundParam(Udhi, maxPrice);
    LookupInParts(head, lo, hi, Udlo);
    LookupInParts(head, lo, hi, Udhi);
    FixedParamsLookup(query, sortBy, Nkw);
    BoundParamLookup(Udlo, minPrice, Udlo);
    BoundParamLookup(Udlo, minPrice, Udhi);
    BoundParamLookup(Udhi, maxPrice, Udhi);
  }

  /** The values a search starts from: the query, the sort code, 60 per page and the truthy bounds. */
  lemma SearchParamsValues(query: string, sortBy: string, minPrice: Option<real>, maxPrice: Option<real>)
    ensures var ps := SearchParams(query, sortBy, minPrice, maxPrice);
      && Lookup(ps, Nkw) == Some(Text(query))
      && Lookup(ps, Sop) == Some(Int(SortCode(sortBy)))
      && Lookup(ps, Ipg) == Some(Int(ItemsPerPage))
      && Lookup(ps, Udlo) == (if Truthy(minPrice) then Some(Num(minPrice.value)) else None)
      && Lookup(ps, Udhi) == (if Truthy(maxPrice) then Some(Num(maxPrice.value)) else None)
  {
    FixedValues(query, sortBy, minPrice, maxPrice);
    BoundValues(query, sortBy, minPrice, maxPrice);
  }

  lemma PageUrlKeys(query: string, sortBy: string, minPrice: Option<real>, maxPrice: Option<real>, page: int)
    ensures Keys(PageUrl(SearchParams(query, sortBy, minPrice, maxPrice), page).params)
      == [Nkw, Sop, Ipg] + (if Truthy(minPrice) then [Udlo] else []) + (if Truthy(maxPrice) then [Udhi] else []) + [Pgn]
  {
    SearchParamsKeys(query, sortBy, minPrice, maxPrice);
  }

  lemma PageUrlValues(query: string, sortBy: string, minPrice: Option<real>, maxPrice: Option<real>, page: int)
    ensures var u := PageUrl(SearchParams(query, sortBy, minPrice, maxPrice), page);
      && Lookup(u.params, Nkw) == Some(Text(query))
      && Lookup(u.params, Sop) == Some(Int(SortCode(sortBy)))
      && Lookup(u.params, Ipg) == Some(Int(ItemsPerPage))
      && Lookup(u.params, Udlo) == (if Truthy(minPrice) then Some(Num(minPrice.value)) else None)
      && Lookup(u.params, Udhi) == (if Truthy(maxPrice) then Some(Num(maxPrice.value)) else None)
      && Lookup(u.params, Pgn) == Some(Int(page))
  {
    var ps := SearchParams(query, sortBy, minPrice, maxPrice);
    SearchParamsValues(query, sortBy, minPrice, maxPrice);
    SetParamLookup(ps, Pgn, Int(page));
    SetParamOthers(ps, Pgn, Int(page), Nkw);
    SetParamOthers(ps, Pgn, Int(page), Sop);
    SetParamOthers(ps, Pgn, Int(page), Ipg);
    SetParamOthers(ps, Pgn, Int(page), Udlo);
    SetParamOthers(ps, Pgn, Int(page), Udhi);
  }

  /**
   * The URL of every page carries the query, the sort code, 60 items per
   * page, a price bound only when it is truthy (so 0 and None are omitted),
   * and the page number last, in this key order.
   */
  lemma PageUrlParams(query: string, sortBy: string, minPrice: Option<real>, maxPrice: Option<real>, page: int)
    ensures var u := PageUrl(SearchParams(query, sortBy, minPrice, maxPrice), page);
      && u.base == BaseUrl
      && Keys(u.params) == [Nkw, Sop, Ipg] + (if Truthy(minPrice) then [Udlo] else [])
                           + (if Truthy(maxPrice) then [Udhi] else []) + [Pgn]
      && Lookup(u.params, Nkw) == Some(Text(query))
      && Lookup(u.params, Sop) == Some(Int(SortCode(sortBy)))
      && Lookup(u.params, Ipg) == Some(Int(ItemsPerPage))
      && Lookup(u.params, Udlo) == (if Truthy(minPrice) then Some(Num(minPrice.value)) else None)
      && Lookup(u.params, Udhi) == (if Truthy(maxPrice) then Some(Num(maxPrice.value)) else None)
      && Lookup(u.params, Pgn) == Some(Int(page))
  {
    PageUrlKeys(query, sortBy, minPrice, maxPrice, page);
    PageUrlValues(query, sortBy, minPrice, maxPrice, page);
  }
}
