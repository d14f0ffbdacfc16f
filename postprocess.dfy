/**
 * What happens to the gathered records afterwards: the condition filter and
 * the price figures of the summary. Prices are real numbers; the conversion of
 * a price text to a number is a partial function `parse` passed in.
 */
module PostProcess {
  import opened Wrappers
  import opened Text
  import opened Assoc
  import opened Fields
  import opened Listing
  import opened Seqs

  // ----- The condition filter -----

  /** The record's condition text, '' when it has no condition key. */
  function ConditionText(p: Record): string
  {
    Lookup(p, Key(Condition)).GetOr("")
  }

  /** Whether the lower-cased condition contains the lower-cased filter. */
  predicate ConditionMatches(p: Record, condition: string)
  {
    Contains(Lower(ConditionText(p)), Lower(condition))
  }

  function Matching(condition: string): Record -> bool
  {
    p => ConditionMatches(p, condition)
  }

  /**
   * The condition filter: no filter (None or '') gives the records back
   * unchanged; a filter keeps exactly the records whose condition matches,
   * every copy of them, in their original order.
   */
  function FilteredByCondition(ps: seq<Record>, condition: Option<string>): (r: seq<Record>)
    ensures condition.None? || condition.value == "" ==> r == ps
    ensures condition.Some? && condition.value != "" ==>
      forall p :: p in r <==> p in ps && ConditionMatches(p, condition.value)
    ensures condition.Some? && condition.value != "" ==>
      forall p :: multiset(r)[p] == if ConditionMatches(p, condition.value) then multiset(ps)[p] else 0
    ensures Subsequence(r, ps)
  {
    if condition.None? || condition.value == "" then
      SubsequenceReflexive(ps);
      ps
    else
      FilterSubsequence(ps, Matching(condition.value));
      FilterCounts(ps, Matching(condition.value));
      Filter(ps, Matching(condition.value))
  }

  /** Filtering twice with the same condition is filtering once. */
  lemma FilteredByConditionIdempotent(ps: seq<Record>, condition: Option<string>)
    ensures FilteredByCondition(FilteredByCondition(ps, condition), condition) == FilteredByCondition(ps, condition)
  {
    if condition.Some? && condition.value != "" {
      FilterIdempotent(ps, Matching(condition.value));
    }
  }

  /** With a non-empty filter a record without a condition key is dropped. */
  lemma MissingConditionDropped(p: Record, condition: string)
    requires condition != [] && Key(Condition) !in Keys(p)
    ensures !ConditionMatches(p, condition)
  {
    assert ConditionText(p) == "";
  }

  /** The comparison ignores ASCII case on both sides. */
  lemma ConditionCaseInsensitive(p: Record, condition: string)
    ensures ConditionMatches(p, condition) <==> ConditionMatches(p, Lower(condition))
  {
    LowerIdempotent(condition);
  }

  // ----- Price figures -----

  /** The characters removed from a price text before it is read as a number. */
  const CurrencySymbols: set<char> := {'$', ',', '\U{00A3}', '\U{20AC}'}

  /** Every occurrence of `c` removed from `s`. */
  function RemoveChar(s: string, c: char): (r: string)
    ensures |r| <= |s|
    ensures forall d :: d in r <==> d in s && d != c
  {
    if s == [] then []
    else
      var init := s[..|s| - 1];
      var last := s[|s| - 1];
      assert s == init + [last];
      RemoveChar(init, c) + (if last == c then [] else [last])
  }

  /** The chain of replacements: dollar, comma, pound, euro. */
  function Normalize(s: string): (r: string)
    ensures forall d :: d in r <==> d in s && d !in CurrencySymbols
  {
    RemoveChar(RemoveChar(RemoveChar(RemoveChar(s, '$'), ','), '\U{00A3}'), '\U{20AC}')
  }

  /** Removal keeps the order of the other characters: it works piece by piece. */
  lemma {:induction false} RemoveCharAppend(a: string, b: string, c: char)
    ensures RemoveChar(a + b, c) == RemoveChar(a, c) + RemoveChar(b, c)
    decreases |b|
  {
    if b == [] {
      assert a + b == a;
    } else {
      var init := b[..|b| - 1];
      var last := b[|b| - 1];
      assert (a + b)[..|a + b| - 1] == a + init;
      assert (a + b)[|a + b| - 1] == last;
      RemoveCharAppend(a, init, c);
    }
  }

  /** Normalising works piece by piece, so the kept characters stay in order. */
  lemma NormalizeAppend(a: string, b: string)
    ensures Normalize(a + b) == Normalize(a) + Normalize(b)
  {
    var a1, b1 := RemoveChar(a, '$'), RemoveChar(b, '$');
    var a2, b2 := RemoveChar(a1, ','), RemoveChar(b1, ',');
    var a3, b3 := RemoveChar(a2, '\U{00A3}'), RemoveChar(b2, '\U{00A3}');
    RemoveCharAppend(a, b, '$');
    RemoveCharAppend(a1, b1, ',');
    RemoveCharAppend(a2, b2, '\U{00A3}');
    RemoveCharAppend(a3, b3, '\U{20AC}');
  }

  /** Text without currency symbols is left as it is. */
  lemma {:induction false} RemoveCharAbsent(s: string, c: char)
    requires c !in s
    ensures RemoveChar(s, c) == s
  {
    if s != [] {
      RemoveCharAbsent(s[..|s| - 1], c);
      assert s[..|s| - 1] + [s[|s| - 1]] == s;
    }
  }

  lemma NormalizeIdempotent(s: string)
    ensures Normalize(Normalize(s)) == Normalize(s)
  {
    var n := Normalize(s);
    RemoveCharAbsent(n, '$');
    RemoveCharAbsent(n, ',');
    RemoveCharAbsent(n, '\U{00A3}');
    RemoveCharAbsent(n, '\U{20AC}');
  }

  /** For a range such as "10.00 to 20.00", the text before the first "to", trimmed. */
  function PriceText(normalized: string): (r: string)
    ensures !Contains(normalized, "to") ==> r == normalized
    ensures |r| <= |normalized|
  {
    if Contains(normalized, "to") then Strip(normalized[..IndexOf(normalized, "to")]) else normalized
  }

  /** A range's lower bound is what is read: the part before the first "to". */
  lemma PriceTextOfRange(low: string, rest: string)
    requires !Contains(low, "to")
    ensures PriceText(low + "to" + rest) == Strip(low)
  {
    var n := low + "to" + rest;
    assert OccursAt(n, "to", |low|) by {
      assert n[|low|..|low| + 2] == "to";
    }
    forall j | 0 <= j < |low|
      ensures !OccursAt(n, "to", j)
    {
      if j + 2 <= |low| {
        assert n[j..j + 2] == low[j..j + 2];
        assert !OccursAt(low, "to", j);
      } else {
        assert n[j + 1] == 't';
        if OccursAt(n, "to", j) {
          OccursAtChar(n, "to", j, 1);
        }
      }
    }
    var i := IndexOf(n, "to");
    assert i == |low|;
    assert n[..i] == low;
  }

  /** The number read from a record's price, None when its text does not parse. */
  function ParsedPrice(p: Record, parse: string -> Option<real>): Option<real>
  {
    parse(PriceText(Normalize(Lookup(p, Key(Price)).GetOr(""))))
  }

  function PriceOf(parse: string -> Option<real>): Record -> Option<real>
  {
    p => ParsedPrice(p, parse)
  }

  /**
   * The prices that parse, in record order; a record whose price does not
   * parse contributes nothing (it is not counted as zero).
   */
  function Prices(ps: seq<Record>, parse: string -> Option<real>): (r: seq<real>)
    ensures |r| <= |ps|
  {
    FilterMap(ps, PriceOf(parse))
  }

  /** Every collected price is some record's parsed price, and every price that parses is collected. */
  lemma PricesMembers(ps: seq<Record>, parse: string -> Option<real>)
    ensures forall x :: x in Prices(ps, parse) ==> exists p :: p in ps && ParsedPrice(p, parse) == Some(x)
    ensures forall p :: p in ps && ParsedPrice(p, parse).Some? ==> ParsedPrice(p, parse).value in Prices(ps, parse)
  {
    FilterMapMembers(ps, PriceOf(parse));
  }

  /** Prices are collected record by record: one parsed price, or nothing. */
  lemma PricesAppend(ps: seq<Record>, p: Record, parse: string -> Option<real>)
    ensures Prices(ps + [p], parse) == Prices(ps, parse) + (match ParsedPrice(p, parse) case Some(x) => [x] case None => [])
  {
    FilterMapAppend(ps, [p], PriceOf(parse));
    assert [p][..0] == [];
  }

  /** One more record of the same list, taken in order. */
  lemma PricesStep(ps: seq<Record>, i: nat, parse: string -> Option<real>)
    requires i < |ps|
    ensures Prices(ps[..i + 1], parse) == Prices(ps[..i], parse) + (match ParsedPrice(ps[i], parse) case Some(x) => [x] case None => [])
  {
    assert ps[..i + 1] == ps[..i] + [ps[i]];
    PricesAppend(ps[..i], ps[i], parse);
  }

  function Sum(xs: seq<real>): real
  {
    if xs == [] then 0.0 else Sum(xs[..|xs| - 1]) + xs[|xs| - 1]
  }

  function Min(xs: seq<real>): (m: real)
    requires xs != []
    ensures m in xs && forall x :: x in xs ==> m <= x
  {
    if |xs| == 1 then xs[0]
    else
      var init := xs[..|xs| - 1];
      var last := xs[|xs| - 1];
      assert xs == init + [last];
      var m := Min(init);
      if last < m then last else m
  }

  function Max(xs: seq<real>): (m: real)
    requires xs != []
    ensures m in xs && forall x :: x in xs ==> x <= m
  {
    if |xs| == 1 then xs[0]
    else
      var init := xs[..|xs| - 1];
      var last := xs[|xs| - 1];
      assert xs == init + [last];
      var m := Max(init);
      if last > m then last else m
  }

  /** A sum of values between two bounds lies between the bounds times the count. */
  lemma {:induction false} SumBounds(xs: seq<real>, lo: real, hi: real)
    requires forall x :: x in xs ==> lo <= x <= hi
    ensures |xs| as real * lo <= Sum(xs) <= |xs| as real * hi
  {
    if xs != [] {
      var init := xs[..|xs| - 1];
      assert forall x :: x in init ==> x in xs;
      var last := xs[|xs| - 1];
      assert last in xs;
      SumBounds(init, lo, hi);
      assert Sum(xs) == Sum(init) + last;
      assert |xs| as real == |init| as real + 1.0;
      assert |xs| as real * lo == |init| as real * lo + lo;
      assert |xs| as real * hi == |init| as real * hi + hi;
    }
  }

  lemma MeanBounds(total: real, n: real, lo: real, hi: real)
    requires n > 0.0 && n * lo <= total <= n * hi
    ensures lo <= total / n <= hi
  {
    var m := total / n;
    assert total == m * n;
  }

  /** Average, lowest and highest price. */
  datatype PriceStats = PriceStats(average: real, low: real, high: real)

  function Statistics(xs: seq<real>): (s: PriceStats)
    requires xs != []
    ensures s.low in xs && s.high in xs
    ensures forall x :: x in xs ==> s.low <= x <= s.high
    ensures s.low <= s.average <= s.high
    ensures s.average * |xs| as real == Sum(xs)
  {
    var low, high := Min(xs), Max(xs);
    SumBounds(xs, low, high);
    var n := |xs| as real;
    var average := Sum(xs) / n;
    assert average * n == Sum(xs);
    MeanBounds(Sum(xs), n, low, high);
    PriceStats(average, low, high)
  }

  /** The figures the summary shows: only with the price field selected and at least one parsed price. */
  function Summary(selected: seq<FieldId>, ps: seq<Record>, parse: string -> Option<real>): (r: Option<PriceStats>)
    ensures r.Some? <==> Price in selected && Prices(ps, parse) != []
    ensures r.Some? ==> forall p :: p in ps && ParsedPrice(p, parse).Some? ==>
      r.value.low <= ParsedPrice(p, parse).value <= r.value.high
  {
    PricesMembers(ps, parse);
    if Price in selected && ps != [] && Prices(ps, parse) != [] then Some(Statistics(Prices(ps, parse))) else None
  }

  /** The summary in terms of the collected prices: their mean, minimum and maximum. */
  lemma SummaryOfPrices(selected: seq<FieldId>, ps: seq<Record>, parse: string -> Option<real>)
    ensures var prices := Prices(ps, parse);
      Summary(selected, ps, parse)
      == if Price in selected && ps != [] && prices != []
         then Some(PriceStats(Sum(prices) / |prices| as real, Min(prices), Max(prices)))
         else None
  {
  }
}
