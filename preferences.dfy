/**
 * The pure mappings inside the interactive configuration menu: which fields a
 * typed answer selects, how many pages to fetch, and the condition, sort and
 * export choices. Every answer reaches these functions already stripped.
 */
module Preferences {
  import opened Wrappers
  import opened Text
  import opened Fields
  import opened Seqs
  import Query

  /** The fields the known menu numbers among `choices` name, in input order, duplicates kept and unknown pieces dropped. */
  function SelectFromChoices(choices: seq<string>): (r: seq<FieldId>)
    ensures |r| <= |choices|
  {
    if choices == [] then []
    else
      var head := match MenuField(choices[0]) case Some(f) => [f] case None => [];
      head + SelectFromChoices(choices[1..])
  }

  /** A field is selected exactly when one of the pieces is its menu number. */
  lemma {:induction false} SelectMembers(choices: seq<string>)
    ensures forall f :: f in SelectFromChoices(choices) <==> exists c :: c in choices && MenuField(c) == Some(f)
  {
    if choices != [] {
      SelectMembers(choices[1..]);
      forall f
        ensures f in SelectFromChoices(choices) <==> exists c :: c in choices && MenuField(c) == Some(f)
      {
        if exists c :: c in choices && MenuField(c) == Some(f) {
          var c :| c in choices && MenuField(c) == Some(f);
          if c != choices[0] {
            assert c in choices[1..];
          }
        }
        if exists c :: c in choices[1..] && MenuField(c) == Some(f) {
          var c :| c in choices[1..] && MenuField(c) == Some(f);
          assert c in choices;
        }
      }
    }
  }

  /** The comprehension works piece by piece: selecting from a concatenation concatenates the selections. */
  lemma {:induction false} SelectAppend(a: seq<string>, b: seq<string>)
    ensures SelectFromChoices(a + b) == SelectFromChoices(a) + SelectFromChoices(b)
    decreases |a|
  {
    if a != [] {
      assert (a + b)[1..] == a[1..] + b;
      SelectAppend(a[1..], b);
    } else {
      assert a + b == b;
    }
  }

  function StripAll(pieces: seq<string>): (r: seq<string>)
    ensures |r| == |pieces|
    ensures forall i :: 0 <= i < |pieces| ==> r[i] == Strip(pieces[i])
  {
    seq(|pieces|, i requires 0 <= i < |pieces| => Strip(pieces[i]))
  }

  /**
   * The fields one stripped answer selects: all eight in menu order for "0",
   * otherwise the known numbers among its comma-separated pieces, in the order
   * typed and with repeats kept. An empty result means the answer is rejected.
   */
  function ParseFieldSelection(choice: string): (r: seq<FieldId>)
    ensures choice == "0" ==> r == MenuOrder
    ensures choice != "0" ==> |r| <= |Split(choice, ',')|
  {
    if choice == "0" then MenuOrder
    else SelectFromChoices(StripAll(Split(choice, ',')))
  }

  /** The menu numbers of `fs`, in order. */
  function MenuNumbers(fs: seq<FieldId>): (nums: seq<string>)
    ensures |nums| == |fs|
    ensures forall i :: 0 <= i < |fs| ==> nums[i] == MenuNumber(fs[i])
  {
    if fs == [] then [] else [MenuNumber(fs[0])] + MenuNumbers(fs[1..])
  }

  /** The answer a user types to select `fs`: their menu numbers joined by commas. */
  function RenderSelection(fs: seq<FieldId>): string
  {
    Join(MenuNumbers(fs), ',')
  }

  lemma {:induction false} SelectNumbers(fs: seq<FieldId>)
    ensures SelectFromChoices(MenuNumbers(fs)) == fs
    decreases |fs|
  {
    if fs != [] {
      SelectNumbers(fs[1..]);
      MenuNumbering(fs[0], "");
      assert MenuNumbers(fs)[1..] == MenuNumbers(fs[1..]);
      assert fs == [fs[0]] + fs[1..];
    }
  }

  /** Every menu number is one digit from 1 to 8. */
  predicate SingleMenuDigits(nums: seq<string>)
  {
    forall i :: 0 <= i < |nums| ==> |nums[i]| == 1 && '1' <= nums[i][0] <= '8'
  }

  lemma MenuNumbersAreDigits(fs: seq<FieldId>)
    ensures SingleMenuDigits(MenuNumbers(fs))
  {
    var nums := MenuNumbers(fs);
    forall i | 0 <= i < |nums|
      ensures |nums[i]| == 1 && '1' <= nums[i][0] <= '8'
    {
      MenuNumbering(fs[i], "");
    }
  }

  /** Menu digits carry no whitespace and no comma. */
  lemma MenuDigitsClean(nums: seq<string>)
    requires SingleMenuDigits(nums)
    ensures StripAll(nums) == nums
    ensures forall p :: p in nums ==> ',' !in p
  {
    assert forall i :: 0 <= i < |nums| ==> Strip(nums[i]) == nums[i];
  }

  lemma {:induction false} JoinDigitsEnds(nums: seq<string>)
    requires |nums| >= 1 && SingleMenuDigits(nums)
    ensures var s := Join(nums, ',');
      |s| >= 1 && '1' <= s[0] <= '8' && '1' <= s[|s| - 1] <= '8'
      && (|nums| == 1 ==> s == nums[0])
    decreases |nums|
  {
    if |nums| > 1 {
      JoinDigitsEnds(nums[1..]);
    }
  }

  /**
   * Parsing what a user types for a selection gives back exactly that
   * selection, order and repeats included; the empty selection renders as
   * the empty answer, which is rejected.
   */
  lemma {:induction false} SelectionRoundTrip(fs: seq<FieldId>)
    ensures ParseFieldSelection(RenderSelection(fs)) == fs
  {
    var nums := MenuNumbers(fs);
    var s := RenderSelection(fs);
    if fs == [] {
      assert Split(s, ',') == [[]];
      assert StripAll([[]]) == [[]];
    } else {
      MenuNumbersAreDigits(fs);
      MenuDigitsClean(nums);
      JoinDigitsEnds(nums);
      assert s != "0";
      SplitJoin(nums, ',');
      SelectNumbers(fs);
    }
  }

  /** The fields one raw answer of the menu selects, once it is stripped. */
  function Selection(answer: string): seq<FieldId>
  {
    ParseFieldSelection(Strip(answer))
  }

  /** Whether an answer selects at least one field, so that the menu loop stops. */
  function Accepts(): string -> bool
  {
    answer => Selection(answer) != []
  }

  /** Index of the first answer that selects at least one field, `|answers|` when every answer is rejected. */
  function FirstValidIndex(answers: seq<string>): (i: nat)
    ensures i <= |answers|
    ensures i < |answers| ==> Selection(answers[i]) != []
    ensures forall j :: 0 <= j < i ==> Selection(answers[j]) == []
  {
    FirstIndex(answers, Accepts())
  }

  /** The selection the menu loop settles on, None when the answers run out first. */
  function FirstValidSelection(answers: seq<string>): Option<seq<FieldId>>
  {
    var i := FirstValidIndex(answers);
    if i < |answers| then Some(Selection(answers[i])) else None
  }

  /** The first valid index is determined by the answers before it being rejected. */
  lemma FirstValidIndexIs(answers: seq<string>, k: nat)
    requires k <= |answers|
    requires k < |answers| ==> Selection(answers[k]) != []
    requires forall j :: 0 <= j < k ==> Selection(answers[j]) == []
    ensures FirstValidIndex(answers) == k
  {
    FirstIndexIs(answers, Accepts(), k);
  }

  /** The menu loop: keep asking until an answer selects something; None when the answers run out. */
  method PromptFields(answers: seq<string>) returns (selected: Option<seq<FieldId>>, asked: nat)
    ensures selected == FirstValidSelection(answers)
    ensures asked == if selected.Some? then FirstValidIndex(answers) + 1 else |answers|
  {
    asked := 0;
    while asked < |answers|
      invariant 0 <= asked <= |answers|
      invariant asked <= FirstValidIndex(answers)
    {
      var fields := Selection(answers[asked]);
      if fields != [] {
        return Some(fields), asked + 1;
      }
      asked := asked + 1;
    }
    return None, asked;
  }

  /**
   * The page count: a digit string whose value lies in 1..5 gives that value,
   * anything else gives the default 2, so the count always lies in 1..5.
   */
  function ParseMaxPages(choice: string): (pages: int)
    ensures 1 <= pages <= 5
    ensures IsDigits(choice) && 1 <= DigitsValue(choice) <= 5 ==> pages == DigitsValue(choice)
    ensures !(IsDigits(choice) && 1 <= DigitsValue(choice) <= 5) ==> pages == 2
  {
    if IsDigits(choice) && 1 <= DigitsValue(choice) <= 5 then DigitsValue(choice) else 2
  }

  /** Leading zeros do not change the page count: "003" asks for 3 pages, "000" for the default. */
  lemma LeadingZerosIgnored(choice: string)
    requires IsDigits(choice)
    ensures ParseMaxPages("0" + choice) == ParseMaxPages(choice)
  {
    LeadingZeroValue(choice);
  }

  /** Each single digit 1..5 asks for that many pages; the digits 0 and 6..9 fall back to 2. */
  lemma SingleDigitPages(d: char)
    requires IsDigit(d)
    ensures ParseMaxPages([d]) == if '1' <= d <= '5' then d as int - '0' as int else 2
  {
    assert [d][..0] == [];
    assert IsDigits([d]);
    assert DigitsValue([d]) == d as int - '0' as int;
  }

  /** The condition menu: 2 asks for new items, 3 for used ones, anything else for no filter. */
  function ConditionChoice(choice: string): (condition: Option<string>)
    ensures condition.Some? <==> choice == "2" || choice == "3"
    ensures choice == "2" ==> condition == Some("new")
    ensures choice == "3" ==> condition == Some("used")
  {
    if choice == "2" then Some("new")
    else if choice == "3" then Some("used")
    else None
  }

  /** The sort menu: 2, 3 and 4 pick the price and newest orders, anything else best match. */
  function SortChoice(choice: string): (sortBy: string)
    ensures sortBy in ["best_match", "price_low", "price_high", "newest"]
    ensures sortBy != "best_match" <==> choice in ["2", "3", "4"]
  {
    if choice == "2" then "price_low"
    else if choice == "3" then "price_high"
    else if choice == "4" then "newest"
    else "best_match"
  }

  /** The sort menu and the search agree: menu 2, 3 and 4 send sort codes 15, 16 and 10, anything else 12. */
  lemma SortMenuCodes(choice: string)
    ensures Query.SortCode(SortChoice(choice))
      == if choice == "2" then 15 else if choice == "3" then 16 else if choice == "4" then 10 else 12
  {
  }

  /** The export menu: 2 picks JSON, 3 both formats, anything else CSV. */
  function ExportChoice(choice: string): (format: string)
    ensures format in ["csv", "json", "both"]
    ensures format != "csv" <==> choice in ["2", "3"]
    ensures choice == "2" ==> format == "json"
    ensures choice == "3" ==> format == "both"
  {
    if choice == "2" then "json"
    else if choice == "3" then "both"
    else "csv"
  }

  /** A price bound: an empty answer means no bound; a text that does not read as a number is an error. */
  function ParsePriceBound(text: string, parseFloat: string -> Option<real>): (r: Result<Option<real>, string>)
    ensures text == [] ==> r == Success(None)
    ensures text != [] ==> (r.Failure? <==> parseFloat(text).None?)
    ensures r.Success? && text != [] ==> r.value == parseFloat(text)
  {
    if text == [] then Success(None)
    else
      match parseFloat(text)
      case Some(x) => Success(Some(x))
      case None => Failure(text)
  }

  /** The answers typed at the prompts, one per step; the field menu may be answered several times. */
  datatype Answers = Answers(
    fieldChoices: seq<string>,
    query: string,
    minPrice: string,
    maxPrice: string,
    condition: string,
    sort: string,
    pages: string,
    exportChoice: string,
    debug: string
  )

  /** What the configuration dialogue returns to the caller. */
  datatype Config = Config(
    query: string,
    minPrice: Option<real>,
    maxPrice: Option<real>,
    condition: Option<string>,
    sortBy: string,
    maxPages: int,
    exportFormat: string
  )

  /** Why the dialogue ends without a configuration: the answers run out, or float() raises. */
  datatype PreferenceError = NoValidFieldSelection | BadPrice(text: string)

  /** The configuration the answers lead to; every answer is stripped first. */
  function Configure(a: Answers, parseFloat: string -> Option<real>): Result<Config, PreferenceError>
  {
    if FirstValidSelection(a.fieldChoices).None? then Failure(NoValidFieldSelection)
    else
      match ParsePriceBound(Strip(a.minPrice), parseFloat)
      case Failure(t) => Failure(BadPrice(t))
      case Success(minPrice) =>
        match ParsePriceBound(Strip(a.maxPrice), parseFloat)
        case Failure(t) => Failure(BadPrice(t))
        case Success(maxPrice) =>
          Success(Config(Strip(a.query), minPrice, maxPrice, ConditionChoice(Strip(a.condition)),
                         SortChoice(Strip(a.sort)), ParseMaxPages(Strip(a.pages)), ExportChoice(Strip(a.exportChoice))))
  }

  /** Debug mode is on exactly when the debug answer, stripped and lower-cased, is "y". */
  predicate DebugAnswer(a: Answers)
  {
    Lower(Strip(a.debug)) == "y"
  }

  /**
   * The dialogue fails only when no field answer selects anything, or when a
   * non-empty price bound does not parse (the minimum is read first); a
   * configuration it returns always holds a page count in 1..5 and one of the
   * known condition, sort and export choices.
   */
  lemma ConfigureSpec(a: Answers, parseFloat: string -> Option<real>)
    ensures Configure(a, parseFloat) == Failure(NoValidFieldSelection) <==> FirstValidSelection(a.fieldChoices).None?
    ensures Configure(a, parseFloat).Failure? <==>
      || FirstValidSelection(a.fieldChoices).None?
      || (Strip(a.minPrice) != [] && parseFloat(Strip(a.minPrice)).None?)
      || (Strip(a.maxPrice) != [] && parseFloat(Strip(a.maxPrice)).None?)
    ensures Configure(a, parseFloat) == Failure(BadPrice(Strip(a.minPrice))) <==>
      FirstValidSelection(a.fieldChoices).Some? && Strip(a.minPrice) != [] && parseFloat(Strip(a.minPrice)).None?
    ensures Configure(a, parseFloat).Success? ==>
      var c := Configure(a, parseFloat).value;
      && 1 <= c.maxPages <= 5
      && c.condition in {None, Some("new"), Some("used")}
      && c.sortBy in ["best_match", "price_low", "price_high", "newest"]
      && c.exportFormat in ["csv", "json", "both"]
      && c.query == Strip(a.query)
      && (c.minPrice.Some? <==> Strip(a.minPrice) != [])
      && (c.maxPrice.Some? <==> Strip(a.maxPrice) != [])
  {
  }
}
