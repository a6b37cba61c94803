/**
 * The action plan: one numbered card per action item, with an optional
 * search link and the project prompt as the copy payload.
 */
module ActionPlan {
  import opened Wrappers
  import opened Types

  const SEARCH_BASE: string := "https://www.google.com/search?q="
  const STEP_PREFIX: string := "Step "

  // ---------------------------------------------------------------------------
  // Decimal numerals, as a template literal prints a non-negative integer
  // ---------------------------------------------------------------------------

  predicate IsDigit(c: char)
  {
    '0' <= c <= '9'
  }

  function DigitChar(d: nat): (c: char)
    requires d < 10
    ensures IsDigit(c) && c as int - '0' as int == d
  {
    (d + '0' as int) as char
  }

  /** The decimal numeral of `n`, most significant digit first. */
  function Decimal(n: nat): (s: string)
    ensures |s| >= 1
    ensures forall i :: 0 <= i < |s| ==> IsDigit(s[i])
    ensures n > 0 ==> s[0] != '0'
    decreases n
  {
    if n < 10 then [DigitChar(n)] else Decimal(n / 10) + [DigitChar(n % 10)]
  }

  /** The number a string of digits denotes. */
  function DecimalValue(s: string): nat
    requires forall i :: 0 <= i < |s| ==> IsDigit(s[i])
  {
    if s == [] then 0
    else
      assert IsDigit(s[|s| - 1]);
      DecimalValue(s[..|s| - 1]) * 10 + (s[|s| - 1] as int - '0' as int)
  }

  /** Reading a numeral back gives the number. */
  lemma {:induction false} DecimalValueOfDecimal(n: nat)
    ensures DecimalValue(Decimal(n)) == n
    decreases n
  {
    if n >= 10 {
      DecimalValueOfDecimal(n / 10);
      var s := Decimal(n);
      assert s[..|s| - 1] == Decimal(n / 10);
    }
  }

  /** Distinct numbers have distinct numerals. */
  lemma DecimalInjective(m: nat, n: nat)
    requires Decimal(m) == Decimal(n)
    ensures m == n
  {
    DecimalValueOfDecimal(m);
    DecimalValueOfDecimal(n);
  }

  // ---------------------------------------------------------------------------
  // Cards
  // ---------------------------------------------------------------------------

  /** The label of the card at zero-based `index`. */
  function StepLabel(index: nat): string
  {
    STEP_PREFIX + Decimal(index + 1)
  }

  /** Card labels are different for different positions. */
  lemma StepLabelsDistinct(i: nat, j: nat)
    requires i != j
    ensures StepLabel(i) != StepLabel(j)
  {
    if StepLabel(i) == StepLabel(j) {
      assert Decimal(i + 1) == StepLabel(i)[|STEP_PREFIX|..];
      assert Decimal(j + 1) == StepLabel(j)[|STEP_PREFIX|..];
      DecimalInjective(i + 1, j + 1);
    }
  }

  /** The search link for a query; `encode` is `encodeURIComponent`. */
  function SearchUrl(query: string, encode: string -> string): (url: string)
    ensures |url| == |SEARCH_BASE| + |encode(query)|
    ensures url[..|SEARCH_BASE|] == SEARCH_BASE
    ensures url[|SEARCH_BASE|..] == encode(query)
  {
    SEARCH_BASE + encode(query)
  }

  /** What one card shows and the payloads of its two buttons. */
  datatype Card = Card(
    stepLabel: string,
    title: string,
    description: string,
    estimatedTime: string,
    search: Option<string>,
    copyPayload: string)

  /** The card for the item at zero-based `index`. */
  function CardOf(item: ActionItem, index: nat, encode: string -> string): Card
  {
    Card(StepLabel(index), item.title, item.description, item.estimatedTime,
         if item.learningResourceQuery != "" then Some(SearchUrl(item.learningResourceQuery, encode)) else None,
         item.projectPrompt)
  }

  /** The cards of `items`, the first of them at zero-based position `first`. */
  function CardsFrom(items: seq<ActionItem>, first: nat, encode: string -> string): (cards: seq<Card>)
    ensures |cards| == |items|
    ensures forall i :: 0 <= i < |items| ==> cards[i] == CardOf(items[i], first + i, encode)
    decreases |items|
  {
    if items == [] then [] else [CardOf(items[0], first, encode)] + CardsFrom(items[1..], first + 1, encode)
  }

  /**
   * `items.map((item, index) => ...)`: one card per item in input order,
   * labelled "Step 1" to "Step n"; the search button appears exactly when the
   * query is non-empty and opens the search URL for it; the copy button
   * passes the project prompt verbatim.
   */
  function Cards(items: seq<ActionItem>, encode: string -> string): (cards: seq<Card>)
    ensures |cards| == |items|
    ensures forall i :: 0 <= i < |items| ==>
      cards[i].stepLabel == STEP_PREFIX + Decimal(i + 1) &&
      cards[i].title == items[i].title &&
      cards[i].description == items[i].description &&
      cards[i].estimatedTime == items[i].estimatedTime &&
      (cards[i].search.Some? <==> items[i].learningResourceQuery != "") &&
      (cards[i].search.Some? ==> cards[i].search.value == SEARCH_BASE + encode(items[i].learningResourceQuery)) &&
      cards[i].copyPayload == items[i].projectPrompt
  {
    CardsFrom(items, 0, encode)
  }
}
