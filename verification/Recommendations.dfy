/** Displayed recommendation sets, and the numbers customers reply with. */
module Recommendations {
  import opened Common

  // ----- decimal numerals

  function Digit(d: nat): char
    requires d < 10
  {
    '0' + d as char
  }

  predicate IsDigit(c: char) { '0' <= c <= '9' }

  /** The decimal numeral of a number. */
  function Decimal(n: nat): string {
    if n < 10 then [Digit(n)] else Decimal(n / 10) + [Digit(n % 10)]
  }

  /** One or more ASCII digits. */
  predicate IsDigits(s: string) { s != [] && forall c | c in s :: IsDigit(c) }

  /** The number a text of digits denotes. */
  function ParseInt(s: string): nat
    requires forall c | c in s :: IsDigit(c)
  {
    if s == [] then 0
    else
      assert IsDigit(s[|s| - 1]);
      assert forall c | c in s[..|s| - 1] :: c in s;
      10 * ParseInt(s[..|s| - 1]) + (s[|s| - 1] as nat - '0' as nat)
  }

  predicate IsNumericSelection(text: string) { IsDigits(text) && text == Decimal(ParseInt(text)) }

  lemma {:induction false} ParseOfDecimal(n: nat)
    ensures IsDigits(Decimal(n)) && ParseInt(Decimal(n)) == n
  {
    if n >= 10 {
      ParseOfDecimal(n / 10);
      assert Decimal(n)[..|Decimal(n)| - 1] == Decimal(n / 10);
    }
  }

  /** Decimal notation: the ten digits, and one more digit for each power of ten. */
  lemma DecimalNotation(n: nat, d: nat)
    requires d < 10
    ensures Decimal(d) == ["0123456789"[d]]
    ensures n > 0 ==> Decimal(10 * n + d) == Decimal(n) + Decimal(d)
  {
    assert (10 * n + d) / 10 == n && (10 * n + d) % 10 == d;
  }

  /** A text is a selection exactly when it is the decimal numeral of a number, which it then selects. */
  lemma SelectionsAreNumerals(text: string)
    ensures IsNumericSelection(text) <==> exists n: nat :: text == Decimal(n)
    ensures forall n: nat | text == Decimal(n) :: IsNumericSelection(text) && ParseInt(text) == n
  {
    forall n: nat | text == Decimal(n) ensures IsNumericSelection(text) && ParseInt(text) == n {
      ParseOfDecimal(n);
    }
    if IsNumericSelection(text) {
      assert text == Decimal(ParseInt(text));
    }
  }

  // ----- displayed sets

  datatype SearchResult = SearchResult(productId: nat, name: string, priceKzt: nat)

  datatype Displayed = Displayed(productId: nat, name: string, priceKzt: nat)

  function Snapshots(results: seq<SearchResult>): (displayed: seq<Displayed>)
    ensures |displayed| == |results|
    ensures forall i | 0 <= i < |results| ::
              && displayed[i].productId == results[i].productId
              && displayed[i].name == results[i].name && displayed[i].priceKzt == results[i].priceKzt
  {
    seq(|results|, i requires 0 <= i < |results| => Displayed(results[i].productId, results[i].name, results[i].priceKzt))
  }

  function Numbered(i: nat, r: SearchResult): string {
    (Decimal(i) + ". ") + (r.name + " — " + Decimal(r.priceKzt) + " ₸")
  }

  lemma StartsWithNumeral(i: nat, r: SearchResult)
    ensures Decimal(i) + ". " <= Numbered(i, r)
    ensures Decimal(i) + ". " + r.name + " — " + Decimal(r.priceKzt) <= Numbered(i, r)
  {
  }

  /** The lines of format_recommendations: products numbered from 1. */
  function Lines(results: seq<SearchResult>): seq<string> {
    seq(|results|, i requires 0 <= i < |results| => Numbered(i + 1, results[i]))
  }

  datatype SetStatus = Active | Selected | Superseded

  datatype RecommendationSet = RecommendationSet(
    customer: string, displayed: seq<Displayed>, status: SetStatus,
    selectedIndex: Option<int>, selectedProduct: Option<nat>, source: nat)

  type Sets = map<nat, RecommendationSet>

  function Supersede(sets: Sets, customer: string): Sets {
    map x | x in sets :: if sets[x].customer == customer && sets[x].status.Active? then sets[x].(status := Superseded) else sets[x]
  }

  /** Supersede the customer's active set and store a new active one, in one transaction. */
  function StoreSet(sets: Sets, id: nat, customer: string, displayed: seq<Displayed>, source: nat): Sets {
    Supersede(sets, customer)[id := RecommendationSet(customer, displayed, Active, None, None, source)]
  }

  function ActiveIds(sets: Sets, customer: string): set<nat> {
    set x | x in sets && sets[x].customer == customer && sets[x].status.Active?
  }

  /** UPDATE ... WHERE id = :id; the old status is not looked at. */
  function MarkSelected(sets: Sets, id: nat, index: int, product: Option<nat>): Sets {
    if id in sets then sets[id := sets[id].(status := Selected, selectedIndex := Some(index), selectedProduct := product)]
    else sets
  }

  // ----- what the two transactions keep

  ghost predicate SetAt(sets: Sets, id: nat) {
    id in sets ==>
      var s := sets[id];
      if s.status.Selected? then
        && s.selectedIndex.Some? && 1 <= s.selectedIndex.value <= |s.displayed|
        && s.selectedProduct == Some(s.displayed[s.selectedIndex.value - 1].productId)
      else s.selectedIndex == None && s.selectedProduct == None
  }

  ghost predicate ActiveApart(sets: Sets, a: nat, b: nat) {
    a in sets && b in sets && sets[a].status.Active? && sets[b].status.Active? && sets[a].customer == sets[b].customer ==> a == b
  }

  /** At most one active set per customer, and every selection points at a displayed product. */
  ghost predicate SetsOk(sets: Sets) {
    && (forall id :: SetAt(sets, id))
    && (forall a, b :: ActiveApart(sets, a, b))
  }

  lemma StoreKeepsSets(sets: Sets, id: nat, customer: string, displayed: seq<Displayed>, source: nat)
    requires SetsOk(sets) && id !in sets
    ensures SetsOk(StoreSet(sets, id, customer, displayed, source))
    ensures ActiveIds(StoreSet(sets, id, customer, displayed, source), customer) == {id}
    ensures forall x | x in sets :: StoreSet(sets, id, customer, displayed, source)[x].displayed == sets[x].displayed
  {
    var after := StoreSet(sets, id, customer, displayed, source);
    forall x ensures SetAt(after, x) { assert SetAt(sets, x); }
    forall a, b ensures ActiveApart(after, a, b) { assert ActiveApart(sets, a, b); }
  }

  lemma MarkKeepsSets(sets: Sets, id: nat, index: int)
    requires SetsOk(sets) && id in sets && 1 <= index <= |sets[id].displayed|
    ensures SetsOk(MarkSelected(sets, id, index, Some(sets[id].displayed[index - 1].productId)))
  {
    var after := MarkSelected(sets, id, index, Some(sets[id].displayed[index - 1].productId));
    forall x ensures SetAt(after, x) { assert SetAt(sets, x); }
    forall a, b ensures ActiveApart(after, a, b) { assert ActiveApart(sets, a, b); }
  }

  /** After a selection of the active set its customer has none, until the next set is stored. */
  lemma SelectionUsesUpTheActiveSet(sets: Sets, id: nat, index: int, product: Option<nat>)
    requires SetsOk(sets) && id in sets && sets[id].status.Active?
    ensures ActiveIds(MarkSelected(sets, id, index, product), sets[id].customer) == {}
  {
    var customer, after := sets[id].customer, MarkSelected(sets, id, index, product);
    forall x ensures x !in ActiveIds(after, customer) { assert ActiveApart(sets, x, id); }
  }

  /** What customers see and reply: line i carries numeral i and the name and price of result i, and numeral i selects snapshot i. */
  lemma ReplyRoundTrip(results: seq<SearchResult>, i: nat)
    requires 1 <= i <= |results|
    ensures Decimal(i) + ". " + results[i - 1].name + " — " + Decimal(results[i - 1].priceKzt) <= Lines(results)[i - 1]
    ensures IsNumericSelection(Decimal(i)) && ParseInt(Decimal(i)) == i
    ensures var shown := Snapshots(results)[ParseInt(Decimal(i)) - 1];
            && shown.productId == results[i - 1].productId
            && shown.name == results[i - 1].name && shown.priceKzt == results[i - 1].priceKzt
  {
    ParseOfDecimal(i);
    StartsWithNumeral(i, results[i - 1]);
  }

  /** Different lines carry different numerals. */
  lemma NumeralsDiffer(i: nat, j: nat)
    requires i != j
    ensures Decimal(i) != Decimal(j)
  {
    ParseOfDecimal(i);
    ParseOfDecimal(j);
  }

  /** The persistence of sets as the program runs it. */
  class RecommendationStore {
    var sets: Sets
    var nextId: nat

    ghost predicate Valid()
      reads this
    {
      SetsOk(sets) && forall id | id in sets :: id < nextId
    }

    constructor ()
      ensures Valid() && sets == map[] && nextId == 0
    {
      sets, nextId := map[], 0;
    }

    method StoreRecommendationSet(customer: string, displayed: seq<Displayed>, source: nat) returns (id: nat)
      requires Valid()
      modifies this
      ensures Valid() && id !in old(sets)
      ensures id == old(nextId) && nextId == id + 1
      ensures sets == StoreSet(old(sets), id, customer, displayed, source)
    {
      id := nextId;
      StoreKeepsSets(sets, id, customer, displayed, source);
      sets := Supersede(sets, customer);
      sets := sets[id := RecommendationSet(customer, displayed, Active, None, None, source)];
      nextId := nextId + 1;
    }

    method LoadActive(customer: string) returns (r: Option<(nat, seq<Displayed>)>)
      requires Valid()
      ensures r.None? <==> ActiveIds(sets, customer) == {}
      ensures r.Some? ==> ActiveIds(sets, customer) == {r.value.0} && r.value.0 in sets && r.value.1 == sets[r.value.0].displayed
    {
      if id :| id in sets && sets[id].customer == customer && sets[id].status == Active {
        forall x | x in ActiveIds(sets, customer) ensures x == id { assert ActiveApart(sets, x, id); }
        assert ActiveIds(sets, customer) == {id};
        r := Some((id, sets[id].displayed));
      } else {
        r := None;
      }
    }

    method MarkRecommendationSelected(id: nat, index: int, product: Option<nat>)
      modifies this`sets
      ensures sets == MarkSelected(old(sets), id, index, product)
    {
      if id in sets {
        sets := sets[id := sets[id].(status := Selected, selectedIndex := Some(index), selectedProduct := product)];
      }
    }
  }
}
