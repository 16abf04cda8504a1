/**
 * `validateStagedItem`: the rules every staged row is checked against before it
 * is written to the staging table. Each rule has a fixed message; the errors of
 * an item are the messages of the rules it breaks, in rule order.
 */
module Validators {
  import opened Wrappers
  import opened JsText
  import opened JsNumber
  import opened StagedItems

  /** The checks, in the order the validator makes them. */
  datatype Rule =
    | SkuRequired
    | NameRequired
    | PriceNumeric
    | StockInteger
    | StockNonNegative
    | CurrencyMxn
    | DiscountNumeric
    | MsrpNumeric

  function Message(rule: Rule): string
  {
    match rule
    case SkuRequired => "Provider SKU is required"
    case NameRequired => "Name is required"
    case PriceNumeric => "Price must be a valid number or null"
    case StockInteger => "Stock must be an integer when provided"
    case StockNonNegative => "Stock cannot be negative"
    case CurrencyMxn => "Currency must be MXN"
    case DiscountNumeric => "Price discounted must be a valid number or null"
    case MsrpNumeric => "MSRP must be a valid number or null"
  }

  /** `!s?.trim()`: the string is empty once trimmed, that is, whitespace only (`TrimEmptyIff`). */
  predicate IsBlank(s: string)
  {
    AllWhitespace(s)
  }

  /** An optional number that is present but NaN. */
  predicate IsNaNField(f: Field<Number>)
  {
    f.Value? && f.value.NaN?
  }

  /** Whether `item` breaks `rule`. */
  predicate Violates(item: StagedItem, rule: Rule)
  {
    match rule
    case SkuRequired => IsBlank(item.providerSku)
    case NameRequired => IsBlank(item.name)
    case PriceNumeric => item.price.Some? && item.price.value.NaN?
    case StockInteger => item.stock.Value? && !item.stock.value.IsInteger()
    case StockNonNegative => item.stock.Value? && item.stock.value.IsNegative()
    case CurrencyMxn => item.currency != Mxn
    case DiscountNumeric => IsNaNField(item.priceDiscounted)
    case MsrpNumeric => IsNaNField(item.msrp)
  }

  /** The message of `rule` if `item` breaks it, else nothing. */
  function IfBroken(item: StagedItem, rule: Rule): seq<string>
  {
    if Violates(item, rule) then [Message(rule)] else []
  }

  /** The checks under each heading of the validator, and all of them in order. */
  const RequiredRules: seq<Rule> := [SkuRequired, NameRequired]
  const PriceRules: seq<Rule> := [PriceNumeric]
  const StockRules: seq<Rule> := [StockInteger, StockNonNegative]
  const CurrencyRules: seq<Rule> := [CurrencyMxn]
  const OptionalPriceRules: seq<Rule> := [DiscountNumeric, MsrpNumeric]
  const AllRules: seq<Rule> := RequiredRules + PriceRules + StockRules + CurrencyRules + OptionalPriceRules

  /** The messages of the rules among `rules` that `item` breaks, in order. */
  function ErrorsAmong(item: StagedItem, rules: seq<Rule>): seq<string>
  {
    if rules == [] then [] else ErrorsAmong(item, rules[..|rules| - 1]) + IfBroken(item, rules[|rules| - 1])
  }

  /**
   * The error list of an item: the messages of the rules it breaks, in the order
   * they are checked. A rule's message is listed exactly when the item breaks that
   * rule, and there is at most one message per rule.
   */
  function Errors(item: StagedItem): (e: seq<string>)
    ensures forall rule :: Message(rule) in e <==> Violates(item, rule)
    ensures |e| <= |AllRules|
  {
    ErrorsAmongLength(item, AllRules);
    AllRulesMentioned(item);
    ErrorsAmong(item, AllRules)
  }

  /** No two rules share a message. */
  lemma MessageInjective(a: Rule, b: Rule)
    requires Message(a) == Message(b)
    ensures a == b
  {
  }

  /** A rule's message is listed exactly when the rule is among those checked and broken. */
  lemma {:induction false} ErrorsAmongMention(item: StagedItem, rules: seq<Rule>, rule: Rule)
    ensures Message(rule) in ErrorsAmong(item, rules) <==> rule in rules && Violates(item, rule)
  {
    if rules != [] {
      var init := rules[..|rules| - 1];
      var last := rules[|rules| - 1];
      ErrorsAmongMention(item, init, rule);
      assert rules == init + [last];
      if Message(rule) in IfBroken(item, last) {
        MessageInjective(rule, last);
      }
    }
  }

  /** At most one message per rule checked. */
  lemma {:induction false} ErrorsAmongLength(item: StagedItem, rules: seq<Rule>)
    ensures |ErrorsAmong(item, rules)| <= |rules|
  {
    if rules != [] {
      ErrorsAmongLength(item, rules[..|rules| - 1]);
    }
  }

  /** Every rule is checked. */
  lemma AllRulesChecked(rule: Rule)
    ensures rule in AllRules
  {
    match rule
    case SkuRequired => assert AllRules[0] == rule;
    case NameRequired => assert AllRules[1] == rule;
    case PriceNumeric => assert AllRules[2] == rule;
    case StockInteger => assert AllRules[3] == rule;
    case StockNonNegative => assert AllRules[4] == rule;
    case CurrencyMxn => assert AllRules[5] == rule;
    case DiscountNumeric => assert AllRules[6] == rule;
    case MsrpNumeric => assert AllRules[7] == rule;
  }

  /** Checking every rule lists a rule's message exactly when the item breaks it. */
  lemma AllRulesMentioned(item: StagedItem)
    ensures forall rule :: Message(rule) in ErrorsAmong(item, AllRules) <==> Violates(item, rule)
  {
    forall rule
      ensures Message(rule) in ErrorsAmong(item, AllRules) <==> Violates(item, rule)
    {
      AllRulesChecked(rule);
      ErrorsAmongMention(item, AllRules, rule);
    }
  }

  /** The item is valid exactly when it breaks no rule; there are never more than eight errors. */
  lemma ErrorsEmpty(item: StagedItem)
    ensures Errors(item) == [] <==> forall rule :: !Violates(item, rule)
    ensures |Errors(item)| <= 8
  {
    ErrorsAmongLength(item, AllRules);
    if Errors(item) != [] {
      var m := Errors(item)[0];
      var rule :| rule in AllRules && Violates(item, rule) && m == Message(rule) by {
        ErrorsAmongIsMessages(item, AllRules, m);
      }
    }
  }

  /** Every listed message is that of a checked rule the item breaks. */
  lemma {:induction false} ErrorsAmongIsMessages(item: StagedItem, rules: seq<Rule>, m: string)
    requires m in ErrorsAmong(item, rules)
    ensures exists rule :: rule in rules && Violates(item, rule) && m == Message(rule)
  {
    var init := rules[..|rules| - 1];
    var last := rules[|rules| - 1];
    assert rules == init + [last];
    if m in ErrorsAmong(item, init) {
      ErrorsAmongIsMessages(item, init, m);
      var rule :| rule in init && Violates(item, rule) && m == Message(rule);
      assert rule in rules;
    } else {
      assert last in rules && Violates(item, last) && m == Message(last);
    }
  }

  /** Checking one more rule appends its message if it is broken. */
  lemma ErrorsSnoc(item: StagedItem, rules: seq<Rule>, rule: Rule)
    ensures ErrorsAmong(item, rules + [rule]) == ErrorsAmong(item, rules) + IfBroken(item, rule)
  {
    assert (rules + [rule])[..|rules|] == rules;
  }

  /** Checking two lists of rules one after the other lists the messages of both, in order. */
  lemma {:induction false} ErrorsAmongConcat(item: StagedItem, a: seq<Rule>, b: seq<Rule>)
    ensures ErrorsAmong(item, a + b) == ErrorsAmong(item, a) + ErrorsAmong(item, b)
  {
    if b == [] {
      assert a + b == a;
    } else {
      var init := b[..|b| - 1];
      var last := b[|b| - 1];
      assert a + b == (a + init) + [last];
      assert b == init + [last];
      ErrorsAmongConcat(item, a, init);
      ErrorsSnoc(item, a + init, last);
      assert ErrorsAmong(item, a + b) == ErrorsAmong(item, a) + ErrorsAmong(item, init) + IfBroken(item, last);
      ErrorsSnoc(item, init, last);
    }
  }

  /** The rules, written out. */
  lemma AllRulesListed()
    ensures AllRules == [SkuRequired, NameRequired, PriceNumeric, StockInteger, StockNonNegative, CurrencyMxn, DiscountNumeric, MsrpNumeric]
  {
  }

  /** No rule is checked twice. */
  lemma AllRulesDistinct()
    ensures forall i, j :: 0 <= i < j < |AllRules| ==> AllRules[i] != AllRules[j]
  {
    AllRulesListed();
  }

  /**
   * Among rules checked at most once each, when `rule` is the only one the item
   * may break, the messages are `rule`'s if it is checked and broken, and none otherwise.
   */
  lemma {:induction false} ErrorsAmongOnly(item: StagedItem, rules: seq<Rule>, rule: Rule)
    requires forall i, j :: 0 <= i < j < |rules| ==> rules[i] != rules[j]
    requires forall r :: r != rule ==> !Violates(item, r)
    ensures ErrorsAmong(item, rules) == if rule in rules then IfBroken(item, rule) else []
  {
    if rules != [] {
      var init, last := rules[..|rules| - 1], rules[|rules| - 1];
      assert rules == init + [last];
      ErrorsAmongOnly(item, init, rule);
      if last == rule {
        assert rule !in init;
        assert [] + IfBroken(item, rule) == IfBroken(item, rule);
      } else {
        assert ErrorsAmong(item, rules) == ErrorsAmong(item, init) + [];
      }
    }
  }

  /**
   * When `rule` is the only rule an item may break, its errors are that rule's
   * message if it breaks it, and nothing otherwise.
   */
  lemma ErrorsOnly(item: StagedItem, rule: Rule)
    requires forall r :: r != rule ==> !Violates(item, r)
    ensures Errors(item) == IfBroken(item, rule)
  {
    AllRulesDistinct();
    AllRulesChecked(rule);
    ErrorsAmongOnly(item, AllRules, rule);
  }

  /**
   * An item with a code, a name, a usable or missing price, an integer or missing
   * stock, pesos and no NaN among its optional prices can only break the
   * non-negative stock rule.
   */
  lemma OnlyStockSignCanFail(item: StagedItem)
    requires !IsBlank(item.providerSku) && !IsBlank(item.name)
    requires item.price.None? || !item.price.value.NaN?
    requires !item.stock.Value? || item.stock.value.IsInteger()
    requires item.currency == Mxn
    requires !IsNaNField(item.priceDiscounted) && !IsNaNField(item.msrp)
    ensures Errors(item) == if item.stock.Value? && item.stock.value.IsNegative() then [Message(StockNonNegative)] else []
  {
    ErrorsOnly(item, StockNonNegative);
  }

  /** The required-field checks: code and name must not be blank. */
  method CheckRequired(item: StagedItem, errors: seq<string>) returns (out: seq<string>)
    ensures out == errors + ErrorsAmong(item, RequiredRules)
  {
    out := errors;
    if IsBlank(item.providerSku) {
      out := out + [Message(SkuRequired)];
    }
    if IsBlank(item.name) {
      out := out + [Message(NameRequired)];
    }
    ErrorsSnoc(item, [], SkuRequired);
    ErrorsSnoc(item, [SkuRequired], NameRequired);
    assert [] + [SkuRequired] == [SkuRequired];
  }

  /** The price check: a present price must not be NaN. */
  method CheckPrice(item: StagedItem, errors: seq<string>) returns (out: seq<string>)
    ensures out == errors + ErrorsAmong(item, PriceRules)
  {
    out := errors;
    if item.price.Some? && item.price.value.NaN? {
      out := out + [Message(PriceNumeric)];
    }
    ErrorsSnoc(item, [], PriceNumeric);
    assert [] + [PriceNumeric] == PriceRules;
  }

  /** The stock checks, made only when a stock is given: an integer, and not negative. */
  method CheckStock(item: StagedItem, errors: seq<string>) returns (out: seq<string>)
    ensures out == errors + ErrorsAmong(item, StockRules)
  {
    out := errors;
    if item.stock.Value? {
      if !item.stock.value.IsInteger() {
        out := out + [Message(StockInteger)];
      }
      if item.stock.value.IsNegative() {
        out := out + [Message(StockNonNegative)];
      }
    }
    ErrorsSnoc(item, [], StockInteger);
    ErrorsSnoc(item, [StockInteger], StockNonNegative);
    assert [] + [StockInteger] == [StockInteger];
  }

  /** The currency check. */
  method CheckCurrency(item: StagedItem, errors: seq<string>) returns (out: seq<string>)
    ensures out == errors + ErrorsAmong(item, CurrencyRules)
  {
    out := errors;
    if item.currency != Mxn {
      out := out + [Message(CurrencyMxn)];
    }
    ErrorsSnoc(item, [], CurrencyMxn);
    assert [] + [CurrencyMxn] == CurrencyRules;
  }

  /** The optional prices: each, when given and not null, must not be NaN. */
  method CheckOptionalPrices(item: StagedItem, errors: seq<string>) returns (out: seq<string>)
    ensures out == errors + ErrorsAmong(item, OptionalPriceRules)
  {
    out := errors;
    if IsNaNField(item.priceDiscounted) {
      out := out + [Message(DiscountNumeric)];
    }
    if IsNaNField(item.msrp) {
      out := out + [Message(MsrpNumeric)];
    }
    ErrorsSnoc(item, [], DiscountNumeric);
    ErrorsSnoc(item, [DiscountNumeric], MsrpNumeric);
    assert [] + [DiscountNumeric] == [DiscountNumeric];
  }

  /**
   * `validateStagedItem`: runs the checks heading by heading, each pushing the
   * message of every rule it finds broken onto the one error list; the item is
   * valid when the list stays empty. `Errors` and `ErrorsEmpty` say what
   * that list means.
   */
  method ValidateStagedItem(item: StagedItem) returns (valid: bool, errors: seq<string>)
    ensures errors == Errors(item)
    ensures valid <==> errors == []
  {
    errors := [];
    errors := CheckRequired(item, errors);
    errors := CheckPrice(item, errors);
    errors := CheckStock(item, errors);
    errors := CheckCurrency(item, errors);
    errors := CheckOptionalPrices(item, errors);
    valid := |errors| == 0;
    assert [] + ErrorsAmong(item, RequiredRules) == ErrorsAmong(item, RequiredRules);
    ErrorsAmongConcat(item, RequiredRules, PriceRules);
    ErrorsAmongConcat(item, RequiredRules + PriceRules, StockRules);
    ErrorsAmongConcat(item, RequiredRules + PriceRules + StockRules, CurrencyRules);
    ErrorsAmongConcat(item, RequiredRules + PriceRules + StockRules + CurrencyRules, OptionalPriceRules);
  }

  /** An item with code and name, no price, no stock, in pesos and without optional prices is valid. */
  lemma MinimalItemIsValid(item: StagedItem)
    requires !IsBlank(item.providerSku) && !IsBlank(item.name)
    requires item.price == None && item.stock == Undefined && item.currency == Mxn
    requires item.priceDiscounted == Undefined && item.msrp == Undefined
    ensures Errors(item) == []
  {
    ErrorsEmpty(item);
  }

  /** A negative non-integer stock draws both stock messages. */
  lemma NegativeFractionalStock(item: StagedItem)
    requires item.stock == Value(Finite(-1.5))
    ensures Message(StockInteger) in Errors(item) && Message(StockNonNegative) in Errors(item)
  {
    assert Violates(item, StockInteger) by {
      assert (-1.5).Floor == -2;
    }
  }

}
