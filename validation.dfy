/**
 * The validation pass of useValidation: classifying what a rule's validator
 * did, capturing what its message callback did, and recomputing the published
 * message, status and validity from an ordered list of rules.
 *
 * Callbacks are caller-supplied code, so a rule carries their outcomes on the
 * current value as data rather than the callbacks themselves.
 */
module Validation {
  import opened Optional
  import opened JsString

  /** The JavaScript values a validator can return, as far as the pass tells them apart. */
  datatype JsValue =
    | Undefined
    | Null
    | Boolean(b: bool)
    | Number(n: int)
    | Str(s: string)
    | Other           // objects, arrays, functions, symbols (BigInt is not modelled)

  /** What calling a callback did: it threw (a value whose string form is `error`) or returned `value`. */
  datatype Outcome<T> = Threw(error: string) | Returned(value: T)

  /** A validator's outcome on the current value. */
  type ValidatorOutcome = Outcome<JsValue>

  /** A getErrorMessage callback's outcome: None is a nil return. */
  type MessageOutcome = Outcome<Option<string>>

  /** A UseValidationRule evaluated on the current value. */
  datatype Rule = Rule(validator: ValidatorOutcome, getErrorMessage: Option<MessageOutcome>, message: string)

  /** The type `undefined | 'error'`: Unset is undefined. */
  datatype Status = Unset | Error

  /** The token of a message template that getErrorMessage's text replaces. */
  const Placeholder: string := "{0}"

  /** lodash's isNil. */
  predicate IsNil(v: JsValue) {
    v.Undefined? || v.Null?
  }

  /** JavaScript's ToBoolean on the modelled values, the generic truthiness the pass does NOT use. */
  predicate Truthy(v: JsValue) {
    match v
    case Undefined => false
    case Null => false
    case Boolean(b) => b
    case Number(n) => n != 0
    case Str(s) => s != ""
    case Other => true
  }

  /** isFalsyOrHasThrown: a validator fails when it throws, returns nil, or returns exactly false. */
  function IsFalsyOrHasThrown(o: ValidatorOutcome): (r: bool)
    ensures r <==> o.Threw? || o.value == Undefined || o.value == Null || o.value == Boolean(false)
  {
    match o
    case Threw(_) => true
    case Returned(v) => if IsNil(v) then true else v == Boolean(false)
  }

  /**
   * A failing validator returned a falsy value or threw, but falsy values
   * other than nil and false (0, "") pass: the policy is not truthiness.
   */
  lemma FailureIsNarrowerThanFalsy(v: JsValue)
    ensures IsFalsyOrHasThrown(Returned(v)) ==> !Truthy(v)
    ensures !Truthy(v) && !IsFalsyOrHasThrown(Returned(v)) <==> v == Number(0) || v == Str("")
  {
  }

  /** getErrorMessageOrThrown: `cb() || ''`, or the thrown value's string form. */
  function ErrorMessageOrThrown(o: MessageOutcome): (r: string)
    ensures o.Threw? ==> r == o.error
    ensures o == Returned(None) || o == Returned(Some("")) ==> r == ""
    ensures o.Returned? && o.value.Some? && o.value.value != "" ==> r == o.value.value
  {
    match o
    case Threw(e) => e
    case Returned(None) => ""
    case Returned(Some(s)) => if s != "" then s else ""
  }

  /** The validator of `rule` failed on the current value. */
  predicate Fails(rule: Rule) {
    IsFalsyOrHasThrown(rule.validator)
  }

  /** The message a failing rule writes: its template, with getErrorMessage's text in the first `{0}`. */
  function FailureMessage(rule: Rule): string {
    match rule.getErrorMessage
    case None => rule.message
    case Some(cb) => Replace(rule.message, Placeholder, ErrorMessageOrThrown(cb))
  }

  /** A rule with getErrorMessage puts `$`-free captured text in place of the first `{0}` only. */
  lemma PlaceholderSubstitution(rule: Rule, i: nat)
    requires rule.getErrorMessage.Some?
    requires '$' !in ErrorMessageOrThrown(rule.getErrorMessage.value)
    ensures FirstOccursAt(rule.message, Placeholder, i) ==>
              FailureMessage(rule) == rule.message[..i] + ErrorMessageOrThrown(rule.getErrorMessage.value) + rule.message[i + 3..]
  {
    if FirstOccursAt(rule.message, Placeholder, i) {
      ReplaceLiteral(rule.message, Placeholder, ErrorMessageOrThrown(rule.getErrorMessage.value), i);
    }
  }

  /** A template without `{0}` is written unchanged, whatever text getErrorMessage produced. */
  lemma NoPlaceholderKeepsTemplate(rule: Rule)
    requires rule.getErrorMessage.Some?
    ensures !Contains(rule.message, Placeholder) ==> FailureMessage(rule) == rule.message
  {
  }

  /** The working message and status of a pass. */
  datatype Verdict = Verdict(message: string, status: Status)

  /** What a pass starts from, whatever the state before it. */
  const Reset: Verdict := Verdict("", Unset)

  /** One iteration of the loop over the rules. */
  function Step(v: Verdict, rule: Rule): Verdict {
    if Fails(rule) then Verdict(FailureMessage(rule), Error) else v
  }

  /** The working message and status after the loop has visited `rules`, in order. */
  function Run(rules: seq<Rule>): Verdict
    decreases |rules|
  {
    if |rules| == 0 then Reset
    else Step(Run(rules[..|rules| - 1]), rules[|rules| - 1])
  }

  /** The status is 'error' exactly when some rule fails; otherwise the message is empty. */
  lemma {:induction false} ErrorIffSomeRuleFails(rules: seq<Rule>)
    ensures Run(rules).status == Error <==> exists j :: 0 <= j < |rules| && Fails(rules[j])
    ensures Run(rules).status == Unset ==> Run(rules).message == ""
  {
    if |rules| > 0 {
      var init := rules[..|rules| - 1];
      ErrorIffSomeRuleFails(init);
      if !Fails(rules[|rules| - 1]) {
        assert forall j :: 0 <= j < |init| ==> init[j] == rules[j];
      }
    }
  }

  /** When no rule fails the pass publishes an empty message and no status. */
  lemma NoFailureIsClean(rules: seq<Rule>)
    requires forall j :: 0 <= j < |rules| ==> !Fails(rules[j])
    ensures Run(rules) == Reset
  {
    ErrorIffSomeRuleFails(rules);
  }

  /** With no break in the loop, the last failing rule's message is the one that stays. */
  lemma {:induction false} LastFailureWins(rules: seq<Rule>, k: nat)
    requires k < |rules| && Fails(rules[k])
    requires forall j :: k < j < |rules| ==> !Fails(rules[j])
    ensures Run(rules) == Verdict(FailureMessage(rules[k]), Error)
  {
    if k < |rules| - 1 {
      var init := rules[..|rules| - 1];
      LastFailureWins(init, k);
    }
  }

  /**
   * Rules in front of a list that has a failing rule do not matter, and
   * passing rules at its end do not either.
   */
  lemma {:induction false} RunConcat(prefix: seq<Rule>, suffix: seq<Rule>)
    ensures (exists j :: 0 <= j < |suffix| && Fails(suffix[j])) ==> Run(prefix + suffix) == Run(suffix)
    ensures (forall j :: 0 <= j < |suffix| ==> !Fails(suffix[j])) ==> Run(prefix + suffix) == Run(prefix)
  {
    if |suffix| == 0 {
      assert prefix + suffix == prefix;
    } else {
      var last := suffix[|suffix| - 1];
      var init := suffix[..|suffix| - 1];
      assert (prefix + suffix)[..|prefix + suffix| - 1] == prefix + init;
      RunConcat(prefix, init);
      if !Fails(last) {
        assert forall j :: 0 <= j < |init| ==> init[j] == suffix[j];
      }
    }
  }

  /** The { feedback, validationStatus } attributes a form component binds to. */
  class ValidationAttrs {
    var feedback: string
    var validationStatus: Status

    constructor ()
      ensures feedback == "" && validationStatus == Unset
    {
      feedback := "";
      validationStatus := Unset;
    }
  }

  /** The reactive state object useValidation returns. */
  class ValidationState {
    var message: string
    var status: Status
    var isValid: bool
    const attrs: ValidationAttrs

    /** The state before the first pass: note isValid is false although status is unset. */
    constructor ()
      ensures message == "" && status == Unset && !isValid
      ensures fresh(attrs) && attrs.feedback == "" && attrs.validationStatus == Unset
    {
      message := "";
      status := Unset;
      isValid := false;
      attrs := new ValidationAttrs();
    }

    /** isValid is derived from status, and attrs mirrors message and status. */
    ghost predicate Published()
      reads this, attrs
    {
      isValid == (status != Error) && attrs.feedback == message && attrs.validationStatus == status
    }

    /** The watch callback: recompute the state from `rules` in place. */
    method Revalidate(rules: seq<Rule>)
      modifies this, attrs
      ensures Verdict(message, status) == Run(rules)
      ensures Published()
    {
      message := "";
      status := Unset;
      for i := 0 to |rules|
        invariant Verdict(message, status) == Run(rules[..i])
      {
        var rule := rules[i];
        if IsFalsyOrHasThrown(rule.validator) {
          if rule.getErrorMessage.Some? {
            message := Replace(rule.message, Placeholder, ErrorMessageOrThrown(rule.getErrorMessage.value));
          } else {
            message := rule.message;
          }
          status := Error;
        }
        assert rules[..i + 1][..i] == rules[..i];
      }
      assert rules[..|rules|] == rules;
      isValid := status != Error;
      attrs.feedback := message;
      attrs.validationStatus := status;
    }
  }

  /**
   * A second pass on the same rules leaves every field as the first pass left
   * it: `first` and `second` are the (message, status, isValid) after each pass.
   */
  method RevalidateTwice(state: ValidationState, rules: seq<Rule>)
    returns (first: (string, Status, bool), second: (string, Status, bool))
    modifies state, state.attrs
    ensures first == second
    ensures second == (state.message, state.status, state.isValid) && state.Published()
  {
    state.Revalidate(rules);
    first := (state.message, state.status, state.isValid);
    state.Revalidate(rules);
    second := (state.message, state.status, state.isValid);
  }

  /** Two states with different histories agree once each has run a pass on the same rules. */
  method RevalidateForgetsHistory(a: ValidationState, b: ValidationState, rules: seq<Rule>)
    requires a != b
    modifies a, a.attrs, b, b.attrs
    ensures a.message == b.message && a.status == b.status && a.isValid == b.isValid
    ensures a.attrs.feedback == b.attrs.feedback && a.attrs.validationStatus == b.attrs.validationStatus
  {
    a.Revalidate(rules);
    b.Revalidate(rules);
  }

  /** useValidation: create the state and run the immediate first pass. */
  method UseValidation(rules: seq<Rule>) returns (state: ValidationState)
    ensures fresh(state) && fresh(state.attrs)
    ensures Verdict(state.message, state.status) == Run(rules) && state.Published()
  {
    state := new ValidationState();
    state.Revalidate(rules);
  }
}
