/** Concrete passes: the behaviour the validation pass is documented to have on particular rules. */
module ValidationScenarios {
  import opened Optional
  import opened JsString
  import opened Validation

  /** `{ validator: v => v.length > 0, message: "required" }` on "" and then on "x". */
  lemma RequiredRule()
    ensures Run([Rule(Returned(Boolean(false)), None, "required")]) == Verdict("required", Error)
    ensures Run([Rule(Returned(Boolean(true)), None, "required")]) == Reset
  {
  }

  /** "min {0} chars" with any `$`-free text `n` in its only `{0}`. */
  lemma MinLengthTemplate(n: string)
    requires '$' !in n
    ensures Replace("min {0} chars", Placeholder, n) == "min " + n + " chars"
  {
    var t := "min {0} chars";
    assert Replace(t, Placeholder, n) == t[..4] + n + t[7..] by {
      assert t[4..7] == Placeholder && t[..4] == "min ";
      FirstOccursAtByFirstChar(t, Placeholder, 4);
      ReplaceLiteral(t, Placeholder, n, 4);
    }
    assert t[..4] == "min " && t[7..] == " chars";
  }

  /** getErrorMessage returning "3" (or any other `$`-free text) fills "min {0} chars". */
  lemma MinLengthMessage(n: string)
    requires '$' !in n
    ensures Run([Rule(Returned(Boolean(false)), Some(Returned(Some(n))), "min {0} chars")])
            == Verdict("min " + n + " chars", Error)
  {
    MinLengthTemplate(n);
    LastFailureWins([Rule(Returned(Boolean(false)), Some(Returned(Some(n))), "min {0} chars")], 0);
  }

  /** A validator that throws, with no getErrorMessage: the static template, not the thrown text. */
  lemma ThrowingValidator()
    ensures Run([Rule(Threw("Error: boom"), None, "invalid {0}")]) == Verdict("invalid {0}", Error)
  {
  }

  /** "{0}!" with "Error: bad" in its `{0}`. */
  lemma BadTemplate()
    ensures Replace("{0}!", Placeholder, "Error: bad") == "Error: bad!"
  {
    var t := "{0}!";
    assert Replace(t, Placeholder, "Error: bad") == "" + "Error: bad" + t[3..] by {
      assert t[0..3] == Placeholder && t[..0] == "";
      FirstOccursAtByFirstChar(t, Placeholder, 0);
      ReplaceLiteral(t, Placeholder, "Error: bad", 0);
    }
    assert "" + "Error: bad" + t[3..] == "Error: bad!";
  }

  /** A getErrorMessage that throws: its string form takes the place of `{0}`. */
  lemma ThrowingMessageCallback()
    ensures Run([Rule(Returned(Null), Some(Threw("Error: bad")), "{0}!")]) == Verdict("Error: bad!", Error)
  {
    BadTemplate();
    LastFailureWins([Rule(Returned(Null), Some(Threw("Error: bad")), "{0}!")], 0);
  }

  /** Only the first `{0}` is replaced; later ones stay in the message. */
  lemma FirstPlaceholderOnly()
    ensures Replace("{0} or {0}", Placeholder, "x") == "x or {0}"
  {
    var t := "{0} or {0}";
    assert Replace(t, Placeholder, "x") == "" + "x" + t[3..] by {
      assert t[0..3] == Placeholder && t[..0] == "";
      FirstOccursAtByFirstChar(t, Placeholder, 0);
      ReplaceLiteral(t, Placeholder, "x", 0);
    }
    assert "" + "x" + t[3..] == "x or {0}";
  }

  /** Replacement patterns in the captured text are expanded: `$$` yields a single `$`. */
  lemma DollarPatternExpanded()
    ensures Replace("cost {0}", Placeholder, "$$5") == "cost $5"
  {
    var t := "cost {0}";
    assert Replace(t, Placeholder, "$$5") == t[..5] + Substitute("$$5", Placeholder, t[..5], t[8..]) + t[8..] by {
      assert t[5..8] == Placeholder && t[..5] == "cost ";
      FirstOccursAtByFirstChar(t, Placeholder, 5);
    }
    assert Substitute("$$5", Placeholder, t[..5], t[8..]) == "$5" by {
      assert "$$5"[2..] == "5";
      assert "5"[1..] == "";
    }
    assert t[..5] + "$5" + t[8..] == "cost $5";
  }

  /** Two failing rules: the second one's message is published. */
  lemma LastOfTwoFailures()
    ensures Run([Rule(Returned(Undefined), None, "first"), Rule(Returned(Boolean(false)), None, "second")])
            == Verdict("second", Error)
  {
  }

  /** 0 and "" count as passing results. */
  lemma ZeroAndEmptyStringPass()
    ensures Run([Rule(Returned(Number(0)), None, "a"), Rule(Returned(Str("")), None, "b")]) == Reset
  {
  }
}
