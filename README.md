# Field validation pass of useValidation, in Dafny

`src/composable/validation.ts` gives form components a reactive validity
structure. It is built from a value and an ordered list of rules. Each rule
has a `validator`, an optional `getErrorMessage` and a `message` template. On
every change a pass:

- resets `message` and `status`;
- runs every rule's validator (no early exit);
- for each failing rule, writes that rule's message, with `getErrorMessage`'s
  text in the first `{0}` when the rule has one;
- sets `status` to `'error'` when any rule failed;
- derives `isValid` and copies `message` and `status` into
  `attrs.feedback` and `attrs.validationStatus`.

This project models that pass and proves what it promises.

Files:

- `optional.dfy`: module `Optional`, the `Option` type (a nil result, or
  indexOf's `-1`).
- `jsstring.dfy`: module `JsString`, the ECMAScript builtins that line 77
  relies on. These are `indexOf` for a plain string, ECMA-262's
  GetSubstitution with no captures, and `String.prototype.replace` with a
  string pattern.
- `validation.dfy`: module `Validation`, which holds:
  - the callback outcomes as data;
  - `IsFalsyOrHasThrown` and `ErrorMessageOrThrown`;
  - the pure fold `Run` that specifies one pass, and the lemmas about it;
  - the state objects as classes: `ValidationState` holds `message`,
    `status`, `isValid` and a `const attrs: ValidationAttrs`, and
    `ValidationAttrs` holds `feedback` and `validationStatus`;
  - `ValidationState.Revalidate`, the watch callback, as a `for` loop whose
    invariant ties the fields to `Run` over the rules visited so far.
- `scenarios.dfy`: module `ValidationScenarios`, concrete passes in the
  documented scenarios.

Callbacks are foreign code. A `Rule` therefore carries what its callbacks did
on the current value, as data:

- the validator's outcome is `Threw(error)` or `Returned(v)`, where `v` is a
  `JsValue`;
- the message callback's outcome is an optional `Threw(error)` or
  `Returned(None | Some(s))`.

`Status` is `Unset` (JavaScript `undefined`) or `Error` (`'error'`).

The replacement text on line 77 is expanded exactly as `replace` expands it.
`$$`, `$&`, `` $` `` and `$'` are special; everything else is copied.
`JsString.ReplaceLiteral` gives the plain splice for text without `$`, and
`ValidationScenarios.DollarPatternExpanded` shows a `$$` being expanded.

## Model

| member | source | states |
|---|---|---|
| `JsString.IndexFrom` | src/composable/validation.ts:77 | the result is the first index at or after `k` where the pattern occurs; None means no occurrence from `k` on |
| `JsString.IndexOf` | src/composable/validation.ts:77 | Some exactly when the pattern occurs; the index is its first occurrence |
| `JsString.SubstituteLiteral` | src/composable/validation.ts:77 | replacement text without `$` comes out of GetSubstitution unchanged |
| `JsString.Replace` | src/composable/validation.ts:77 | a template without the pattern is returned unchanged; otherwise only the first occurrence is replaced, and the text before and after it is kept verbatim |
| `JsString.ReplaceLiteral` | src/composable/validation.ts:77 | with `$`-free replacement text, the result is prefix + text + suffix around the first occurrence |
| `Validation.IsFalsyOrHasThrown` | src/composable/validation.ts:14-27 | a validator fails exactly when it threw, returned `undefined` or `null`, or returned `false` |
| `Validation.FailureIsNarrowerThanFalsy` | src/composable/validation.ts:18-22 | over the modelled values, every failing result is falsy, and the falsy results that pass are exactly `0` and `""`: the policy is not truthiness |
| `Validation.ErrorMessageOrThrown` | src/composable/validation.ts:29-36 | a throw gives the thrown value's string; a nil or empty return gives `''`; a non-empty string is returned as it is |
| `Validation.PlaceholderSubstitution` | src/composable/validation.ts:75-78 | when the captured text has no `$`, a failing rule with getErrorMessage writes its template with that text in place of the first `{0}` only |
| `Validation.NoPlaceholderKeepsTemplate` | src/composable/validation.ts:75-78 | a failing rule with getErrorMessage whose template has no `{0}` writes the template unchanged, for any captured text |
| `Validation.ErrorIffSomeRuleFails` | src/composable/validation.ts:70-84 | after a pass, status is `'error'` exactly when some rule's validator fails; when status is unset the message is `''` |
| `Validation.NoFailureIsClean` | src/composable/validation.ts:70-84 | when no rule fails, the pass leaves message `''` and status undefined |
| `Validation.LastFailureWins` | src/composable/validation.ts:73-84 | the published message is the failure message of the last failing rule in list order, and status is `'error'` |
| `Validation.RunConcat` | src/composable/validation.ts:73-84 | rules before a list that contains a failing rule do not affect the outcome; passing rules after the list do not either |
| `Validation.ValidationAttrs.constructor` | src/composable/validation.ts:61-64 | attrs start with feedback `''` and validationStatus undefined |
| `Validation.ValidationState.constructor` | src/composable/validation.ts:52-65 | before the first pass: message `''`, status undefined, isValid false, fresh attrs with feedback `''` and validationStatus undefined |
| `Validation.ValidationState.Revalidate` | src/composable/validation.ts:69-89 | the new message and status are those of the fold over the rules, whatever the state before; isValid equals status != `'error'`, and attrs mirrors message and status |
| `Validation.RevalidateTwice` | src/composable/validation.ts:70-71 | a second pass on the same rules leaves message, status and isValid exactly as the first pass left them |
| `Validation.RevalidateForgetsHistory` | src/composable/validation.ts:70-71 | two states with any histories hold identical fields after a pass over the same rules |
| `Validation.UseValidation` | src/composable/validation.ts:52-93 | the returned state is fresh and already reflects one pass over the rules (the immediate watch) |
| `ValidationScenarios.RequiredRule` | src/composable/validation.ts:73-84 | a required-style rule gives `required`/`'error'` on a failing value and `''`/undefined on a passing one |
| `ValidationScenarios.MinLengthTemplate` | src/composable/validation.ts:77 | `"min {0} chars"` with text `n` becomes `"min " + n + " chars"` |
| `ValidationScenarios.MinLengthMessage` | src/composable/validation.ts:75-78 | a failing rule whose getErrorMessage returns `"3"` publishes `"min 3 chars"` |
| `ValidationScenarios.ThrowingValidator` | src/composable/validation.ts:79-82 | a validator that throws, in a rule without getErrorMessage, publishes the static template, not the thrown text |
| `ValidationScenarios.BadTemplate` | src/composable/validation.ts:77 | `"{0}!"` with `"Error: bad"` becomes `"Error: bad!"` |
| `ValidationScenarios.ThrowingMessageCallback` | src/composable/validation.ts:33-35 | a getErrorMessage that throws puts the thrown value's string form in place of `{0}` |
| `ValidationScenarios.FirstPlaceholderOnly` | src/composable/validation.ts:77 | `"{0} or {0}"` with `"x"` becomes `"x or {0}"` |
| `ValidationScenarios.DollarPatternExpanded` | src/composable/validation.ts:77 | captured text `"$$5"` is inserted as `"$5"`, the way `replace` expands it |
| `ValidationScenarios.LastOfTwoFailures` | src/composable/validation.ts:73-84 | of two failing rules, the second one's message is published |
| `ValidationScenarios.ZeroAndEmptyStringPass` | src/composable/validation.ts:18-22 | validators returning `0` and `""` pass |

## Left out

- Vue reactivity: `reactive`, `watch`, `{ immediate: true }` and the dependency tracking on `source` and the extra watch refs (lines 3, 52, 67-68, 90). The framework schedules passes; here `UseValidation` is construction plus one `Revalidate`, and each later trigger is one more `Revalidate` call.
- `get`/`MaybeRef` unwrapping of `rules` (lines 1, 73): `rules` is a plain sequence.
- lodash's `_.isNil` (line 18): it is `IsNil`, true of the `Undefined` and `Null` values.
- Running caller-supplied callbacks and exceptions: foreign code. A rule carries the outcome of each callback on the current value. What is not captured: how many times, and whether, `getErrorMessage` is called, and any side effects of the callbacks.
- The exact `e.toString()` text of a thrown value (line 34) is an opaque string input.
- A thrown value whose `toString` itself throws (`null`, `undefined`, `Object.create(null)`) is not modelled. The `e.toString()` call on line 34 is unguarded, so in the source that TypeError escapes `getErrorMessageOrThrown` and the whole watch callback. Lines 70-71 and the earlier rules' writes to `message` and `status` have then happened, but lines 86-88 never run. So `isValid` and `attrs` keep the previous pass's values and no longer mirror `message` and `status`. The model cannot express this: a message outcome always has text, and `Revalidate` always ends with `Published()`.
- `getErrorMessage` is typed to return a string. Only a string or a nil return is modelled, so `cb() || ''` on other falsy values (`0`, `false`) is not.
- JavaScript values: numbers are `int`, so NaN, `-0` and fractions are not represented. NaN and `-0` are falsy values that pass a validator. BigInt is not modelled (`0n` is another falsy value that passes). `Other` stands for objects, arrays, functions and symbols. Each of these passes a validator, so the pass does not change, but the statement about falsy values that pass holds only over the modelled values.
- Strings are sequences of Dafny `char`, not UTF-16 code units. Surrogate pairs are not modelled.
- The model states only the state at the end of a pass. The source makes separate writes to a reactive object (lines 70, 71, 77/80, 82, 86-88), and the caller's validators and `getErrorMessage` run between the reset and the final writes. The values that synchronous observers or the callbacks see mid-pass are not modelled.
