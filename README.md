# Document lookup form — Dafny model

This project models the logic of a small client-side web form. A user picks a
document type (CC, CE, NIT or PASSPORT) and types a document number. The form
validates both fields. A valid payload goes to a simulated lookup, which waits
a random delay and then returns a success or a failure result carrying a
reference and a timestamp. The page cycles idle → loading → result → idle. UI
strings come from a nested locale tree by dotted keys.

Modules, one per source file, plus two helpers:

- `Wrappers`: `Option` and `Result`.
- `Numerals`: decimal numerals as `${n}` writes them, and canonical numeral
  parsing. The reference uses the first; array and string index keys use the
  second.
- `Types` (`src/lib/types.ts`): the document type, the payload and the lookup
  result. `WellFormed` ties `data`/`error` to `success`.
- `Validation` (`src/lib/validation.ts`): the schema's rules as functions. The
  issue list comes out in schema order.
- `Simulate` (`src/lib/simulate.ts`): the lookup as a pure builder. The random
  draws, the clock and the ISO-8601 strings are parameters.
- `FormComponent` (`src/components/Form.tsx`): class `Form` holding the raw
  field values and the per-field error map. Its handlers are methods.
- `HomePage` (`src/pages/Home.tsx`): class `Home`, the three-state page
  machine, and which panel is visible.
- `Translation` (`src/hooks/useTranslation.ts`): a JSON tree, `split('.')`,
  and the lookup loop of `t`, proved against a recursive walk.

Three points about the code:

- The validator does not return one message per field. It returns zod's
  ordered issue list, and the form keeps the last message per field.
- The result type does not tie `data`/`error` to `success`. `WellFormed`
  states that link, and both producers are proved to establish it.
- The reference is unique only in that distinct clock readings or suffixes
  give distinct references (`Simulate.ReferenceInjective`).

## Model

| member | source | states |
|---|---|---|
| `Types.ParseDocumentType` | src/lib/types.ts:1 | a string that reads as a document type is exactly that type's tag |
| `Types.ParseTag` | src/lib/types.ts:1 | every document type reads back from its tag |
| `Types.DocumentTypeTags` | src/lib/validation.ts:3 | exactly "CC", "CE", "NIT" and "PASSPORT" name a document type; "" does not |
| `Types.WellFormedExactlyOne` | src/lib/types.ts:8-22 | in a well-formed result exactly one of `data`/`error` is present, and `success` says which |
| `Validation.Parse` | src/lib/validation.ts:10-15 | accepted iff the type is a tag and the number is at least 5 ASCII letters/digits; the payload then echoes both fields and is valid; otherwise the non-empty ordered issue list |
| `Validation.DocumentNumberMessages` | src/lib/validation.ts:5-8 | the number gets the length message iff it is shorter than 5, then the character message iff it fails `^[A-Za-z0-9]+$`, in that order |
| `Validation.DocumentTypeMessages` | src/lib/validation.ts:3 | the type gets one enum message iff it is not one of the four tags |
| `Validation.FieldsCheckedIndependently` | src/lib/validation.ts:10-13 | a field's messages depend only on that field's value |
| `Validation.CharsetRule` | src/lib/validation.ts:8 | the character rule fails exactly on "" and on a string with a character outside [A-Za-z0-9] |
| `Validation.TrailingNewlineRejected` | src/lib/validation.ts:8 | a number followed by a line break fails the anchored pattern |
| `Validation.ShortAndBadCharacter` | src/lib/validation.ts:7-8 | "ab!" gets both number messages, length first; "ab" is rejected |
| `Validation.AcceptsWellFormedInput` | src/lib/validation.ts:10-15 | ("CC", "AB123") is accepted as that payload unchanged |
| `Validation.IssuesMatchFields` | src/lib/validation.ts:3-8 | every issue's message is one of its own field's messages |
| `Validation.MessageNonEmpty` | src/lib/validation.ts:7-8 | no field message is empty, so a recorded error is always truthy |
| `Simulate.Delay` | src/lib/simulate.ts:5 | for a draw in [0, 1) the delay lies in [900, 1500) ms |
| `Simulate.Suffix` | src/lib/simulate.ts:12 | the suffix has at most 9 characters |
| `Simulate.SuffixAlphabet` | src/lib/simulate.ts:12 | each suffix character is the rendering's character from index 2 on, upper-cased, at most 9 of them; for a base-36 rendering all are in [0-9A-Z] |
| `Simulate.ReferenceRoundTrip` | src/lib/simulate.ts:12 | "REF-" + decimal(now) + "-" + suffix parses back to (now, suffix) |
| `Simulate.ReferenceInjective` | src/lib/simulate.ts:12 | distinct clock readings or suffixes give distinct references |
| `Simulate.SimulateLookup` | src/lib/simulate.ts:10-48 | the result is well formed, echoes the payload as `query`, succeeds iff the draw is at least 0.1, and carries the reference and timestamp |
| `Simulate.FailureResult` | src/lib/simulate.ts:15-25 | a draw below 0.1 gives `success = false`, error SIMULATION_ERROR with its fixed message, and no data |
| `Simulate.SuccessResult` | src/lib/simulate.ts:28-47 | any other draw gives `success`, status FOUND, details echoing the payload with `verified`, and no error |
| `Simulate.StampIndependentOfBranch` | src/lib/simulate.ts:12-13 | both branches carry the same reference, timestamp and query |
| `FormComponent.LastMessagesKeys` | src/components/Form.tsx:37-41 | after an invalid submit a field has an error iff some issue is about it |
| `FormComponent.LastMessageWins` | src/components/Form.tsx:38-40 | for a field with several issues the last one's message is kept |
| `FormComponent.LastMessagesMatchFields` | src/components/Form.tsx:37-41 | the error map only records a field's own messages |
| `FormComponent.FieldErrors` | src/components/Form.tsx:37-40 | the `forEach` loop builds the last-message-per-field map |
| `FormComponent.InvalidSubmitErrors` | src/components/Form.tsx:35-41 | an invalid submit records an error exactly for each field with issues, holding its last message |
| `FormComponent.MessagesForLast` | src/components/Form.tsx:38-40 | a field's last issue message is the one the error map holds |
| `FormComponent.Form.constructor` | src/components/Form.tsx:13-17 | the form starts with both fields "" and no errors |
| `FormComponent.Form.HandleInputChange` | src/components/Form.tsx:19-26 | sets only the named field and clears only that field's error |
| `FormComponent.Form.Catch` | src/components/Form.tsx:35-43 | validation issues replace the error map; any other exception leaves it unchanged |
| `FormComponent.Form.HandleSubmit` | src/components/Form.tsx:28-44 | a valid form clears the errors and hands on the validated payload once; an invalid one hands on nothing and records the issues per field |
| `FormComponent.Form.HandleKeyPress` | src/components/Form.tsx:46-50 | Enter performs the submit transition; other keys change nothing |
| `HomePage.FallbackResult` | src/pages/Home.tsx:26-35 | the fallback is a well-formed failure with code UNKNOWN_ERROR and its fixed message, reference "REF-" + decimal(now), the given timestamp, echoing the form data |
| `HomePage.FallbackReferenceHasNoSuffix` | src/pages/Home.tsx:28 | the fallback reference "REF-" + decimal(now) never parses as a simulated reference |
| `HomePage.ExactlyOnePanel` | src/pages/Home.tsx:66-76 | exactly one panel shows: form when idle, spinner when loading, result card in the result state |
| `HomePage.ShowingWithoutResultIsBlank` | src/pages/Home.tsx:74 | the result state with no result shows nothing |
| `HomePage.Home.constructor` | src/pages/Home.tsx:14-15 | the page starts idle with no result |
| `HomePage.Home.HandleSubmit` | src/pages/Home.tsx:17-38 | enters loading, then the result state holding the lookup's result, or the fallback failure if the lookup threw |
| `HomePage.Home.HandleNewQuery` | src/pages/Home.tsx:40-43 | returns to idle and drops the result |
| `HomePage.Home.VisiblePanel` | src/pages/Home.tsx:66-76 | the single visible panel for the current state; in the result state it is the card for the stored, well-formed result |
| `Translation.Split` | src/hooks/useTranslation.ts:5 | `split('.')` yields at least one piece and no piece contains a dot |
| `Translation.JoinSplit` | src/hooks/useTranslation.ts:5 | rejoining the pieces with dots gives the key back |
| `Translation.SplitJoin` | src/hooks/useTranslation.ts:5 | splitting dot-joined dot-free segments gives the segments back |
| `Translation.Translate` | src/hooks/useTranslation.ts:4-13 | the loop returns the truthy value reached by walking the segments from the root, else the key |
| `Translation.WalkFromUndefined` | src/hooks/useTranslation.ts:9 | once a step is undefined every later step stays undefined |
| `Translation.FollowsSegments` | src/hooks/useTranslation.ts:5-12 | a key of dot-free segments follows exactly those segments in order |
| `Translation.MissingSegmentFallsBack` | src/hooks/useTranslation.ts:9-12 | if any segment is missing the key itself is returned |
| `Translation.EmptyStringFallsBack` | src/hooks/useTranslation.ts:12 | for every tree and key, a path that reaches "" falls back to the key |
| `Translation.EmptyStringExample` | src/hooks/useTranslation.ts:5-12 | "form.submit" found as "" returns "form.submit" |
| `Translation.SubtreeReturned` | src/hooks/useTranslation.ts:12 | a path that reaches an object returns that sub-tree, not a string |
| `Translation.SingleSegment` | src/hooks/useTranslation.ts:5-12 | a dot-free key is one member lookup on the root: the member if it is truthy, else the key |
| `Numerals.ParseNatInverse` | src/hooks/useTranslation.ts:9 | an index key reads as a number only in its one canonical spelling |

## Left out

- `Validation.EnumMessage`: the type message follows zod 3's default wording. zod is not part of this model, and other zod versions word it differently.
- `Validation.Parse`: counts a character outside the Basic Multilingual Plane as one. JavaScript's length counts it as two UTF-16 units.
- The `await`, the `setTimeout` delay and async scheduling. The delay is a computed value (`Simulate.Delay`), and interleaved submissions are not modelled.
- `Math.random`, `Date.now`, `new Date().toISOString()` and `toString(36)` are parameters. The ISO-8601 strings and the base-36 rendering are opaque. Draws are reals, not IEEE doubles.
- `details` is typed `Record<string, any>`. It is modelled as the one record shape the simulation builds.
- React state batching and closures: each handler is a sequential state update. `errors[f] = undefined` is modelled as removing the entry, because every read of the map is a truthiness test.
- The `onSubmit` callback is modelled as the payload `HandleSubmit` returns.
- `FormComponent.Form.Catch`: `HandleSubmit` never passes it `OtherError`. The parse throws only validation errors, and the async page handler does not throw synchronously.
- The form's `isLoading` flag only disables inputs, and the page always passes `false`.
- `Translation.Member`: an array's or a string's own `length` property is not modelled, and neither are members inherited through JavaScript's prototype chain, such as `constructor` or `toString`; only own object keys and canonical indices are. A `JStr` is indexed by Unicode scalar value, where JavaScript's `s[k]` indexes UTF-16 code units.
- The contents of the English locale file. The locale is any `Json` tree.
- `ResultCard.tsx` and `Spinner.tsx` (presentation, clipboard copy, locale timestamp formatting), all JSX and styling, and `console.error` logging.
