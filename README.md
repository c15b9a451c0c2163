# HVAC quoter: pricing, promo codes and quiz, in Dafny

The HVAC quoter is a small web app. A homeowner answers a seven-step quiz, sees three price tiers
(Silver, Gold, Platinum) for a replacement system, and may enter a promo code for a rebate.
This project models the logic behind it and proves properties of that model:

- **Pricing engine** (`pricing.dfy`, module `Pricing`).
  - The dealer-cost table by brand, system type and size.
  - `calculateRetail`: cost plus labour, divided by one minus the 55 % margin, rounded up to a hundred.
  - `getPricing`:
    - the brand is chosen by priority;
    - the system type is classified by an ordered substring check;
    - a size missing from the table falls back to 3 ton;
    - the tiers sit at fixed offsets above the Silver price, each with a monthly figure rounded from 1.5 % of its lower bound.
  - All arithmetic is exact integer arithmetic.
- **Client promo-code store** (`promo_code_manager.dfy`, module `PromoCodeManager`).
  - The module-level dictionary is modelled as the class `PromoCodeTable`, whose entries field is an insertion-ordered sequence of (key, amount) pairs.
  - Codes are normalised by upper-casing and deleting whitespace.
  - Amounts are clamped to [0, 1000].
  - Each mutating method is proved against a pure transition function (`AfterAdd`, `AfterRemove`, `AfterUpdate`). Lemmas state what each transition keeps and changes.
- **Server promo-code store** (`storage.dfy`, module `Storage`). The promo-code part of `MemStorage` is a class with:
  - the id-to-record map;
  - the id counter;
  - the insertion order in which `Map.values()` enumerates.

  Its invariant says every key is its record's id, is listed once, and lies below the counter. Lookup by code compares upper case against upper case, with nothing stripped.
- **HTTP handlers** (`routes.dfy`, module `Routes`).
  - The five promo-code routes are methods over a `MemStorage`.
  - Each takes its request already parsed: `None` stands for a failed schema check or a `NaN` id.
  - The create and update checks are pure functions (`ValidateCreate`, `ValidateUpdate`). The handlers are proved to answer exactly as those decide, and to leave the store untouched on every error status.
- **Quiz step machine** (`quiz.dfy`, module `Quiz`).
  - The seven-step table.
  - `handleSelect` and `handleRebateSubmit` as pure transitions (`Select`, `RebateSubmit`) on the step index and the answers.
  - The component state as the class `QuizController`, whose methods are proved against those transitions.
  - The promo-code lookup that `handleRebateSubmit` requests is a boolean parameter, `found`.

`ascii.dfy` (module `Ascii`) holds the string operations these need:
- `toUpperCase`;
- deletion of `\s`;
- `trim`;
- `includes`.

`options.dfy` holds the `Option` type.

POST's duplicate test goes through `getPromoCodeByCode`, so `fullsystem` conflicts with `FullSystem`. It is case-insensitive, not an exact-match check, and the model follows the code.

The quiz does not feed the pricing in the app itself: `home.tsx` drops the quiz answers and renders `Results` with no `quizData` at all. So the model prices the three strings directly, and `ResultsPricing`, the screen's own defaulting, is stated over an answer object, the empty one included.

## Model

| member | source | states |
|---|---|---|
| Ascii.UpperChar | client/src/lib/promoCodeManager.ts:22 | a lower-case letter becomes its capital (32 code points lower); every other character is kept; the result is never lower case |
| Ascii.UpperCharSameIff | server/storage.ts:73 | two characters upper-case alike exactly when they are equal or the same letter in the other case |
| Ascii.UpperSameIff | server/storage.ts:73 | two strings upper-case alike exactly when they have the same length and agree position by position up to letter case |
| Ascii.Upper | server/storage.ts:73 | `toUpperCase` keeps the length and upper-cases character by character |
| Ascii.RemoveSpaces | client/src/lib/promoCodeManager.ts:22 | `replace(/\s+/g, '')` leaves no whitespace, never grows, and keeps only characters of the input |
| Ascii.UpperOfUpperless | client/src/lib/promoCodeManager.ts:22 | upper-casing a string without lower-case letters changes nothing |
| Ascii.RemoveSpacesOfSpaceless | client/src/lib/promoCodeManager.ts:22 | deleting whitespace from a string without whitespace changes nothing |
| Ascii.TrimStart | client/src/components/quiz.tsx:129 | the result is a suffix, everything dropped is whitespace, and it does not start with whitespace |
| Ascii.TrimEnd | client/src/components/quiz.tsx:129 | the result is a prefix, everything dropped is whitespace, and it does not end with whitespace |
| Ascii.Trim | client/src/components/quiz.tsx:129 | `trim()`: with TrimEmptyIffBlank, all-blank input gives "" and otherwise the slice between the first and last non-whitespace characters |
| Ascii.TrimEmptyIffBlank | client/src/components/quiz.tsx:129-131 | `trim()` is empty exactly when the input is all whitespace; otherwise it starts and ends with non-whitespace and is a slice of the input |
| Ascii.Contains | client/src/components/results.tsx:96-99 | `includes`: with ContainsIffOccurs, true exactly when the pattern occurs at some position |
| Ascii.ContainsIffOccurs | client/src/components/results.tsx:96-101 | `includes` holds exactly when the pattern occurs at some position |
| Pricing.CostRow | client/src/components/results.tsx:28-69 | every brand and system type has a row of four costs |
| Pricing.DealerCost | client/src/components/results.tsx:104-113 | a cost is found exactly for 2, 3, 4 and 5 ton, and it is positive |
| Pricing.LaborOverhead | client/src/components/results.tsx:75 | labour is 1000 exactly for `2ton`/`3ton` and 1200 for any other size |
| Pricing.CalculateRetail | client/src/components/results.tsx:73-82 | the retail price is the least multiple of 100 with 45 % of it covering cost plus labour, hence above cost plus labour |
| Pricing.Monthly | client/src/components/results.tsx:127 | the monthly figure is 1.5 % of the total rounded half up |
| Pricing.BrandFor | client/src/components/results.tsx:89-90 | the brand is Ameristar if and only if the priority is `budget` |
| Pricing.Classify | client/src/components/results.tsx:94-101 | gaspack iff the type contains `gaspack`; package iff it contains `package` but not `gaspack`; split iff neither |
| Pricing.Resolve | client/src/components/results.tsx:93-113 | brand and kind as classified; the size is kept when the table has it and is 3 ton otherwise; the cost is the table's entry for that choice |
| Pricing.TiersFrom | client/src/components/results.tsx:116-140 | from a whole-hundred Silver price: ranges at +0/+500, +1500/+2000, +3000/+4000, strictly increasing, all whole hundreds, monthly of each lower bound |
| Pricing.GetPricing | client/src/components/results.tsx:88-143 | the quote is well shaped, has the fixed offsets, and its Silver price is the retail price of the resolved cost, above cost plus labour |
| Pricing.SizeFallback | client/src/components/results.tsx:104-106 | a size the table lacks, the empty size included, prices exactly as `3ton` |
| Pricing.NonBudgetPrioritiesAgree | client/src/components/results.tsx:89-90 | every priority but `budget` gives the same quote as `performance`, and `value` does too |
| Pricing.UnknownTypeIsSplit | client/src/components/results.tsx:94-101 | a type containing neither `package` nor `gaspack` prices as `split` |
| Pricing.BudgetSplitThreeTon | client/src/components/results.tsx:116-140 | budget, 3 ton, split: cost 3768, Silver 10600–11100 at 159, Gold 12100–12600 at 182, Platinum 13600–14600 at 204 |
| Pricing.AnswerOr | client/src/components/results.tsx:146-148 | a present, non-empty answer is the result; a missing or empty one gives the default |
| Pricing.ResultsPricing | client/src/components/results.tsx:146-150 | with AnswersArePriced and ResultsDefaults: supplied answers are priced as given, missing ones as `value`, `3ton`, `split` |
| Pricing.AnswersArePriced | client/src/components/results.tsx:146-150 | when priority, size and system type are all supplied and non-empty, the screen prices exactly those answers |
| Pricing.ResultsDefaults | client/src/components/results.tsx:146-150 | an empty answer object is priced as `value`/`3ton`/`split`, i.e. American Standard split 3 ton at cost 5673 |
| Pricing.DefaultSilver | client/src/components/results.tsx:146-150 | for an empty answer object the Silver range is 14900–15400 at 224 a month |
| PromoCodeManager.NormalizeCode | client/src/lib/promoCodeManager.ts:21-23 | a normalised code contains no whitespace and no lower-case letter |
| PromoCodeManager.NormalizeIdempotent | client/src/lib/promoCodeManager.ts:21-23 | normalising twice is normalising once |
| PromoCodeManager.Cap | client/src/lib/promoCodeManager.ts:52 | the clamped amount lies in [0, 1000], equals the amount inside that range, is 0 below it and 1000 above it |
| PromoCodeManager.FirstMatch | client/src/lib/promoCodeManager.ts:38-42 | the first key in key order whose normalised form equals the query, or none if no key matches |
| PromoCodeManager.KeyIndex | client/src/lib/promoCodeManager.ts:53 | the position of the exact key, or none if it is not stored |
| PromoCodeManager.AddSpec | client/src/lib/promoCodeManager.ts:50-54 | the empty code is a no-op; a non-empty code maps exactly to the clamped amount; all other keys, their lookups and positions are kept; at most one entry is added; the invariant is kept |
| PromoCodeManager.RemoveAtSpec | client/src/lib/promoCodeManager.ts:67 | deleting a key drops that entry only, in order, and keeps the invariant |
| PromoCodeManager.RemoveSpec | client/src/lib/promoCodeManager.ts:59-69 | an empty code or no match is a no-op; otherwise exactly the first normalised match is deleted and all other entries stay |
| PromoCodeManager.UpdateSpec | client/src/lib/promoCodeManager.ts:74-84 | no key is added or moved; only the first normalised match gets the clamped amount; no match is a no-op; the invariant is kept |
| PromoCodeManager.Rebate | client/src/lib/promoCodeManager.ts:28-45 | `getRebate`: 0 for the empty code, else the amount of the first normalised match or 0; always within [0, 1000] for a consistent table |
| PromoCodeManager.AfterAdd | client/src/lib/promoCodeManager.ts:50-54 | `addPromoCode` as a transition: with AddSpec, the exact key takes the clamped amount and nothing else changes |
| PromoCodeManager.AfterRemove | client/src/lib/promoCodeManager.ts:59-69 | `removePromoCode` as a transition: with RemoveSpec, only the first normalised match is deleted |
| PromoCodeManager.AfterUpdate | client/src/lib/promoCodeManager.ts:74-84 | `updatePromoCode` as a transition: with UpdateSpec, only the first normalised match is re-amounted |
| PromoCodeManager.RebateIgnoresCaseAndSpace | client/src/lib/promoCodeManager.ts:36-42 | two non-empty codes with the same normalised form get the same rebate |
| PromoCodeManager.FullSystemSpelling | client/src/lib/promoCodeManager.ts:36-42 | with the default codes, any spelling that normalises like `FullSystem` gets 1000 |
| PromoCodeManager.NoBlankDefault | client/src/lib/promoCodeManager.ts:3-8 | no default key normalises to the empty string |
| PromoCodeManager.LowerCaseSpelling | client/src/lib/promoCodeManager.ts:21-23 | `fullsystem` normalises like `FullSystem` |
| PromoCodeManager.SpacedSpelling | client/src/lib/promoCodeManager.ts:21-23 | `Full System` normalises like `fullsystem` |
| PromoCodeManager.DefaultRebates | client/src/lib/promoCodeManager.ts:28-45 | with the defaults, `fullsystem` and `Full System` both give a rebate of 1000 |
| PromoCodeManager.FirstMatchAppend | client/src/lib/promoCodeManager.ts:38-42 | an entry appended at the end matches only if no earlier key matched |
| PromoCodeManager.BlankCodeIsLookedUp | client/src/lib/promoCodeManager.ts:28-45 | only the empty code short-circuits to 0: a stored all-blank key is found by the same blank code |
| PromoCodeManager.AddShadowedByNormalisedTwin | client/src/lib/promoCodeManager.ts:38-53 | adding a new exact key whose normalised form is already stored changes no rebate, because the older key comes first |
| PromoCodeManager.PromoCodeTable.constructor | client/src/lib/promoCodeManager.ts:3-14 | the table starts as the four default codes |
| PromoCodeManager.PromoCodeTable.GetRebate | client/src/lib/promoCodeManager.ts:28-45 | the loop returns the amount of the first normalised match, 0 for the empty code or no match, always within [0, 1000] |
| PromoCodeManager.PromoCodeTable.AddPromoCode | client/src/lib/promoCodeManager.ts:50-54 | the new table is the add transition of the old one, and the invariant is kept |
| PromoCodeManager.PromoCodeTable.RemovePromoCode | client/src/lib/promoCodeManager.ts:59-69 | the new table is the remove transition of the old one, and the invariant is kept |
| PromoCodeManager.PromoCodeTable.UpdatePromoCode | client/src/lib/promoCodeManager.ts:74-84 | the new table is the update transition of the old one, and the invariant is kept |
| PromoCodeManager.PromoCodeTable.GetAllPromoCodes | client/src/lib/promoCodeManager.ts:89-91 | a copy of every entry, all amounts within [0, 1000] |
| Storage.Stamp | server/storage.ts:42 | a default record takes the given id and keeps every listed field |
| Storage.StampedFrom | server/storage.ts:40-43 | the defaults in order, with consecutive ids |
| Storage.InitialRecords | server/storage.ts:33-38 | four active codes with ids 1 to 4 and amounts 500, 750, 500, 1000 |
| Storage.NewRecord | server/storage.ts:79-84 | the created record has the given id, keeps code and amount, and defaults the description to "" and the flag to true only when they are omitted |
| Storage.Merge | server/storage.ts:93 | supplied fields overwrite, omitted ones are kept, and the id is never changed |
| Storage.MergeNothing | server/storage.ts:93 | an empty update leaves the record unchanged |
| Storage.MergeIdempotent | server/storage.ts:93 | repeating an update changes nothing more |
| Storage.MergeCompose | server/storage.ts:93 | two updates in a row equal one update in which the later field values win |
| Storage.FindByCode | server/storage.ts:72-74 | the first record in insertion order whose code equals the query up to letter case, or none if no record matches |
| Storage.ByCode | server/storage.ts:71-75 | none exactly when no record matches; otherwise a stored, matching record |
| Storage.ByCodeIgnoresCase | server/storage.ts:73 | queries equal up to letter case find the same record |
| Storage.FindByCodeAppend | server/storage.ts:72-74 | a record appended at the end is found only when no earlier record matched |
| Storage.CreatedIsFound | server/storage.ts:77-86 | a new code, once created, is what a lookup in any letter case returns |
| Storage.LengthMatters | server/storage.ts:73 | no whitespace is stripped: a query of another length never matches |
| Storage.MemStorage.Records | server/storage.ts:63-65 | the records listed in insertion order, each stored under its own id |
| Storage.MemStorage.constructor | server/storage.ts:23-30 | the store holds the four defaults with ids 1 to 4, and the counter is 5 |
| Storage.MemStorage.InitDefaults | server/storage.ts:32-44 | the defaults are appended in order with consecutive ids from the counter, which ends four higher |
| Storage.MemStorage.StoreSeed | server/storage.ts:40-43 | one default is stored under the counter's old value, which no record had |
| Storage.MemStorage.GetPromoCodes | server/storage.ts:63-65 | every record, in insertion order |
| Storage.MemStorage.GetPromoCode | server/storage.ts:67-69 | the record under the id, present exactly when the id is stored |
| Storage.MemStorage.GetPromoCodeByCode | server/storage.ts:71-75 | the loop returns the first case-insensitive match in insertion order |
| Storage.MemStorage.CreatePromoCode | server/storage.ts:77-87 | the new id is the old counter, above every stored id; the counter grows by one; the record is appended and nothing else changes |
| Storage.MemStorage.UpdatePromoCode | server/storage.ts:89-96 | an absent id returns none and changes nothing; otherwise the merge replaces the record in place, keeping its position; ids and the counter are unchanged |
| Storage.MemStorage.DeletePromoCode | server/storage.ts:98-100 | returns true iff the id was stored; removes that record only, at its position; the counter is unchanged, so ids are never reused |
| Routes.ValidateCreate | server/routes.ts:37-51 | a record is created iff the body parsed, the amount is at most 1000 and no case-insensitive duplicate exists; the errors are 400, 400 and 409 in that order |
| Routes.ValidateUpdate | server/routes.ts:58-69 | the store is consulted iff the id parsed, the body parsed and any supplied amount is at most 1000; otherwise 400 with the matching message |
| Routes.CreateBounds | server/routes.ts:43 | for a new code, only the upper bound is checked: 1000 and negative amounts pass |
| Routes.SecondPostConflicts | server/routes.ts:48-51 | after a created code, posting it again in any letter case is a 409 |
| Routes.GetByPathCode | server/routes.ts:12-20 | 200 with id, code, rebate and description of the first case-insensitive match when it is active; 404 otherwise |
| Routes.GetWithQuery | server/routes.ts:22-34 | an absent or empty code lists every record; otherwise 200 with the rebate and stored code of an active match, else 404 |
| Routes.Post | server/routes.ts:36-55 | answers as the create checks decide; on an error the store is untouched; on 201 it returns the new record, appended under the next id |
| Routes.Put | server/routes.ts:57-75 | answers as the update checks decide, then 404 for an unknown id, both without touching the store; else 200 with the merged record stored in place |
| Routes.Delete | server/routes.ts:77-85 | 400 for a bad id and 404 for an unknown one, store untouched; else 204, the record is gone and the others keep their order, which the listing shows |
| Quiz.StepTable | client/src/components/quiz.tsx:27-106 | seven steps with distinct ids; only the last one takes input and has no options |
| Quiz.SelectSpec | client/src/components/quiz.tsx:116-126 | the value is stored under the current step's id and no other answer changes; the step advances by one before the last and completes with the new answers on the last; it stays in range |
| Quiz.Select | client/src/components/quiz.tsx:116-126 | `handleSelect`: with SelectSpec, the value is stored under the current step's id, then the step advances or the quiz completes |
| Quiz.Replay | client/src/components/quiz.tsx:116-126 | with one selection per click, the step stays within 0 to 6 |
| Quiz.ReplayCompletes | client/src/components/quiz.tsx:116-126 | one selection per remaining step reaches the last step and completes with the answers |
| Quiz.ReplayRecords | client/src/components/quiz.tsx:116-126 | each remaining step's selection ends up under that step's id |
| Quiz.ReplayKeeps | client/src/components/quiz.tsx:116-126 | answers under other keys are left as they were |
| Quiz.SevenSelections | client/src/components/quiz.tsx:116-126 | seven selections from the start complete with each step's value under its id and no other key |
| Quiz.RebateSubmit | client/src/components/quiz.tsx:128-163 | a blank input selects "" with no lookup; otherwise the trimmed input is looked up and selected only if found; a failed lookup changes nothing |
| Quiz.RecordedRebateIsTrimmed | client/src/components/quiz.tsx:129-153 | on the promo step the recorded code is "" exactly for blank input, and otherwise a slice of the input without surrounding whitespace |
| Quiz.QuizController.constructor | client/src/components/quiz.tsx:109-110 | the quiz starts on the first step with no answers |
| Quiz.QuizController.HandleSelect | client/src/components/quiz.tsx:116-126 | the new step and answers, and the completion, are those of the select transition |
| Quiz.QuizController.HandleRebateSubmit | client/src/components/quiz.tsx:128-163 | the lookup requested and the new state are those of the submit transition |

## Left out

- Floating point.
  - `CalculateRetail` and `Monthly` compute exactly: `100 * ceil((cost + labour) / 45)` and `Math.round` rounding halves up.
  - JavaScript divides by `1 - 0.55`, which is 0.44999999999999996 in IEEE doubles. Where cost plus labour is an exact multiple of 45, `Math.ceil` can land one hundred higher (not always: 4050 gives 9000 in doubles too). In the table this happens for American Standard, package, 2 ton: 7200 / 0.45 is 16000 exactly, while the expression evaluates to 16100 in IEEE doubles.
  - `Math.round` near a .5 boundary has the same caveat.
- The `console.warn` on the size-fallback path is output only and is not modelled.
- `Pricing.ResultsPricing` takes an answer object. As wired in `home.tsx`, `Results` receives no `quizData`, so reading `quizData.priority` throws; that failure is not modelled.
- `formatCurrency` is not modelled: it relies on `Intl.NumberFormat`. Ranges are pairs of integers, not formatted strings.
- `DealerCost`:
  - a size string that names an inherited object property (such as `constructor`) is treated as missing from the table;
  - the second fallback of `getPricing`, which resets the system type to split when the brand has no such row, cannot fire, since classification always yields a row of the table; it is therefore not modelled as a separate branch.
- Rebates are never subtracted from tier prices. `getPricing` takes no rebate, and no shown code applies one.
- The quiz-to-results wiring in `home.tsx`, all React rendering, animation and toasts (including the admin page, whose imports do not match the promo-code module), and the lead form's validation are not part of this model.
- `Ascii.Upper`, `Ascii.RemoveSpaces`, `Ascii.Trim`: only ASCII letters are case-mapped, and only ASCII whitespace (space and tab through carriage return) counts as whitespace. JavaScript also folds and strips non-ASCII characters.
- `PromoCodeManager.FirstMatch`: keys are enumerated in insertion order. JavaScript enumerates integer-like object keys (such as `"123"`) first, in numeric order.
- `PromoCodeManager.AfterAdd`: adding the key `__proto__` stores an entry in the model, while in JavaScript the assignment hits the prototype setter and stores nothing.
- `PromoCodeManager.PromoCodeTable.AddPromoCode`: a `NaN` amount is not modelled. Amounts are integers.
- `PromoCodeManager.RebateIgnoresCaseAndSpace` requires both codes to be non-empty. The empty code returns 0 before any lookup, while an all-blank code normalises to "" and can match a stored blank key.
- Request parsing is taken as input (`Option` values): Express routing, zod's `safeParse` and `parseInt`, which accepts `"12abc"` as 12. A repeated `?code=` query parameter (an array) is not modelled.
- `Routes.Post`, `Routes.Put`: zod's own field checks (types, integer amounts) are inside the parse outcome.
- Users in `MemStorage` (`getUser`, `getUserByUsername`, `createUser`, `randomUUID`) are not modelled: they are not used by the promo-code logic.
- Concurrency: the handlers' `await`s and interleaved requests are not modelled. Each handler runs to completion on the store.
- Quiz:
  - the 250 ms `setTimeout` before the step advances is modelled as an immediate advance, so the double-click race it allows is left out;
  - the `fetch` of `handleRebateSubmit` is the boolean `found`: a non-OK response and a network error are the same failure;
  - the `isValidating` and `direction` flags and the typed-input state are UI only.
- `Quiz.Replay` stops at completion: clicks after `onComplete` are not modelled.
