# drago-one formatted inputs, route registry and layout drawer in Dafny

This project is a Dafny model of the parts of the drago-one admin dashboard (a React/Material-UI
single-page application) that compute something. It covers five areas.

- **NumberInput.** The formatted number-input control
  (`src/components/ui/inputs/NumberInput/NumberInput.tsx`). The model covers:
  - how a `format` prop resolves to a template, in which `#` marks a digit slot;
  - how a typed value is cleaned into the stored value (`cleanValue`);
  - how the stored digits fill the template for display (`applyPattern`, `formatValue`);
  - where the caret goes after a reformat (`calculateCursorPosition`);
  - how Backspace and the arrow keys step over separators (`handleKeyDown`);
  - the validation rules handed to the form library (`getValidationRules`);
  - the placeholder, the progress target and the masked display;
  - the component's state fields: `lastFormattedValue`, `isFocused`, `showMask` and `selectedCountryCode`.
- **Format and country tables.** `FORMAT_PATTERNS` and `COUNTRY_CODES` from `src/constants/form-controls.ts`.
- **RouteRegistry.** The route registry of `src/routes/RouteRegistry.ts` and its records from
  `src/routes/types.ts`. It is a keyed store of module route configurations with an `initialized`
  flag. The model covers:
  - registration that ignores duplicate names;
  - pre-order flattening of the route trees, with paths joined onto their parents';
  - the menu view, sorted by menu order.
- **useRoutes.** The menu derivation and path lookup of `src/hooks/useRoutes.ts`.
- **Layout drawer.** The drawer state of `src/components/layout/Layout.tsx`: open and collapsed
  flags, driven by the toggle, close and collapse handlers and by the mobile/desktop switch. Its
  derived content width is modelled too.

Some JavaScript semantics are written out explicitly because the behaviour depends on them:
- **Truthiness:** the empty string and `0` are falsy, so `order || 999` turns both a missing order
  and an order of 0 into 999.
- **`slice` indices:** they are clamped, and a negative index counts from the end.
- **`split` and `join`** behave as in JavaScript.
- **Reading past the end:** `pattern[i]` beyond the end is `undefined`, which is "not a slot".
- **Sorting:** `Array.prototype.sort` is stable. It is modelled as the insertion sort that yields
  the same order.

Files:
- `wrappers.dfy`: `Option`.
- `js_string.dfy`: the string built-ins the code calls.
- `form_controls.dfy`: the two tables.
- `number_input.dfy`: the pure formatting pipeline and the caret rule.
- `validation.dfy`: `parseInt`, `parseFloat` and the validation rules.
- `number_input_control.dfy`: the key handlers, the masked display and the component's state as a
  class.
- `stable_sort.dfy`: the stable sort.
- `route_types.dfy`: the route records.
- `route_registry.dfy`: the registry class.
- `use_routes.dfy`: the menu derivation.
- `layout.dfy`: the drawer state machine and its class.

In these places the code does not do what its comments or names suggest; the model follows the
code.
- **Sign normalisation (NumberInput.tsx:164-172).** The comment at :164 says only the first minus
  sign is kept. When that first `-` is not at index 0, every `-` is removed instead, and the value
  does not become negative: `"12-34-5"` becomes `"12345"`.
- **Without `allowNegative` (NumberInput.tsx:139-142).** The prop's name suggests that a value
  without it never carries a `-`. Only a leading `-` is stripped: both character filters keep `-`
  (as the comment at :146 says) and the sign step runs only with `allowNegative`, so every later
  `-` stays in the stored value: `"1-2"` stays `"1-2"`.
- **Several decimal points (NumberInput.tsx:149-158).** The comments at :149 and :155 say one
  point is kept and the decimal places are limited. The later points are merged into the
  fraction, but the limit is checked against the stale second part, so `"12.3.45"` cleans to
  `"12.345"` when `decimalPlaces` is 2, and cleaning again gives `"12.34"`.
- **Length limit with a point (NumberInput.tsx:175-185).** The comment at :175 calls this a
  length constraint, but it also moves the point. The first `maxLength` digits are put back with
  the point before the last `decimalPlaces` of them, so `"123.4"` held to three digits with two
  places becomes `"1.23"`. With `decimalPlaces` 0 the point goes in front of all of them
  (`slice(-0)` is the whole string), so `"123."` held to two digits becomes `".12"`, a point left
  dangling in front.

The masked display (NumberInput.tsx:587) shows one bullet per digit of the formatted text. That
count includes digits in the template's literals, such as the `91` of `+91 `.

## Model

| member | source | states |
|---|---|---|
| FormControls.LookupFormat | src/constants/form-controls.ts:2-25 | A key is found exactly when it is one of the fifteen registered names, and it then yields that name's template |
| FormControls.IndianPhoneTemplateSlots | src/constants/form-controls.ts:4-5 | The Indian phone templates, with and without `+91`, have 10 slots |
| FormControls.UsPhoneTemplateSlots | src/constants/form-controls.ts:6 | `(###) ###-####` has 10 slots |
| FormControls.UsCodePhoneTemplateSlots | src/constants/form-controls.ts:7 | `+1 (###) ###-####` has 10 slots |
| FormControls.BasicPhoneTemplateSlots | src/constants/form-controls.ts:8 | `##########` has 10 slots |
| FormControls.IdentityTemplateSlots | src/constants/form-controls.ts:11-12 | AADHAAR has 12 slots and SSN has 9 |
| FormControls.CardTemplateSlots | src/constants/form-controls.ts:15-17 | CARD has 16 slots, CARD_AMEX 15 and CVV 3 |
| FormControls.CodeTemplateSlots | src/constants/form-controls.ts:20-22 | PIN has 6 slots, OTP_4 has 4 and OTP_6 has 6 |
| FormControls.BankTemplateSlots | src/constants/form-controls.ts:23-24 | ACCOUNT has 12 slots and ROUTING has 9 |
| FormControls.TemplatesEndInSlot | src/constants/form-controls.ts:4-24 | Every template is non-empty and its last character is a slot |
| FormControls.TemplateDigitLiterals | src/constants/form-controls.ts:4-24 | A template's literals are digit-free exactly when it is neither PHONE_IN_WITH_CODE nor PHONE_US_WITH_CODE |
| FormControls.CountryCodes | src/constants/form-controls.ts:28-34 | Every calling code is `+` followed by digits; US and CA share `+1`; no other two countries share a code |
| NumberInput.ResolvePattern | src/components/ui/inputs/NumberInput/NumberInput.tsx:117-120 | No template exactly when the format is missing or empty; a registered name gives its template; any other string is its own template |
| NumberInput.ExtractDigits | src/components/ui/inputs/NumberInput/NumberInput.tsx:123-126 | The result is all digits and holds every digit of the input as often as the input does |
| NumberInput.ExtractDigitsConcat | src/components/ui/inputs/NumberInput/NumberInput.tsx:123-126 | The digits of a concatenation are the first part's digits followed by the second's: the order is kept |
| NumberInput.ExtractDigitsOne | src/components/ui/inputs/NumberInput/NumberInput.tsx:125 | One character is kept exactly when it is a digit; with ExtractDigitsConcat this fixes the result to the input's digits in order |
| NumberInput.CleanValue | src/components/ui/inputs/NumberInput/NumberInput.tsx:129-188 | Only digits, points and signs remain. Under a template: digits only. With a positive `maxLength`: at most that many digits. No point under a template or without `allowDecimal`, and never more than one. With `allowNegative`: at most one `-`, and only in front |
| NumberInput.LimitDecimals | src/components/ui/inputs/NumberInput/NumberInput.tsx:145-158 | At most one point remains, and only if there was one. Characters are only removed or merged, never invented. With one point the fraction is cut to `decimalPlaces`; with several it is merged without a cut when the second part is short |
| NumberInput.SignStep | src/components/ui/inputs/NumberInput/NumberInput.tsx:164-172 | A `-` survives only when the value started with one, and then only in front; everything other than `-` is untouched |
| NumberInput.NormalizeFreeForm | src/components/ui/inputs/NumberInput/NumberInput.tsx:138-172 | The free-form branch leaves only numeric characters, at most one point (none without decimals), and a sign only in front |
| NumberInput.LimitLength | src/components/ui/inputs/NumberInput/NumberInput.tsx:175-185 | The value is unchanged unless a `maxLength` is given and exceeded. It is then rebuilt from exactly its first `maxLength` digits, holds only digits and at most one point, and holds a point only when one was kept; where the point goes is stated by LimitLengthMovesPoint |
| NumberInput.RepointAt | src/components/ui/inputs/NumberInput/NumberInput.tsx:179-181 | On a non-empty run of digits, the point goes before the last `decimalPlaces` digits, or before all of them when `decimalPlaces` is 0 or at least the run's length |
| NumberInput.LimitLengthMovesPoint | src/components/ui/inputs/NumberInput/NumberInput.tsx:175-185 | For digits `a.f` over the limit, the result is the first `maxLength` digits of `af` with the point before the last `decimalPlaces` of them (all of them when `decimalPlaces` is 0), wherever the point stood in the input |
| NumberInput.CleanValueMovesPoint | src/components/ui/inputs/NumberInput/NumberInput.tsx:129-188 | A stored `a.f` whose fraction fits but whose digits exceed `maxLength` comes out with the point moved as LimitLengthMovesPoint says |
| NumberInput.LengthLimitLeadingPoint | src/components/ui/inputs/NumberInput/NumberInput.tsx:175-185 | With no decimal places, `a.` held to fewer digits than `a` has is stored as `.` followed by the first `maxLength` digits |
| NumberInput.CleanValueUnderTemplate | src/components/ui/inputs/NumberInput/NumberInput.tsx:135-136 | Under a template the stored value is a prefix of the input's digits, all of them when no limit applies, and `min(digits, maxLength)` of them when one does |
| NumberInput.OnlyLeadingSignRemoved | src/components/ui/inputs/NumberInput/NumberInput.tsx:139-142 | Without `allowNegative`, `allowDecimal` and a limit, the number of `-` left is the input's count less one for a leading `-` |
| NumberInput.MergedFractionSkipsLimit | src/components/ui/inputs/NumberInput/NumberInput.tsx:150-158 | `a.b.c` with `b` within the limit cleans to `a.(b+c)`, with no cut on the merged fraction |
| NumberInput.FractionCut | src/components/ui/inputs/NumberInput/NumberInput.tsx:156-158 | `a.f` with a long fraction cleans to `a.` followed by the first `decimalPlaces` digits of `f` |
| NumberInput.CleanValueNotIdempotent | src/components/ui/inputs/NumberInput/NumberInput.tsx:150-158 | Cleaning such a merged value a second time changes it, so `cleanValue` is not idempotent |
| NumberInput.Fill | src/components/ui/inputs/NumberInput/NumberInput.tsx:197-204 | The walk is no longer than the template, and empty exactly when there are no digits or no template |
| NumberInput.ApplyPattern | src/components/ui/inputs/NumberInput/NumberInput.tsx:191-207 | The loop's output equals the template walk: the digits themselves when either input is empty, and otherwise the filled template |
| NumberInput.FillAt | src/components/ui/inputs/NumberInput/NumberInput.tsx:197-204 | Each output position holds the template's literal or, at a slot, the digit whose turn it is |
| NumberInput.FillConsumed | src/components/ui/inputs/NumberInput/NumberInput.tsx:197 | The walk uses exactly `min(digits, slots)` digits |
| NumberInput.FillCoversTemplate | src/components/ui/inputs/NumberInput/NumberInput.tsx:197 | With more digits than slots, the whole template is rendered |
| NumberInput.FillEndsOnSlot | src/components/ui/inputs/NumberInput/NumberInput.tsx:197 | Otherwise the output stops right after the slot of the last digit, with no trailing separator |
| NumberInput.FillSlotsRoundTrip | src/components/ui/inputs/NumberInput/NumberInput.tsx:191-207 | Reading the slot positions of the output gives back the first `min(digits, slots)` digits |
| NumberInput.FillDigits | src/components/ui/inputs/NumberInput/NumberInput.tsx:123-126 | With digit-free literals, the digits of the output are exactly the digits that fit |
| NumberInput.FillIgnoresSurplus | src/components/ui/inputs/NumberInput/NumberInput.tsx:197 | For a template ending in a slot, digits beyond the slot count do not change the output |
| NumberInput.FormatValue | src/components/ui/inputs/NumberInput/NumberInput.tsx:210-228 | Without a template the display is the stored value. Under one it is no longer than the template, and it is empty exactly when the stored value is |
| NumberInput.FormatValueDisplay | src/components/ui/inputs/NumberInput/NumberInput.tsx:210-228 | Without a template the display is the stored value. Under one it is no longer than the template, keeps the template's literals, and its slots read back the stored digits that fit |
| NumberInput.FormatValueFills | src/components/ui/inputs/NumberInput/NumberInput.tsx:210-228 | Under a template a non-empty stored value is displayed by filling the template with its digits |
| NumberInput.RedisplayedDigits | src/components/ui/inputs/NumberInput/NumberInput.tsx:210-228 | With digit-free literals, cleaning the display returns the stored digits that fit |
| NumberInput.FormatValueIdempotent | src/components/ui/inputs/NumberInput/NumberInput.tsx:210-228 | For a template whose literals have no digit and which ends in a slot, formatting the display again changes nothing |
| NumberInput.CodePrefixShowsDigit | src/components/ui/inputs/NumberInput/NumberInput.tsx:210-228 | With PHONE_IN_WITH_CODE, the value "1" is displayed as "+91 1" |
| NumberInput.CodeDisplayDigits | src/components/ui/inputs/NumberInput/NumberInput.tsx:123-126 | The digits read back from "+91 1" are "911", which include the calling code |
| NumberInput.CodePrefixRereadsCode | src/components/ui/inputs/NumberInput/NumberInput.tsx:210-228 | Formatting "+91 1" again gives "+91 911", so formatting is not idempotent for that template |
| NumberInput.CodePrefixLeaksIntoDigits | src/constants/form-controls.ts:5 | The digits of any PHONE_IN_WITH_CODE display start with the `91` of its prefix |
| NumberInput.CalculateCursorPosition | src/components/ui/inputs/NumberInput/NumberInput.tsx:231-262 | Without a template the caret stays. After a deletion it goes to the last slot before the old caret, or 0, with no slot in between. After an insertion it lands right after the slot of the next digit of the new display, or at the display's end when there is none |
| NumberInput.SlotBeforeCaret | src/components/ui/inputs/NumberInput/NumberInput.tsx:239-246 | The backward walk ends at 0 or on a slot below the old caret, with no slot between |
| NumberInput.CaretAfterDigit | src/components/ui/inputs/NumberInput/NumberInput.tsx:248-261 | The forward walk stops right after the slot of digit `target + 1`, or at the display's end |
| NumberInput.CaretFollowsDigit | src/components/ui/inputs/NumberInput/NumberInput.tsx:250-258 | When the new display holds more digits than were left of the old caret, the caret lands after a slot rather than at the end |
| NumberInput.ZeroFill | src/components/ui/inputs/NumberInput/NumberInput.tsx:269 | Every slot becomes `0` and every literal stays |
| NumberInput.ZeroFillIsZeroDisplay | src/components/ui/inputs/NumberInput/NumberInput.tsx:269 | The zero-filled template is exactly the display of an all-zero value that fills it |
| NumberInput.GetPlaceholder | src/components/ui/inputs/NumberInput/NumberInput.tsx:265-284 | A given placeholder wins. Under a template the placeholder is the zero-filled template, behind the country's code for phone formats when the code is shown. Otherwise it is "Enter " followed by the lower-cased label, or "Enter number" when the label is missing or empty; the fixed PHONE_IN, AADHAAR and CARD examples are never reached, as those names always resolve to a template |
| NumberInput.GetExpectedDigitCount | src/components/ui/inputs/NumberInput/NumberInput.tsx:457-463 | `maxLength` when given; otherwise the template's number of `#` marks, and nothing without a template |
| NumberInput.ExpectedCountFillsTemplate | src/components/ui/inputs/NumberInput/NumberInput.tsx:457-463 | A value with exactly the expected number of digits renders the whole template |
| Validation.ParseInt | src/components/ui/inputs/NumberInput/NumberInput.tsx:310 | `parseInt` is NaN exactly when no digit follows the optional sign |
| Validation.ParseIntRoundTrip | src/components/ui/inputs/NumberInput/NumberInput.tsx:310 | `parseInt` reads back any integer written in decimal |
| Validation.ParseFloat | src/components/ui/inputs/NumberInput/NumberInput.tsx:310 | `parseFloat` is NaN exactly when, after the optional sign, there is neither a leading digit nor a point followed by a digit; the value is never positive after a `-` and never negative otherwise |
| Validation.ParseFloatOfDecimal | src/components/ui/inputs/NumberInput/NumberInput.tsx:310 | `parseFloat` of `a.f` is the exact decimal of the digits `a f` over `10^|f|` |
| Validation.Run | src/components/ui/inputs/NumberInput/NumberInput.tsx:296-356 | The length check passes when there are at most `maxLength` digits; phone exactly 10; Aadhaar exactly 12; card 13 to 19; range passes on NaN or within the given bounds. A failure carries the source's message: "Maximum N digits allowed", "Value must be at least N" when below `min`, else "Value must be at most N", "Phone number must be 10 digits", "Aadhaar number must be 12 digits", "Card number must be 13-19 digits" |
| Validation.BuiltInChecks | src/components/ui/inputs/NumberInput/NumberInput.tsx:293-357 | Each built-in check is present exactly under its condition, under its own key, and the entries come in the order the source adds them: length, range, phoneLength, aadhaarLength, cardLength |
| Validation.Collect | src/components/ui/inputs/NumberInput/NumberInput.tsx:293-357 | Exactly the applying checks are collected, each under its key, in the source's order |
| Validation.Add | src/components/ui/inputs/NumberInput/NumberInput.tsx:294-300 | One `{ ...rules.validate, key }` step adds the entry last when it applies, keeping the order |
| Validation.FirstFailure | src/components/ui/inputs/NumberInput/NumberInput.tsx:293-357 | The reported verdict passes exactly when every check passes; otherwise it is the verdict of a failing check before which every check passed |
| Validation.RangeMessageBeforePhone | src/components/ui/inputs/NumberInput/NumberInput.tsx:303-335 | Under PHONE_IN with a lower bound, a value failing the range check is reported with the range message, even when the phone check fails too |
| Validation.GetValidationRules | src/components/ui/inputs/NumberInput/NumberInput.tsx:287-360 | The keys are `required`, `validate` when a check applies, and the caller's keys. The caller's rules win every key they name. Otherwise `required` is the message or off, and `validate` is the ordered list of built-in checks |
| Validation.PhoneRuleMeansFullTemplate | src/components/ui/inputs/NumberInput/NumberInput.tsx:326-335 | Under the Indian phone formats, with no limit, the phone check passes exactly when the value fills the 10 slots |
| Validation.AadhaarRuleMeansFullTemplate | src/components/ui/inputs/NumberInput/NumberInput.tsx:337-346 | Under AADHAAR, with no limit, the check passes exactly when the value fills the 12 slots |
| Validation.CardRuleAcceptsHiddenDigits | src/components/ui/inputs/NumberInput/NumberInput.tsx:348-357 | Under CARD the check counts the typed digits (13 to 19), while the template shows only 16 of them |
| Validation.CardDisplayShowsSixteen | src/components/ui/inputs/NumberInput/NumberInput.tsx:210-228 | Under the card template, a stored value of more than 16 digits shows exactly 16 of them in the slots |
| Validation.LengthRuleNeverFails | src/components/ui/inputs/NumberInput/NumberInput.tsx:293-301 | The length check always passes, because cleaning has already cut the value to `maxLength` digits |
| Validation.RangeRulePassesUnreadable | src/components/ui/inputs/NumberInput/NumberInput.tsx:312 | A value the parser cannot read passes the range check whatever the bounds |
| Validation.CustomValidateReplaces | src/components/ui/inputs/NumberInput/NumberInput.tsx:359 | A caller's `validate` replaces the whole built-in check map |
| Validation.RangeOfStoredInteger | src/components/ui/inputs/NumberInput/NumberInput.tsx:305-322 | A stored integer passes the range check exactly when it lies within the bounds |
| NumberInputControl.MaskedDisplay | src/components/ui/inputs/NumberInput/NumberInput.tsx:587 | When masked, the display is one non-digit bullet per digit of the formatted text; otherwise it is the formatted text |
| NumberInputControl.MaskCountsStoredDigits | src/components/ui/inputs/NumberInput/NumberInput.tsx:587 | With digit-free literals, the mask has one bullet per stored digit that fits the template |
| NumberInputControl.MaskCountsCodeDigits | src/components/ui/inputs/NumberInput/NumberInput.tsx:587 | With PHONE_IN_WITH_CODE, one stored digit shows as three bullets |
| NumberInputControl.SeparatorRunStart | src/components/ui/inputs/NumberInput/NumberInput.tsx:424-427 | The walk ends below the caret, at 0 or just after a slot, with no slot between it and the caret |
| NumberInputControl.SkipSeparators | src/components/ui/inputs/NumberInput/NumberInput.tsx:441-447 | The caret moves strictly in the key's direction, past separators only, and stops on a slot or outside the template |
| NumberInputControl.BackspaceKey | src/components/ui/inputs/NumberInput/NumberInput.tsx:420-437 | Before a separator, Backspace is prevented. When a slot precedes the separator run, that slot's character and the run up to the caret are removed and the caret goes to the removed slot. Otherwise nothing changes |
| NumberInputControl.ArrowKey | src/components/ui/inputs/NumberInput/NumberInput.tsx:440-452 | The key is prevented exactly when the skip target lies within the text, and the caret then moves there; otherwise it stays |
| NumberInputControl.ProcessInput | src/components/ui/inputs/NumberInput/NumberInput.tsx:363-399 | The stored value is the cleaned input and the display is its formatting. Under a template the stored value is digits and the display fits the template. The caret follows the caret rule, with a deletion read as "shorter than before" |
| NumberInputControl.NumberField.HandleInputChange | src/components/ui/inputs/NumberInput/NumberInput.tsx:363-399 | As ProcessInput, and `lastFormattedValue` becomes the new display; nothing else changes |
| NumberInputControl.NumberField.Render | src/components/ui/inputs/NumberInput/NumberInput.tsx:585-594 | The display is the masked or plain formatting of the form value, and the count is its stored digits; `lastFormattedValue` follows the display |
| NumberInputControl.NumberField.HandleFocus | src/components/ui/inputs/NumberInput/NumberInput.tsx:402-405 | Focused; the other fields are unchanged |
| NumberInputControl.NumberField.HandleBlur | src/components/ui/inputs/NumberInput/NumberInput.tsx:408-411 | Not focused; the other fields are unchanged |
| NumberInputControl.NumberField.ToggleMask | src/components/ui/inputs/NumberInput/NumberInput.tsx:680 | The mask flag flips; the other fields are unchanged |
| NumberInputControl.NumberField.SelectCountry | src/components/ui/inputs/NumberInput/NumberInput.tsx:631 | The chosen country becomes the selected one; the other fields are unchanged |
| NumberInputControl.NumberField.HandleKeyDown | src/components/ui/inputs/NumberInput/NumberInput.tsx:414-454 | Without a template or for other keys, nothing happens. Backspace and the arrows change the element's text and caret as BackspaceKey and ArrowKey state |
| StableSort.SortBySorted | src/routes/RouteRegistry.ts:45 | The sort's result is ascending by key |
| StableSort.SortByPermutes | src/routes/RouteRegistry.ts:45 | The sort's result holds the same elements, each as often |
| StableSort.SortByStable | src/routes/RouteRegistry.ts:45 | Elements with equal keys keep their relative order |
| StableSort.SortByOrdered | src/routes/RouteRegistry.ts:45 | An input that is already in order is returned unchanged |
| RouteTypes.OrderOr999 | src/routes/RouteRegistry.ts:45 | A missing order or an order of 0 sorts as 999; any other order sorts as itself |
| RouteRegistry.Find | src/routes/RouteRegistry.ts:9 | A lookup finds nothing exactly when no entry has the name; a found entry has that name |
| RouteRegistry.FindAppend | src/routes/RouteRegistry.ts:14 | After appending, a lookup finds the old entry first, else the new one |
| RouteRegistry.Flatten | src/routes/RouteRegistry.ts:23-34 | Flattening yields at least one route per top-level tree, and the first is the first tree's root with its path joined onto the base |
| RouteRegistry.FlattenCount | src/routes/RouteRegistry.ts:23-34 | Flattening yields one route per tree node |
| RouteRegistry.FlattenUnderBase | src/routes/RouteRegistry.ts:26 | Every flattened path extends the base path |
| RouteRegistry.ParentFirst | src/routes/RouteRegistry.ts:24-32 | A route comes first, with its full path, and its subtree follows it, flattened under that path |
| RouteRegistry.FlattenModulesCount | src/routes/RouteRegistry.ts:22-37 | All modules together give one route per node of every registered tree |
| RouteRegistry.ProcessRoutes | src/routes/RouteRegistry.ts:23-34 | The closure appends the pre-order flattening of the trees to the accumulator |
| RouteRegistry.Registry.Register | src/routes/RouteRegistry.ts:8-16 | A name already present leaves the registry unchanged; a new name is appended; the names stay distinct |
| RouteRegistry.Registry.GetAllRoutes | src/routes/RouteRegistry.ts:19-40 | The result is every module's flattened trees in insertion order, one route per node |
| RouteRegistry.Registry.GetMenuRoutes | src/routes/RouteRegistry.ts:43-46 | The result is a permutation of the configurations, ascending by menu order, and stable |
| RouteRegistry.Registry.GetModuleRoutes | src/routes/RouteRegistry.ts:49-51 | The result is the configuration registered under the name, or nothing when there is none; with names kept distinct, it is the one module carrying that name |
| RouteRegistry.Registry.Initialize | src/routes/RouteRegistry.ts:54-79 | Once initialized, nothing changes; otherwise the loaded module, if any, is registered and the flag is set |
| RouteRegistry.Registry.Clear | src/routes/RouteRegistry.ts:82-85 | No modules remain and the flag is reset |
| RouteRegistry.RegisteredLookup | src/routes/RouteRegistry.ts:14 | After a new registration, the new name finds its configuration and every other name finds what it found before |
| UseRoutes.FirstMenuRoute | src/hooks/useRoutes.ts:18 | Nothing is found exactly when no route is shown in the menu; a found route is shown |
| UseRoutes.FirstMenuRouteAt | src/hooks/useRoutes.ts:18 | The route found is the first one shown |
| UseRoutes.ShownChildren | src/hooks/useRoutes.ts:24 | Exactly the children shown in the menu are kept |
| UseRoutes.ShownChildrenConcat | src/hooks/useRoutes.ts:24 | The filter of a concatenation is the concatenation of the filters: order and repeats are kept |
| UseRoutes.ShownChildrenOne | src/hooks/useRoutes.ts:24 | One child is kept exactly when it is shown |
| UseRoutes.SubItemsOf | src/hooks/useRoutes.ts:23-29 | One sub-entry per shown child, each carrying a shown child's title and the base path, route path and child path joined, so each lies under the main route's full path |
| UseRoutes.ModuleItem | src/hooks/useRoutes.ts:17-30 | The label is never empty, the path starts with the base path, and sub-entries exist only for a module with a shown route, each under the entry's path |
| UseRoutes.ItemOrder | src/hooks/useRoutes.ts:33-34 | 999 when no module carries the entry's label as group label; otherwise the order of the first module carrying it |
| UseRoutes.ItemLabel | src/hooks/useRoutes.ts:20 | The label is never empty |
| UseRoutes.GenerateMenuData | src/hooks/useRoutes.ts:14-37 | The entries are a permutation of the menu modules' entries, ascending by item order, with equal orders kept in module order |
| UseRoutes.Items | src/hooks/useRoutes.ts:15-31 | Exactly the modules with a shown route contribute an entry, each its own, and there are no more entries than modules |
| UseRoutes.ItemsConcat | src/hooks/useRoutes.ts:15-31 | The entries of a concatenation of modules are the entries of each part, in module order |
| UseRoutes.ItemsOne | src/hooks/useRoutes.ts:16-30 | One module gives exactly its own entry when it has a shown route, and none otherwise |
| UseRoutes.ModuleItemShape | src/hooks/useRoutes.ts:18-30 | The path is the base path plus the first shown route's path. The label falls back from the group label to that route's title to "Unknown". Sub-entries exist exactly when the route has children; they are its shown children in ascending menu order, children of equal order in their original order, with joined paths |
| UseRoutes.FindGroup | src/hooks/useRoutes.ts:33-34 | A found module carries the label as group label; nothing is found exactly when no module does |
| UseRoutes.ItemOrderOfGroup | src/hooks/useRoutes.ts:32-36 | An entry labelled by its own group sorts by its own module's order when no earlier module uses that label |
| UseRoutes.GetRouteByPath | src/hooks/useRoutes.ts:39-41 | Nothing is found exactly when no route has the path; a found route has it |
| UseRoutes.GetRouteByPathFirst | src/hooks/useRoutes.ts:40 | With several routes on a path, the first one is found |
| Layout.Initial | src/components/layout/Layout.tsx:20-21 | The drawer starts open exactly on a desktop, and not collapsed |
| Layout.MediaChange | src/components/layout/Layout.tsx:24-31 | Switching to mobile closes and expands the drawer; switching to desktop opens it and keeps its collapse; no switch changes nothing |
| Layout.Toggle | src/components/layout/Layout.tsx:33-43 | On a phone the drawer opens or closes and its collapse stays; every result is coherent, meaning a desktop drawer is open |
| Layout.Close | src/components/layout/Layout.tsx:45-49 | The drawer ends up closed exactly on a phone; a desktop drawer is left alone |
| Layout.ToggleCollapse | src/components/layout/Layout.tsx:51-53 | The collapse flips and nothing else changes |
| Layout.MainWidth | src/components/layout/Layout.tsx:56-61 | The width is "100%" exactly on a phone or beside a closed drawer. Otherwise it is a `calc(100% - …)` whose digits are 100 followed by the current drawer width |
| Layout.MainAreaWidth | src/components/layout/Layout.tsx:101 | The extra phone test at the use site gives the same width as `getMainContentWidth` |
| Layout.DesktopToggleCollapses | src/components/layout/Layout.tsx:36-42 | In every reachable desktop state the toggle only flips the collapse, so the branch that opens a closed drawer is never taken |
| Layout.ToggleTwice | src/components/layout/Layout.tsx:33-43 | Toggling twice from a reachable state returns to it |
| Layout.ToggleClosedDesktop | src/components/layout/Layout.tsx:36-39 | From a closed desktop drawer, which is unreachable, two toggles end open and collapsed |
| Layout.DesktopWidthBesideDrawer | src/components/layout/Layout.tsx:56-61 | On a desktop in a reachable state, the content never takes the whole width |
| Layout.DrawerLayout.MediaQueryChange | src/components/layout/Layout.tsx:24-31 | The state becomes MediaChange of the old state, and stays coherent |
| Layout.DrawerLayout.HandleDrawerToggle | src/components/layout/Layout.tsx:33-43 | The state becomes Toggle of the old state, and is coherent |
| Layout.DrawerLayout.HandleDrawerClose | src/components/layout/Layout.tsx:45-49 | The state becomes Close of the old state, and stays coherent |
| Layout.DrawerLayout.HandleToggleCollapse | src/components/layout/Layout.tsx:51-53 | The state becomes ToggleCollapse of the old state, and stays coherent |
| Layout.DrawerLayout.MainContentWidth | src/components/layout/Layout.tsx:56-61 | "100%" exactly on a phone or with the drawer closed |

## Left out

- **React and the DOM.** Rendering, styling and JSX are left out, including the adornments, the
  country `Select`, the character-count colours and icons. The hooks' memoisation is left out too.
- **The `setTimeout` caret fix-up.** It is modelled only as the caret value it computes.
- **Events and callbacks.** The `input` event dispatched after a Backspace edit is left out. So
  are the `onChange`, `onValueChange`, `onFocus` and `onBlur` callbacks: they are opaque sinks.
- **Validation.ParseFloat.** It reads the exact decimal, not its double-precision rounding. The
  exponent, `Infinity` and whitespace forms cannot occur in a cleaned value and are not modelled.
- **Validation.ParseInt.** It does not skip leading whitespace. A cleaned value never has any.
  It reads an exact integer, while `parseInt` returns a double: above 2^53 the source's number is
  rounded (`"9007199254740993"` reads as 9007199254740992), so a range check against a bound that
  large can differ from the model's.
- **NumberInput.Props.** `decimalPlaces` is an integer. A fractional value, which `slice`
  truncates, is not modelled.
- **JsString.ToLowerAscii.** The placeholder's label is lower-cased on the ASCII letters only.
  JavaScript's `toLowerCase` folds the whole of Unicode (`"É"` becomes `"é"`); other letters are
  left as they are here.
- **Validation.FirstFailure.** Which message the form library shows is its own behaviour, outside
  this repository. The model takes it to run the `validate` checks in key order and report the
  first failure.
- **Validation.RuleProps.** `min` and `max` are integers. Fractional bounds are not modelled.
- **Validation.RuleValue.** A caller's custom rule is an opaque value. Its validator functions
  are never run.
- **FormControls.LookupFormat.** It does not model the object prototype's inherited keys (such as
  `toString`) as lookups into `FORMAT_PATTERNS`.
- **NumberInput.Props.** `maxLength` is an integer, and 0 stands for "not given". The code tests
  it only for truthiness, so both behave alike. `NaN` is not modelled.
- **Route records.** The page `element`, the icons, `requiresAuth`, `roles` and `meta` are not
  fields. No modelled operation reads them, and the menu items carry no icon.
- **Route order values.** `menuOrder` and `menuGroup.order` are integers. Fractional and `NaN`
  orders are not modelled, and the comparator's subtraction is read as a comparison of integers.
- **RouteRegistry.Registry.Initialize.** It takes the dynamically imported module as a parameter:
  nothing when the import failed or provided no `getRoutes`. The asynchronous import, concurrent
  calls during the `await`, and console logging are not modelled.
- **The `useRoutes` memoisation.** Its snapshots of the registry are parameters, and its
  `getModuleRoutes` wrapper is RouteRegistry.Registry.GetModuleRoutes.
- **Layout.MainWidth.** The collapsed and full drawer widths come from `src/constants/layout`,
  which is not part of this model. They are parameters. The app-bar heights and transitions are
  styling.
- **NumberInputControl.ProcessInput, NumberInputControl.NumberField.HandleInputChange and
  NumberInputControl.NumberField.HandleKeyDown.** Strings are sequences of Unicode code points,
  while JavaScript's `length`, indexing and `selectionStart` count UTF-16 code units. For text
  outside the Basic Multilingual Plane the lengths and caret indices differ. For example, pasting
  "😀" over the display "12" gives a 2-unit value in JavaScript, so `2 < 2` reads it as no
  deletion; in the model it is 1 character long and counts as a deletion, so the caret comes from
  the backward walk. A custom template holding such characters shifts every caret and slot index
  in the same way. Inputs and templates within the Basic Multilingual Plane behave alike.
- **React render timing.** The layout effect and the `setLastFormattedValue` call during render
  are applied as atomic state changes. The intermediate render with the old state is not
  modelled.
