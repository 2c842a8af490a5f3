# Plus AI Labs app: a verified model of its decision logic

This project models in Dafny the parts of the Plus AI Labs web app (a Next.js
chat client with a personal "+Vault") that decide or transform something:

- **Document text extraction** (`temp_extract.py`): tags become spaces,
  white-space runs become one space, and the first 4000 characters are kept.
- **The chat execution state machine** (`contexts/ChatContext.tsx`). This covers
  `execReducer` over the `ExecStateData` record, the tier budgets, the token
  estimate, chat titles and semantic-stop detection. It also covers the
  provider's state: the execution record, the request id and the FIFO
  submission queue, plus the `canSubmit` guard.
- **+Vault context resolution and prompt assembly**:
  - `lib/vaultPolicy.ts`;
  - the same loop written inline in `app/api/vault/resolve/route.ts`;
  - the browser copy in `lib/vaultPolicyClient.ts`.

  References are walked in order against a character budget, and content is
  truncated to what remains. The prompt is a `"\n\n"`-join of fixed blocks,
  with an optional vault section.
- **+Vault autocomplete** (`hooks/useVaultAutocomplete.ts`). This covers
  detecting the `+query` trigger before the cursor, the suggestion list, the
  inserted token, the splice on selection and keyboard navigation.
- **Usage metering** (`lib/usageService.ts`): day and month bucket keys,
  bucket accumulation, default limits and the ordered limit check.
- **Billing mappings** (`lib/subscriptions.ts`): plan and price id, Stripe
  status normalisation, and the subscription document payload.
- **Vault usage events** (`lib/vaultUsage.ts`): provider classification by
  model-id prefix, and the list of referenced item ids.
- **The `.env.local` loader** of `scripts/seedFirestore.ts`.

The parts that change state in place are Dafny classes whose methods state
their whole new state:

- the chat provider (`ChatProvider.Provider`);
- the autocomplete editor (`VaultAutocomplete.Editor`);
- the usage store (`UsageService.UsageStore`);
- the process environment (`SeedEnv.ProcessEnv`).

The loops of the source are methods with loop invariants, proved equal to a
specification function:

- `resolveVaultContext` in the library and in the route;
- the block pushes of `buildPromptWithVault`;
- the `.env.local` line loop.

The pure parts are functions, with lemmas for what the source promises.

Strings are `seq<char>`. The shared JavaScript string semantics live in
`JsString`: `trim`, `split`, `join`, `slice` with negative indices,
`startsWith`, `includes`, ASCII `toLowerCase`, and truthiness.
`WhitespaceRuns` is the shared model of replacing every run of white space
with one character. It is used for Python's `re.sub(r'\s+', ' ', …)` and for
JavaScript's `replace(/\s+/g, '-')`.

Where the code and its documentation disagree, the model follows the code:

- A document whose text is wrapped in tags yields that text with a space on
  each side (`" Hello World "`), because tags become spaces and nothing is
  trimmed.
- The vault budget is not a bound on `totalChars`. With fewer than 3
  characters left, `slice(0, maxChars - 3)` counts from the end of the
  content, so the stored content is longer than what remained. Two lemmas
  pin this down: `VaultPolicy.OverBudgetExample` and the contract of
  `VaultPolicy.Truncate`.
- The route writes `"(File content placeholder)"` under each file of a
  folder, while the library writes `"(File content would be fetched here)"`.
  The two loops are proved to produce the same context from the same
  contents. `VaultResolveRoute.ContentsAgreeOutsideFolders` shows where the
  contents themselves differ.

## Model

| member | source | states |
|---|---|---|
| TextExtract.TagLengthSpec | temp_extract.py:6 | the tag matched at a position is the only prefix of the form `<`, non-`>` characters, `>` |
| TextExtract.FlattenTokenize | temp_extract.py:6 | the input splits into tags and single characters that cover it exactly, in order |
| TextExtract.StripTagsRendersPieces | temp_extract.py:6 | stripping replaces each tag by exactly one space and keeps every other character in order |
| TextExtract.TokenizeTags | temp_extract.py:6 | every piece taken as a tag matches `<[^>]+>` |
| TextExtract.TagFreeIff | temp_extract.py:6 | a text has no tag substring exactly when no `<` is followed by non-`>` characters and a `>` |
| TextExtract.StripTagsChars | temp_extract.py:6 | every character of the stripped text other than a space comes from the input |
| TextExtract.StripTagsNoTagStart | temp_extract.py:6 | no tag survives stripping |
| TextExtract.CollapseKeepsNoTagStart | temp_extract.py:7 | collapsing white space creates no tag |
| TextExtract.StripTagsFixed | temp_extract.py:6 | a text with no tag is unchanged: a stray `>`, `<>` or an unclosed `<` survives |
| TextExtract.ExtractIsPrefix | temp_extract.py:8 | the output is the prefix of length min(4000, length) of the collapsed text |
| TextExtract.ExtractTagFree | temp_extract.py:6-8 | the printed text contains no tag |
| TextExtract.ExtractCollapsed | temp_extract.py:7-8 | every white-space character of the output is a space, and no two are adjacent |
| TextExtract.ExtractIdempotent | temp_extract.py:6-8 | running the pipeline on its own output gives that output back |
| TextExtract.LeadingTagGivesLeadingSpace | temp_extract.py:6-7 | an input starting with a tag yields output starting with a space (nothing is trimmed) |
| TextExtract.ClosingTagExample | temp_extract.py:6 | `</b>` becomes one space |
| TextExtract.WrappedTextStripExample | temp_extract.py:6 | `<b>x</b>` strips to `" x "` |
| TextExtract.WrappedTextExample | temp_extract.py:6-8 | `<b>x</b>` extracts to `" x "` |
| WhitespaceRuns.DropRun | temp_extract.py:7 | drops exactly the leading white-space run: a suffix, starting with a visible character |
| WhitespaceRuns.CharsFromInput | temp_extract.py:7 | every character of the result other than the separator comes from the input |
| WhitespaceRuns.ReplaceRunsShape | temp_extract.py:7 | the only white space left is the separator, and when it is white space, no two are adjacent |
| WhitespaceRuns.ReplaceRunsKeepsVisible | temp_extract.py:7 | with a white-space separator, the visible characters are exactly the input's, in order |
| WhitespaceRuns.ReplaceRunsFixed | temp_extract.py:7 | a text whose white space is already single separators is unchanged |
| JsString.TrimSpec | contexts/ChatContext.tsx:139 | `trim` keeps one contiguous piece of the input, everything before and after it is white space, and it has no white space at either end; it is empty exactly when the input is all white space |
| JsString.JoinSplit | scripts/seedFirestore.ts:10 | joining the pieces of `split` with the same separator gives the text back |
| JsString.JoinAppend | lib/vaultPolicy.ts:134 | joining two non-empty lists puts one separator between their joins |
| ChatExec.ExecReducer | contexts/ChatContext.tsx:193-378 | budgets never change; an action not allowed from the current state returns the record unchanged; an allowed one moves to its target state |
| ChatExec.ResetAllowedEverywhere | contexts/ChatContext.tsx:360-371 | RESET is accepted from every state |
| ChatExec.StartValidationEffect | contexts/ChatContext.tsx:208-223 | START_VALIDATION is accepted only at rest and opens the request with cleared error and zero counts; otherwise nothing changes |
| ChatExec.TokenReceivedEffect | contexts/ChatContext.tsx:252-277 | TOKEN_RECEIVED only adds to the counts while streaming and stays streaming, even past 95% of the budget; otherwise nothing changes |
| ChatExec.EndingActionsClearRequest | contexts/ChatContext.tsx:306-358 | COMPLETE, FAIL, CANCEL and HIT_LIMIT clear the request id and keep the token and character counts; FAIL stores the error and the category (or none), the others keep the error |
| ChatExec.StateOnlyEffect | contexts/ChatContext.tsx:225-295 | BEGIN_ROUTING, BEGIN_PREFLIGHT, START_STREAMING, MARK_STALLED and RESUME_STREAMING change only the state, and only from their allowed states |
| ChatExec.RetryEffect | contexts/ChatContext.tsx:297-304 | RETRY from stalled or error moves to retrying and clears the error and its category, keeping everything else; otherwise nothing changes |
| ChatExec.ResetEffect | contexts/ChatContext.tsx:360-371 | RESET yields the initial record with the budgets kept |
| ChatExec.StepKeepsNoRequestAtRest | contexts/ChatContext.tsx:193-378 | every action keeps "at rest there is no open request" |
| ChatExec.RunFromInitial | contexts/ChatContext.tsx:193-403 | from the initial record, after any actions: budgets unchanged, no open request at rest, `tooling`/`finalizing` never reached |
| ChatExec.RunKeeps | contexts/ChatContext.tsx:193-378 | the invariant and the budgets hold along any action sequence |
| ChatExec.GetTokenBudget | contexts/ChatContext.tsx:145-150 | plus/paid give 100000, super 500000, anything else (missing, free, unknown) 10000 |
| ChatExec.GetCharBudget | contexts/ChatContext.tsx:153-158 | the same tiers give 6000, 12000 and 1500 |
| ChatExec.BudgetsAgreeOnTier | contexts/ChatContext.tsx:145-158 | the token and character budgets always pick the same tier |
| ChatExec.EstimateTokenCount | contexts/ChatContext.tsx:161-163 | the estimate is the length divided by 4, rounded up |
| ChatExec.TitleSpec | contexts/ChatContext.tsx:138-142 | blank text is "Untitled"; trimmed text of 48 characters or fewer is kept; longer text is cut to 48 plus "…"; at most 49 characters |
| ChatExec.SemanticStopSpec | contexts/ChatContext.tsx:166-190 | no stop under 50 characters; a stop needs a trimmed text ending in sentence punctuation or in the three backticks of a code fence; a stop stays a stop as the token count grows |
| ChatProvider.Provider.constructor | contexts/ChatContext.tsx:383-403 | the record starts idle with the subscription's budgets; no request id, empty queue |
| ChatProvider.Provider.DispatchExec | contexts/ChatContext.tsx:393 | the record becomes the reducer's result |
| ChatProvider.Provider.SetRequestId | contexts/ChatContext.tsx:403 | only the request id changes |
| ChatProvider.Provider.EnqueueSubmission | contexts/ChatContext.tsx:440-442 | the item is appended at the back of the queue |
| ChatProvider.Provider.ShiftSubmission | contexts/ChatContext.tsx:444-453 | the front item is removed; an empty queue stays empty |
| ChatProvider.Provider.ClearQueue | contexts/ChatContext.tsx:455 | the queue becomes empty |
| ChatProvider.Submittable | contexts/ChatContext.tsx:464-466 | whenever submission is allowed, the state is one START_VALIDATION is accepted from, and neither request id is set (null or the empty string) |
| ChatProvider.SubmittableAcceptsStart | contexts/ChatContext.tsx:464-466 | when `canSubmit` holds, START_VALIDATION moves to validating and opens the new request |
| ChatProvider.QueueIsFifo | contexts/ChatContext.tsx:440-453 | after shifting everything queued before an item, that item is at the front |
| ChatProvider.ShiftedAppend | contexts/ChatContext.tsx:440-453 | shifting n items off a queue with more appended is appending to what remains |
| VaultPolicy.FolderListing | lib/vaultPolicy.ts:54-56 | the listing is empty exactly when the folder has no files |
| VaultPolicy.FetchContent | lib/vaultPolicy.ts:39-66 | a file yields its placeholder and never throws; a bio yields its content or ""; a folder yields "" exactly when it has no files; a failed read throws |
| VaultPolicy.Truncate | lib/vaultPolicy.ts:100-103 | text that fits is kept; otherwise the result ends in "..."; for a limit of at least 3 it is the first limit-3 characters plus "..." (exactly the limit long); for 1 or 2 it is longer than the text's cut |
| VaultPolicy.SumCharsAppend | lib/vaultPolicy.ts:82 | the running total adds the new item's chars |
| VaultPolicy.Step | lib/vaultPolicy.ts:35-87 | a failed or empty reference adds nothing; otherwise one item with the truncated, non-empty content is appended and the total grows by its length |
| VaultPolicy.ResolveFromProps | lib/vaultPolicy.ts:31-94 | the loop only appends; `exceeded` iff total ≥ budget; the total is the sum of item chars; item shape and stop rule are kept |
| VaultPolicy.ResolveAdvance | lib/vaultPolicy.ts:31-88 | under budget, one pass of the loop body is one step of the specification |
| VaultPolicy.StepExtends | lib/vaultPolicy.ts:68-82 | a step under budget only appends, keeps the total equal to the sum, and adds an item only while under budget |
| VaultPolicy.Resolve | lib/vaultPolicy.ts:23-95 | `exceeded` iff totalChars ≥ budget; totalChars is the sum of item chars; each item's chars is its content's length and is non-empty; each item was added while under budget |
| VaultPolicy.ResolveVaultContext | lib/vaultPolicy.ts:23-95 | the loop with `break` and `continue` computes `Resolve` |
| VaultPolicy.ResolveFromSources | lib/vaultPolicy.ts:31-80 | the sources of the items added from a position on are the names of a subsequence of the remaining references |
| VaultPolicy.SourcesInOrder | lib/vaultPolicy.ts:31-80 | items come from the references in their order, each with its reference's name |
| VaultPolicy.NoBudgetNoItems | lib/vaultPolicy.ts:33-94 | a spent budget yields no items, total 0, exceeded |
| VaultPolicy.NothingFetched | lib/vaultPolicy.ts:68-87 | failed or empty references add no item and leave the total unchanged |
| VaultPolicy.OverBudgetExample | lib/vaultPolicy.ts:71-103 | budget 5 with contents "abcd" and "xyz1234" stores "xyz12..." and reaches total 12 |
| VaultPolicy.ItemBlocksAt | lib/vaultPolicy.ts:124-127 | each item contributes "- source:" then its content, in item order |
| VaultPolicy.PushItemBlocks | lib/vaultPolicy.ts:124-127 | the push loop appends exactly the item blocks |
| VaultPolicy.BuildPromptWithVault | lib/vaultPolicy.ts:111-135 | the pushed blocks joined with "\n\n" are the specified prompt |
| VaultPolicy.PromptLayout | lib/vaultPolicy.ts:115-132 | system, safety, then the vault section only for a present non-empty context (header, then each item's line and content), then "Task:" and the trimmed text |
| VaultPolicy.FramedJoinEnds | lib/vaultPolicy.ts:134 | a joined list opens with its first two blocks and closes with its last two, separators included |
| VaultPolicy.PromptText | lib/vaultPolicy.ts:111-135 | the prompt starts with the system and safety blocks and ends with "\n\nTask:\n\n" and the trimmed text |
| VaultPolicy.PromptWithoutVault | lib/vaultPolicy.ts:115-134 | without a vault section the prompt is exactly four blocks |
| VaultResolveRoute.Post | app/api/vault/resolve/route.ts:5-73 | a non-JSON body gives 500; a falsy userId, missing vaultRefs or non-number budget gives 400 "Missing required fields"; otherwise 200 with `Resolve` |
| VaultResolveRoute.ResolveInline | app/api/vault/resolve/route.ts:14-68 | the inline loop with its own truncation computes the same context as the library |
| VaultResolveRoute.ContentsAgreeOutsideFolders | app/api/vault/resolve/route.ts:23-42 | bio and file contents agree with the library's; a non-empty folder listing differs |
| VaultResolveRoute.FolderListingPrefix | app/api/vault/resolve/route.ts:32-34 | a non-empty listing starts with the first file's line |
| VaultPolicyClient.ResolveVaultContext | lib/vaultPolicyClient.ts:18-39 | a network failure or a rejected request gives the empty context; otherwise the route's context |
| VaultPolicyClient.FallbackPromptHasNoVault | lib/vaultPolicyClient.ts:37-53 | the fallback context adds no vault section |
| VaultPolicyClient.BuildPromptWithVault | lib/vaultPolicyClient.ts:44-65 | the client copy produces the library's prompt for every input |
| VaultAutocomplete.QueryRunStart | hooks/useVaultAutocomplete.ts:51 | the start of the longest tail of `[A-Za-z0-9_-]` characters |
| VaultAutocomplete.MatchTrigger | hooks/useVaultAutocomplete.ts:51-53 | a match is a `+` at the start or after white space followed only by query characters; no match means no such `+` exists |
| VaultAutocomplete.TriggerUnique | hooks/useVaultAutocomplete.ts:51 | the trigger position is unique |
| VaultAutocomplete.Matching | hooks/useVaultAutocomplete.ts:97-102 | an item is kept iff it is allowed in chat and its lowercased name contains the lowercased query |
| VaultAutocomplete.MatchingAppend | hooks/useVaultAutocomplete.ts:97-102 | filtering keeps the catalogue's order |
| VaultAutocomplete.FilterItems | hooks/useVaultAutocomplete.ts:97-104 | at most 10 suggestions, the first 10 matches in order |
| VaultAutocomplete.FinanceNeverOffered | hooks/useVaultAutocomplete.ts:88-104 | the item not allowed in chat is never suggested |
| VaultAutocomplete.Token | hooks/useVaultAutocomplete.ts:123 | the token starts with `+` and contains no white space |
| VaultAutocomplete.TokenSpec | hooks/useVaultAutocomplete.ts:123 | a name without white space gives "+" and its lowercase; every other character but `-` comes from the lowercased name |
| VaultAutocomplete.NextIndex | hooks/useVaultAutocomplete.ts:156 | ArrowDown stays in [0, n) |
| VaultAutocomplete.PrevIndex | hooks/useVaultAutocomplete.ts:160 | ArrowUp stays in [0, n) |
| VaultAutocomplete.ArrowSteps | hooks/useVaultAutocomplete.ts:154-161 | down moves to the next index and wraps to 0; up moves to the previous and wraps to n-1 |
| VaultAutocomplete.ArrowsInverse | hooks/useVaultAutocomplete.ts:154-161 | up undoes down and down undoes up |
| VaultAutocomplete.PressDownMod | hooks/useVaultAutocomplete.ts:156 | k presses of ArrowDown move to (i + k) mod n |
| VaultAutocomplete.PressDownCycles | hooks/useVaultAutocomplete.ts:156 | n presses of ArrowDown return to the start |
| VaultAutocomplete.Editor.constructor | hooks/useVaultAutocomplete.ts:34-39 | closed, empty query and items, index 0, no trigger |
| VaultAutocomplete.Editor.HandleInput | hooks/useVaultAutocomplete.ts:46-74 | on a match: open, the query is the tail after `+`, triggerPos is the `+`, index 0; otherwise closed with no trigger |
| VaultAutocomplete.Editor.Input | hooks/useVaultAutocomplete.ts:46-74 | typing sets text and cursor and then runs the trigger check |
| VaultAutocomplete.Editor.MoveCursor | hooks/useVaultAutocomplete.ts:47 | only the cursor changes |
| VaultAutocomplete.Editor.RefreshItems | hooks/useVaultAutocomplete.ts:81-104 | while open, the items become the filtered suggestions; closed, nothing changes |
| VaultAutocomplete.Editor.OnClose | hooks/useVaultAutocomplete.ts:145-148 | closed with no trigger |
| VaultAutocomplete.Editor.OnSelect | hooks/useVaultAutocomplete.ts:116-143 | without a trigger nothing changes; otherwise the text between the `+` and the cursor becomes token + " ", the cursor sits after the space, and the popup closes |
| VaultAutocomplete.Editor.OnKeyDown | hooks/useVaultAutocomplete.ts:115-173 | keys are ignored while closed; arrows move the index cyclically and change nothing else; Escape closes and clears the trigger, keeping the text, caret and index; Enter on an existing item splices its token and a space over the `+query`, puts the caret after the space and closes; Enter with no item changes nothing |
| VaultAutocomplete.NoTriggerAfterSpace | hooks/useVaultAutocomplete.ts:51 | text ending in a space never matches, so a completed token closes the popup |
| VaultAutocomplete.TokenExample | hooks/useVaultAutocomplete.ts:123 | "Family" becomes "+family" |
| UsageService.KeysSpec | lib/usageService.ts:19-25 | the month key is a prefix of the day key; lengths 10 and 7; the same day implies the same month |
| UsageService.DefaultSummary | lib/usageService.ts:60-67 | empty buckets, daily limit 100000 tokens, monthly limit 10 USD |
| UsageService.AddUsage | lib/usageService.ts:38-80 | today's and this month's buckets grow by the tokens and the cost (missing ones start from zero); other buckets and the limits are untouched |
| UsageService.Decide | lib/usageService.ts:115-131 | denied for the daily limit iff today's tokens reach it; otherwise denied for the monthly limit iff the month's cost reaches it; otherwise allowed |
| UsageService.DefaultAllows | lib/usageService.ts:101-130 | a fresh summary allows usage |
| UsageService.DenialPersists | lib/usageService.ts:70-130 | logging more usage never lifts a denial |
| UsageService.BigCallHitsDailyLimit | lib/usageService.ts:70-123 | one call of at least the daily limit makes the next check deny for the daily limit |
| UsageService.UsageStore.constructor | lib/usageService.ts:27-83 | no logs and no summaries |
| UsageService.UsageStore.LogUsage | lib/usageService.ts:6-83 | without a database the server skips and the browser throws, changing nothing; otherwise one log is appended and the user's summary gets `AddUsage` |
| UsageService.UsageStore.GetUsageSummary | lib/usageService.ts:85-113 | without a database the server returns the default and the browser throws; otherwise the stored summary, creating the default when missing |
| UsageService.UsageStore.CheckUsageAllowed | lib/usageService.ts:97-131 | without a database the server allows and the browser throws, and the store is unchanged; otherwise `Decide` on the stored or default summary, and a missing summary is stored with the defaults while every other user's is kept |
| Subscriptions.GetPriceIdForPlan | lib/subscriptions.ts:5-16 | the configured plus or super price, or none when it is unset or empty; free and family give none |
| Subscriptions.PlanFromPriceId | lib/subscriptions.ts:18-23 | none for a missing or empty id; plus when it equals the plus price (checked first); super when it equals the super price; else none |
| Subscriptions.PriceRoundTrip | lib/subscriptions.ts:5-23 | with distinct non-empty prices, plan to price to plan is the identity on plus and super |
| Subscriptions.PlanRoundTrip | lib/subscriptions.ts:5-23 | a recognised price id is the price of the plan it maps to |
| Subscriptions.SharedPriceMeansPlus | lib/subscriptions.ts:18-23 | with one price configured for both, a super subscriber is taken for plus |
| Subscriptions.StripeStatusToSubscriptionStatus | lib/subscriptions.ts:25-36 | a known status is kept; anything else becomes "incomplete" |
| Subscriptions.UnknownStatus | lib/subscriptions.ts:25-36 | a name outside the seven spellings names no status |
| Subscriptions.StatusRoundTrip | lib/subscriptions.ts:25-36 | every status survives its name, so normalising is idempotent |
| Subscriptions.UpsertPayload | lib/subscriptions.ts:50-64 | falsy ids are dropped, the period end is set only when non-zero, as seconds × 1000, and both timestamps are now |
| Subscriptions.PayloadIdsNonEmpty | lib/subscriptions.ts:50-60 | every id written is non-empty |
| VaultUsage.GetProviderFromModel | lib/vaultUsage.ts:67-72 | "gpt" gives openai; else "claude" or "sonnet" gives anthropic; else "gemini" gives google; else unknown |
| VaultUsage.ProviderByPrefix | lib/vaultUsage.ts:67-72 | whatever follows a known prefix does not change the provider |
| VaultUsage.UpperCaseIsUnknown | lib/vaultUsage.ts:67-72 | the test is case-sensitive: "GPT-4" is unknown |
| VaultUsage.VaultItemIds | lib/vaultUsage.ts:39 | the ids of the references, in order, one per reference |
| VaultUsage.VaultItemIdsAppend | lib/vaultUsage.ts:39 | the id list of concatenated references is the concatenation |
| VaultUsage.UsageEvent | lib/vaultUsage.ts:36-45 | the event carries the ids, the provider of the model and the given fields |
| SeedEnv.Unquote | scripts/seedFirestore.ts:15-17 | a value quoted at both ends loses one character at each end; a lone `"` becomes ""; anything else is kept |
| SeedEnv.ParseLine | scripts/seedFirestore.ts:11-17 | a line matches iff something precedes its first `=` and no line terminator follows it; the key is the trimmed prefix and the value the trimmed, unquoted rest |
| SeedEnv.CarriageReturnLineSkipped | scripts/seedFirestore.ts:11 | a line ending in a carriage return (a Windows line ending) never matches |
| SeedEnv.ApplyLine | scripts/seedFirestore.ts:19-21 | a parsed key is written only when its current value is unset or empty; an unparsed line changes nothing |
| SeedEnv.NonEmptySurvives | scripts/seedFirestore.ts:10-21 | no key is removed, and a non-empty value is never overwritten by later lines |
| SeedEnv.FirstNonEmptyWins | scripts/seedFirestore.ts:10-21 | the first line giving a key a non-empty value, when the environment has none, decides that key |
| SeedEnv.ApplyLinesFrom | scripts/seedFirestore.ts:10 | lines are handled one after another, independently |
| SeedEnv.ProcessEnv.constructor | scripts/seedFirestore.ts:19-21 | the environment starts as given |
| SeedEnv.ProcessEnv.LoadEnvLocal | scripts/seedFirestore.ts:6-26 | an absent file leaves the environment unchanged; otherwise the lines of `split('\n')` are applied in order |

## Left out

- File and network I/O, and the rest of the app. This includes opening the `.docx` archive, UTF-8 decoding and `print` in `temp_extract.py:4-5,8`. It also includes Firestore reads and writes, `fetch`, `console` output, timers, React effects and rendering, `nanoid` ids and `Date.now()`. Clocks are parameters (`nowMs`, `nowIso`); Firestore answers are `Lookup`/`Fetch` values and a `DbMode`.
- Python's `\s` is the fixed set of characters for which `str.isspace()` holds, and JavaScript's `\s` is the fixed ECMAScript set. Both are written out as predicates. `toLowerCase` is modelled on ASCII letters only.
- String lengths are counted in characters, not in UTF-16 code units.
- Costs are `real` numbers. Floating-point rounding of USD costs is not modelled, and neither are the per-token rates that produce them.
- VaultPolicy.Resolve: the budget is an integer; a fractional or `NaN` budget, which `typeof budget === "number"` lets through, is not modelled.
- VaultResolveRoute.Post: the body's fields are typed (a string `userId`, an array of references, an integer `budget`). The route's behaviour on other JSON types is not modelled. The JSON round trip of the response is taken to preserve the context.
- ChatProvider.Provider.ShiftSubmission: only the queue contents are modelled. The returned item depends on React running the state updater synchronously.
- ChatProvider.Provider: nothing in the source ever sets `activeRequestId` (its setter is declared and never called), so it stays null and the third conjunct of `canSubmit` is always true.
- VaultAutocomplete.Editor.OnKeyDown: it requires a non-empty item list for the arrow keys while open, because `% 0` gives `NaN` in JavaScript. The dropdown position, the 150 ms debounce, focus handling and the `onInsertToken` callback are left out (the inserted token is returned instead).
- VaultAutocomplete.Editor: the cursor is a position within the text.
- UsageService.UsageStore.LogUsage: the read of the summary and its write are separate Firestore calls, not a transaction, so two concurrent calls can lose one update. The model performs the read, the update and the write as one atomic step, and does not capture that interleaving. The write itself replaces the document, as the source's `setDoc` without `merge` does.
- The stall-detection interval, the streaming animation, `logVaultUsage`'s write and `getVaultUsageStats` are left out, because they are timers and storage plumbing.
- In `scripts/seedFirestore.ts`, the warning printed for a missing file is left out. So are the seeding batch writes after line 26 and `process.exit`.
