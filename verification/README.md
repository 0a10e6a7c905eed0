# Almond dialog agent: permission negotiation, the conversation loop and notifications

This project models three parts of the Almond dialog agent's turn logic in Dafny, and proves properties of the model.

- **Permission negotiation** (`lib/dialogs/permission_grant.js`). A program submitted by another principal is converted into a three-slot permission rule (trigger, query, action). The user then answers "Yes this time", "Always from anybody", "Always from X", "No" or "Maybe". "Maybe" opens the filter refinement loop. That loop is a menu of the slots that have filter candidates, plus Done and Back. Picking a slot shows a button for each candidate filter. The answer is conjoined into that slot's filter, after slot-filling a missing value. A rule the user settles on is stored, and the program is then allowed or not according to the permission store.
- **Conversation loop** (`lib/dialogs/default.js`). The loop takes one queued item at a time: user input, a notification, an app error, a question from an app, a permission request, interactive configuration, or a program run. It runs the dialog the item calls for and tracks `lastApp`. It settles the item's future exactly once and carries on whatever happened. User commands are routed by intent. A failed command is apologised for, using `formatError`'s text.
- **Notifications** (`lib/dialogs/notifications.js`). This part decides whether a notification gets a "Notification from X" header, or is shown as one "Notification from X: msg" line. It renders each message kind. It reports an app error as exactly one reply.

The dialogs suspend when they wait for the user (`ask`, `expect`, `askChoices`, slot filling). The model replaces that with a script: a list of the user's responses.

- A prompt takes the first response of the category it waits for. Responses of other categories are passed over.
- An explicit cancellation raises the `ECANCELLED` failure.
- A script that runs out leaves the dialog suspended. `Suspension.Flow` records this, together with the trace of what the dialog showed.

Everything ThingTalk computes is a function parameter:
- `optimizeFilter` (`Simplifier`)
- `Describe.describeArg` (`ValueDescriber`)
- `checkIsAllowed`, as a function of the stored rules (`PermissionGrant.Store`)

The other collaborators are parameters too: the contacts capability, `apps.getApp`, the formatter's output, and the sub-dialogs (`Conversation.Env`). Object copies (`clone`) are deep copies, so they are plain values here.

Modules, one per file:
- `Js`: `undefined`, thrown values, splitting and joining on one character
- `ThingTalk`: the program and permission-rule representation
- `Suspension`: scripted responses
- `PermissionConversion`: display name, conversion, icon
- `FilterRefinement`: filter text, candidates, menu, buttons, `addFilter`
- `PermissionGrant`: the top-level negotiation
- `Notifications`
- `Conversation`

## Model

| member | source | states |
|---|---|---|
| Js.SplitJoin | lib/dialogs/permission_grant.js:28 | Splitting the ':'-join of separator-free pieces gives back exactly those pieces, so `identity.split(':')` recovers scheme and id. |
| Js.AllValues | lib/dialogs/permission_grant.js:222-249 | Building in order succeeds iff every step succeeds, and then yields every value in order. Otherwise it fails with the first failure, every earlier step having succeeded. |
| Js.JoinSplit | lib/dialogs/permission_grant.js:28 | Joining the pieces of any split with the separator gives back the original string. |
| Suspension.Await | lib/dialogs/permission_grant.js:330 | A prompt takes the first qualifying response. Every response before it is passed over (not a cancel, not qualifying). A cancel raises. It is starved exactly when every response is passed over. The rest is a suffix of the script. |
| PermissionConversion.IdentityName | lib/dialogs/permission_grant.js:27-44 | An identity in the Omlet scheme always gets a name that starts "Omlet User @". The name is missing only when the identity has no ':' at all and is not a known contact. |
| PermissionConversion.IdentityNameOfSchemeAndId | lib/dialogs/permission_grant.js:27-44 | For `scheme:id`: the Omlet scheme gives "Omlet User @id". A known contact gives the directory's display name. Anything else gives `id`. |
| PermissionConversion.EqualityFilters | lib/dialogs/permission_grant.js:50-56 | Each equality filter comes from an input parameter that is not an unbound variable reference. Every such parameter gets its `=` filter. With no unbound references there is one filter per input. |
| PermissionConversion.EqualityFiltersSingle | lib/dialogs/permission_grant.js:50-56 | One input parameter gives its `=` filter, or nothing when it refers to a variable not bound in the scope. |
| PermissionConversion.EqualityFiltersAppend | lib/dialogs/permission_grant.js:50-56 | The filters of joined parameter lists are the filters of each list, in order. With the single case, this fixes the filters exactly: one per kept parameter, in input order. |
| PermissionConversion.BindOutputs | lib/dialogs/permission_grant.js:61-62 | The scope's names after binding are exactly its old names plus the output names. |
| PermissionConversion.BindOutputsKeeps | lib/dialogs/permission_grant.js:61-62 | A name that no output binds keeps its old value. |
| PermissionConversion.BindOutputsLastWins | lib/dialogs/permission_grant.js:61-62 | A name bound by several outputs gets the value of the last of them. |
| PermissionConversion.BindOutputsAppend | lib/dialogs/permission_grant.js:61-62 | Binding one list of outputs and then another is binding them joined, so one scope threaded through several primitives accumulates all their outputs in order. |
| PermissionConversion.ConvertPrimitive | lib/dialogs/permission_grant.js:46-64 | A missing primitive is unconstrained and leaves the scope alone. A present one becomes a specified slot with the same kind, channel, outputs and schema. Its filter is `optimize(And[filter, And(atoms)])`, with atoms built from the scope before its own outputs. The scope it hands on is the old one with its outputs bound in order. |
| PermissionConversion.ConvertToPermissionRule | lib/dialogs/permission_grant.js:66-93 | The result is `null` exactly when the program has more than one rule, query or action; builtin actions count. Zero rules or zero actions throw a TypeError (never a cancellation). Otherwise the rule has the given principal. The trigger is unconstrained iff absent or remote-receive, the query iff absent, and the action iff builtin or remote-send. One scope is threaded through the slots: the trigger is converted in the empty scope, the query in the scope of the trigger's outputs, and the action in the scope of the trigger's and then the query's outputs. |
| PermissionConversion.QueryOnlyProgramConversion | lib/dialogs/permission_grant.js:66-93 | A query-only program with a builtin action keeps only the query constrained. Every non-reference input is frozen by `=`, and no variable reference is. |
| PermissionConversion.TriggerOutputsBindQueryReferences | lib/dialogs/permission_grant.js:46-92 | Converting a trigger-query-action program: a variable the trigger's last output binds is in scope for the query, so the query input referring to it is frozen into the query slot's filter. The query converted on its own would skip that input. |
| PermissionConversion.QueryOutputsBindActionReferences | lib/dialogs/permission_grant.js:46-92 | A variable the query's last output binds is in scope for the action, whatever the trigger binds. The action input referring to it is frozen into the action slot's filter, which is built in the scope of the trigger's and then the query's outputs. |
| PermissionConversion.IsRemoteReceive | lib/dialogs/permission_grant.js:95-98 | A remote-receive trigger is never also remote-send, so at most one of the two exclusions applies to a primitive. |
| PermissionConversion.IsRemoteSend | lib/dialogs/permission_grant.js:99-102 | A remote-send action is on the `send` channel, never `receive`, and its kind is non-empty (the remote kind or a `__dyn_` kind). |
| PermissionConversion.PrimitiveKinds | lib/dialogs/permission_grant.js:285-294 | Every listed kind belongs to one of the program's rules: its trigger, a query or a non-builtin action. |
| PermissionConversion.PrimitiveKindsSingle | lib/dialogs/permission_grant.js:287-293 | One rule lists its trigger's kind if it has one, then its queries' kinds in order, then its device actions' kinds in order. |
| PermissionConversion.PrimitiveKindsAppend | lib/dialogs/permission_grant.js:287-294 | The list for joined rule lists is the list for each, in order, so the primitives are listed rule by rule in program order. |
| PermissionConversion.DeviceKinds | lib/dialogs/permission_grant.js:293 | Every non-builtin action's kind is listed, and no more entries than there are actions. |
| PermissionConversion.DeviceKindsSingle | lib/dialogs/permission_grant.js:293 | A device action lists its kind; a builtin action lists nothing. |
| PermissionConversion.DeviceKindsAppend | lib/dialogs/permission_grant.js:293 | The kinds of joined action lists are those of each list, in order. With the single case, this fixes the list: the device actions' kinds in action order, builtin actions dropped. |
| PermissionConversion.ComputeIcon | lib/dialogs/permission_grant.js:296-305 | The icon is `null` iff no listed primitive kind qualifies. Otherwise it is the last qualifying kind in the list of the program's primitives: it qualifies and no later kind does. |
| PermissionConversion.LastIconKind | lib/dialogs/permission_grant.js:296-304 | The icon is `null` iff no primitive kind qualifies (not "remote", not `__dyn`-prefixed, containing a dot). Otherwise it is the last qualifying kind. |
| FilterRefinement.DescribeFilter | lib/dialogs/permission_grant.js:112-143 | Fails with "Invalid operator op" exactly for operators outside the eleven known ones. `in_array` and `~=` put the value first; the others put the argument first. The argument is named by its canonical name, else its raw name. |
| FilterRefinement.ArgCandidatesSound | lib/dialogs/permission_grant.js:152-167 | Every candidate has an undefined value and names a listed argument with an operator of that argument's type. |
| FilterRefinement.ArgCandidatesComplete | lib/dialogs/permission_grant.js:152-167 | Every argument gets a candidate for every operator its type allows. |
| FilterRefinement.CandidateTable | lib/dialogs/permission_grant.js:145-172 | An unconstrained slot has no candidates. A specified slot has exactly the candidates from its required inputs and outputs, typed per the operator table; optional inputs get none. The list is the required inputs' candidates followed by the outputs' candidates. |
| FilterRefinement.MakeFilterCandidates | lib/dialogs/permission_grant.js:145-147 | An unconstrained slot has no candidates. What a specified slot gets, and in which order, is stated by `CandidateTable`, `ArgCandidatesSingle` and `ArgCandidatesAppend`. |
| FilterRefinement.ArgCandidatesSingle | lib/dialogs/permission_grant.js:153-167 | One argument's candidates are its type's operators in table order, each once, with that argument's name. |
| FilterRefinement.ArgCandidatesAppend | lib/dialogs/permission_grant.js:153-167 | The candidates of joined argument lists are those of each list, in order. With the single case, this fixes the list: argument by argument, each argument's operators in table order. |
| FilterRefinement.CandidatesAreDescribable | lib/dialogs/permission_grant.js:112-172 | Every candidate's operator is one `describeFilter` knows, so describing a candidate never throws. |
| FilterRefinement.SingleArgumentCandidates | lib/dialogs/permission_grant.js:145-172 | The candidates for one required input of each type are exactly the operator table's row for that type, in order. |
| FilterRefinement.Menu | lib/dialogs/permission_grant.js:191-206 | The menu offers exactly the slots with candidates, which are specified, in trigger, query, action order. Done and Back are the last two entries. |
| FilterRefinement.ButtonOperatorInjective | lib/dialogs/permission_grant.js:229-237 | The operator renaming in button payloads (`=` to is, `=~` to contains, `contains` to has) never merges two candidate operators. |
| FilterRefinement.ButtonFor | lib/dialogs/permission_grant.js:222-249 | A button's name is the filter's, its operator is the renamed one, and its text is the filter's description. |
| FilterRefinement.ButtonPayload | lib/dialogs/permission_grant.js:222-249 | A button can be built exactly when the value type and the description exist. Its payload type is the parameter's type (its element type for `contains`), or "Measure" with the unit for a measure. A missing value type is a TypeError, not a cancellation. |
| FilterRefinement.FilterButtons | lib/dialogs/permission_grant.js:222-250 | There is one button per candidate, in order. Building them fails iff some candidate's button fails. |
| FilterRefinement.CandidateButtonsExist | lib/dialogs/permission_grant.js:222-250 | For a signature whose argument names are distinct, every candidate's button can be built. |
| FilterRefinement.CandidateButtonExists | lib/dialogs/permission_grant.js:222-249 | For a signature whose argument names are distinct, building the button of any single candidate does not throw. |
| FilterRefinement.Conjoin | lib/dialogs/permission_grant.js:277 | Only the chosen slot changes, and its filter becomes `optimize(And[old, predicate])`. The principal and the other slots are untouched. |
| FilterRefinement.ConjoinSameShape | lib/dialogs/permission_grant.js:277 | Conjoining changes nothing but a filter. |
| FilterRefinement.SameShapeSameMenu | lib/dialogs/permission_grant.js:179-206 | Rules that differ only in filters have the same menu, so narrowing never changes what the menu offers. |
| FilterRefinement.FillAndConjoin | lib/dialogs/permission_grant.js:259-277 | Slot-filling an answered filter: when it finishes, the chosen slot has been narrowed by some predicate, and what it leaves of the script is a suffix of the script. |
| FilterRefinement.FillAndConjoinValue | lib/dialogs/permission_grant.js:259-277 | The value question is asked with the parameter's type: its element type for `contains`, looked up in the required inputs, then the optional inputs, then the outputs. The value given completes the filter, and exactly that atom is conjoined into the slot. |
| FilterRefinement.FillAndConjoinMissingParam | lib/dialogs/permission_grant.js:263-269 | A `contains` filter on a parameter the signature lacks throws a TypeError (not a cancellation) before anything is asked. |
| FilterRefinement.DefinedFilterConjoined | lib/dialogs/permission_grant.js:259-272 | A filter answer with a value is conjoined as an atom exactly as given, nothing is asked, and no response is consumed. |
| FilterRefinement.UndefinedFilterFilled | lib/dialogs/permission_grant.js:259-277 | A filter answer without a value is completed by the next value response, and the completed atom is conjoined into the slot. |
| FilterRefinement.ApplyAnswer | lib/dialogs/permission_grant.js:253-277 | A finished narrowing is the working rule with some predicate conjoined into the chosen slot. Leaving with a rule happens only when the answer was exactly that rule. The rest is a suffix of the script. |
| FilterRefinement.AnswerStep | lib/dialogs/permission_grant.js:252-277 | Waiting for the filter answer: a finished step consumed a response, a narrowed rule is the working rule with some predicate conjoined into the chosen slot, and a rule it leaves with was answered as such in the script. |
| FilterRefinement.FilterStep | lib/dialogs/permission_grant.js:217-277 | A finished step consumed a response. A narrowed rule is the working rule with some predicate conjoined into the chosen slot. A rule it leaves with was answered as such in the script. |
| FilterRefinement.AddFilter | lib/dialogs/permission_grant.js:174-278 | The loop terminates on every script. A finished refinement consumed responses. It leaves the working rule the same shape as the rule it was given. Its first event is the menu. |
| FilterRefinement.SlotRound | lib/dialogs/permission_grant.js:217-278 | A round on a chosen slot consumes responses and keeps the working rule's shape. |
| FilterRefinement.DoneReturnsRule | lib/dialogs/permission_grant.js:208-212 | Done at the menu returns the working rule as it stands. |
| FilterRefinement.BackReturnsNothing | lib/dialogs/permission_grant.js:213-216 | Back at the menu returns `null` and leaves the working rule alone. |
| FilterRefinement.DoneAtSameShape | lib/dialogs/permission_grant.js:208-212 | Done sits at the same menu position for every rule that differs only in filters, and returns the rule as it stands. |
| FilterRefinement.BackAtSameShape | lib/dialogs/permission_grant.js:213-216 | Back sits at the same menu position for every rule that differs only in filters, and returns `null`. |
| FilterRefinement.RoundLeaves | lib/dialogs/permission_grant.js:252-257 | Back or a rule answered at the filter step ends the round with `null` or that rule, consuming just that response and leaving the working rule alone. |
| FilterRefinement.FilterStepNarrows | lib/dialogs/permission_grant.js:259-277 | A predicate answered at the filter step narrows the chosen slot by it, consuming just that response. |
| FilterRefinement.RoundNarrows | lib/dialogs/permission_grant.js:259-278 | After a predicate answer the round ends as the menu loop does on the narrowed rule and the rest of the script. |
| FilterRefinement.ExplicitRuleIsReturned | lib/dialogs/permission_grant.js:253-257 | A permission rule answered at the filter step is returned as given. |
| FilterRefinement.BackAtFilterStep | lib/dialogs/permission_grant.js:253-255 | Back at the filter step leaves the whole loop with `null`; it does not return to the menu. |
| FilterRefinement.PredicateGoesRoundAgain | lib/dialogs/permission_grant.js:259-277 | A predicate answer goes round again on the rule narrowed by it. |
| FilterRefinement.PredicateThenLeave | lib/dialogs/permission_grant.js:208-277 | After a predicate, Done returns the narrowed rule. Back returns `null` while the working rule keeps the predicate. |
| PermissionGrant.AnybodyRule | lib/dialogs/permission_grant.js:308-309 | The "anybody" rule has the `null` principal and the same slots. |
| PermissionGrant.EmptiedRule | lib/dialogs/permission_grant.js:310-316 | The emptied rule has every specified slot's filter set to `true` and is otherwise the same shape. |
| PermissionGrant.Settle | lib/dialogs/permission_grant.js:104-110 | Settling stores the rule, then answers with the store's verdict on the store that includes it. |
| PermissionGrant.GrantLoop | lib/dialogs/permission_grant.js:323-342 | Every answer that ends the loop consumed a response. |
| PermissionGrant.GrantAnswer | lib/dialogs/permission_grant.js:330-341 | Acting on an answer consumes no more than what follows the answer. |
| PermissionGrant.MaybeRound | lib/dialogs/permission_grant.js:335-339 | The refinement opened by Maybe, and what follows it, consumes no more than the script. |
| PermissionGrant.GrantLoopSettles | lib/dialogs/permission_grant.js:323-352 | On every script the loop stores at most one rule. If it stores one, it answers with the store's verdict. A cancellation never escapes. |
| PermissionGrant.GrantAnswerSettles | lib/dialogs/permission_grant.js:330-341 | Whatever the answer to the five buttons, at most one rule is stored, a stored rule is answered with the store's verdict, and no cancellation escapes. |
| PermissionGrant.CancelledRefinementRefuses | lib/dialogs/permission_grant.js:335-339 | A cancellation anywhere inside the refinement opened by Maybe is caught and turned into a refusal: the dialog returns false, stores nothing, and leaves the script where the refinement stopped. |
| PermissionGrant.MaybeThenCancelRefuses | lib/dialogs/permission_grant.js:330-350 | Maybe followed by a cancel at the refinement menu returns false, stores nothing, and consumes exactly those two responses. |
| PermissionGrant.MaybeRoundSettles | lib/dialogs/permission_grant.js:335-339 | The same holds for the refinement opened by Maybe and whatever follows it. |
| PermissionGrant.PermissionGrantSettles | lib/dialogs/permission_grant.js:281-353 | The same holds for the whole dialog. |
| PermissionGrant.YesAndNo | lib/dialogs/permission_grant.js:330-341 | Yes returns true and stores nothing. No, Back, a bare filter or a predicate returns false and stores nothing. |
| PermissionGrant.CancelRefuses | lib/dialogs/permission_grant.js:348-350 | Cancelling at the buttons is a refusal. |
| PermissionGrant.ExplicitRuleIsStored | lib/dialogs/permission_grant.js:333-334 | A rule answer is stored, and the store decides. |
| PermissionGrant.AlwaysFromAnybody | lib/dialogs/permission_grant.js:307-334 | "Always from anybody" stores exactly the converted rule with the `null` principal, and the store decides. |
| PermissionGrant.MaybeThenNothing | lib/dialogs/permission_grant.js:335-338 | Maybe followed by a refinement ending in `null` brings back the five buttons. The working rule is as the refinement left it. |
| PermissionGrant.MaybeOpensRefinement | lib/dialogs/permission_grant.js:335-336 | Maybe opens the refinement on the working rule, after the buttons. |
| PermissionGrant.RefineThenBack | lib/dialogs/permission_grant.js:335-338 | A predicate added in the refinement and then Back at the menu brings the buttons back on the working rule narrowed by that predicate. |
| PermissionGrant.MaybeThenRule | lib/dialogs/permission_grant.js:335-339 | Maybe followed by a refinement ending in a rule stores that rule, and the store decides. |
| PermissionGrant.MaybeThenBack | lib/dialogs/permission_grant.js:335-338 | Maybe and then Back at the menu brings back the buttons with the working rule unchanged. |
| PermissionGrant.MaybeThenDone | lib/dialogs/permission_grant.js:335-339 | Maybe and then Done stores the working rule. |
| PermissionGrant.MaybeThenDoneAtSameShape | lib/dialogs/permission_grant.js:335-339 | Done sits at the same menu position for every rule that differs only in filters, so Maybe and then Done there stores the rule as it stands. |
| PermissionGrant.BackKeepsEarlierFilters | lib/dialogs/permission_grant.js:335-339 | A predicate added before Back stays on the working rule. A second Maybe followed by Done stores the rule with that predicate. |
| PermissionGrant.PermissionGrant | lib/dialogs/permission_grant.js:281-353 | The dialog as written: the icon comes first, and a finished dialog consumed no more than the script. |
| PermissionGrant.RejectedProgramFails | lib/dialogs/permission_grant.js:307-318 | As written, a program the conversion rejects fails with a TypeError (not a cancellation) before anything is asked, whatever the script. |
| PermissionGrant.PermissionGrantIntended | lib/dialogs/permission_grant.js:343-350 | The corrected dialog, for a rejected program: it shows the icon and the requester, then asks the yes/no question and never throws. It waits iff no response is a yes/no or a cancel. When it returns, the answer is true exactly when the response it took was "yes"; a cancellation is a no. It consumes no more than the script. |
| PermissionGrant.RejectedProgramAsks | lib/dialogs/permission_grant.js:343-350 | In the corrected dialog, a rejected program is decided by the user's yes or no, and nothing is stored. |
| PermissionGrant.IntendedAgreesElsewhere | lib/dialogs/permission_grant.js:281-353 | The correction changes nothing for programs the conversion accepts. |
| Notifications.NotifyOne | lib/dialogs/notifications.js:35-54 | Only `null` fails. One output is produced iff the message is a string or of a known type. A string is a text reply with the icon. A text message replies with its body and the icon. A picture without a url gives the "can't find the picture" reply, and with one, the picture. An rdl is sent as it is, with the icon. A button carries its body and its JSON, and no icon. |
| Notifications.RenderAll | lib/dialogs/notifications.js:64-67 | An empty array shows nothing. Rendering can only fail on a non-empty array, and then with the TypeError from reading `type` of `null`. |
| Notifications.RenderAllAppend | lib/dialogs/notifications.js:64-65 | Rendering an array is a fold: the outputs of `a + b` are those of `a` followed by those of `b`. |
| Notifications.RenderAllOutcome | lib/dialogs/notifications.js:64-67 | Rendering fails iff some message is `null`. Otherwise each rendering message contributes exactly one output. |
| Notifications.OneLine | lib/dialogs/notifications.js:57-58 | The one-line form applies exactly to a non-empty string, alone or as the only element of an array. |
| Notifications.ShowNotification | lib/dialogs/notifications.js:26-69 | With the header due and a one-liner, the result is the single line "Notification from X: msg". Without the header due, there is no header of either form. Otherwise it is the header followed by the rendered messages. |
| Notifications.ShowError | lib/dialogs/notifications.js:71-93 | Exactly one reply, "X had an error: msg." when the app is known and running, otherwise "Sorry, that did not work: msg.". A `null` error fails. |
| Notifications.ErrorMessage | lib/dialogs/notifications.js:78-86 | A syntax error's text starts with "Syntax error at", its file name and "line", and ends with its message. Any other error object with a non-empty message is reported by that message. |
| Notifications.ErrorMessageCases | lib/dialogs/notifications.js:78-86 | A string is used as it is. A non-syntax error gives its message when non-empty, otherwise its string form. |
| Conversation.HandleUserInput | lib/dialogs/default.js:30-57 | Each intent selects exactly its branch; each branch holds iff its intent matches. |
| Conversation.FormatError | lib/dialogs/default.js:59-69 | A syntax error gives "Syntax error at line N: msg". A string is kept. A message replaces the error. Otherwise the error itself is returned. |
| Conversation.FormatAgreesWithErrorMessage | lib/dialogs/default.js:59-69 | The apology and the error notification word every failure the same, except syntax errors, where only the notification names the file. |
| Conversation.HandleInput | lib/dialogs/default.js:30-89 | User input forgets `lastApp`. A canned reply succeeds. A dialog's failure is passed on as it is. Handling user input returns nothing, so a success carries no value whatever the dialog returned. |
| Conversation.Handle | lib/dialogs/default.js:79-111 | `lastApp` becomes the item's app after a notification or error is shown. It is unchanged when showing one failed, and forgotten for every other item. |
| Conversation.SettlementOf | lib/dialogs/default.js:113-115 | The future is resolved iff handling returned, with the value handling returned (no value for user input and notifications, the dialog's value for questions, permission requests, configuration and program runs). Otherwise it is rejected with the failure. |
| Conversation.Step | lib/dialogs/default.js:113-121 | One step adds exactly one settlement and appends what the item said. Only a failure that is not a cancellation is logged. |
| Conversation.Run | lib/dialogs/default.js:75-122 | The loop logs at most one failure per item and never unlogs one. |
| Conversation.RunLogsNoCancellation | lib/dialogs/default.js:113-121 | What was logged before stays as it was, and nothing the loop logs is a cancellation. |
| Conversation.RunAppend | lib/dialogs/default.js:75-122 | Running two queues in turn is running them joined. |
| Conversation.RunExtends | lib/dialogs/default.js:75-122 | The loop adds exactly one settlement per item and never changes what was said or settled before. |
| Conversation.RunSettlesEveryItem | lib/dialogs/default.js:75-122 | The k-th item's future is settled with what handling it produced, given the `lastApp` the earlier items left. This holds however many of them failed. |
| Conversation.FailedCommandApologisesOnce | lib/dialogs/default.js:83-89 | A failed command rejects its future. It adds exactly one apology with `formatError`'s text, after what the dialog said, unless it was cancelled; then it adds none. |
| Conversation.SuccessfulCommandNoApology | lib/dialogs/default.js:83-89 | A command that succeeds adds no apology, resolves its future with no value (`undefined`), and logs nothing. |
| Conversation.RunTwo | lib/dialogs/default.js:75-122 | A queue of two items is two steps. |
| Conversation.HeaderOncePerApp | lib/dialogs/default.js:90-92 | Two notifications in a row from the same running app get one header, before the first. |
| Conversation.DialogItems | lib/dialogs/default.js:96-111 | Questions, permission requests, configuration (config when a kind is given, discovery otherwise) and program runs start their dialogs and forget `lastApp`. |

## Left out

- All user-facing descriptions produced by ThingTalk's `Describe`, and translation, are out. This covers "X wants to …", the menu's "When/Get/Do: …" lines, "Ok, I'll remember that …" and the describer's text for values. Events record what is shown (the menu entries, the buttons, the rule stored), not the words.
- The JSON payloads of buttons (SEMPRE syntax), console logging and usage statistics are out. Only the statistic's name appears, in `Conversation.Route`.
- The icon is recorded as an event (`PermissionGrant.IconSet`). The loop's per-iteration reset of `dlg.icon` is not modelled.
- Slot filling (`slotFillSingle`) takes any value response. The type it is asked for is recorded in the trace (`FillAndConjoinValue`). Checking the value against that type happens inside the slot-filling dialog, which is not part of this model.
- Every prompt passes over responses of other categories and keeps waiting (`Suspension.PassedOver`). This is an assumption about `dlg.expect`, `dlg.ask` and `askChoices`, which are not part of this model.
- The sub-dialogs are collaborators (`Conversation.Env`): what each says and whether it returns or throws. This covers rule, help, make, setup, fallback, `fail`, ask-anything, permission-rule, config and discovery. The permission dialog is modelled in full in `PermissionGrant`, but the loop sees it only as such an outcome.
- The welcome dialog (`initDialog`, default.js:72) that runs before the loop is not modelled. It runs outside the loop's try block, so a failure there would end the loop before any item is handled. The model starts at the first iteration.
- PermissionConversion.IdentityName: for the identity `omlet` with no `:id` part, the model fills the template with the text `undefined`. What the translation layer's `format` does with an undefined argument is not part of this model.
- The formatter is a collaborator: a notification item carries the messages the formatter produced. A formatter failure is not modelled. A failure of `addPermission`, `checkIsAllowed` or the contacts lookup is not modelled either.
- Promises, coroutines and the queue's concurrent filling are replaced by an explicit item list and a response script. Replies to the user made while a dialog waits are not separated from queue items.
- Yes, No and Maybe answered at the filter step carry no predicate. Conjoining an undefined predicate is modelled as a TypeError (`FilterRefinement.NoPredicate`), because what the simplifier does with an undefined operand is not part of this model.
- `optimizeFilter` is an arbitrary function, so no property depends on what it simplifies.
- FilterRefinement.AddFilter: its own contract states termination, shape and the first event only. What Done, Back, an explicit rule and a predicate lead to is stated by the lemmas that follow it, for the scripts that exercise each.
- PermissionGrant.PermissionGrant: its own contract states the first event and consumption only. The outcomes are stated by `PermissionGrantSettles`, `AlwaysFromAnybody`, `RejectedProgramFails` and the loop lemmas.
- PermissionGrant.GrantLoop: its own contract states consumption only. The outcome of each answer is stated by the lemmas after it.
- PermissionGrant.GrantAnswer: its own contract states consumption only. What each answer leads to is stated by `GrantAnswerSettles`, `YesAndNo`, `ExplicitRuleIsStored` and the Maybe lemmas.
- PermissionGrant.MaybeRound: its own contract states consumption only. `MaybeRoundSettles` states that it stores at most one rule, answered with the store's verdict. `CancelledRefinementRefuses` states that a cancellation inside the refinement is a refusal. The other Maybe lemmas cover Done, Back and the rule answers for the scripts that exercise them.
- FilterRefinement.FilterStep: when building a button throws, the buttons sent before it are not recorded in the trace. For a signature with distinct argument names no button throws (`CandidateButtonsExist`).

In these places the model follows the code where a reader might expect otherwise:
- Builtin actions count towards the one-action limit.
- Back at the menu returns `null`, but the filters added before it stay on the working rule, which a later Maybe resumes from (`BackKeepsEarlierFilters`).
- Back at the filter step leaves the refinement entirely.
- A rule answered at the filter step is returned at once.
- Optional inputs get no filter candidates, though a filter answer may name one.
- A program the conversion rejects does not reach the yes/no question (see Findings).

## Findings

| source | as written | input that shows it | evidently intended | confidence | as-written member | corrected member |
|---|---|---|---|---|---|---|
| lib/dialogs/permission_grant.js:307-318 | The rule is copied (`permissionRule.clone()`) before the null check. A program the conversion rejects therefore throws a TypeError outside the try block, and the yes/no question at lines 343-346 is unreachable. | Any program with two rules, e.g. `Program([r, r])` | A rejected program gets a plain yes/no question. A cancel counts as no, and nothing is stored. | high; not executed | PermissionGrant.RejectedProgramFails | PermissionGrant.RejectedProgramAsks |
