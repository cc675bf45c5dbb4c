# FoodConnect screens: a verified model

FoodConnect is a React Native app that connects food donors with trusts and
NGOs. Most of it is layout and animation. This project models the parts of
five screens that decide something, and proves what they promise:

- **Chat assistant** (`Chatbot`). A class holds the message log, the input
  buffer and the "bot is typing" flag.
  - Sending has a synchronous half and a deferred half. The synchronous half
    appends the trimmed user message, clears the input and raises the typing
    flag. The deferred half appends the reply and lowers the flag.
  - The reply comes from a first-match keyword chain over the lower-cased
    text, with a fallback reply. It is proved equal to a rule table read top
    to bottom.
  - Like/dislike feedback is a copy-on-write map over the log, keyed by
    message id.
- **Sign-up** (`SignUp`). A form record edited one field at a time, a
  donator/trust choice, two password-visibility toggles, and a validator that
  reports the first failed check.
- **Donation history** (`History`). A fixed sample history, a status filter
  set by four buttons, counts over the whole history, and the colour and icon
  of each status.
- **Donation form** (`Donate`). Nine inputs. Submit insists on five of them.
  The success dialog's OK button clears all nine.
- **Login** (`Login`). Sign-in checks only that the e-mail and the password
  are non-empty, then goes to the `Home` screen.

Shared pieces:

- `TextOps` models JavaScript's `trim`, `toLowerCase`, `includes` and the
  decimal `toString` of a clock reading.
- `UserTypes` holds the two account-type strings.
- `Wrappers` holds `Option`.

Host effects become values:

- An alert becomes a returned error kind or outcome.
- A navigation becomes a returned route name.
- The reply timer becomes the explicit `DeliverReply` step.
- `Date.now()` becomes a clock reading `now` passed in by the caller.

Two behaviours of the chat code are modelled as the code has them:

- Feedback is applied to every message carrying the given id: user
  messages and the seed greeting included. The screen shows the like and
  dislike buttons only under the assistant's messages
  (components/ChatBotAssistant.jsx:149), but the map at
  components/ChatBotAssistant.jsx:110-121 does not look at the sender.
- A suggestion chip does not send its own text; it behaves differently from
  typing that text and sending it (see Findings).

## Model

| member | source | states |
|---|---|---|
| TextOps.TrimIsSlice | components/ChatBotAssistant.jsx:63 | The trimmed input is a contiguous slice of the input, and only white space was cut away on either side. |
| TextOps.TrimEdges | components/ChatBotAssistant.jsx:63 | Non-empty trimmed text has white space at neither end. |
| TextOps.TrimEmptyIff | components/ChatBotAssistant.jsx:60 | `!inputText.trim()` holds exactly when every character of the input is white space. |
| TextOps.TrimIdempotent | components/ChatBotAssistant.jsx:63 | Trimming trimmed text changes nothing. |
| TextOps.ToLowerMapsEachChar | components/ChatBotAssistant.jsx:79-91 | Lower-casing keeps the length and the position of every character; each upper-case ASCII letter becomes its lower-case partner, every other character is kept, and no upper-case letter is left. |
| TextOps.ToLowerIdempotent | components/ChatBotAssistant.jsx:79-91 | Lower-casing twice equals lower-casing once. |
| TextOps.IncludesIffOccurs | components/ChatBotAssistant.jsx:79-91 | The `includes` scan answers true exactly when the keyword occurs at some position of the text. |
| TextOps.IncludesPart | components/ChatBotAssistant.jsx:91 | Text that contains `x + k + y` contains `k`, so a test for a keyword is subsumed by a test for any part of it. |
| TextOps.NatToStringInjective | components/ChatBotAssistant.jsx:65 | Distinct clock readings give distinct message ids, and nothing more is claimed about id uniqueness. |
| Chatbot.ClassifyIsFirstMatch | components/ChatBotAssistant.jsx:78-93 | The if/else-if chain gives the same topic as the seven-rule table read top to bottom. |
| Chatbot.FirstMatchPicksRule | components/ChatBotAssistant.jsx:78-93 | For any table with distinct topics, rule k decides exactly when it fires and no earlier rule does. |
| Chatbot.FirstMatchFallback | components/ChatBotAssistant.jsx:78-93 | For any table with distinct topics, the fallback is chosen exactly when no rule fires. |
| Chatbot.RulesHaveDistinctTopics | components/ChatBotAssistant.jsx:79-92 | The seven rules lead to seven different topics, none of them the fallback. |
| Chatbot.ReplyFollowsRules | components/ChatBotAssistant.jsx:78-93 | On the lower-cased input, the reply topic is rule k's exactly when rule k fires and none of the rules before it does. |
| Chatbot.ReplyFallback | components/ChatBotAssistant.jsx:78-93 | Every input gets a reply, and it is the fallback exactly when no rule fires. |
| Chatbot.ResponseTextInjective | components/ChatBotAssistant.jsx:78-92 | The eight reply texts are pairwise different, so a reply identifies the rule that chose it. |
| Chatbot.ReplyIgnoresCase | components/ChatBotAssistant.jsx:79-91 | Lower-casing the input first does not change the reply. |
| Chatbot.AcceptedRuleIsAccept | components/ChatBotAssistant.jsx:91 | The last rule fires exactly when "accept" occurs, since "accepted" contains it. |
| Chatbot.GreetingWhen | components/ChatBotAssistant.jsx:79-84 | The greeting is chosen exactly when "donate" and "history" are absent and "hello" or "hi" is present. |
| Chatbot.NearbyWhen | components/ChatBotAssistant.jsx:79-86 | The nearby reply is chosen exactly when no earlier keyword occurs and "nearby" does. |
| Chatbot.VolunteerWhen | components/ChatBotAssistant.jsx:79-88 | The volunteering reply is chosen exactly when no earlier keyword occurs and "volunteer" does. |
| Chatbot.HoursWhen | components/ChatBotAssistant.jsx:79-90 | The opening-hours reply is chosen exactly when no earlier keyword occurs and "hours" or "time" does. |
| Chatbot.AcceptedWhen | components/ChatBotAssistant.jsx:79-92 | The accepted-food reply is chosen exactly when no earlier keyword occurs and "accepted" or "accept" does. |
| Chatbot.FallbackWhen | components/ChatBotAssistant.jsx:78-93 | The fallback is chosen exactly when none of the eleven keywords occurs. |
| Chatbot.ReplyToDonateChip | components/ChatBotAssistant.jsx:79-80 | The chip text "How to donate food?", typed and sent, gets the donation instructions. |
| Chatbot.ReplyToAcceptedChip | components/ChatBotAssistant.jsx:91-92 | The chip text "What food is accepted?" gets the accepted-food reply. |
| Chatbot.ReplyToNearbyChip | components/ChatBotAssistant.jsx:85-86 | The chip text "Find a nearby donation center?" gets the nearby reply; "donation" does not contain "donate". |
| Chatbot.ReplyToVolunteerChip | components/ChatBotAssistant.jsx:87-88 | The chip text "How to volunteer?" gets the volunteering reply. |
| Chatbot.ReplyToHoursChip | components/ChatBotAssistant.jsx:89-90 | The chip text "What are the operational hours?" gets the opening-hours reply. |
| Chatbot.ReplyToGreeting | components/ChatBotAssistant.jsx:83-84 | "hi there" gets the greeting. |
| Chatbot.ReplyToWordHoldingHi | components/ChatBotAssistant.jsx:83-84 | "Is this accepted?" gets the greeting, because "hi" is tested as a substring and "this" contains it. |
| Chatbot.ReplyToUnknownText | components/ChatBotAssistant.jsx:78-93 | "random gibberish" gets the fallback reply. |
| Chatbot.Feedback | components/ChatBotAssistant.jsx:109-122 | The mapped log keeps length, order and every id, text and sender, and leaves other ids untouched. For the target, like flips `liked` and clears `disliked`, and dislike does the mirror image. An unknown type leaves the log identical. |
| Chatbot.FeedbackKeepsExclusive | components/ChatBotAssistant.jsx:113-117 | No message ever has both `liked` and `disliked` set. |
| Chatbot.FeedbackUnknownId | components/ChatBotAssistant.jsx:110-121 | Feedback on an id no message carries leaves the log identical. |
| Chatbot.LikeTwice | components/ChatBotAssistant.jsx:114 | Liking twice restores `liked` and leaves `disliked` false. If the target was not disliked, the log is exactly as before. |
| Chatbot.ChatbotAssistant.constructor | components/ChatBotAssistant.jsx:52-56 | The log starts as the single bot greeting with id "1", the input is empty and typing is off. |
| Chatbot.ChatbotAssistant.SetInputText | components/ChatBotAssistant.jsx:55 | The input setter changes only the input. |
| Chatbot.ChatbotAssistant.SendMessage | components/ChatBotAssistant.jsx:59-75 | A blank input changes nothing. Otherwise exactly one user message with the trimmed text is appended, the input is cleared, typing is set, and the captured text is handed to the reply callback. |
| Chatbot.ChatbotAssistant.DeliverReply | components/ChatBotAssistant.jsx:95-105 | Exactly one bot message with the selected reply and both flags false is appended after all others, and typing is cleared. |
| Chatbot.ChatbotAssistant.HandleFeedback | components/ChatBotAssistant.jsx:109-122 | The log becomes the feedback map of the old log, keeps its invariants, and nothing else changes. |
| Chatbot.ChatbotAssistant.HandleQueryPress | components/ChatBotAssistant.jsx:124-127 | As written: the send reads the input as it was before the press. It sends that old text (or nothing), and the chip's text is left in the input only when nothing was sent. |
| Chatbot.ChatbotAssistant.SendQuery | components/ChatBotAssistant.jsx:124-127 | As intended: a chip sends its own trimmed text, exactly like typing it and sending. |
| Chatbot.Conversation | components/ChatBotAssistant.jsx:59-106 | A fresh screen, one non-blank send and its delivered reply give the log [greeting, trimmed user text, reply to it], in that order. |
| Chatbot.ChipOnFreshScreen | components/ChatBotAssistant.jsx:124-127 | As written, a chip pressed on a fresh screen sends nothing: the log is still the greeting and the chip's text waits in the input. |
| Chatbot.IntendedChipOnFreshScreen | components/ChatBotAssistant.jsx:124-127 | As intended, a chip on a fresh screen appends its own trimmed text and schedules its reply. |
| SignUp.WithField | components/SignUpPage.jsx:35-40 | Spreading the record with one key overwritten sets that field and leaves every other field as it was. |
| SignUp.WithFieldOverwrites | components/SignUpPage.jsx:35-40 | The second of two writes to a field wins, and writing back a field's own value changes nothing. |
| SignUp.AlertTextIdentifiesFailure | components/SignUpPage.jsx:45-63 | Each failed check has its own alert text, so the alert tells which check failed. |
| SignUp.ValidateForm | components/SignUpPage.jsx:42-66 | The form passes exactly when it is acceptable: the four required fields are filled, the password is confirmed and at least six characters long, and a trust gives an organisation and a registration number. |
| SignUp.MissingRequiredComesFirst | components/SignUpPage.jsx:45-48 | The required-fields error is reported exactly when name, e-mail, phone or password is empty, whatever else is wrong. |
| SignUp.MismatchBeforeLength | components/SignUpPage.jsx:50-53 | With the required fields filled, the mismatch error is reported exactly when the two passwords differ, before the length check. |
| SignUp.PasswordLengthBoundary | components/SignUpPage.jsx:55-58 | A confirmed password shorter than 6 fails the length check; one of exactly 6 passes it, and a non-trust form with it passes validation. |
| SignUp.OrganizationOnlyForTrust | components/SignUpPage.jsx:60-63 | For any account type other than trust, the organisation fields are neither read nor failed on, and validation is the same as for a donator. |
| SignUp.TrustNeedsOrganization | components/SignUpPage.jsx:60-63 | A trust that passes the first three checks fails exactly when its organisation or registration number is missing. |
| SignUp.AddressNeverChecked | components/SignUpPage.jsx:42-66 | The address does not affect validation. |
| SignUp.EmptyFormRejected | components/SignUpPage.jsx:45-48 | The blank form is refused for missing required fields. |
| SignUp.SignUpScreen.constructor | components/SignUpPage.jsx:21-33 | Donator account, blank form, both passwords hidden. |
| SignUp.SignUpScreen.HandleInputChange | components/SignUpPage.jsx:35-40 | Only the named field of the form changes. |
| SignUp.SignUpScreen.SetUserType | components/SignUpPage.jsx:75-117 | The selector stores "donator" or "trust" and changes nothing else. |
| SignUp.SignUpScreen.ToggleVisibility | components/SignUpPage.jsx:133-136 | The password's eye flips the password's visibility; the confirmation's eye flips the confirmation's. |
| SignUp.SignUpScreen.HandleSignUp | components/SignUpPage.jsx:68-73 | Sign-up proceeds, with the current account type and form, exactly when the form is acceptable. Otherwise the first failed check is alerted with that check's text. |
| SignUp.TrustWithoutOrganization | components/SignUpPage.jsx:42-73 | A trust with blank organisation details is stopped by the organisation check, with that check's alert text; the same form as a donator proceeds. |
| History.WithStatus | components/MyHistoryPage.jsx:79 | The filter keeps each donation of the status as often as the history has it, and nothing else. |
| History.WithStatusIsSubsequence | components/MyHistoryPage.jsx:79 | The filtered list keeps the history's order. |
| History.FilteredData | components/MyHistoryPage.jsx:77-80 | "All" returns the history unchanged; any other filter returns exactly the donations with that status. |
| History.FilteredDataIsSubsequence | components/MyHistoryPage.jsx:77-80 | The shown list is always a subsequence of the history. |
| History.RenderStats | components/MyHistoryPage.jsx:194-197 | The total is the history's length, and collected plus pending never exceeds it. The filter plays no part. |
| History.DisjointFiltersFit | components/MyHistoryPage.jsx:196-197 | Filters for two different statuses together pick at most the whole history. |
| History.StatusFiltersPartition | components/MyHistoryPage.jsx:194-197 | When every status is known, the collected, pending and cancelled filters split the history exactly. |
| History.SeedStats | components/MyHistoryPage.jsx:20-73 | The sample history gives the counts 4, 2 and 1. |
| History.StatusColor | components/MyHistoryPage.jsx:82-93 | The colour is the grey default exactly for statuses other than the three known ones. |
| History.StatusIcon | components/MyHistoryPage.jsx:95-106 | The icon is "help" exactly for statuses other than the three known ones. |
| History.StatusStylesDistinguish | components/MyHistoryPage.jsx:82-106 | The three known statuses get three different colours and three different icons. |
| History.HistoryScreen.constructor | components/MyHistoryPage.jsx:75 | The screen shows the sample history under the filter "All". |
| History.HistoryScreen.SetFilter | components/MyHistoryPage.jsx:243-246 | A filter button stores its own label, one of All, Collected, Pending and Cancelled. |
| History.PendingOnFreshScreen | components/MyHistoryPage.jsx:77-80 | Choosing "Pending" on the fresh screen shows only donation "2", while the counts stay 4, 2 and 1. |
| Donate.With | FrontEnd/components/DonatePage.jsx:20-30 | One input's setter changes that input and no other. |
| Donate.MandatoryFilledMeansEachMandatoryInput | FrontEnd/components/DonatePage.jsx:33 | The submit check passes exactly when each of the five mandatory inputs holds text. |
| Donate.OptionalInputsIrrelevant | FrontEnd/components/DonatePage.jsx:33 | Category, expiry, description and e-mail never decide the submit check. |
| Donate.DonateForm.constructor | FrontEnd/components/DonatePage.jsx:20-30 | All nine inputs start empty. |
| Donate.DonateForm.SetInput | FrontEnd/components/DonatePage.jsx:20-30 | Typing into one input replaces that input's text only. |
| Donate.DonateForm.HandleSubmit | FrontEnd/components/DonatePage.jsx:32-58 | The success dialog opens exactly when the mandatory inputs are filled. No input changes either way. |
| Donate.DonateForm.ConfirmOk | FrontEnd/components/DonatePage.jsx:44-55 | The dialog's OK empties all nine inputs. |
| Donate.SubmitThenConfirm | FrontEnd/components/DonatePage.jsx:32-58 | A filled form is accepted. After OK the form is blank, and submitting it again is refused. |
| Donate.SubmitWithoutQuantity | FrontEnd/components/DonatePage.jsx:33-36 | A refused submit leaves every typed input in place. |
| Login.LoginScreen.constructor | components/LoginPage.jsx:24-27 | Donator account, empty e-mail and password, password hidden. |
| Login.LoginScreen.SetUserType | components/LoginPage.jsx:47-74 | The selector stores "donator" or "trust" and changes nothing else. |
| Login.LoginScreen.SetEmail | components/LoginPage.jsx:131-132 | The e-mail setter changes only the e-mail. |
| Login.LoginScreen.SetPassword | components/LoginPage.jsx:145-146 | The password setter changes only the password. |
| Login.LoginScreen.ToggleShowPassword | components/LoginPage.jsx:152 | The eye icon flips whether the password is shown. |
| Login.LoginScreen.HandleLogin | components/LoginPage.jsx:38-45 | Sign-in navigates to "Home" exactly when both inputs are non-empty. Otherwise it alerts "Please fill in all fields". Neither the credentials nor the account type are checked. |
| Login.ToggleTwice | components/LoginPage.jsx:152 | Toggling twice restores the visibility and changes nothing else. |
| Login.SignInOnFreshScreen | components/LoginPage.jsx:38-45 | On a fresh screen an empty password is refused. With it typed, sign-in goes home for either account type and any password. |

## Left out

- Layout, styles, gradients, images and every `Animated` effect are presentation.
- Navigation calls (`goBack`, `navigate('Login')`, `navigate('Home')`) are not modelled. Sign-in records only the route name "Home".
- `Alert.alert` dialogs are modelled as returned outcomes. `console.log`, `Keyboard.dismiss` and `scrollToEnd` are host side effects and are not modelled.
- The 1.5-second reply delay is not modelled. The timer callback is the caller's explicit `DeliverReply` step.
- Overlapping timers from rapid sends, and the order in which their replies land, are not modelled. Concurrency on the event loop is not the point of the code.
- `Date.now()` is a clock reading passed in as `now`. Ids are its decimal rendering, and only "distinct readings give distinct ids" is proved. A user id and a later reply id `now + 1` may still coincide.
- `trim` uses a fixed white-space set: TAB through CR, SPACE, NO-BREAK SPACE, the line and paragraph separators, and BYTE ORDER MARK. The other Unicode space separators are not included.
- `toLowerCase` lower-cases ASCII letters only.
- String lengths count Dafny characters, not JavaScript UTF-16 code units. This matters only for the six-character password rule on text outside the Basic Multilingual Plane.
- The seed greeting and user messages carry no `liked`/`disliked` properties in the source. The model gives them `false`, which the feedback handler treats the same way as the absent value.
- The screens' other display-only branches are not modelled: subtitles, icon colours, and the empty-list text.
- The home screen and the app's navigator are not part of this model.

## Findings

| source | as written | input that shows it | evidently intended | confidence | as-written member | corrected member |
|---|---|---|---|---|---|---|
| components/ChatBotAssistant.jsx:124-127 | `handleQueryPress` queues `setInputText(query)` and then calls `sendMessage`, which reads the input from the same render. That is the input as it was before the press. | A fresh screen, then a press on the chip "How to donate food?": nothing is sent, and the chip's text is left in the input. | Pressing a chip sends the chip's text, as typing it and pressing send would. | high; not executed | Chatbot.ChipOnFreshScreen | Chatbot.IntendedChipOnFreshScreen |
