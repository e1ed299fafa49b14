# Recipe viewer skill handler, modelled in Dafny

The system is a voice/screen skill handler (`lambda_function.py`) that lets a
user browse folders of recipes held in a remote file store, read one recipe on
screen, scroll it, and set a kitchen timer while the recipe stays displayed.
Each invocation handles one event; the only state that survives between turns
is the `sessionAttributes` a response carries, which the platform hands to the
next event. In the model, `Turn.attrs` is the handler's dictionary after the
turn, and `Response.sessionAttributes` is what is actually handed back: only a
response that renders a recipe carries attributes
(`AttributesHandedBackOnlyWithRecipe`). The scroll, fallback, list and
speech-only answers carry none. So "the attributes are unchanged" in the
lemmas below is a fact about the dictionary, not about what the next event
receives.

The model covers the decision-bearing core once HTTP, JSON and logging are set
aside:

- **Duration parser** (`Duration`): `parse_duration_to_seconds` as a
  deterministic matcher for `^PT(?:(\d+)H)?(?:(\d+)M)?(?:(\d+)S)?$`, with
  soundness (a match recomposes to the input) in its contract and completeness
  and the exact error set as lemmas.
- **Text sanitizer** (`Sanitizer`): `clean_recipe_content` as the same chain
  (NBSP replace, strip, CRLF then CR to LF, filter), each stage a function
  with its own contract.
- **Listing builder** (`Listing`): the dictionary comprehension and the sort
  of `fetch_subfolders` / `fetch_recipes_in_category`, with Python's string
  order defined explicitly (`LexLess`) and proved a strict total order.
- **Remote answers** (`Gateway`): a `Remote` value gives what the file store
  and the timer service answer in a turn; `is_folder` and
  `download_file_content` are modelled over it, and every turn records the
  remote calls it makes (`Call`) so that "a folder is never downloaded" can be
  stated.
- **Responses** (`Responses`): the response dictionaries as a datatype
  (directives, spoken text, session attributes, `shouldEndSession`) with the
  APL documents reduced to rows and press arguments, or recipe text and the
  scroll view id.
- **Session** (`Session`): a class holding the attributes map, updated in
  place like the source's dictionary.
- **Turn dispatcher** (`Dispatcher`): `lambda_handler`, `handle_user_event`,
  `handle_set_timer` and `display_recipe_content` as module-level methods
  that take the `SessionAttributes` object and update it in place, each
  proved equal to a specification function (`HandlerTurn`,
  `UserEventTurn`, `SetTimerTurn`, `RecipeTurn`) that returns the response, the
  new attributes and the calls made; the routing and session properties are
  lemmas about those functions.

Some behaviours of the handler are easy to misread:

- A download failure is not spoken as an error. `download_file_content` returns
  a non-empty apology, and `handle_user_event` renders and saves it as if it
  were the recipe (`DownloadApologyShownAsRecipe`).
- `handle_set_timer` never calls the duration parser. It sends the raw slot
  text to the timer service (`TimerGetsRawDuration`).
- The parser accepts the all-absent duration `"PT"` as 0 seconds
  (`ParseBarePrefix`). It does not reject it.
- A launch re-renders the saved recipe when both keys are present, even with
  empty values. The timer path needs both values non-empty
  (`PresenceVersusTruthiness`).

## Model

| member | source | states |
|---|---|---|
| `Duration.Compose` | lambda_function.py:353 | the string whose full match yields the given groups: `PT`, then each group present as its digits followed by H, M or S, in that order |
| `Duration.IsDurationString` | lambda_function.py:353 | the language of `^PT(?:(\d+)H)?(?:(\d+)M)?(?:(\d+)S)?$`: the strings `Compose` yields from groups that are absent or one or more ASCII digits |
| `Duration.DigitsValue` | lambda_function.py:357-359 | `int()` of a digit string: its decimal value, leading zeros allowed |
| `Duration.GroupValue` | lambda_function.py:357-359 | `int(match.group(k) or 0)`: an absent group counts 0 |
| `Duration.TotalSeconds` | lambda_function.py:361 | hours * 3600 + minutes * 60 + seconds |
| `Duration.DigitRun` | lambda_function.py:353 | the greedy `\d+`: the length of the leading run of ASCII digits, followed by a non-digit or the end |
| `Duration.MatchGroup` | lambda_function.py:353 | an optional group `(\d+)X` captures only digits, and the text it consumes is exactly its digits and designator |
| `Duration.MatchDuration` | lambda_function.py:353-355 | soundness of the match: any match has valid groups that recompose, in order H, M, S after `PT`, to the whole string |
| `Duration.ParseDurationToSeconds` | lambda_function.py:348-361 | a result is hours*3600 + minutes*60 + seconds for a decomposition of the input into the grammar; a failure carries the ValueError message |
| `Duration.MatchDurationComplete` | lambda_function.py:353 | completeness: every string `PT[<digits>H][<digits>M][<digits>S]` matches with exactly its groups |
| `Duration.ParseComplete` | lambda_function.py:357-361 | every string of the grammar parses to h*3600 + m*60 + s, absent parts counting 0 |
| `Duration.ParseFailsExactlyOutsideGrammar` | lambda_function.py:353-355 | the parser raises exactly for the strings outside the grammar |
| `Duration.ParseUnique` | lambda_function.py:353 | a matching string has only one decomposition into groups |
| `Duration.ParseFiveMinutes` | lambda_function.py:351 | `"PT5M"` gives 300 |
| `Duration.ParseHourAndHalf` | lambda_function.py:357-361 | `"PT1H30M"` gives 5400 |
| `Duration.ParseFortyFiveSeconds` | lambda_function.py:357-361 | `"PT45S"` gives 45 |
| `Duration.ParseBarePrefix` | lambda_function.py:353-361 | `"PT"` gives 0 |
| `Duration.ParseRejectsMissingPrefix` | lambda_function.py:353-355 | `""` and `"5M"` raise the ValueError |
| `Sanitizer.IsSpace` | lambda_function.py:21 | the characters `str.strip()` removes: exactly those for which Python's `str.isspace` holds |
| `Sanitizer.IsPrintable` | lambda_function.py:23 | `str.isprintable` on one character, approximated as described under "Left out" |
| `Sanitizer.Kept` | lambda_function.py:23 | the filter predicate `x.isprintable() or x in '\n'` |
| `Sanitizer.Filter` | lambda_function.py:23 | `''.join(filter(p, s))` keeps only characters satisfying p, never lengthens, adds no character |
| `Sanitizer.ReplaceNbsp` | lambda_function.py:21 | no NBSP remains; each NBSP became a space and every other character is unchanged |
| `Sanitizer.Strip` | lambda_function.py:21 | `strip()`: a slice with only whitespace outside it, neither starting nor ending with whitespace, empty exactly when the input is all whitespace |
| `Sanitizer.ReplaceCrlf` | lambda_function.py:22 | a single character is kept, a CR LF pair becomes one LF, the result is never longer and creates no CR |
| `Sanitizer.ReplaceCr` | lambda_function.py:22 | no CR remains, the length is kept, every CR becomes LF and every other character is unchanged |
| `Sanitizer.CrlfKeepsOthers` | lambda_function.py:22 | replacing CRLF by LF keeps, in order, every character other than CR, and so every printable character |
| `Sanitizer.ReplaceCrlfAppend` | lambda_function.py:22 | the CRLF replacement works piecewise at any split that does not cut a CR LF pair; with the one-character and one-pair cases this fixes the result on every string |
| `Sanitizer.CrKeepsOthers` | lambda_function.py:22 | replacing CR by LF keeps, in order, every character other than CR and LF |
| `Sanitizer.CrlfBecomesLineFeed` | lambda_function.py:19-24 | two clean lines separated by CR LF come out separated by exactly one LF |
| `Sanitizer.CrBecomesLineFeed` | lambda_function.py:19-24 | two clean lines separated by a lone CR come out separated by exactly one LF |
| `Sanitizer.CleanRecipeContent` | lambda_function.py:19-24 | the output has no CR and no NBSP, every character is printable or LF, and it is never longer than the input |
| `Sanitizer.KeepsPrintableInterior` | lambda_function.py:21-23 | the printable characters of the output are exactly those of the stripped input, in their original order |
| `Sanitizer.CleanTextIsFixed` | lambda_function.py:19-24 | text that is already all printable-or-LF and has no surrounding whitespace is returned unchanged |
| `Sanitizer.NotIdempotent` | lambda_function.py:21-23 | cleaning is not idempotent: `"a \x01"` becomes `"a "`, which becomes `"a"` |
| `Listing.LexLess` | lambda_function.py:47 | Python's `<` on `str`, which `sorted` uses here and at line 76: a proper prefix sorts first, otherwise the smaller code point at the first difference |
| `Listing.LexLessIrreflexive` | lambda_function.py:47 | no string sorts before itself |
| `Listing.LexLessTransitive` | lambda_function.py:47 | the code-point order on strings is transitive |
| `Listing.LexLessTotal` | lambda_function.py:47 | any two distinct strings are ordered one way round |
| `Listing.LexLessAsymmetric` | lambda_function.py:76 | no two strings each sort before the other |
| `Listing.Insert` | lambda_function.py:47 | inserting a name into a strictly ascending list gives a strictly ascending list with that name added exactly when absent |
| `Listing.NameMap` | lambda_function.py:44 | the dictionary's keys are exactly the names of the pairs |
| `Listing.SortedNames` | lambda_function.py:47 | the sorted key list is strictly ascending and holds exactly the dictionary's keys |
| `Listing.EntryPairs` | lambda_function.py:73 | the pairs are read in order, and the read fails exactly when some entry lacks a name or an id |
| `Listing.BuildListing` | lambda_function.py:44-52 | the returned names are strictly ascending and equal the returned map's key set |
| `Listing.LastPairWins` | lambda_function.py:44 | for a repeated name the dictionary holds the id of the last pair with that name |
| `Listing.AscendingUnique` | lambda_function.py:76 | two strictly ascending lists with the same elements are equal, so the sorted order is determined |
| `Listing.ListingOfWellFormed` | lambda_function.py:73-78 | for well-formed entries the names are exactly the entries' names and each maps to the last entry's id |
| `Listing.FailureGivesEmptyListing` | lambda_function.py:79-81 | a failed request, or an entry missing a name or id, yields `([], {})` |
| `Gateway.FetchSubfolders` | lambda_function.py:26-52 | the root folder's subfolders as a listing; its properties are those of `Listing.BuildListing` |
| `Gateway.FetchRecipesInCategory` | lambda_function.py:54-81 | a folder's non-folder files as a listing; its properties are those of `Listing.BuildListing` |
| `Gateway.IsFolder` | lambda_function.py:100-116 | true exactly when the metadata's mime type is the folder type, false when the lookup fails; used by `Dispatcher.SelectionDownloadsOnlyFiles` |
| `Gateway.DownloadFileContent` | lambda_function.py:83-98 | exported text is returned cleaned; an HTTPError and any other failure give their two apologies, both non-empty |
| `Responses.Rows` | lambda_function.py:150-166 | one row per name in the given order; row i shows name i and sends `[ids[name i]]` |
| `Responses.ListScreen` | lambda_function.py:118-264 | an empty listing gives no directives and ends the session; otherwise one RenderDocument of the rows, no speech, no attributes handed back, session open |
| `Responses.ReplaceNewlines` | lambda_function.py:285 | an LF becomes `<br>` and any other single character is kept; the shown text contains no LF, and text without LF is shown unchanged |
| `Responses.ReplaceNewlinesAppend` | lambda_function.py:285 | the LF to `<br>` replacement works piecewise over concatenation |
| `Responses.LineFeedBecomesBreak` | lambda_function.py:285 | every LF, wherever it stands, becomes `<br>`, with the text on each side replaced on its own |
| `Responses.DisplayCategories` | lambda_function.py:118-186 | the category list screen over the root folder's listing; `Responses.ListScreen` and `Responses.ListRowsFollowListing` state its shape |
| `Responses.DisplayRecipesInCategory` | lambda_function.py:188-264 | the recipe list screen over one folder's listing; `Responses.ListScreen` states its shape |
| `Responses.RecipeScreen` | lambda_function.py:271-316 | the recipe text with `<br>` line breaks in the scroll view, then a Focus on that view; stated by `Dispatcher.RecipeTurnSavesWhatItShows` |
| `Responses.ScrollResponse` | lambda_function.py:319-343 | one Scroll of 0.75 times the direction on the recipe's scroll view; stated by `Dispatcher.ScrollRoutes` |
| `Responses.FallbackResponse` | lambda_function.py:364-371 | no speech and no directives, session open; stated by `Dispatcher.FallbackRoutes` |
| `Responses.CancelTimerResponse` | lambda_function.py:494-511 | CancelAllTimers with the cancellation speech; `Dispatcher.NeverCancelsTimers` shows no turn produces it |
| `Responses.BuildResponse` | lambda_function.py:373-384 | spoken text and end flag as given, no directives; the attributes are attached exactly when given and non-empty |
| `Responses.ListRowsFollowListing` | lambda_function.py:118-186 | a non-empty well-formed listing shows one list whose rows are strictly ascending, cover each distinct name once, and send the last id for each name |
| `Session.SessionAttributes.constructor` | lambda_function.py:533 | the attributes object starts with the event's attributes |
| `Session.SessionAttributes.Set` | lambda_function.py:268-269 | assignment to one key of the dictionary in place |
| `Session.Truthy` | lambda_function.py:395 | Python truthiness of an optional string, as tested at lines 395, 404 and 417: present and non-empty |
| `Session.Get` | lambda_function.py:414-415 | `dict.get`: the value when the key is present, None otherwise |
| `Session.Remember` | lambda_function.py:268-269 | the two recipe keys hold the given text and name; every other key is unchanged |
| `Session.RememberSame` | lambda_function.py:537-542 | re-saving the recipe the session holds leaves the attributes equal |
| `Dispatcher.Unrecognized` | lambda_function.py:561 | the events that fall through every branch of `lambda_handler`: not a launch, not a user event, and not an intent request naming one of the four handled intents |
| `Dispatcher.RecipeTurn` | lambda_function.py:266-316 | the specification of `display_recipe_content`, stated by `Dispatcher.RecipeTurnSavesWhatItShows` |
| `Dispatcher.UserEventTurn` | lambda_function.py:513-528 | the specification of `handle_user_event`, stated by the selection lemmas below |
| `Dispatcher.SetTimerTurn` | lambda_function.py:386-436 | the specification of `handle_set_timer`, stated by the timer lemmas below |
| `Dispatcher.HandlerTurn` | lambda_function.py:530-561 | the specification of `lambda_handler`, stated by the routing and session lemmas below |
| `Dispatcher.DisplayRecipeContent` | lambda_function.py:266-316 | updates the caller's attributes in place and returns the recipe response, as `RecipeTurn` says |
| `Dispatcher.HandleUserEvent` | lambda_function.py:513-528 | in-place version of `UserEventTurn`: same response, calls and new attributes |
| `Dispatcher.HandleSetTimer` | lambda_function.py:386-436 | in-place version of `SetTimerTurn`: same response, calls and new attributes |
| `Dispatcher.LambdaHandler` | lambda_function.py:530-561 | in-place version of `HandlerTurn`: same response, calls and new attributes |
| `Dispatcher.RecipeTurnSavesWhatItShows` | lambda_function.py:266-316 | the recipe render saves exactly the text and name, keeps other keys, returns the attributes, renders the text with `<br>` then focuses `recipeScrollView` (both with token `recipeContentToken`), and never ends the session |
| `Dispatcher.LaunchRoutes` | lambda_function.py:535-544 | a launch with both keys present re-renders that recipe with the attributes unchanged; otherwise it lists the categories |
| `Dispatcher.ScrollRoutes` | lambda_function.py:552-555 | ScrollDown and ScrollUp emit one Scroll of +0.75 or -0.75 on `recipeScrollView`, session open, the handler's dictionary unchanged, no attributes handed back |
| `Dispatcher.FallbackRoutes` | lambda_function.py:558-559 | the fallback intent returns no speech and no directives, session open |
| `Dispatcher.UnrecognizedRoutes` | lambda_function.py:561 | any other type or intent gets the apology and ends the session |
| `Dispatcher.EndsSessionExactly` | lambda_function.py:530-561 | a turn ends the session exactly when the event is unrecognised or an empty listing is shown |
| `Dispatcher.SessionOnlyGainsRecipe` | lambda_function.py:530-561 | a turn leaves the handler's dictionary unchanged or saves one recipe into them, so "both recipe keys or neither" is preserved |
| `Dispatcher.AttributesHandedBackOnlyWithRecipe` | lambda_function.py:373-384 | a response carries session attributes exactly when its first directive renders recipe text; every other answer hands back none |
| `Dispatcher.ShownRecipeIsSaved` | lambda_function.py:298-315 | any recipe text on screen is the saved text with LF replaced, and the saved attributes are returned |
| `Dispatcher.NeverCancelsTimers` | lambda_function.py:494-511 | `handle_cancel_timer` is unreachable: no turn emits CancelAllTimers; every response is version 1.0 |
| `Dispatcher.SelectionRejected` | lambda_function.py:515-517 | missing, empty or non-list arguments give the selection apology, session open, no remote call |
| `Dispatcher.FolderSelection` | lambda_function.py:522-523 | a folder id shows that folder's item list after only the metadata and listing calls |
| `Dispatcher.FileSelection` | lambda_function.py:524-528 | any other id is downloaded; non-empty text is rendered and saved with the id as its name, empty text gets the load apology |
| `Dispatcher.DownloadApologyShownAsRecipe` | lambda_function.py:93-98 | a failed download's apology is rendered and saved as the recipe text |
| `Dispatcher.SelectionDownloadsOnlyFiles` | lambda_function.py:522-528 | a selection downloads exactly when its id is not a folder and lists files exactly when it is |
| `Dispatcher.TimerRejectsMissingInput` | lambda_function.py:394-405 | a falsy duration, endpoint or token gives the unexpected-error speech, session open, no timer call |
| `Dispatcher.TimerGetsRawDuration` | lambda_function.py:408 | the timer service is called once with the raw slot text and the label "Recipe Timer" |
| `Dispatcher.TimerFailureKeepsSession` | lambda_function.py:409-411 | a timer error gives the timer apology and leaves the attributes unmodified |
| `Dispatcher.TimerSuccessRoutes` | lambda_function.py:413-432 | on success with both saved values non-empty the recipe is re-rendered with the "continue viewing" speech; otherwise only "Timer set for {duration}." |
| `Dispatcher.PresenceVersusTruthiness` | lambda_function.py:537 | with an empty saved text a launch re-renders it, while a successful timer only confirms |

## Left out

- HTTP requests, URL building, JSON decoding and encoding, and logging. Their results are the fields of `Gateway.Remote`.
- The body of `create_or_set_timer`: the request payload and headers are not modelled. Only its outcome is kept (`TimerOutcome`). `TimerOutcome` has no case for a call that raises. Building the request (line 478, outside that function's `try`) raises for an endpoint without a URL scheme, and `'error' in timer_response` (line 409) raises on a JSON value that is not a container. `handle_set_timer` catches both at lines 434-436 and gives the unexpected-error speech, which the model does not produce for them.
- APL styling: padding, `idleTimeout`, `style`, `maxLines`, `handleKeyEvents`, the document type and version, and the `PlainText` speech type.
- The scroll distance is the exact real `0.75 * direction`, not a float. Both values used, 0.75 and -0.75, are exact in binary floating point.
- The `except` branch of `handle_scroll`: nothing in its `try` block can raise.
- Unicode tables: `IsSpace` lists the characters of Python's `str.isspace`.
- `Sanitizer.IsPrintable`: approximates `str.isprintable`. Control characters, non-space separators, common format characters and the BMP private-use block are non-printable. Unassigned code points count as printable.
- `Duration.ParseDurationToSeconds`: matches ASCII digits only, while Python's `\d` and `int()` accept every Unicode decimal digit.
- `Duration.ParseDurationToSeconds`: rejects a string with one trailing newline (`"PT5M\n"`), which Python's `$` lets through.
- The unused global `last_viewed_recipe`.
- The platform's side of the session is not modelled: what it hands to the next event is `Response.sessionAttributes`, which the model computes but does not feed back into a later turn.
- Session attribute values are strings. A JSON null or non-string value is not modelled; with it, `display_recipe_content` would raise on `.replace`.
- Selection arguments are strings. A non-string first argument is not modelled.
- Events always carry `request.type`, and intent requests carry `request.intent.name`. The source raises a KeyError without them, which is not modelled.
- An absent `directives` key and an empty `directives` list are both `[]`.
- A listing response without a `files` key is the `Remote` answer `Some([])`. Non-string names or ids are not modelled.
- The `context` parameter of `lambda_handler` is unused by the source. The endpoint and token come from the event's own context.
