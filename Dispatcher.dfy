/**
 * lambda_handler and the handlers it routes to. Each handler is specified by
 * a function from the event, the attributes before the turn and the remote
 * answers to a Turn: the response, the attributes after the turn and the
 * remote calls made. The methods do the same work on a SessionAttributes
 * object, updating it in place as the source does, and are proved to agree
 * with those functions; the lemmas state the routing and session properties.
 */
module Dispatcher {
  import opened Wrappers
  import opened Gateway
  import opened Responses
  import opened Session

  const LaunchRequest := "LaunchRequest"
  const UserEventRequest := "Alexa.Presentation.APL.UserEvent"
  const IntentRequest := "IntentRequest"
  const ScrollDownIntent := "ScrollDownIntent"
  const ScrollUpIntent := "ScrollUpIntent"
  const SetTimerIntent := "SetTimerIntent"
  const FallbackIntent := "AMAZON.FallbackIntent"

  const TimerLabel := "Recipe Timer"
  const SelectionError := "Sorry, I couldn't process your selection."
  const LoadError := "Sorry, I couldn't load this recipe."
  const TimerError := "There was an issue setting the timer. Please try again."
  const UnexpectedError := "An unexpected error occurred. Please try again later."
  const RequestError := "Sorry, I couldn't process your request. Please try again."

  /** request.arguments of a user event: a missing key reads as the empty list. */
  datatype Arguments = ArgumentList(items: seq<string>) | NotAList

  /**
   * request.type, request.intent.name (read only for intent requests),
   * request.arguments and the value of the duration slot.
   */
  datatype Request = Request(requestType: string, intentName: string, arguments: Arguments, durationSlot: Option<string>)

  /** The event: its request and context.System.apiEndpoint / apiAccessToken. */
  datatype Event = Event(request: Request, apiEndpoint: Option<string>, apiAccessToken: Option<string>)

  /** What one turn produces: the response, the attributes afterwards, the remote calls made. */
  datatype Turn = Turn(response: Response, attrs: map<string, string>, calls: seq<Call>)

  function TimerSetSpeech(duration: string): string {
    "Timer set for " + duration + "."
  }

  function TimerSetWithRecipeSpeech(duration: string): string {
    "Timer set for " + duration + ". You can continue viewing your recipe."
  }

  /** An event no branch of lambda_handler recognises. */
  predicate Unrecognized(event: Event) {
    var t := event.request.requestType;
    var n := event.request.intentName;
    t != LaunchRequest && t != UserEventRequest &&
    (t != IntentRequest || (n != ScrollDownIntent && n != ScrollUpIntent && n != SetTimerIntent && n != FallbackIntent))
  }

  // ---------------------------------------------------------------------------
  // Specification functions

  /** display_recipe_content: save the recipe, then show it with the saved attributes. */
  function RecipeTurn(content: string, name: string, attrs: map<string, string>): Turn {
    var saved := Remember(attrs, content, name);
    Turn(RecipeScreen(content, saved), saved, [])
  }

  /** handle_user_event. */
  function UserEventTurn(args: Arguments, attrs: map<string, string>, remote: Remote): Turn {
    if args.NotAList? || args.items == [] then
      Turn(BuildResponse(SelectionError, false, None), attrs, [])
    else
      var selected := args.items[0];
      if IsFolder(remote, selected) then
        Turn(DisplayRecipesInCategory(remote, selected), attrs, [GetMimeType(selected), ListFiles(selected)])
      else
        var content := DownloadFileContent(remote, selected);
        var calls := [GetMimeType(selected), ExportText(selected)];
        if content != [] then RecipeTurn(content, selected, attrs).(calls := calls)
        else Turn(BuildResponse(LoadError, false, None), attrs, calls)
  }

  /** handle_set_timer; the raised ValueErrors end in its except branch. */
  function SetTimerTurn(event: Event, attrs: map<string, string>, remote: Remote): Turn {
    var duration := event.request.durationSlot;
    if !Truthy(duration) || !Truthy(event.apiEndpoint) || !Truthy(event.apiAccessToken) then
      Turn(BuildResponse(UnexpectedError, false, None), attrs, [])
    else
      var endpoint, token, d := event.apiEndpoint.value, event.apiAccessToken.value, duration.value;
      var calls := [CreateTimer(endpoint, token, d, TimerLabel)];
      if remote.createTimer(endpoint, token, d, TimerLabel).TimerFailed? then
        Turn(BuildResponse(TimerError, false, None), attrs, calls)
      else if Truthy(Get(attrs, ContentKey)) && Truthy(Get(attrs, NameKey)) then
        var t := RecipeTurn(attrs[ContentKey], attrs[NameKey], attrs);
        Turn(t.response.(speech := Some(TimerSetWithRecipeSpeech(d))), t.attrs, calls)
      else
        Turn(BuildResponse(TimerSetSpeech(d), false, None), attrs, calls)
  }

  /** lambda_handler. */
  function HandlerTurn(event: Event, attrs: map<string, string>, remote: Remote): Turn {
    var request := event.request;
    if request.requestType == LaunchRequest then
      if ContentKey in attrs && NameKey in attrs then RecipeTurn(attrs[ContentKey], attrs[NameKey], attrs)
      else Turn(DisplayCategories(remote), attrs, [ListSubfolders])
    else if request.requestType == UserEventRequest then
      UserEventTurn(request.arguments, attrs, remote)
    else if request.requestType == IntentRequest && request.intentName == ScrollDownIntent then
      Turn(ScrollResponse(1), attrs, [])
    else if request.requestType == IntentRequest && request.intentName == ScrollUpIntent then
      Turn(ScrollResponse(-1), attrs, [])
    else if request.requestType == IntentRequest && request.intentName == SetTimerIntent then
      SetTimerTurn(event, attrs, remote)
    else if request.requestType == IntentRequest && request.intentName == FallbackIntent then
      Turn(FallbackResponse(), attrs, [])
    else
      Turn(BuildResponse(RequestError, true, None), attrs, [])
  }

  // ---------------------------------------------------------------------------
  // The handlers on the caller's attributes object

  method DisplayRecipeContent(content: string, name: string, session: SessionAttributes) returns (r: Response)
    modifies session
    ensures var t := RecipeTurn(content, name, old(session.attrs));
      r == t.response && session.attrs == t.attrs
  {
    session.Set(ContentKey, content);
    session.Set(NameKey, name);
    r := RecipeScreen(content, session.attrs);
  }

  method HandleUserEvent(args: Arguments, session: SessionAttributes, remote: Remote)
    returns (r: Response, calls: seq<Call>)
    modifies session
    ensures var t := UserEventTurn(args, old(session.attrs), remote);
      r == t.response && calls == t.calls && session.attrs == t.attrs
  {
    if args.NotAList? || args.items == [] {
      return BuildResponse(SelectionError, false, None), [];
    }
    var selected := args.items[0];
    calls := [GetMimeType(selected)];
    if IsFolder(remote, selected) {
      calls := calls + [ListFiles(selected)];
      r := DisplayRecipesInCategory(remote, selected);
    } else {
      calls := calls + [ExportText(selected)];
      var content := DownloadFileContent(remote, selected);
      if content != [] {
        r := DisplayRecipeContent(content, selected, session);
      } else {
        r := BuildResponse(LoadError, false, None);
      }
    }
  }

  method HandleSetTimer(event: Event, session: SessionAttributes, remote: Remote)
    returns (r: Response, calls: seq<Call>)
    modifies session
    ensures var t := SetTimerTurn(event, old(session.attrs), remote);
      r == t.response && calls == t.calls && session.attrs == t.attrs
  {
    var duration := event.request.durationSlot;
    if !Truthy(duration) || !Truthy(event.apiEndpoint) || !Truthy(event.apiAccessToken) {
      return BuildResponse(UnexpectedError, false, None), [];
    }
    var endpoint, token := event.apiEndpoint.value, event.apiAccessToken.value;
    var outcome := remote.createTimer(endpoint, token, duration.value, TimerLabel);
    calls := [CreateTimer(endpoint, token, duration.value, TimerLabel)];
    if outcome.TimerFailed? {
      return BuildResponse(TimerError, false, None), calls;
    }
    var lastContent := Get(session.attrs, ContentKey);
    var lastName := Get(session.attrs, NameKey);
    if Truthy(lastContent) && Truthy(lastName) {
      r := DisplayRecipeContent(lastContent.value, lastName.value, session);
      r := r.(speech := Some(TimerSetWithRecipeSpeech(duration.value)));
    } else {
      r := BuildResponse(TimerSetSpeech(duration.value), false, None);
    }
  }

  method LambdaHandler(event: Event, session: SessionAttributes, remote: Remote)
    returns (r: Response, calls: seq<Call>)
    modifies session
    ensures var t := HandlerTurn(event, old(session.attrs), remote);
      r == t.response && calls == t.calls && session.attrs == t.attrs
  {
    var request := event.request;
    calls := [];
    if request.requestType == LaunchRequest {
      if ContentKey in session.attrs && NameKey in session.attrs {
        r := DisplayRecipeContent(session.attrs[ContentKey], session.attrs[NameKey], session);
      } else {
        r, calls := DisplayCategories(remote), [ListSubfolders];
      }
    } else if request.requestType == UserEventRequest {
      r, calls := HandleUserEvent(request.arguments, session, remote);
    } else if request.requestType == IntentRequest && request.intentName == ScrollDownIntent {
      r := ScrollResponse(1);
    } else if request.requestType == IntentRequest && request.intentName == ScrollUpIntent {
      r := ScrollResponse(-1);
    } else if request.requestType == IntentRequest && request.intentName == SetTimerIntent {
      r, calls := HandleSetTimer(event, session, remote);
    } else if request.requestType == IntentRequest && request.intentName == FallbackIntent {
      r := FallbackResponse();
    } else {
      r := BuildResponse(RequestError, true, None);
    }
  }

  // ---------------------------------------------------------------------------
  // Properties of a turn

  /** Rendering a recipe saves exactly its text and name, changes no other key and never ends the session. */
  lemma RecipeTurnSavesWhatItShows(content: string, name: string, attrs: map<string, string>)
    ensures var t := RecipeTurn(content, name, attrs);
      && t.attrs[ContentKey] == content && t.attrs[NameKey] == name
      && (forall k :: k != ContentKey && k != NameKey ==> (k in t.attrs <==> k in attrs))
      && (forall k :: k != ContentKey && k != NameKey && k in attrs ==> t.attrs[k] == attrs[k])
      && t.response.sessionAttributes == Some(t.attrs)
      && t.response.directives ==
           [RenderDocument(Some(RecipeToken), TextDocument(RecipeScrollView, ReplaceNewlines(content))),
            ExecuteCommands(RecipeToken, [Focus(RecipeScrollView)])]
      && '\n' !in t.response.directives[0].document.text
      && t.response.speech.None? && !t.response.shouldEndSession && t.calls == []
  {
  }

  /**
   * A launch re-renders the saved recipe when both keys are present (whatever
   * their values), leaving the attributes as they were; otherwise it lists the
   * categories.
   */
  lemma LaunchRoutes(event: Event, attrs: map<string, string>, remote: Remote)
    requires event.request.requestType == LaunchRequest
    ensures var t := HandlerTurn(event, attrs, remote);
      && t.attrs == attrs
      && (ContentKey in attrs && NameKey in attrs ==>
            t.response == RecipeScreen(attrs[ContentKey], attrs) && t.calls == [])
      && (!(ContentKey in attrs && NameKey in attrs) ==>
            t.response == DisplayCategories(remote) && t.calls == [ListSubfolders])
  {
    if ContentKey in attrs && NameKey in attrs {
      RememberSame(attrs);
    }
  }

  /** Scrolling moves the recipe's scroll view by three quarters of a page, down or up, and keeps the session. */
  lemma ScrollRoutes(event: Event, attrs: map<string, string>, remote: Remote)
    requires event.request.requestType == IntentRequest
    requires event.request.intentName == ScrollDownIntent || event.request.intentName == ScrollUpIntent
    ensures var t := HandlerTurn(event, attrs, remote);
      var distance := if event.request.intentName == ScrollDownIntent then 0.75 else -0.75;
      && t.response.directives == [ExecuteCommands(RecipeToken, [Scroll(RecipeScrollView, distance)])]
      && t.response.speech.None? && !t.response.shouldEndSession
      && t.attrs == attrs && t.calls == []
  {
  }

  /** The fallback intent answers with nothing and keeps the session open. */
  lemma FallbackRoutes(event: Event, attrs: map<string, string>, remote: Remote)
    requires event.request.requestType == IntentRequest && event.request.intentName == FallbackIntent
    ensures var t := HandlerTurn(event, attrs, remote);
      && t.response.directives == [] && t.response.speech.None? && !t.response.shouldEndSession
      && t.attrs == attrs && t.calls == []
  {
  }

  /** Any other request type or intent gets the apology and ends the session. */
  lemma UnrecognizedRoutes(event: Event, attrs: map<string, string>, remote: Remote)
    requires Unrecognized(event)
    ensures var t := HandlerTurn(event, attrs, remote);
      && t.response.speech == Some(RequestError) && t.response.directives == []
      && t.response.shouldEndSession && t.attrs == attrs && t.calls == []
  {
  }

  /** A turn ends the session exactly when the event is unrecognised or an empty listing was shown. */
  lemma EndsSessionExactly(event: Event, attrs: map<string, string>, remote: Remote)
    ensures var t := HandlerTurn(event, attrs, remote);
      t.response.shouldEndSession <==> Unrecognized(event) || t.response == EmptyListing
  {
  }

  /** The attributes after a turn: unchanged, or the same with one recipe saved into them. */
  predicate KeepsOrSavesRecipe(attrs: map<string, string>, t: Turn) {
    t.attrs == attrs ||
    (ContentKey in t.attrs && NameKey in t.attrs &&
     t.attrs == Remember(attrs, t.attrs[ContentKey], t.attrs[NameKey]))
  }

  /** Any recipe text on screen is the saved text with its line breaks replaced, sent with the saved attributes. */
  predicate ShowsSavedRecipe(t: Turn) {
    forall i :: (0 <= i < |t.response.directives| && t.response.directives[i].RenderDocument?
                 && t.response.directives[i].document.TextDocument?) ==>
      (&& ContentKey in t.attrs
       && t.response.directives[i].document.text == ReplaceNewlines(t.attrs[ContentKey])
       && t.response.sessionAttributes == Some(t.attrs))
  }

  /**
   * The response hands attributes back to the platform exactly when it
   * renders recipe text, which is always its first directive.
   */
  predicate HandsBackOnlyRecipe(t: Turn) {
    t.response.sessionAttributes.Some? <==>
      (t.response.directives != [] && t.response.directives[0].RenderDocument?
       && t.response.directives[0].document.TextDocument?)
  }

  /** No CancelAllTimers directive, and version 1.0. */
  predicate NoTimerCancel(t: Turn) {
    CancelAllTimers !in t.response.directives && t.response.version == Version
  }

  lemma RecipeTurnInvariants(content: string, name: string, attrs: map<string, string>, calls: seq<Call>)
    ensures var t := RecipeTurn(content, name, attrs).(calls := calls);
      KeepsOrSavesRecipe(attrs, t) && ShowsSavedRecipe(t) && NoTimerCancel(t) && HandsBackOnlyRecipe(t)
  {
    var t := RecipeTurn(content, name, attrs).(calls := calls);
    assert t.response.directives[0].document.text == ReplaceNewlines(t.attrs[ContentKey]);
    assert forall i :: 0 <= i < |t.response.directives| && t.response.directives[i].RenderDocument? ==> i == 0;
  }

  lemma UserEventInvariants(args: Arguments, attrs: map<string, string>, remote: Remote)
    ensures var t := UserEventTurn(args, attrs, remote);
      KeepsOrSavesRecipe(attrs, t) && ShowsSavedRecipe(t) && NoTimerCancel(t) && HandsBackOnlyRecipe(t)
  {
    if args.ArgumentList? && args.items != [] {
      var selected := args.items[0];
      if IsFolder(remote, selected) {
        ListTurnInvariants(DisplayRecipesInCategory(remote, selected), attrs, [GetMimeType(selected), ListFiles(selected)]);
      } else {
        var content := DownloadFileContent(remote, selected);
        if content != [] {
          RecipeTurnInvariants(content, selected, attrs, [GetMimeType(selected), ExportText(selected)]);
        }
      }
    }
  }

  lemma SetTimerInvariants(event: Event, attrs: map<string, string>, remote: Remote)
    ensures var t := SetTimerTurn(event, attrs, remote);
      KeepsOrSavesRecipe(attrs, t) && ShowsSavedRecipe(t) && NoTimerCancel(t) && HandsBackOnlyRecipe(t)
  {
    if Truthy(event.request.durationSlot) && Truthy(event.apiEndpoint) && Truthy(event.apiAccessToken)
       && Truthy(Get(attrs, ContentKey)) && Truthy(Get(attrs, NameKey)) {
      var endpoint, token, d := event.apiEndpoint.value, event.apiAccessToken.value, event.request.durationSlot.value;
      if remote.createTimer(endpoint, token, d, TimerLabel).TimerCreated? {
        RecipeTurnInvariants(attrs[ContentKey], attrs[NameKey], attrs, []);
        RememberSame(attrs);
      }
    }
  }

  /** A turn that shows only list screens, or nothing, keeps the attributes. */
  lemma ListTurnInvariants(r: Response, attrs: map<string, string>, calls: seq<Call>)
    requires r.version == Version && r.sessionAttributes.None?
    requires forall i :: 0 <= i < |r.directives| ==> r.directives[i].RenderDocument? && r.directives[i].document.ListDocument?
    ensures var t := Turn(r, attrs, calls);
      KeepsOrSavesRecipe(attrs, t) && ShowsSavedRecipe(t) && NoTimerCancel(t) && HandsBackOnlyRecipe(t)
  {
  }

  lemma LaunchInvariants(event: Event, attrs: map<string, string>, remote: Remote)
    requires event.request.requestType == LaunchRequest
    ensures var t := HandlerTurn(event, attrs, remote);
      KeepsOrSavesRecipe(attrs, t) && ShowsSavedRecipe(t) && NoTimerCancel(t) && HandsBackOnlyRecipe(t)
  {
    if ContentKey in attrs && NameKey in attrs {
      RecipeTurnInvariants(attrs[ContentKey], attrs[NameKey], attrs, []);
    } else {
      ListTurnInvariants(DisplayCategories(remote), attrs, [ListSubfolders]);
    }
  }

  lemma TurnInvariants(event: Event, attrs: map<string, string>, remote: Remote)
    ensures var t := HandlerTurn(event, attrs, remote);
      KeepsOrSavesRecipe(attrs, t) && ShowsSavedRecipe(t) && NoTimerCancel(t) && HandsBackOnlyRecipe(t)
  {
    var request := event.request;
    if request.requestType == LaunchRequest {
      LaunchInvariants(event, attrs, remote);
    } else if request.requestType == UserEventRequest {
      UserEventInvariants(request.arguments, attrs, remote);
    } else if request.requestType == IntentRequest && request.intentName == SetTimerIntent {
      SetTimerInvariants(event, attrs, remote);
    }
  }

  /**
   * A turn either leaves the attributes alone or saves one recipe into them;
   * so every other key is untouched and "both recipe keys or neither" is kept.
   */
  lemma SessionOnlyGainsRecipe(event: Event, attrs: map<string, string>, remote: Remote)
    ensures var t := HandlerTurn(event, attrs, remote);
      t.attrs == attrs ||
      (ContentKey in t.attrs && NameKey in t.attrs &&
       t.attrs == Remember(attrs, t.attrs[ContentKey], t.attrs[NameKey]))
    ensures Paired(attrs) ==> Paired(HandlerTurn(event, attrs, remote).attrs)
  {
    TurnInvariants(event, attrs, remote);
  }

  /**
   * Only a turn that renders recipe text hands the attributes back to the
   * platform; every other answer carries none, so the kept dictionary is not
   * what the next turn receives.
   */
  lemma AttributesHandedBackOnlyWithRecipe(event: Event, attrs: map<string, string>, remote: Remote)
    ensures var t := HandlerTurn(event, attrs, remote);
      t.response.sessionAttributes.Some? <==>
        (t.response.directives != [] && t.response.directives[0].RenderDocument?
         && t.response.directives[0].document.TextDocument?)
  {
    TurnInvariants(event, attrs, remote);
  }

  /** Whatever recipe text a turn puts on screen is, line breaks aside, the text it leaves saved. */
  lemma ShownRecipeIsSaved(event: Event, attrs: map<string, string>, remote: Remote)
    ensures var t := HandlerTurn(event, attrs, remote);
      forall i :: (0 <= i < |t.response.directives| && t.response.directives[i].RenderDocument?
                   && t.response.directives[i].document.TextDocument?) ==>
        (&& ContentKey in t.attrs
         && t.response.directives[i].document.text == ReplaceNewlines(t.attrs[ContentKey])
         && t.response.sessionAttributes == Some(t.attrs))
  {
    TurnInvariants(event, attrs, remote);
  }

  /** handle_cancel_timer is never reached: no turn answers with CancelAllTimers, and every answer is version 1.0. */
  lemma NeverCancelsTimers(event: Event, attrs: map<string, string>, remote: Remote)
    ensures var t := HandlerTurn(event, attrs, remote);
      CancelAllTimers !in t.response.directives && t.response.version == Version
  {
    TurnInvariants(event, attrs, remote);
  }

  /** A missing, empty or non-list argument gets the selection apology, with no remote call. */
  lemma SelectionRejected(args: Arguments, attrs: map<string, string>, remote: Remote)
    requires args.NotAList? || args.items == []
    ensures var t := UserEventTurn(args, attrs, remote);
      && t.response.speech == Some(SelectionError) && t.response.directives == []
      && !t.response.shouldEndSession && t.attrs == attrs && t.calls == []
  {
  }

  /** A folder id shows that folder's files; nothing is downloaded. */
  lemma FolderSelection(args: Arguments, attrs: map<string, string>, remote: Remote)
    requires args.ArgumentList? && args.items != [] && IsFolder(remote, args.items[0])
    ensures var t := UserEventTurn(args, attrs, remote);
      && t.response == DisplayRecipesInCategory(remote, args.items[0])
      && t.calls == [GetMimeType(args.items[0]), ListFiles(args.items[0])]
      && t.attrs == attrs
  {
  }

  /**
   * Any other id is downloaded; non-empty text is shown and saved under the
   * id itself as the name, empty text gets the load apology.
   */
  lemma FileSelection(args: Arguments, attrs: map<string, string>, remote: Remote)
    requires args.ArgumentList? && args.items != [] && !IsFolder(remote, args.items[0])
    ensures var t := UserEventTurn(args, attrs, remote);
      var id := args.items[0];
      var content := DownloadFileContent(remote, id);
      && t.calls == [GetMimeType(id), ExportText(id)]
      && (content != [] ==>
            t.attrs == Remember(attrs, content, id) && t.response == RecipeScreen(content, t.attrs))
      && (content == [] ==>
            t.response.speech == Some(LoadError) && t.response.directives == []
            && !t.response.shouldEndSession && t.attrs == attrs)
  {
  }

  /** A failed download shows its apology as if it were the recipe, and saves it. */
  lemma DownloadApologyShownAsRecipe(args: Arguments, attrs: map<string, string>, remote: Remote)
    requires args.ArgumentList? && args.items != [] && !IsFolder(remote, args.items[0])
    requires !remote.plainText(args.items[0]).Exported?
    ensures var t := UserEventTurn(args, attrs, remote);
      var apology := if remote.plainText(args.items[0]).HttpError? then HttpErrorApology else FetchErrorApology;
      && t.attrs[ContentKey] == apology && t.attrs[NameKey] == args.items[0]
      && t.response.directives[0].document == TextDocument(RecipeScrollView, ReplaceNewlines(apology))
  {
  }

  /** A selection downloads exactly when its id is not a folder, and lists files exactly when it is. */
  lemma SelectionDownloadsOnlyFiles(args: Arguments, attrs: map<string, string>, remote: Remote, id: string)
    ensures var t := UserEventTurn(args, attrs, remote);
      var selected := args.ArgumentList? && args.items != [] && args.items[0] == id;
      && (ExportText(id) in t.calls <==> selected && !IsFolder(remote, id))
      && (ListFiles(id) in t.calls <==> selected && IsFolder(remote, id))
  {
    var t := UserEventTurn(args, attrs, remote);
    if args.ArgumentList? && args.items != [] {
      var s := args.items[0];
      if IsFolder(remote, s) {
        assert t.calls == [GetMimeType(s), ListFiles(s)];
      } else {
        assert t.calls == [GetMimeType(s), ExportText(s)];
      }
    } else {
      assert t.calls == [];
    }
  }

  /** A falsy duration, endpoint or token gets the generic apology before any timer call. */
  lemma TimerRejectsMissingInput(event: Event, attrs: map<string, string>, remote: Remote)
    requires !Truthy(event.request.durationSlot) || !Truthy(event.apiEndpoint) || !Truthy(event.apiAccessToken)
    ensures var t := SetTimerTurn(event, attrs, remote);
      && t.response.speech == Some(UnexpectedError) && t.response.directives == []
      && !t.response.shouldEndSession && t.attrs == attrs && t.calls == []
  {
  }

  /** The timer service is asked with the raw slot text, never a parsed duration, and the fixed label. */
  lemma TimerGetsRawDuration(event: Event, attrs: map<string, string>, remote: Remote)
    requires Truthy(event.request.durationSlot) && Truthy(event.apiEndpoint) && Truthy(event.apiAccessToken)
    ensures SetTimerTurn(event, attrs, remote).calls ==
      [CreateTimer(event.apiEndpoint.value, event.apiAccessToken.value, event.request.durationSlot.value, TimerLabel)]
  {
  }

  /** A timer failure gets its apology and leaves the attributes unmodified. */
  lemma TimerFailureKeepsSession(event: Event, attrs: map<string, string>, remote: Remote)
    requires Truthy(event.request.durationSlot) && Truthy(event.apiEndpoint) && Truthy(event.apiAccessToken)
    requires remote.createTimer(event.apiEndpoint.value, event.apiAccessToken.value,
                                event.request.durationSlot.value, TimerLabel).TimerFailed?
    ensures var t := SetTimerTurn(event, attrs, remote);
      && t.response.speech == Some(TimerError) && t.response.directives == []
      && !t.response.shouldEndSession && t.attrs == attrs
  {
  }

  /**
   * A timer set while a recipe is saved (both values non-empty) re-renders
   * that recipe and confirms the duration; without one it only confirms.
   */
  lemma TimerSuccessRoutes(event: Event, attrs: map<string, string>, remote: Remote)
    requires Truthy(event.request.durationSlot) && Truthy(event.apiEndpoint) && Truthy(event.apiAccessToken)
    requires remote.createTimer(event.apiEndpoint.value, event.apiAccessToken.value,
                                event.request.durationSlot.value, TimerLabel).TimerCreated?
    ensures var t := SetTimerTurn(event, attrs, remote);
      var d := event.request.durationSlot.value;
      && t.attrs == attrs && !t.response.shouldEndSession
      && (Truthy(Get(attrs, ContentKey)) && Truthy(Get(attrs, NameKey)) ==>
            t.response == RecipeScreen(attrs[ContentKey], attrs).(speech := Some(TimerSetWithRecipeSpeech(d))))
      && (!(Truthy(Get(attrs, ContentKey)) && Truthy(Get(attrs, NameKey))) ==>
            t.response == BuildResponse(TimerSetSpeech(d), false, None))
  {
    if ContentKey in attrs && NameKey in attrs { RememberSame(attrs); }
  }

  /**
   * The launch tests whether the keys are present, the timer whether their
   * values are non-empty: with an empty saved text a launch re-renders the
   * empty recipe while a timer only confirms.
   */
  lemma PresenceVersusTruthiness(launch: Event, timer: Event, remote: Remote)
    requires launch.request.requestType == LaunchRequest
    requires timer.request.requestType == IntentRequest && timer.request.intentName == SetTimerIntent
    requires Truthy(timer.request.durationSlot) && Truthy(timer.apiEndpoint) && Truthy(timer.apiAccessToken)
    requires remote.createTimer(timer.apiEndpoint.value, timer.apiAccessToken.value,
                                timer.request.durationSlot.value, TimerLabel).TimerCreated?
    ensures var attrs := map[ContentKey := "", NameKey := "Cake"];
      && HandlerTurn(launch, attrs, remote).response == RecipeScreen("", attrs)
      && HandlerTurn(timer, attrs, remote).response ==
           BuildResponse(TimerSetSpeech(timer.request.durationSlot.value), false, None)
  {
    var attrs := map[ContentKey := "", NameKey := "Cake"];
    LaunchRoutes(launch, attrs, remote);
    TimerSuccessRoutes(timer, attrs, remote);
  }
}
