/**
 * The response dictionaries the handler returns, and the functions that
 * build them. APL documents are reduced to what the handler decides: the
 * rows of a list with their press arguments, or the recipe text and the id
 * of the scroll view that shows it; styling is not modelled.
 */
module Responses {
  import opened Wrappers
  import opened Listing
  import opened Gateway

  const Version := "1.0"
  const RecipeToken := "recipeContentToken"
  const RecipeScrollView := "recipeScrollView"
  const CancelledSpeech := "All timers have been canceled."

  /** An APL command; a scroll distance is the fraction of a page, exact here. */
  datatype Command = Focus(componentId: string) | Scroll(componentId: string, distance: real)

  /** A TouchWrapper row: the text shown and the arguments of its SendEvent. */
  datatype Row = Row(text: string, arguments: seq<string>)

  /** The category list is a full-screen Sequence; the recipe list wraps it in a ScrollView with one-line rows. */
  datatype ListLayout = CategoryList | RecipeList

  datatype Document =
    | ListDocument(layout: ListLayout, rows: seq<Row>)
    | TextDocument(componentId: string, text: string)

  datatype Directive =
    | RenderDocument(renderToken: Option<string>, document: Document)
    | ExecuteCommands(token: string, commands: seq<Command>)
    | CancelAllTimers

  /**
   * version, response.directives (absent and empty alike as []),
   * response.outputSpeech text, top-level sessionAttributes and
   * response.shouldEndSession.
   */
  datatype Response = Response(
    version: string,
    directives: seq<Directive>,
    speech: Option<string>,
    sessionAttributes: Option<map<string, string>>,
    shouldEndSession: bool)

  /** What both list screens return for an empty listing. */
  const EmptyListing := Response(Version, [], None, None, true)

  /** One row per name, in the given order, each sending that name's id when pressed. */
  function Rows(names: seq<string>, ids: map<string, string>): (rows: seq<Row>)
    requires forall n :: n in names ==> n in ids
    ensures |rows| == |names|
    ensures forall i :: 0 <= i < |names| ==> rows[i].text == names[i] && rows[i].arguments == [ids[names[i]]]
  {
    if names == [] then [] else [Row(names[0], [ids[names[0]]])] + Rows(names[1..], ids)
  }

  /** The shared shape of display_categories and display_recipes_in_category. */
  function ListScreen(layout: ListLayout, l: Listing): (r: Response)
    requires forall n :: n in l.names ==> n in l.ids
    ensures r.version == Version && r.speech.None? && r.sessionAttributes.None?
    ensures r.shouldEndSession <==> l.names == []
    ensures l.names == [] ==> r == EmptyListing
    ensures l.names != [] ==> r.directives == [RenderDocument(None, ListDocument(layout, Rows(l.names, l.ids)))]
  {
    if l.names == [] then EmptyListing
    else Response(Version, [RenderDocument(None, ListDocument(layout, Rows(l.names, l.ids)))], None, None, false)
  }

  /** display_categories. */
  function DisplayCategories(remote: Remote): Response {
    ListScreen(CategoryList, FetchSubfolders(remote))
  }

  /** display_recipes_in_category. */
  function DisplayRecipesInCategory(remote: Remote, folderId: string): Response {
    ListScreen(RecipeList, FetchRecipesInCategory(remote, folderId))
  }

  /**
   * str.replace('\n', '<br>'). The single-character cases, together with
   * ReplaceNewlinesAppend, determine the result on every string.
   */
  function ReplaceNewlines(s: string): (r: string)
    ensures '\n' !in r
    ensures '\n' !in s ==> r == s
    ensures |r| >= |s|
    ensures s == "\n" ==> r == "<br>"
    ensures |s| == 1 && s[0] != '\n' ==> r == s
  {
    if s == [] then []
    else
      var rest := ReplaceNewlines(s[1..]);
      assert '\n' !in s ==> '\n' !in s[1..] by { assert forall c :: c in s[1..] ==> c in s; }
      if s[0] == '\n' then "<br>" + rest
      else
        assert (([s[0]] + rest)[1..]) == rest;
        [s[0]] + rest
  }

  /** The replacement works piecewise: line breaks are replaced wherever the text is split. */
  lemma {:induction false} ReplaceNewlinesAppend(a: string, b: string)
    ensures ReplaceNewlines(a + b) == ReplaceNewlines(a) + ReplaceNewlines(b)
  {
    if a == [] {
      assert a + b == b;
    } else {
      assert (a + b)[0] == a[0] && (a + b)[1..] == a[1..] + b;
      ReplaceNewlinesAppend(a[1..], b);
    }
  }

  /** Each line feed, wherever it stands, becomes "<br>" and the text around it is replaced on its own. */
  lemma LineFeedBecomesBreak(a: string, b: string)
    ensures ReplaceNewlines(a + "\n" + b) == ReplaceNewlines(a) + "<br>" + ReplaceNewlines(b)
  {
    ReplaceNewlinesAppend(a + "\n", b);
    ReplaceNewlinesAppend(a, "\n");
  }

  /**
   * The response of display_recipe_content for a session that already holds
   * the recipe: the text in the scroll view, then a Focus on that view.
   */
  function RecipeScreen(content: string, attrs: map<string, string>): Response {
    Response(Version,
      [RenderDocument(Some(RecipeToken), TextDocument(RecipeScrollView, ReplaceNewlines(content))),
       ExecuteCommands(RecipeToken, [Focus(RecipeScrollView)])],
      None, Some(attrs), false)
  }

  /** handle_scroll: 0.75 of a page times the direction, on the recipe's scroll view. */
  function ScrollResponse(direction: int): Response {
    Response(Version, [ExecuteCommands(RecipeToken, [Scroll(RecipeScrollView, 0.75 * direction as real)])],
      None, None, false)
  }

  /** handle_fallback: no directives and no speech, the session kept open. */
  function FallbackResponse(): Response {
    Response(Version, [], None, None, false)
  }

  /** build_response: spoken text only; the attributes are attached unless they are absent or empty. */
  function BuildResponse(speech: string, shouldEndSession: bool, attrs: Option<map<string, string>>): (r: Response)
    ensures r.directives == [] && r.speech == Some(speech) && r.shouldEndSession == shouldEndSession
    ensures r.sessionAttributes.Some? <==> attrs.Some? && attrs.value != map[]
    ensures r.sessionAttributes.Some? ==> r.sessionAttributes == attrs
  {
    Response(Version, [], Some(speech), if attrs.Some? && attrs.value != map[] then attrs else None, shouldEndSession)
  }

  /** handle_cancel_timer. */
  function CancelTimerResponse(): Response {
    Response(Version, [CancelAllTimers], Some(CancelledSpeech), None, false)
  }

  /**
   * A listing of well-formed entries, at least one of them, is shown as one
   * list: the rows are in ascending name order, there is one row per distinct
   * name, and each row sends the id of the last entry with its name.
   */
  lemma ListRowsFollowListing(layout: ListLayout, files: seq<FileEntry>)
    requires |files| > 0
    requires forall i :: 0 <= i < |files| ==> files[i].name.Some? && files[i].id.Some?
    ensures var l := BuildListing(Some(files));
      var r := ListScreen(layout, l);
      && !r.shouldEndSession
      && |r.directives| == 1 && r.directives[0].RenderDocument?
      && var rows := r.directives[0].document.rows;
      && (forall i, j :: 0 <= i < j < |rows| ==> LexLess(rows[i].text, rows[j].text))
      && (forall n :: (exists i :: 0 <= i < |rows| && rows[i].text == n) <==>
                      (exists i :: 0 <= i < |files| && files[i].name == Some(n)))
      && (forall k, i :: 0 <= k < |rows| && 0 <= i < |files| && files[i].name == Some(rows[k].text)
            && (forall j :: i < j < |files| ==> files[j].name != files[i].name)
            ==> rows[k].arguments == [files[i].id.value])
  {
    var l := BuildListing(Some(files));
    var rows := Rows(l.names, l.ids);
    assert files[0].name.value in l.names by {
      ListingOfWellFormed(files, files[0].name.value);
    }
    forall n ensures (exists i :: 0 <= i < |rows| && rows[i].text == n) <==>
                     (exists i :: 0 <= i < |files| && files[i].name == Some(n)) {
      ListingOfWellFormed(files, n);
      if n in l.names {
        var i :| 0 <= i < |l.names| && l.names[i] == n;
        assert rows[i].text == n;
      }
    }
    forall k, i | 0 <= k < |rows| && 0 <= i < |files| && files[i].name == Some(rows[k].text)
        && (forall j :: i < j < |files| ==> files[j].name != files[i].name)
      ensures rows[k].arguments == [files[i].id.value] {
      ListingOfWellFormed(files, rows[k].text);
    }
  }
}
