/**
 * The remote calls the handler makes, reduced to their results. A Remote
 * value fixes what the file store and the timer service answer during one
 * turn; the HTTP requests and the JSON decoding are not modelled.
 */
module Gateway {
  import opened Wrappers
  import opened Listing
  import Sanitizer

  const FolderMimeType := "application/vnd.google-apps.folder"
  const HttpErrorApology := "Sorry, I couldn't fetch the content of this recipe. Please try again later."
  const FetchErrorApology := "An error occurred while fetching the recipe content."

  /** The answer to a plain-text export request: the decoded body, an HTTPError, or any other exception. */
  datatype Export = Exported(body: string) | HttpError(reason: string) | OtherError(message: string)

  /** What create_or_set_timer returns: a success payload, or a dictionary with an 'error' key. */
  datatype TimerOutcome = TimerCreated | TimerFailed(reason: string)

  datatype Remote = Remote(
    /** The folder children of the root folder; None when the request or its decoding fails. */
    subfolders: Option<seq<FileEntry>>,
    /** The non-folder children of a folder; None when the request or its decoding fails. */
    filesIn: string -> Option<seq<FileEntry>>,
    /** The mimeType field of a file's metadata; None when it is missing or the request fails. */
    mimeType: string -> Option<string>,
    plainText: string -> Export,
    /** The timer service's answer for (endpoint, token, duration, label). */
    createTimer: (string, string, string, string) -> TimerOutcome)

  /** A remote call made during a turn, in the order made. */
  datatype Call =
    | ListSubfolders
    | ListFiles(folderId: string)
    | GetMimeType(fileId: string)
    | ExportText(fileId: string)
    | CreateTimer(endpoint: string, token: string, duration: string, timerLabel: string)

  /** fetch_subfolders. */
  function FetchSubfolders(remote: Remote): Listing {
    BuildListing(remote.subfolders)
  }

  /** fetch_recipes_in_category. */
  function FetchRecipesInCategory(remote: Remote, folderId: string): Listing {
    BuildListing(remote.filesIn(folderId))
  }

  /** is_folder: true exactly when the metadata names the folder mime type; false on any failure. */
  predicate IsFolder(remote: Remote, fileId: string) {
    remote.mimeType(fileId) == Some(FolderMimeType)
  }

  /**
   * download_file_content: the cleaned text, or one of two apologies. The
   * apologies are ordinary non-empty strings, so callers cannot tell them
   * from recipe text.
   */
  function DownloadFileContent(remote: Remote, fileId: string): (text: string)
    ensures remote.plainText(fileId).Exported? ==> text == Sanitizer.CleanRecipeContent(remote.plainText(fileId).body)
    ensures remote.plainText(fileId).HttpError? ==> text == HttpErrorApology
    ensures remote.plainText(fileId).OtherError? ==> text == FetchErrorApology
    ensures !remote.plainText(fileId).Exported? ==> text != []
  {
    match remote.plainText(fileId)
    case Exported(body) => Sanitizer.CleanRecipeContent(body)
    case HttpError(_) => HttpErrorApology
    case OtherError(_) => FetchErrorApology
  }
}
