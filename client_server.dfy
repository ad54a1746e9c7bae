/** How the page and the collection handlers fit together: what the page
    makes of the handlers' responses, and that the page's own title check
    agrees with the handler's. */
module ClientServer {
  import opened Wrappers
  import opened Text
  import opened Http
  import NotesRoute
  import Page

  /** The 400 body `POST` sends for a missing title is shown by the page
      as exactly `Title is required`, and a submit that receives it keeps
      that message as its error. */
  lemma RejectedPostMessage(statusText: string, text: string)
    ensures Page.GetErrorMessage(Deliver(NotesRoute.TITLE_REQUIRED_RESPONSE, statusText, text)) == Page.TITLE_REQUIRED
    ensures Page.SubmitError(Replied(Deliver(NotesRoute.TITLE_REQUIRED_RESPONSE, statusText, text))) == Page.TITLE_REQUIRED
  {
    var r := Deliver(NotesRoute.TITLE_REQUIRED_RESPONSE, statusText, text);
    assert JSON_CONTENT_TYPE <= r.contentType;
    assert Page.IsJson(r);
  }

  /** The list `GET` returns arrives in the page's `notes` unchanged, so
      the page shows every stored note, newest first. */
  lemma ListReachesPage(resp: Response, statusText: string, text: string)
    requires resp.status == 200 && resp.body.JArray?
    ensures Page.LoadedNotes(Replied(Deliver(resp, statusText, text))) == resp.body.notes
  {
    var r := Deliver(resp, statusText, text);
    assert JSON_CONTENT_TYPE <= r.contentType;
    assert Page.IsJson(r);
  }

  /** The page refuses exactly the titles the handler refuses, and the
      trimmed title the page sends is stored as sent: trimming again on
      the server changes nothing. The content the page sends is stored
      verbatim. */
  lemma TitleChecksAgree(title: string, content: string)
    ensures NotesRoute.ValidatedTitle(Some(title)).None? <==> IsBlank(title)
    ensures !IsBlank(title) ==> NotesRoute.ValidatedTitle(Some(Trim(title))) == Some(Trim(title))
    ensures NotesRoute.ContentOrEmpty(Some(content)) == content
  {
    if !IsBlank(title) {
      TrimIdempotent(title);
    }
  }
}
