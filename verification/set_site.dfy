/** The `/setsite` command of src/commands/setsite.js. */
module SetSite {
  import opened Wrappers
  import opened JsonDoc
  import Text
  import ServerSettings

  /** `success.replace('{site}', url)`: only the first placeholder is filled, with the `$` patterns of the URL expanded. */
  function SuccessReply(template: string, url: string): string {
    Text.ReplaceFirst(template, "{site}", url)
  }

  datatype Outcome = InvalidUrl | Failed(message: string) | Saved

  /**
   * `run`. `isURL` is the validator package's URL check with a protocol
   * required; `read` is consulted only once the URL has passed it.
   * `writeError` is the error `fs.writeFile` throws, if it does; the
   * handler's `catch` then replies with it.
   */
  method Run(url: string, isURL: string -> bool, read: FileRead, invalidText: string, successTemplate: string,
             writeError: Option<string>)
    returns (outcome: Outcome, reply: string, written: Option<Json>)
    ensures !isURL(url) ==> outcome == InvalidUrl && reply == invalidText && written == None
    ensures written.Some? <==> outcome == Saved
    ensures outcome == Saved <==> isURL(url) && ServerSettings.Updatable(ServerSettings.Start(read)) && writeError.None?
    ensures outcome == Saved ==> reply == SuccessReply(successTemplate, url)
    ensures outcome.Failed? ==> reply == ":warning: Error: " + outcome.message
    ensures isURL(url) && ServerSettings.Updatable(ServerSettings.Start(read)) && writeError.Some? ==>
      outcome == Failed(writeError.value)
    ensures outcome == Saved && ServerSettings.Start(read).Object? && !ServerSettings.HoldsArray(ServerSettings.Start(read)) ==>
      var doc := written.value;
      doc.JObj? && Member(Member(Some(doc), ServerSettings.SettingsKey), "site") == Some(JStr(url))
      && forall k :: k in ServerSettings.Start(read).props && k != ServerSettings.SettingsKey ==>
           k in doc.fields && doc.fields[k] == ServerSettings.Start(read).props[k]
  {
    if !isURL(url) {
      return InvalidUrl, invalidText, None;
    }
    var dataRead := ServerSettings.Start(read);
    var r := ServerSettings.Update(dataRead, "site", JStr(url));
    if r.Err? {
      return Failed(r.message), ":warning: Error: " + r.message, None;
    }
    if writeError.Some? {
      return Failed(writeError.value), ":warning: Error: " + writeError.value, None;
    }
    outcome := Saved;
    reply := SuccessReply(successTemplate, url);
    written := Some(r.value);
  }
}
