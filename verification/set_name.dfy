/** The `/setname` command of src/commands/setname.js. */
module SetName {
  import opened Wrappers
  import opened JsonDoc
  import Text
  import ServerSettings

  /**
   * `success.replace('{name}', name)`: a string pattern, so only the first
   * placeholder is filled, with the `$` patterns of the name expanded.
   */
  function SuccessReply(template: string, name: string): string {
    Text.ReplaceFirst(template, "{name}", name)
  }

  /**
   * A name holding `$&` shows the placeholder itself in the reply, though the
   * name is stored as given.
   */
  lemma DollarNameExpanded(before: string, after: string)
    requires '{' !in before
    ensures SuccessReply(before + "{name}" + after, "a$&b") == before + "a{name}b" + after
  {
    var t := before + "{name}" + after;
    var k := |before|;
    assert t[k..k + 6] == "{name}";
    forall i: nat | i < k ensures !Text.MatchesAt(t, i, "{name}", false) {
      assert t[i] == before[i];
      if i + 6 <= |t| {
        assert t[i..i + 6][0] == t[i];
      }
    }
    Text.ReplaceFirstOnlyFirst(t, k, "{name}", "a$&b");
    assert t[..k] == before && t[k + 6..] == after;
    MatchedTextSubstituted(before, after);
  }

  lemma MatchedTextSubstituted(before: string, after: string)
    ensures Text.Substitution("a$&b", "{name}", before, after) == "a{name}b"
  {
    var rep := "a$&b";
    assert rep[1..] == "$&b" && rep[1..][2..] == "b";
    assert Text.Substitution("b", "{name}", before, after) == "b";
  }

  /**
   * `run`: the reply sent and the document written, if any. `writeError` is
   * the error `fs.writeFile` throws, if it does; the handler's `catch` then
   * replies with it, as it does for a failed update.
   */
  method Run(name: string, read: FileRead, successTemplate: string, writeError: Option<string>)
    returns (reply: string, written: Option<Json>)
    ensures written.Some? <==> ServerSettings.Updatable(ServerSettings.Start(read)) && writeError.None?
    ensures written.Some? ==> reply == SuccessReply(successTemplate, name)
    ensures written.None? ==> ":warning: Error: " <= reply
    ensures ServerSettings.Updatable(ServerSettings.Start(read)) && writeError.Some? ==>
      reply == ":warning: Error: " + writeError.value
    ensures written.Some? && ServerSettings.Start(read).Object? && !ServerSettings.HoldsArray(ServerSettings.Start(read)) ==>
      var doc := written.value;
      doc.JObj? && ServerSettings.SettingsKey in doc.fields
      && Member(Member(Some(doc), ServerSettings.SettingsKey), "name") == Some(JStr(name))
      && forall k :: k in ServerSettings.Start(read).props && k != ServerSettings.SettingsKey ==>
           k in doc.fields && doc.fields[k] == ServerSettings.Start(read).props[k]
  {
    var dataRead := ServerSettings.Start(read);
    var r := ServerSettings.Update(dataRead, "name", JStr(name));
    if r.Err? {
      return ":warning: Error: " + r.message, None;
    }
    if writeError.Some? {
      return ":warning: Error: " + writeError.value, None;
    }
    written := Some(r.value);
    reply := SuccessReply(successTemplate, name);
  }
}
