/**
 * The two player-count placeholders of the bot's status texts and their
 * substitution, `text.replace(/{playeronline}/g, online).replace(/{playermax}/g, max)`,
 * shared by the presence and the player-count channel.
 */
module Counts {
  import Text

  const OnlineVar := "{playeronline}"
  const MaxVar := "{playermax}"

  /** A rendered count is digits, perhaps after a minus sign: it shares no character with either placeholder. */
  lemma CountAvoidsPlaceholders(n: int)
    ensures forall c :: c in Text.IntToString(n) ==> c !in OnlineVar && c !in MaxVar
  {
  }

  /** Both placeholders replaced, everywhere, by the counts; none is left afterwards. */
  function Filled(template: string, online: int, max: int): (r: string)
    ensures !Text.Contains(r, OnlineVar) && !Text.Contains(r, MaxVar)
  {
    var a, b := Text.IntToString(online), Text.IntToString(max);
    var once := Text.ReplaceAll(template, OnlineVar, a, false);
    var r := Text.ReplaceAll(once, MaxVar, b, false);
    CountAvoidsPlaceholders(online);
    CountAvoidsPlaceholders(max);
    Text.ReplaceAllLeavesNoMatch(template, OnlineVar, a, OnlineVar);
    Text.ReplaceAllLeavesNoMatch(once, MaxVar, b, OnlineVar);
    Text.ReplaceAllLeavesNoMatch(once, MaxVar, b, MaxVar);
    r
  }

  /** A template without placeholders is used as it stands. */
  lemma PlainTemplateKept(template: string, online: int, max: int)
    requires !Text.Contains(template, OnlineVar) && !Text.Contains(template, MaxVar)
    ensures Filled(template, online, max) == template
  {
    forall i: nat ensures !Text.MatchesAt(template, i, OnlineVar, false) {
      if i <= |template| {
      }
    }
    Text.ReplaceAllWithoutMatch(template, OnlineVar, Text.IntToString(online), false);
    forall i: nat ensures !Text.MatchesAt(template, i, MaxVar, false) {
      if i <= |template| {
      }
    }
    Text.ReplaceAllWithoutMatch(template, MaxVar, Text.IntToString(max), false);
  }

  /** A template that starts with the online placeholder starts with the online count once filled. */
  lemma LeadingCountFilled(rest: string, online: int, max: int)
    ensures Text.IntToString(online) <= Filled(OnlineVar + rest, online, max)
  {
    var a := Text.IntToString(online);
    var s := OnlineVar + rest;
    assert s[..|OnlineVar|] == OnlineVar;
    assert Text.MatchesAt(s, 0, OnlineVar, false);
    assert s[|OnlineVar|..] == rest;
    var once := Text.ReplaceAll(s, OnlineVar, a, false);
    assert once == a + Text.ReplaceAll(rest, OnlineVar, a, false);
    forall i: nat | i < |a| ensures !Text.MatchesAt(once, i, MaxVar, false) {
      assert once[i] == a[i] && a[i] in a;
      CountAvoidsPlaceholders(online);
    }
    Text.ReplaceAllKeepsUnmatchedPrefix(once, MaxVar, Text.IntToString(max), false, |a|);
  }
}
