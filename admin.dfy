/**
 * The POST branch of the `channels` page in tg_listener/main.py: normalise the
 * submitted username and title and add the channel when both are non-empty.
 */
module Admin {
  import opened Wrappers
  import opened Text
  import opened Store

  /** `request.form.get(name) or ""`: a missing field reads as empty. */
  function FormField(v: Option<string>): (s: string)
    ensures v.None? ==> s == ""
    ensures v.Some? ==> s == v.value
  {
    if v.None? then "" else v.value
  }

  /** `(... or "").strip().lstrip("@")`. */
  function NormalizeUsername(field: Option<string>): (u: string)
    ensures var s := Strip(FormField(field));
      |u| <= |s| && u == s[|s| - |u|..]
      && (forall i :: 0 <= i < |s| - |u| ==> s[i] == '@')
      && (u != [] ==> u[0] != '@' && !IsSpace(u[|u| - 1]))
  {
    var s := Strip(FormField(field));
    var u := LStripChar(s, '@');
    assert u != [] ==> u[|u| - 1] == s[|s| - 1];
    u
  }

  /** `(... or "").strip()`. */
  function NormalizeTitle(field: Option<string>): (t: string)
    ensures var s := FormField(field);
      exists lo, hi ::
        (0 <= lo <= hi <= |s| && t == s[lo..hi]
        && (forall i :: 0 <= i < lo ==> IsSpace(s[i]))
        && (forall i :: hi <= i < |s| ==> IsSpace(s[i])))
    ensures t != [] ==> !IsSpace(t[0]) && !IsSpace(t[|t| - 1])
  {
    Strip(FormField(field))
  }

  /** The channel to add, when both normalised fields are non-empty. */
  function ChannelToAdd(usernameField: Option<string>, titleField: Option<string>): (r: Option<(string, string)>)
    ensures r.Some? <==> NormalizeUsername(usernameField) != [] && NormalizeTitle(titleField) != []
    ensures r.Some? ==> r.value == (NormalizeUsername(usernameField), NormalizeTitle(titleField))
  {
    var u := NormalizeUsername(usernameField);
    var t := NormalizeTitle(titleField);
    if u != [] && t != [] then Some((u, t)) else None
  }

  /** The `@` is dropped only at the very start: "@ foo" keeps its inner space. */
  lemma InnerSpaceSurvives()
    ensures NormalizeUsername(Some("@ foo")) == " foo"
  {
    var s := "@ foo";
    assert !IsSpace(s[0]) && !IsSpace(s[4]);
    assert SkipSpace(s, 0) == 0;
    assert SkipSpaceBack(s, 0, 5) == 5;
    assert Strip(s) == s[0..5] == s;
    assert s[1..] == " foo";
    assert LStripChar(" foo", '@') == " foo";
    assert LStripChar(s, '@') == " foo";
  }

  /**
   * The POST branch: `add_channel` is called once when both fields are
   * non-empty after normalisation, and not at all otherwise. `added` reports
   * whether the insert succeeded (a taken username makes it fail).
   */
  method ChannelsPost(db: Database, usernameField: Option<string>, titleField: Option<string>)
    returns (called: bool, added: bool)
    requires db.Valid()
    modifies db
    ensures db.Valid()
    ensures called <==> ChannelToAdd(usernameField, titleField).Some?
    ensures !called ==> !added && db.channels == old(db.channels)
    ensures called ==>
      var (u, t) := ChannelToAdd(usernameField, titleField).value;
      (added <==> !UsernameTaken(old(db.channels), u))
      && db.channels == if added then old(db.channels) + [Channel(|old(db.channels)| + 1, u, t, false)] else old(db.channels)
    ensures db.messages == old(db.messages) && db.summaries == old(db.summaries)
  {
    var username := NormalizeUsername(usernameField);
    var title := NormalizeTitle(titleField);
    called := username != [] && title != [];
    assert ChannelToAdd(usernameField, titleField) == if called then Some((username, title)) else None;
    added := false;
    if called {
      added := db.AddChannel(username, title);
    }
  }
}
