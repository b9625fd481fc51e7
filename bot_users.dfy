/** bot.js: `findUserByUsername`, resolving the stored buyer name to a guild member. */
module BotUsers {
  import opened Wrappers
  import opened Text
  import opened Seqs
  import opened Platform

  /** The markdown characters stripped from the stored name before comparing. */
  const MarkupChars: set<char> := {'`', '*', '_', '~', '|'}

  /** `username.replace(/[`*_~|]/g, '').trim()`. */
  function CleanUsername(username: string): (r: string)
    ensures forall c :: c in r ==> c in username && c !in MarkupChars
    ensures IsTrimmed(r)
    ensures exists a: nat :: TrimmedSlice(RemoveChars(username, MarkupChars), r, a)
  {
    Trim(RemoveChars(username, MarkupChars))
  }

  /** A name with no markup and no surrounding white space is left as it is. */
  lemma CleanUsernameIdentity(username: string)
    requires forall c :: c in username ==> c !in MarkupChars
    requires IsTrimmed(username)
    ensures CleanUsername(username) == username
  {
    assert RemoveChars(username, MarkupChars) == username;
    assert TrimStart(username) == username;
    assert TrimEnd(username) == username;
  }

  /** Markup around a clean name goes and the name stays. */
  lemma CleanAroundMarkup(before: string, name: string, after: string)
    requires forall c :: c in before ==> c in MarkupChars
    requires forall c :: c in after ==> c in MarkupChars
    requires forall c :: c in name ==> c !in MarkupChars
    requires IsTrimmed(name)
    ensures CleanUsername(before + name + after) == name
  {
    RemoveCharsAround(before, name, after, MarkupChars);
    CleanUsernameIdentity(name);
  }

  /** "**alice**" cleans to "alice". */
  lemma CleanBoldName()
    ensures CleanUsername("**alice**") == "alice"
  {
    var stars, name := "**", "alice";
    assert "**alice**" == stars + name + stars;
    assert forall c :: c in stars ==> c == '*';
    assert forall c :: c in name ==> 'a' <= c <= 'z';
    assert !IsSpace(name[0]) && !IsSpace(name[4]);
    CleanAroundMarkup(stars, name, stars);
  }

  /** The `members.cache.find` predicate: tag, username or display name equals the name exactly. */
  predicate ExactMatch(m: Member, name: string) {
    m.tag == name || m.username == name || m.displayName == name
  }

  /** Some member of a guild whose fetch succeeded matches `name` exactly. */
  ghost predicate FoundIn(guilds: seq<Guild>, name: string, m: Member) {
    exists g :: g in guilds && g.fetched && m in g.members && ExactMatch(m, name)
  }

  /** The loop over `client.guilds.cache`: a guild whose fetch throws is skipped; the first guild with a match decides. */
  function FindInGuilds(guilds: seq<Guild>, name: string): (r: Option<Member>)
    ensures r.Some? ==> FoundIn(guilds, name, r.value)
    ensures r.None? <==> forall g, m :: g in guilds && g.fetched && m in g.members ==> !ExactMatch(m, name)
  {
    if |guilds| == 0 then None
    else
      var g := guilds[0];
      var found := if g.fetched then Find(g.members, m => ExactMatch(m, name)) else None;
      if found.Some? then found
      else
        assert guilds == [g] + guilds[1..];
        FindInGuilds(guilds[1..], name)
  }

  /** `findUserByUsername(username)`: the first exact match for the cleaned name. */
  function FindUserByUsername(guilds: seq<Guild>, username: string): (r: Option<Member>)
    ensures r.Some? ==> FoundIn(guilds, CleanUsername(username), r.value)
  {
    FindInGuilds(guilds, CleanUsername(username))
  }

  /**
   * The first matching member of the first fetched guild that has one is
   * returned: guilds are searched in cache order, and within a guild
   * members in cache order.
   */
  lemma {:induction false} FindInGuildsFirst(guilds: seq<Guild>, name: string, gi: nat, mi: nat)
    requires gi < |guilds| && guilds[gi].fetched
    requires mi < |guilds[gi].members| && ExactMatch(guilds[gi].members[mi], name)
    requires forall j :: 0 <= j < mi ==> !ExactMatch(guilds[gi].members[j], name)
    requires forall h, m :: 0 <= h < gi && guilds[h].fetched && m in guilds[h].members ==> !ExactMatch(m, name)
    ensures FindInGuilds(guilds, name) == Some(guilds[gi].members[mi])
  {
    var g := guilds[0];
    if gi == 0 {
      var found := Find(g.members, m => ExactMatch(m, name));
      assert found.Some?;
      var i :| 0 <= i < |g.members| && g.members[i] == found.value
        && ExactMatch(g.members[i], name) && forall j :: 0 <= j < i ==> !ExactMatch(g.members[j], name);
      assert i == mi;
    } else {
      assert g.fetched ==> forall m :: m in g.members ==> !ExactMatch(m, name);
      FindInGuildsFirst(guilds[1..], name, gi - 1, mi);
    }
  }

  /**
   * Because the cleaned name never holds '_', a member whose tag,
   * username and display name all contain '_' is never found.
   */
  lemma UnderscoreNamesNeverFound(guilds: seq<Guild>, username: string, m: Member)
    requires '_' in m.tag && '_' in m.username && '_' in m.displayName
    ensures FindUserByUsername(guilds, username) != Some(m)
  {
    var name := CleanUsername(username);
    assert '_' !in name;
  }
}
