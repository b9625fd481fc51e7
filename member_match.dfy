/** index.js: the loop that picks the member an approved order's DM goes to. */
module MemberMatch {
  import opened Wrappers
  import opened Text
  import opened Seqs
  import opened Platform
  import BotUsers

  /**
   * The loop's test: tag, username or display name equal to the stored
   * name, or the lower-cased tag or username containing the lower-cased
   * stored name.
   */
  predicate LenientMatch(m: Member, name: string) {
    || m.tag == name || m.username == name || m.displayName == name
    || Contains(Lower(m.tag), Lower(name))
    || Contains(Lower(m.username), Lower(name))
  }

  /** The member the loop settles on: the first in cache order that passes the test. */
  function FirstLenientMatch(members: seq<Member>, name: string): Option<Member> {
    Find(members, m => LenientMatch(m, name))
  }

  /** `for (const [_, member] of members) { if (...) { targetUser = member.user; break; } }`. */
  method FindTargetUser(members: seq<Member>, name: string) returns (target: Option<Member>)
    ensures target.Some? ==> exists k :: (0 <= k < |members| && members[k] == target.value
                                          && LenientMatch(members[k], name)
                                          && forall j :: 0 <= j < k ==> !LenientMatch(members[j], name))
    ensures target.None? <==> forall j :: 0 <= j < |members| ==> !LenientMatch(members[j], name)
    ensures target == FirstLenientMatch(members, name)
  {
    target := None;
    var i := 0;
    while i < |members|
      invariant 0 <= i <= |members|
      invariant forall j :: 0 <= j < i ==> !LenientMatch(members[j], name)
    {
      var member := members[i];
      if member.tag == name || member.username == name || member.displayName == name
        || Contains(Lower(member.tag), Lower(name)) || Contains(Lower(member.username), Lower(name))
      {
        target := Some(member);
        ghost var first := FirstIndex(members, m => LenientMatch(m, name));
        assert first == Some(i);
        return;
      }
      i := i + 1;
    }
  }

  /** An empty stored name is contained in every tag, so the first member is picked. */
  lemma EmptyNameMatchesFirst(members: seq<Member>)
    requires |members| > 0
    ensures FirstLenientMatch(members, "") == Some(members[0])
  {
    ContainsEmpty(Lower(members[0].tag));
    assert Lower("") == "";
    assert LenientMatch(members[0], "");
    var p := (m: Member) => LenientMatch(m, "");
    assert FirstIndex(members, p) == Some(0);
  }

  /** Every exact match of bot.js is also a match here: index.js accepts more members. */
  lemma ExactImpliesLenient(m: Member, name: string)
    requires BotUsers.ExactMatch(m, name)
    ensures LenientMatch(m, name)
  {
  }

  /** Case is ignored in the containment tests: "ALICE" finds the member whose username is "alice". */
  lemma CaseInsensitiveExample()
    ensures LenientMatch(Member("bob", "alice", "Bob"), "ALICE")
  {
    assert Lower("ALICE") == "alice";
    assert Lower("alice") == "alice";
    assert OccursAt("alice", "alice", 0);
  }
}
