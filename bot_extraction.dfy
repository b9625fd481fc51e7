/**
 * bot.js: reading the order id and the buyer's Discord name out of the
 * fields of a webhook embed (`extractOrderId`, `extractDiscordUsername`).
 */
module BotExtraction {
  import opened Wrappers
  import opened Text
  import opened Platform

  const OrderPrefix: string := "ORD_"

  /** `\w` (no `u` flag): ASCII letters, digits and the underscore. */
  predicate IsWordChar(c: char) {
    ('A' <= c <= 'Z') || ('a' <= c <= 'z') || ('0' <= c <= '9') || c == '_'
  }

  /** The regular expression `ORD_[\w]+` can match starting at index `i` of `s`. */
  predicate PatternAt(s: string, i: nat) {
    i + 5 <= |s| && s[i..i + 4] == OrderPrefix && IsWordChar(s[i + 4])
  }

  /** "ORD_" followed by a non-empty run of word characters. */
  predicate IsOrderIdShape(t: string) {
    |t| >= 5 && t[..4] == OrderPrefix && forall k :: 4 <= k < |t| ==> IsWordChar(t[k])
  }

  /** `t` is the match found at `i`: the leftmost place the pattern matches, extended greedily. */
  predicate LeftmostLongest(s: string, t: string, i: nat) {
    && PatternAt(s, i)
    && (forall k: nat :: k < i ==> !PatternAt(s, k))
    && i + |t| <= |s| && s[i..i + |t|] == t
    && IsOrderIdShape(t)
    && (i + |t| == |s| || !IsWordChar(s[i + |t|]))
  }

  /** The end of the run of word characters that starts at `j`. */
  function WordRunEnd(s: string, j: nat): (e: nat)
    requires j <= |s|
    ensures j <= e <= |s|
    ensures forall k :: j <= k < e ==> IsWordChar(s[k])
    ensures e == |s| || !IsWordChar(s[e])
    decreases |s| - j
  {
    if j < |s| && IsWordChar(s[j]) then WordRunEnd(s, j + 1) else j
  }

  /** The first index at or after `from` where the pattern matches. */
  function FirstPatternFrom(s: string, from: nat): (r: Option<nat>)
    ensures r.Some? ==> from <= r.value && PatternAt(s, r.value)
    ensures r.Some? ==> forall k: nat :: from <= k < r.value ==> !PatternAt(s, k)
    ensures r.None? <==> forall k: nat :: from <= k ==> !PatternAt(s, k)
    decreases |s| - from
  {
    if from + 5 > |s| then None
    else if PatternAt(s, from) then Some(from)
    else FirstPatternFrom(s, from + 1)
  }

  /** An order id has no backtick and no white space at either end. */
  lemma OrderIdShapeIsClean(t: string)
    requires IsOrderIdShape(t)
    ensures '`' !in t && IsTrimmed(t)
  {
    assert t[0] == 'O';
    forall k | 0 <= k < |t| ensures t[k] != '`' {
      if k < 4 {
        assert t[k] == OrderPrefix[k];
      }
    }
  }

  /** `value.match(/(ORD_[\w]+)/)`, returning group 1. */
  function MatchOrderId(s: string): (r: Option<string>)
    ensures r.Some? <==> exists i: nat :: PatternAt(s, i)
    ensures r.Some? ==> exists i: nat :: LeftmostLongest(s, r.value, i)
    ensures r.Some? ==> IsOrderIdShape(r.value) && '`' !in r.value && IsTrimmed(r.value)
  {
    match FirstPatternFrom(s, 0)
    case None => None
    case Some(i) =>
      var e := WordRunEnd(s, i + 4);
      var t := s[i..e];
      assert t[..4] == s[i..i + 4];
      assert forall k :: 4 <= k < |t| ==> t[k] == s[i + k];
      assert LeftmostLongest(s, t, i);
      OrderIdShapeIsClean(t);
      Some(t)
  }

  /** A matched id sits inside the value, so the value includes "ORD_". */
  lemma MatchImpliesContainsPrefix(s: string)
    ensures MatchOrderId(s).Some? ==> s != "" && Contains(s, OrderPrefix)
  {
    if MatchOrderId(s).Some? {
      var i: nat :| PatternAt(s, i);
      assert OccursAt(s, OrderPrefix, i);
    }
  }

  /** The field name marks the order id ("Order" or the 🆔 glyph). */
  predicate NamesOrder(name: string) {
    Contains(name, "Order") || Contains(name, "🆔")
  }

  /** A field that stops the scan of `extractOrderId`. */
  predicate DecidesOrderId(f: Field) {
    MatchOrderId(f.value).Some? || NamesOrder(f.name)
  }

  /** What `extractOrderId` returns for a field that decides it. */
  function FieldOrderId(f: Field): string {
    match MatchOrderId(f.value)
    case Some(id) => id
    case None => StripBackticks(f.value)
  }

  /** `extractOrderId(embed)`: the first field whose value holds a pattern match or whose name marks the order id. */
  function ExtractOrderId(fields: seq<Field>): (r: Option<string>)
    ensures r.None? <==> forall i :: 0 <= i < |fields| ==> !DecidesOrderId(fields[i])
    ensures r.Some? ==> '`' !in r.value && IsTrimmed(r.value)
  {
    if |fields| == 0 then None
    else
      var f := fields[0];
      if f.value != "" && Contains(f.value, OrderPrefix) && MatchOrderId(f.value).Some? then
        MatchOrderId(f.value)
      else if NamesOrder(f.name) then
        if MatchOrderId(f.value).Some? then MatchOrderId(f.value) else Some(StripBackticks(f.value))
      else
        MatchImpliesContainsPrefix(f.value);
        var r := ExtractOrderId(fields[1..]);
        assert forall i :: 1 <= i < |fields| ==> fields[i] == fields[1..][i - 1];
        r
  }

  /** A deciding first field settles the id. */
  lemma FirstFieldDecides(fields: seq<Field>)
    requires |fields| > 0 && DecidesOrderId(fields[0])
    ensures ExtractOrderId(fields) == Some(FieldOrderId(fields[0]))
  {
    MatchImpliesContainsPrefix(fields[0].value);
  }

  /** A first field that does not decide is skipped. */
  lemma FirstFieldSkipped(fields: seq<Field>)
    requires |fields| > 0 && !DecidesOrderId(fields[0])
    ensures ExtractOrderId(fields) == ExtractOrderId(fields[1..])
  {
  }

  /** The first deciding field determines the order id, whatever follows it. */
  lemma ExtractOrderIdFirstMatch(fields: seq<Field>, i: nat)
    requires i < |fields| && DecidesOrderId(fields[i])
    requires forall j :: 0 <= j < i ==> !DecidesOrderId(fields[j])
    ensures ExtractOrderId(fields) == Some(FieldOrderId(fields[i]))
  {
    FirstMatchFrom(fields, 0, i);
    assert fields[0..] == fields;
  }

  /** The scan started at field `k` stops at the first deciding field `i` at or after it. */
  lemma {:induction false} FirstMatchFrom(fields: seq<Field>, k: nat, i: nat)
    requires k <= i < |fields| && DecidesOrderId(fields[i])
    requires forall j :: k <= j < i ==> !DecidesOrderId(fields[j])
    ensures ExtractOrderId(fields[k..]) == Some(FieldOrderId(fields[i]))
    decreases i - k
  {
    var rest := fields[k..];
    assert rest[0] == fields[k];
    if k == i {
      FirstFieldDecides(rest);
    } else {
      FirstFieldSkipped(rest);
      assert rest[1..] == fields[k + 1..];
      FirstMatchFrom(fields, k + 1, i);
    }
  }

  /** The field name marks the buyer ("Discord", the 👤 glyph or "Username"). */
  predicate NamesUser(name: string) {
    Contains(name, "Discord") || Contains(name, "👤") || Contains(name, "Username")
  }

  /** The field value looks like a Discord name: it has a '#' or mentions "discord" in any case. */
  predicate LooksLikeUser(value: string) {
    value != "" && (Contains(value, "#") || Contains(Lower(value), "discord"))
  }

  /** The first loop of `extractDiscordUsername`: by field name. */
  function UserByName(fields: seq<Field>): (r: Option<string>)
    ensures r.None? <==> forall i :: 0 <= i < |fields| ==> !NamesUser(fields[i].name)
    ensures r.Some? ==> exists i :: 0 <= i < |fields| && NamesUser(fields[i].name) && r.value == StripBackticks(fields[i].value)
  {
    if |fields| == 0 then None
    else if NamesUser(fields[0].name) then Some(StripBackticks(fields[0].value))
    else
      var r := UserByName(fields[1..]);
      assert forall i :: 1 <= i < |fields| ==> fields[i] == fields[1..][i - 1];
      r
  }

  /** The second loop of `extractDiscordUsername`: by the look of the value. */
  function UserByValue(fields: seq<Field>): (r: Option<string>)
    ensures r.None? <==> forall i :: 0 <= i < |fields| ==> !LooksLikeUser(fields[i].value)
    ensures r.Some? ==> exists i :: 0 <= i < |fields| && LooksLikeUser(fields[i].value) && r.value == StripBackticks(fields[i].value)
  {
    if |fields| == 0 then None
    else if LooksLikeUser(fields[0].value) then Some(StripBackticks(fields[0].value))
    else
      var r := UserByValue(fields[1..]);
      assert forall i :: 1 <= i < |fields| ==> fields[i] == fields[1..][i - 1];
      r
  }

  /** `extractDiscordUsername(embed)`: a field named for the user wins; otherwise a value that looks like one. */
  function ExtractDiscordUsername(fields: seq<Field>): (r: Option<string>)
    ensures r.None? <==> forall i :: 0 <= i < |fields| ==> !NamesUser(fields[i].name) && !LooksLikeUser(fields[i].value)
    ensures r.Some? ==> '`' !in r.value && IsTrimmed(r.value)
  {
    match UserByName(fields)
    case Some(name) => Some(name)
    case None => UserByValue(fields)
  }

  /** The first field named for the user decides, even when a field whose value looks like a name comes earlier. */
  lemma {:induction false} UserNameFieldWins(fields: seq<Field>, i: nat)
    requires i < |fields| && NamesUser(fields[i].name)
    requires forall j :: 0 <= j < i ==> !NamesUser(fields[j].name)
    ensures ExtractDiscordUsername(fields) == Some(StripBackticks(fields[i].value))
  {
    UserByNameFirst(fields, i);
  }

  lemma UserByNameFirst(fields: seq<Field>, i: nat)
    requires i < |fields| && NamesUser(fields[i].name)
    requires forall j :: 0 <= j < i ==> !NamesUser(fields[j].name)
    ensures UserByName(fields) == Some(StripBackticks(fields[i].value))
  {
    UserByNameFrom(fields, 0, i);
    assert fields[0..] == fields;
  }

  /** The first loop started at field `k` returns the first field at or after it named for the user. */
  lemma {:induction false} UserByNameFrom(fields: seq<Field>, k: nat, i: nat)
    requires k <= i < |fields| && NamesUser(fields[i].name)
    requires forall j :: k <= j < i ==> !NamesUser(fields[j].name)
    ensures UserByName(fields[k..]) == Some(StripBackticks(fields[i].value))
    decreases i - k
  {
    var rest := fields[k..];
    assert rest[0] == fields[k];
    if k < i {
      assert rest[1..] == fields[k + 1..];
      assert UserByName(rest) == UserByName(rest[1..]);
      UserByNameFrom(fields, k + 1, i);
    }
  }

  /** With no field named for the user, the first value that looks like a name decides. */
  lemma UserValueFallback(fields: seq<Field>, i: nat)
    requires forall j :: 0 <= j < |fields| ==> !NamesUser(fields[j].name)
    requires i < |fields| && LooksLikeUser(fields[i].value)
    requires forall j :: 0 <= j < i ==> !LooksLikeUser(fields[j].value)
    ensures ExtractDiscordUsername(fields) == Some(StripBackticks(fields[i].value))
  {
    UserByValueFrom(fields, 0, i);
    assert fields[0..] == fields;
  }

  /** The second loop started at field `k` returns the first value at or after it that looks like a name. */
  lemma {:induction false} UserByValueFrom(fields: seq<Field>, k: nat, i: nat)
    requires k <= i < |fields| && LooksLikeUser(fields[i].value)
    requires forall j :: k <= j < i ==> !LooksLikeUser(fields[j].value)
    ensures UserByValue(fields[k..]) == Some(StripBackticks(fields[i].value))
    decreases i - k
  {
    var rest := fields[k..];
    assert rest[0] == fields[k];
    if k < i {
      assert rest[1..] == fields[k + 1..];
      assert UserByValue(rest) == UserByValue(rest[1..]);
      UserByValueFrom(fields, k + 1, i);
    }
  }

  /** A backticked id yields the bare id: "`ORD_AB12`" gives "ORD_AB12". */
  lemma BacktickedOrderId()
    ensures MatchOrderId("`ORD_AB12`") == Some("ORD_AB12")
  {
    var s := "`ORD_AB12`";
    assert !PatternAt(s, 0) by { assert s[0] == '`'; }
    assert PatternAt(s, 1) by { assert s[1..5] == OrderPrefix; }
    assert FirstPatternFrom(s, 0) == Some(1);
    assert WordRunEnd(s, 9) == 9 by { assert s[9] == '`'; }
    assert WordRunEnd(s, 5) == 9 by {
      assert IsWordChar(s[5]) && IsWordChar(s[6]) && IsWordChar(s[7]) && IsWordChar(s[8]);
    }
    assert s[1..9] == "ORD_AB12";
  }

  /** "🆔 Order" does not name the buyer. */
  lemma OrderFieldNameIsNotUser()
    ensures !NamesUser("🆔 Order")
  {
    var name := "🆔 Order";
    forall i: nat ensures !OccursAt(name, "👤", i) && !OccursAt(name, "Discord", i) {
      if i < 7 {
        assert name[i..i + 1][0] == name[i];
      }
      if i == 0 {
        assert name[0..7][0] != "Discord"[0];
      }
    }
  }

  /** The buyer name "alice#0001" is already clean. */
  lemma CleanNameUnchanged()
    ensures StripBackticks("alice#0001") == "alice#0001"
  {
    var v := "alice#0001";
    assert v[0] == 'a' && v[9] == '1';
    StripCleanIsIdentity(v);
  }

  /** A typical webhook embed: the order field, then the buyer, then the product. */
  lemma TypicalWebhookEmbed(fields: seq<Field>)
    requires fields == [Field("🆔 Order", "`ORD_AB12`"), Field("👤 Discord", "alice#0001"), Field("📦 Product", "VIP Rank")]
    ensures ExtractOrderId(fields) == Some("ORD_AB12")
    ensures ExtractDiscordUsername(fields) == Some("alice#0001")
  {
    TypicalOrderId(fields);
    TypicalBuyer(fields);
  }

  lemma TypicalOrderId(fields: seq<Field>)
    requires |fields| > 0 && fields[0] == Field("🆔 Order", "`ORD_AB12`")
    ensures ExtractOrderId(fields) == Some("ORD_AB12")
  {
    assert OccursAt(fields[0].name, "Order", 2);
    BacktickedOrderId();
    ExtractOrderIdFirstMatch(fields, 0);
  }

  lemma TypicalBuyer(fields: seq<Field>)
    requires |fields| > 1 && fields[0].name == "🆔 Order" && fields[1] == Field("👤 Discord", "alice#0001")
    ensures ExtractDiscordUsername(fields) == Some("alice#0001")
  {
    assert OccursAt(fields[1].name, "Discord", 2);
    OrderFieldNameIsNotUser();
    UserNameFieldWins(fields, 1);
    CleanNameUnchanged();
  }
}
