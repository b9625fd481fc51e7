/**
 * String helpers with the JavaScript semantics both bots rely on:
 * `includes`, `startsWith`, `split` on one character, `replace` of a
 * character class with the global flag, `trim`, and `toLowerCase`
 * (restricted to ASCII letters).
 */
module Text {

  /** `sub` occurs in `s` starting at index `i`. */
  predicate OccursAt(s: string, sub: string, i: nat) {
    i + |sub| <= |s| && s[i..i + |sub|] == sub
  }

  /** `s.includes(sub)`. */
  function Contains(s: string, sub: string): (r: bool)
    ensures r <==> exists i: nat :: OccursAt(s, sub, i)
  {
    ContainsFrom(s, sub, 0)
  }

  function ContainsFrom(s: string, sub: string, from: nat): (r: bool)
    ensures r <==> exists i: nat :: from <= i && OccursAt(s, sub, i)
    decreases |s| - from
  {
    if from + |sub| > |s| then false
    else if s[from..from + |sub|] == sub then assert OccursAt(s, sub, from); true
    else ContainsFrom(s, sub, from + 1)
  }

  /** Every string includes the empty string. */
  lemma ContainsEmpty(s: string)
    ensures Contains(s, "")
  {
    assert OccursAt(s, "", 0);
  }

  /** `s.startsWith(prefix)`. */
  predicate StartsWith(s: string, prefix: string) {
    |prefix| <= |s| && s[..|prefix|] == prefix
  }

  /** The index of the first `c` in `s`. */
  function IndexOf(s: string, c: char): (i: nat)
    requires c in s
    ensures i < |s| && s[i] == c && c !in s[..i]
  {
    if s[0] == c then 0
    else
      assert s == [s[0]] + s[1..];
      var j := IndexOf(s[1..], c);
      assert s[..j + 1] == [s[0]] + s[1..][..j];
      j + 1
  }

  /** The inverse of `Split`: the parts glued back together with `sep`. */
  function Join(parts: seq<string>, sep: char): string
    requires |parts| >= 1
  {
    if |parts| == 1 then parts[0] else parts[0] + [sep] + Join(parts[1..], sep)
  }

  /** `s.split(sep)` for a one-character separator. */
  function Split(s: string, sep: char): (parts: seq<string>)
    ensures |parts| >= 1
    ensures forall i :: 0 <= i < |parts| ==> sep !in parts[i]
    ensures Join(parts, sep) == s
    ensures |parts| == 1 <==> sep !in s
    decreases |s|
  {
    if sep !in s then [s]
    else
      var i := IndexOf(s, sep);
      var rest := Split(s[i + 1..], sep);
      assert s == s[..i] + [sep] + s[i + 1..];
      [s[..i]] + rest
  }

  /** Splitting undoes joining, as long as no part holds the separator. */
  lemma {:induction false} SplitJoin(parts: seq<string>, sep: char)
    requires |parts| >= 1
    requires forall i :: 0 <= i < |parts| ==> sep !in parts[i]
    ensures Split(Join(parts, sep), sep) == parts
  {
    if |parts| > 1 {
      var head, rest := parts[0], parts[1..];
      assert sep !in head;
      assert forall i :: 0 <= i < |rest| ==> sep !in rest[i] by {
        forall i | 0 <= i < |rest| ensures sep !in rest[i] { assert rest[i] == parts[i + 1]; }
      }
      var tail := Join(rest, sep);
      var s := head + [sep] + tail;
      assert Join(parts, sep) == s;
      assert sep in s by { assert s[|head|] == sep; }
      IndexOfAfter(head, sep, tail);
      assert s[..|head|] == head;
      assert s[|head| + 1..] == tail;
      SplitAtFirst(s, sep);
      SplitJoin(rest, sep);
      assert parts == [head] + rest;
    }
  }

  /** `split` cuts at the first separator and goes on after it. */
  lemma SplitAtFirst(s: string, sep: char)
    requires sep in s
    ensures Split(s, sep) == [s[..IndexOf(s, sep)]] + Split(s[IndexOf(s, sep) + 1..], sep)
  {
  }

  /** The first separator of `head + [sep] + tail` is the one after `head` when `head` has none. */
  lemma IndexOfAfter(head: string, sep: char, tail: string)
    requires sep !in head
    ensures IndexOf(head + [sep] + tail, sep) == |head|
  {
    var s := head + [sep] + tail;
    assert s[|head|] == sep;
    assert forall k :: 0 <= k < |head| ==> s[k] == head[k];
  }

  /** `s.replace(/[cs]/g, '')`: every character of `cs` removed, the rest kept in order. */
  function RemoveChars(s: string, cs: set<char>): (r: string)
    ensures |r| <= |s|
    ensures forall c :: c in r <==> c in s && c !in cs
    ensures (forall c :: c in s ==> c !in cs) ==> r == s
    ensures (forall c :: c in s ==> c in cs) ==> r == []
  {
    if s == [] then []
    else
      assert s == [s[0]] + s[1..];
      if s[0] in cs then RemoveChars(s[1..], cs)
      else [s[0]] + RemoveChars(s[1..], cs)
  }

  /** The global `replace` works piece by piece: the kept characters stay in their order, repeats included. */
  lemma {:induction false} RemoveCharsAppend(a: string, b: string, cs: set<char>)
    ensures RemoveChars(a + b, cs) == RemoveChars(a, cs) + RemoveChars(b, cs)
  {
    if a != [] {
      assert (a + b)[0] == a[0];
      assert (a + b)[1..] == a[1..] + b;
      RemoveCharsAppend(a[1..], b, cs);
    } else {
      assert a + b == b;
    }
  }

  /** Characters of the class around a string with none of them are all removed, and the string is kept. */
  lemma RemoveCharsAround(before: string, mid: string, after: string, cs: set<char>)
    requires forall c :: c in before ==> c in cs
    requires forall c :: c in after ==> c in cs
    requires forall c :: c in mid ==> c !in cs
    ensures RemoveChars(before + mid + after, cs) == mid
  {
    assert RemoveChars(before, cs) == [] && RemoveChars(after, cs) == [] && RemoveChars(mid, cs) == mid;
    RemoveCharsAppend(before, mid, cs);
    RemoveCharsAppend(before + mid, after, cs);
  }

  /** One character is dropped when it is in the class and kept otherwise. */
  lemma RemoveCharsSingle(c: char, cs: set<char>)
    ensures RemoveChars([c], cs) == if c in cs then [] else [c]
  {
  }

  /** The characters `String.prototype.trim` removes: white space and line terminators. */
  predicate IsSpace(c: char) {
    c == ' ' || c == '\t' || c == '\n' || c == '\r' || c == '\U{B}' || c == '\U{C}'
    || c == '\U{A0}' || c == '\U{FEFF}' || c == '\U{1680}' || ('\U{2000}' <= c <= '\U{200A}')
    || c == '\U{2028}' || c == '\U{2029}' || c == '\U{202F}' || c == '\U{205F}' || c == '\U{3000}'
  }

  /** Neither end of `s` is white space. */
  predicate IsTrimmed(s: string) {
    s == [] || (!IsSpace(s[0]) && !IsSpace(s[|s| - 1]))
  }

  /** `t` is `s` with the white space `a` characters in front and the white space behind it cut off. */
  predicate TrimmedSlice(s: string, t: string, a: nat) {
    a + |t| <= |s| && s[a..a + |t|] == t
    && (forall k :: 0 <= k < a ==> IsSpace(s[k]))
    && (forall k :: a + |t| <= k < |s| ==> IsSpace(s[k]))
  }

  function TrimStart(s: string): (r: string)
    ensures |r| <= |s| && r == s[|s| - |r|..]
    ensures forall k :: 0 <= k < |s| - |r| ==> IsSpace(s[k])
    ensures r == [] || !IsSpace(r[0])
  {
    if s != [] && IsSpace(s[0]) then TrimStart(s[1..]) else s
  }

  function TrimEnd(s: string): (r: string)
    ensures |r| <= |s| && r == s[..|r|]
    ensures forall k :: |r| <= k < |s| ==> IsSpace(s[k])
    ensures r == [] || !IsSpace(r[|r| - 1])
  {
    if s != [] && IsSpace(s[|s| - 1]) then TrimEnd(s[..|s| - 1]) else s
  }

  /** `s.trim()`. */
  function Trim(s: string): (r: string)
    ensures IsTrimmed(r)
    ensures TrimmedSlice(s, r, |s| - |TrimStart(s)|)
    ensures forall c :: c in r ==> c in s
  {
    var left := TrimStart(s);
    var r := TrimEnd(left);
    TrimBothEnds(s, left, r);
    r
  }

  /** Cutting white space from the front and then from the back leaves a trimmed slice. */
  lemma TrimBothEnds(s: string, left: string, r: string)
    requires |left| <= |s| && left == s[|s| - |left|..]
    requires forall k :: 0 <= k < |s| - |left| ==> IsSpace(s[k])
    requires left == [] || !IsSpace(left[0])
    requires |r| <= |left| && r == left[..|r|]
    requires forall k :: |r| <= k < |left| ==> IsSpace(left[k])
    requires r == [] || !IsSpace(r[|r| - 1])
    ensures IsTrimmed(r)
    ensures TrimmedSlice(s, r, |s| - |left|)
    ensures forall c :: c in r ==> c in s
  {
    var a := |s| - |left|;
    assert r != [] ==> r[0] == left[0];
    assert s[a..a + |r|] == r;
    forall k | a + |r| <= k < |s|
      ensures IsSpace(s[k])
    {
      assert s[k] == left[k - a];
    }
    forall c | c in r
      ensures c in s
    {
      var i :| 0 <= i < |r| && r[i] == c;
      assert s[a + i] == c;
    }
  }

  /** `s.replace(/[`]/g, '').trim()`: the clean-up both bots apply to field values. */
  function StripBackticks(s: string): (r: string)
    ensures '`' !in r
    ensures IsTrimmed(r)
  {
    var removed := RemoveChars(s, {'`'});
    Trim(removed)
  }

  /** A value with no backtick and no surrounding white space is left as it is. */
  lemma StripCleanIsIdentity(s: string)
    requires '`' !in s && IsTrimmed(s)
    ensures StripBackticks(s) == s
  {
    assert RemoveChars(s, {'`'}) == s;
    assert TrimStart(s) == s;
    assert TrimEnd(s) == s;
  }

  /** ASCII part of `toLowerCase`. */
  function LowerChar(c: char): char {
    if 'A' <= c <= 'Z' then (c as int + 32) as char else c
  }

  function Lower(s: string): (r: string)
    ensures |r| == |s|
  {
    seq(|s|, i requires 0 <= i < |s| => LowerChar(s[i]))
  }
}
