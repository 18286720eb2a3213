/** The `newusers` moderation command: clamp the requested count, order the guild's members by
    join time, newest first, and list the first `count` of them, one embed field each. */
module Moderation {

  /** A guild member as the command sees it; times are timestamps. */
  datatype Member = Member(id: int, name: string, joinedAt: int, createdAt: int)

  /** One embed field; the human-readable rendering of the two times is not modelled. */
  datatype Field = Field(memberId: int, memberName: string, joinedAt: int, createdAt: int)

  datatype Embed = Embed(title: string, fields: seq<Field>)

  const MinCount := 5
  const MaxCount := 25
  const DefaultCount := 5
  const EmbedTitle := "New Members"

  /** `max(min(count, 25), 5)`. */
  function ClampCount(count: int): (r: int)
    ensures MinCount <= r <= MaxCount
    ensures MinCount <= count <= MaxCount ==> r == count
    ensures count > MaxCount ==> r == MaxCount
    ensures count < MinCount ==> r == MinCount
  {
    var upper := if count < MaxCount then count else MaxCount;
    if upper > MinCount then upper else MinCount
  }

  /** Non-increasing join times. */
  predicate NewestFirst(s: seq<Member>)
  {
    forall i, j :: 0 <= i < j < |s| ==> s[i].joinedAt >= s[j].joinedAt
  }

  /** Puts `m` in front of the first member that joined no later than it. */
  function Insert(m: Member, s: seq<Member>): (r: seq<Member>)
    requires NewestFirst(s)
    ensures NewestFirst(r)
    ensures multiset(r) == multiset(s) + multiset{m}
    ensures forall x :: x in r ==> x == m || x in s
  {
    if s == [] || m.joinedAt >= s[0].joinedAt then
      HeadIsNewest(s);
      NewestFirstCons(m, s);
      [m] + s
    else
      NewestFirstTail(s);
      var rest := Insert(m, s[1..]);
      InsertBehind(m, s, rest);
      [s[0]] + rest
  }

  /** The recursive case of `Insert`: `m` goes somewhere after the head of `s`. */
  lemma InsertBehind(m: Member, s: seq<Member>, rest: seq<Member>)
    requires NewestFirst(s) && s != [] && m.joinedAt < s[0].joinedAt
    requires NewestFirst(rest)
    requires multiset(rest) == multiset(s[1..]) + multiset{m}
    requires forall x :: x in rest ==> x == m || x in s[1..]
    ensures NewestFirst([s[0]] + rest)
    ensures multiset([s[0]] + rest) == multiset(s) + multiset{m}
    ensures forall x :: x in [s[0]] + rest ==> x == m || x in s
  {
    assert s == [s[0]] + s[1..];
    HeadIsNewest(s);
    NewestFirstCons(s[0], rest);
    assert multiset([s[0]] + rest) == multiset{s[0]} + multiset(rest);
    assert multiset(s) == multiset{s[0]} + multiset(s[1..]);
  }

  lemma HeadIsNewest(s: seq<Member>)
    requires NewestFirst(s)
    ensures forall x :: x in s ==> x.joinedAt <= s[0].joinedAt
  {
    forall x | x in s
      ensures x.joinedAt <= s[0].joinedAt
    {
      var k :| 0 <= k < |s| && s[k] == x;
      if k > 0 {
        assert s[0].joinedAt >= s[k].joinedAt;
      }
    }
  }

  lemma NewestFirstCons(h: Member, s: seq<Member>)
    requires NewestFirst(s)
    requires forall x :: x in s ==> x.joinedAt <= h.joinedAt
    ensures NewestFirst([h] + s)
  {
    var r := [h] + s;
    forall i, j | 0 <= i < j < |r|
      ensures r[i].joinedAt >= r[j].joinedAt
    {
      assert r[j] == s[j - 1];
      if i > 0 {
        assert r[i] == s[i - 1];
      } else {
        assert s[j - 1] in s;
      }
    }
  }

  /** `sorted(members, key=lambda m: m.joined_at, reverse=True)`. */
  function SortNewestFirst(s: seq<Member>): (r: seq<Member>)
    ensures NewestFirst(r)
    ensures multiset(r) == multiset(s)
    ensures |r| == |s|
  {
    if s == [] then []
    else
      assert s == [s[0]] + s[1..];
      Insert(s[0], SortNewestFirst(s[1..]))
  }

  /** The members of `s` that joined at time `t`, in the order of `s`. */
  function JoinedAt(s: seq<Member>, t: int): seq<Member>
  {
    if s == [] then [] else (if s[0].joinedAt == t then [s[0]] else []) + JoinedAt(s[1..], t)
  }

  lemma JoinedAtCons(h: Member, s: seq<Member>, t: int)
    ensures JoinedAt([h] + s, t) == (if h.joinedAt == t then [h] else []) + JoinedAt(s, t)
  {
    assert ([h] + s)[1..] == s;
  }

  lemma NewestFirstTail(s: seq<Member>)
    requires NewestFirst(s) && s != []
    ensures NewestFirst(s[1..])
  {
    forall i, j | 0 <= i < j < |s| - 1
      ensures s[1..][i].joinedAt >= s[1..][j].joinedAt
    {
      assert s[1..][i] == s[i + 1] && s[1..][j] == s[j + 1];
    }
  }

  lemma {:induction false} InsertKeepsTies(m: Member, s: seq<Member>, t: int)
    requires NewestFirst(s)
    ensures JoinedAt(Insert(m, s), t) == (if m.joinedAt == t then [m] else []) + JoinedAt(s, t)
  {
    if s == [] || m.joinedAt >= s[0].joinedAt {
      assert Insert(m, s) == [m] + s;
      JoinedAtCons(m, s, t);
    } else {
      assert s == [s[0]] + s[1..];
      NewestFirstTail(s);
      var r := Insert(m, s[1..]);
      assert Insert(m, s) == [s[0]] + r;
      InsertKeepsTies(m, s[1..], t);
      JoinedAtCons(s[0], r, t);
      JoinedAtCons(s[0], s[1..], t);
    }
  }

  /** The sort is stable: members with equal join times keep their relative guild order. */
  lemma {:induction false} SortIsStable(s: seq<Member>, t: int)
    ensures JoinedAt(SortNewestFirst(s), t) == JoinedAt(s, t)
  {
    if s != [] {
      SortIsStable(s[1..], t);
      InsertKeepsTies(s[0], SortNewestFirst(s[1..]), t);
    }
  }

  /** `sorted(...)[:count]` with the clamped count. */
  function Newest(members: seq<Member>, count: int): (r: seq<Member>)
    ensures |r| == if ClampCount(count) < |members| then ClampCount(count) else |members|
    ensures NewestFirst(r)
    ensures multiset(r) <= multiset(members)
  {
    var sorted := SortNewestFirst(members);
    var n := ClampCount(count);
    var r := if n < |sorted| then sorted[..n] else sorted;
    assert sorted == r + sorted[|r|..];
    r
  }

  /** In a newest-first sequence, whatever lies after position `n` joined no later than whatever lies before it. */
  lemma SplitNewestFirst(sorted: seq<Member>, n: nat, listed: Member, unlisted: Member)
    requires NewestFirst(sorted) && n <= |sorted|
    requires listed in sorted[..n]
    requires unlisted in multiset(sorted) - multiset(sorted[..n])
    ensures unlisted.joinedAt <= listed.joinedAt
  {
    var r, rest := sorted[..n], sorted[n..];
    assert sorted == r + rest;
    assert multiset(sorted) == multiset(r) + multiset(rest);
    assert unlisted in multiset(rest);
    var j :| 0 <= j < |rest| && rest[j] == unlisted;
    var i :| 0 <= i < |r| && r[i] == listed;
    assert sorted[i] == listed && sorted[n + j] == unlisted;
  }

  /** Everything left out of the listing joined no later than everything in it. */
  lemma UnlistedJoinedEarlier(members: seq<Member>, count: int, listed: Member, unlisted: Member)
    requires listed in Newest(members, count)
    requires unlisted in multiset(members) - multiset(Newest(members, count))
    ensures unlisted.joinedAt <= listed.joinedAt
  {
    var sorted := SortNewestFirst(members);
    var r := Newest(members, count);
    assert r == sorted[..|r|];
    SplitNewestFirst(sorted, |r|, listed, unlisted);
  }

  function FieldFor(m: Member): Field
  {
    Field(m.id, m.name, m.joinedAt, m.createdAt)
  }

  /** `newusers`: one field per listed member, in listing order. */
  method NewUsers(members: seq<Member>, count: int := DefaultCount) returns (embed: Embed)
    ensures embed.title == EmbedTitle
    ensures |embed.fields| == |Newest(members, count)|
    ensures forall i :: 0 <= i < |embed.fields| ==> embed.fields[i] == FieldFor(Newest(members, count)[i])
  {
    var listed := Newest(members, count);
    var fields := [];
    for i := 0 to |listed|
      invariant |fields| == i
      invariant forall k :: 0 <= k < i ==> fields[k] == FieldFor(listed[k])
    {
      fields := fields + [FieldFor(listed[i])];
    }
    embed := Embed(EmbedTitle, fields);
  }
}
