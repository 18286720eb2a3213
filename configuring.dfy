/** The `Config` cog: role ranges for batch role-pool inserts, the duplicate filter of the role pool,
    voice-channel mapping entries and the loop that collects them, the reply check of the setup
    wizard, and the per-guild lock that keeps two setups of one guild from running at once. */
module Configuring {
  import opened Strings

  /** A guild role: its snowflake id and its position in the role hierarchy. */
  datatype Role = Role(id: int, position: int)

  /** Why a role range is refused; the bot raises each as `BadArgument`. */
  datatype RangeError =
    | InvalidFirst(arg: string)
    | InvalidSecond(arg: string)
    | HierarchyConflict(pos: int)
    | NotDescending

  const RangeSeparator := ".."

  // ---------------------------------------------------------------------------------------------
  // Python slicing

  /** How Python normalises one bound of `s[start:stop]` for a sequence of length `n`. */
  function SliceBound(i: int, n: nat): (k: nat)
    ensures k <= n
    ensures 0 <= i <= n ==> k == i
    ensures i > n ==> k == n
    ensures -(n as int) <= i < 0 ==> k as int == n as int + i
    ensures i < -(n as int) ==> k == 0
  {
    if i < 0 then (if i + n < 0 then 0 else i + n) else if i > n then n else i
  }

  /** Python's `s[start:stop]`, negative indices and out-of-range bounds included. */
  function PySlice<T>(s: seq<T>, start: int, stop: int): seq<T>
  {
    var lo := SliceBound(start, |s|);
    var hi := SliceBound(stop, |s|);
    if lo < hi then s[lo..hi] else []
  }

  /** A slice is the run of consecutive elements that starts at the normalised start bound. */
  lemma PySliceIsRun<T>(s: seq<T>, start: int, stop: int)
    ensures var r := PySlice(s, start, stop);
      var lo := SliceBound(start, |s|);
      lo + |r| <= |s| && r == s[lo..lo + |r|]
  {
  }

  // ---------------------------------------------------------------------------------------------
  // RoleRange

  /** The two positions a range argument names: the integers themselves when both halves of
      `first..second` are integers, otherwise the positions of the two roles the halves name. */
  function RangePositions(argument: string, lookup: string -> Option<Role>): Result<(int, int), RangeError>
  {
    var p := Partition(argument, RangeSeparator);
    match (ParseInt(p.head), ParseInt(p.tail))
    case (Some(a), Some(b)) => Ok((a, b))
    case _ =>
      match lookup(p.head)
      case None => Err(InvalidFirst(p.head))
      case Some(first) =>
        match lookup(p.tail)
        case None => Err(InvalidSecond(p.tail))
        case Some(second) => Ok((first.position, second.position))
  }

  /** Validation of two positions against the bot's top role: the first offending position is
      reported, then descending order is required. */
  function CheckRange(first: int, second: int, botTop: int): Option<RangeError>
  {
    if first >= botTop then Some(HierarchyConflict(first))
    else if second >= botTop then Some(HierarchyConflict(second))
    else if first <= second then Some(NotDescending)
    else None
  }

  /** `RoleRange.convert`: the roles from `second` up to and including `first`, in guild order. */
  function RoleRange(argument: string, roles: seq<Role>, botTop: int, lookup: string -> Option<Role>)
    : (r: Result<seq<Role>, RangeError>)
    ensures r.Ok? ==> |r.value| <= |roles| && forall k :: 0 <= k < |r.value| ==> r.value[k] in roles
  {
    match RangePositions(argument, lookup)
    case Err(e) => Err(e)
    case Ok((first, second)) =>
      match CheckRange(first, second, botTop)
      case Some(e) => Err(e)
      case None =>
        PySliceIsRun(roles, second, first + 1);
        Ok(PySlice(roles, second, first + 1))
  }

  /** A range is accepted exactly when both positions resolve, both lie below the bot's top role,
      and they are strictly descending; the result is then the inclusive slice between them. */
  lemma RoleRangeAccepted(argument: string, roles: seq<Role>, botTop: int, lookup: string -> Option<Role>)
    ensures var r := RoleRange(argument, roles, botTop, lookup);
      var pos := RangePositions(argument, lookup);
      (r.Ok? <==> pos.Ok? && pos.value.0 < botTop && pos.value.1 < botTop && pos.value.0 > pos.value.1)
      && (r.Ok? ==> r.value == PySlice(roles, pos.value.1, pos.value.0 + 1))
  {
  }

  /** Each refusal names its cause: a half that names no role, the first position (in argument
      order) at or above the bot's top role, or positions that are not descending. */
  lemma RoleRangeRefused(argument: string, roles: seq<Role>, botTop: int, lookup: string -> Option<Role>)
    ensures var r := RoleRange(argument, roles, botTop, lookup);
      var p := Partition(argument, RangeSeparator);
      var numeric := ParseInt(p.head).Some? && ParseInt(p.tail).Some?;
      var pos := RangePositions(argument, lookup);
      (r == Err(InvalidFirst(p.head)) <==> !numeric && lookup(p.head).None?)
      && (r == Err(InvalidSecond(p.tail)) <==> !numeric && lookup(p.head).Some? && lookup(p.tail).None?)
      && (r.Err? && r.error.HierarchyConflict? ==>
            pos.Ok? && r.error.pos >= botTop
            && (r.error.pos == pos.value.0 || (pos.value.0 < botTop && r.error.pos == pos.value.1)))
      && (r == Err(NotDescending) <==>
            pos.Ok? && pos.value.0 < botTop && pos.value.1 < botTop && pos.value.0 <= pos.value.1)
  {
  }

  /** For positions inside the role list the accepted range has `first - second + 1` roles, the
      `k`-th being the role at index `second + k`. */
  lemma RoleRangeInBounds(argument: string, roles: seq<Role>, botTop: int, lookup: string -> Option<Role>,
                          first: int, second: int)
    requires RangePositions(argument, lookup) == Ok((first, second))
    requires RoleRange(argument, roles, botTop, lookup).Ok?
    requires 0 <= second && first < |roles|
    ensures var rs := RoleRange(argument, roles, botTop, lookup).value;
      |rs| == first - second + 1 && forall k :: 0 <= k < |rs| ==> rs[k] == roles[second + k]
  {
  }

  /** `a..b` written with two integers selects positions `a` and `b` whatever roles exist. */
  lemma RangeOfIntegers(a: int, b: int, lookup: string -> Option<Role>)
    ensures RangePositions(ShowInt(a) + RangeSeparator + ShowInt(b), lookup) == Ok((a, b))
  {
    ShowIntChars(a, '.');
    FirstCharAbsent(ShowInt(a), RangeSeparator, ShowInt(b));
    PartitionAfter(ShowInt(a), RangeSeparator, ShowInt(b));
    ParseShowInt(a);
    ParseShowInt(b);
  }

  /** `..` starts nowhere inside `x` in `x..y` exactly when `x` contains no `..` and does not end
      in `.`. */
  lemma RangeSeparatorAfter(x: string, y: string)
    ensures (forall i :: 0 <= i < |x| ==> !OccursAt(x + RangeSeparator + y, RangeSeparator, i))
        <==> (forall i :: 0 <= i < |x| ==> !OccursAt(x, RangeSeparator, i)) && (x == "" || x[|x| - 1] != '.')
  {
    var s := x + RangeSeparator + y;
    forall i | 0 <= i < |x|
      ensures OccursAt(s, RangeSeparator, i) <==> OccursAt(x, RangeSeparator, i) || (i == |x| - 1 && x[i] == '.')
    {
      if i + 2 <= |x| {
        assert s[i..i + 2] == x[i..i + 2];
      } else {
        assert s[i..i + 2] == [x[i], '.'];
      }
    }
    if x != "" && x[|x| - 1] == '.' {
      assert OccursAt(s, RangeSeparator, |x| - 1);
    }
  }

  /** `x..y` with two role names (not both integers) selects the positions of the named roles,
      provided the first name contains no `..` and does not end in `.`. */
  lemma RangeOfNames(x: string, y: string, lookup: string -> Option<Role>, rx: Role, ry: Role)
    requires forall i :: 0 <= i < |x| ==> !OccursAt(x, RangeSeparator, i)
    requires x == "" || x[|x| - 1] != '.'
    requires !(IsIntLiteral(x) && IsIntLiteral(y))
    requires lookup(x) == Some(rx) && lookup(y) == Some(ry)
    ensures RangePositions(x + RangeSeparator + y, lookup) == Ok((rx.position, ry.position))
  {
    RangeSeparatorAfter(x, y);
    PartitionAfter(x, RangeSeparator, y);
  }

  // ---------------------------------------------------------------------------------------------
  // Role pool

  /** One row of the `roles` table. */
  datatype PoolRow = PoolRow(guild: int, role: int, category: Option<string>)

  /** The rows `_bulk_add_roles` copies into the pool: the given roles whose id is not already
      among the guild's pooled ids, in the given order, tagged with the guild and category. */
  function RolesToInsert(guild: int, roles: seq<Role>, category: Option<string>, pooled: seq<int>)
    : (rows: seq<PoolRow>)
    ensures |rows| <= |roles|
    ensures forall row :: row in rows ==> row.guild == guild && row.category == category && row.role !in pooled
    ensures forall r :: r in roles && r.id !in pooled ==> PoolRow(guild, r.id, category) in rows
    ensures forall row :: row in rows ==> exists r :: r in roles && r.id == row.role
  {
    if roles == [] then []
    else
      var rest := RolesToInsert(guild, roles[1..], category, pooled);
      assert forall r :: r in roles[1..] ==> r in roles;
      assert forall r :: r in roles && r != roles[0] ==> r in roles[1..];
      if roles[0].id in pooled then rest else [PoolRow(guild, roles[0].id, category)] + rest
  }

  /** The filter keeps input order: it distributes over concatenation. */
  lemma {:induction false} RolesToInsertAppend(guild: int, a: seq<Role>, b: seq<Role>, category: Option<string>,
                                               pooled: seq<int>)
    ensures RolesToInsert(guild, a + b, category, pooled)
         == RolesToInsert(guild, a, category, pooled) + RolesToInsert(guild, b, category, pooled)
  {
    if a == [] {
      assert a + b == b;
    } else {
      assert (a + b)[0] == a[0];
      assert (a + b)[1..] == a[1..] + b;
      RolesToInsertAppend(guild, a[1..], b, category, pooled);
      var restA := RolesToInsert(guild, a[1..], category, pooled);
      var restB := RolesToInsert(guild, b, category, pooled);
      if a[0].id !in pooled {
        var row := PoolRow(guild, a[0].id, category);
        assert ([row] + restA) + restB == [row] + (restA + restB);
      }
    }
  }

  function RowRoles(rows: seq<PoolRow>): (ids: seq<int>)
    ensures |ids| == |rows| && forall k :: 0 <= k < |rows| ==> ids[k] == rows[k].role
  {
    if rows == [] then [] else [rows[0].role] + RowRoles(rows[1..])
  }

  /** Roles that are all pooled already insert nothing. */
  lemma {:induction false} AllPooledInsertNothing(guild: int, roles: seq<Role>, category: Option<string>,
                                                  pooled: seq<int>)
    requires forall r :: r in roles ==> r.id in pooled
    ensures RolesToInsert(guild, roles, category, pooled) == []
  {
    if roles != [] {
      assert forall r :: r in roles[1..] ==> r in roles;
      AllPooledInsertNothing(guild, roles[1..], category, pooled);
      assert roles[0] in roles;
    }
  }

  /** Adding the same roles again, once the first batch is pooled, inserts nothing. */
  lemma RolesToInsertIdempotent(guild: int, roles: seq<Role>, category: Option<string>, pooled: seq<int>)
    ensures var rows := RolesToInsert(guild, roles, category, pooled);
      RolesToInsert(guild, roles, category, pooled + RowRoles(rows)) == []
  {
    var rows := RolesToInsert(guild, roles, category, pooled);
    var after := pooled + RowRoles(rows);
    forall r | r in roles
      ensures r.id in after
    {
      if r.id !in pooled {
        var k :| 0 <= k < |rows| && rows[k] == PoolRow(guild, r.id, category);
        assert RowRoles(rows)[k] == r.id;
      }
    }
    AllPooledInsertNothing(guild, roles, category, after);
  }

  // ---------------------------------------------------------------------------------------------
  // Messages and the wizard's reply check

  /** A chat message: author, channel, raw content and mention-resolved content. */
  datatype Message = Message(author: int, channel: int, content: string, cleanContent: string)

  const MaxReplyLength := 100

  /** The check of `get_arg_or_return`: a short reply by the invoking author in the invoking channel. */
  predicate IsWizardReply(m: Message, channel: int, author: int)
  {
    |m.content| <= MaxReplyLength && m.channel == channel && m.author == author
  }

  /** The check of the voice-channel loop: any reply by the invoking author in the invoking channel. */
  predicate IsMappingReply(m: Message, channel: int, author: int)
  {
    m.author == author && m.channel == channel
  }

  /** Every message the wizard accepts would also be accepted by the mapping loop. */
  lemma WizardReplyIsMappingReply(m: Message, channel: int, author: int)
    requires IsWizardReply(m, channel, author)
    ensures IsMappingReply(m, channel, author)
  {
  }

  /** Index of the first incoming message the wizard's check accepts (`|incoming|` if none). */
  function FirstWizardReply(incoming: seq<Message>, channel: int, author: int): (k: nat)
    ensures k <= |incoming|
    ensures forall j :: 0 <= j < k ==> !IsWizardReply(incoming[j], channel, author)
    ensures k < |incoming| ==> IsWizardReply(incoming[k], channel, author)
  {
    if incoming == [] then 0
    else if IsWizardReply(incoming[0], channel, author) then 0
    else 1 + FirstWizardReply(incoming[1..], channel, author)
  }

  /** What `get_arg_or_return` yields: the reply's content, or a timeout, which `wait_for` raises. */
  datatype Answer = TimedOut | Replied(content: string)

  /** `get_arg_or_return`, with the messages that arrive before the timeout as `incoming`. */
  function GetArgOrReturn(incoming: seq<Message>, channel: int, author: int): (a: Answer)
    ensures a.TimedOut? <==> forall m :: m in incoming ==> !IsWizardReply(m, channel, author)
    ensures a.Replied? ==> |a.content| <= MaxReplyLength
    ensures a.Replied? ==>
              exists k :: 0 <= k < |incoming| && IsWizardReply(incoming[k], channel, author)
                && (forall j :: 0 <= j < k ==> !IsWizardReply(incoming[j], channel, author))
                && a.content == incoming[k].content
  {
    var k := FirstWizardReply(incoming, channel, author);
    if k == |incoming| then TimedOut
    else
      assert incoming[k] in incoming;
      Replied(incoming[k].content)
  }

  // ---------------------------------------------------------------------------------------------
  // Voice-channel mappings

  /** A voice channel and the text channel mapped to it. */
  datatype VcPair = VcPair(voice: int, text: int)

  /** The outcome of `parse_vc_mapping`: nothing for a missing half, nothing (after telling the user)
      for a half that names no channel, or the pair. */
  datatype VcParse = NoSpecifier | BadSpecifier | Mapped(pair: VcPair)

  const MappingSeparator := ":"

  /** `parse_vc_mapping`: split at the first colon; both halves must be non-empty before any
      channel lookup is attempted. */
  function ParseVcMapping(arg: string, voiceLookup: string -> Option<int>, textLookup: string -> Option<int>)
    : (r: VcParse)
    ensures r.Mapped? ==> exists name :: voiceLookup(name) == Some(r.pair.voice)
    ensures r.Mapped? ==> exists name :: textLookup(name) == Some(r.pair.text)
  {
    var p := Partition(arg, MappingSeparator);
    if p.head == "" || p.tail == "" then NoSpecifier
    else
      match voiceLookup(p.head)
      case None => BadSpecifier
      case Some(v) =>
        match textLookup(p.tail)
        case None => BadSpecifier
        case Some(t) => Mapped(VcPair(v, t))
  }

  /** An entry with an empty half yields nothing, whichever channels exist. */
  lemma VcMappingNeedsBothHalves(arg: string, voiceLookup: string -> Option<int>, textLookup: string -> Option<int>)
    ensures var p := Partition(arg, MappingSeparator);
      ParseVcMapping(arg, voiceLookup, textLookup) == NoSpecifier <==> p.head == "" || p.tail == ""
  {
  }

  /** `x:y` with `x` free of colons maps the voice channel named by `x` to the text channel named by `y`. */
  lemma VcMappingOf(x: string, y: string, voiceLookup: string -> Option<int>, textLookup: string -> Option<int>)
    requires forall i :: 0 <= i < |x| ==> x[i] != ':'
    requires x != "" && y != ""
    ensures ParseVcMapping(x + MappingSeparator + y, voiceLookup, textLookup)
         == if voiceLookup(x).Some? && textLookup(y).Some?
            then Mapped(VcPair(voiceLookup(x).value, textLookup(y).value)) else BadSpecifier
  {
    FirstCharAbsent(x, MappingSeparator, y);
    PartitionAfter(x, MappingSeparator, y);
  }

  /** What the mapping loop appends to the wizard's message list: its prompt ("up to `remaining`
      channels left") and each reply it receives. */
  datatype Logged = Prompt(remaining: nat) | Entry(message: Message)

  /** The message `wait_for` delivers to one round of the loop: the first incoming message that
      passes the loop's check, or `None` when none arrives before the timeout. */
  function AwaitMappingReply(incoming: seq<Message>, channel: int, author: int): (r: Option<Message>)
    ensures r.None? <==> forall m :: m in incoming ==> !IsMappingReply(m, channel, author)
    ensures r.Some? ==>
              exists k :: 0 <= k < |incoming| && incoming[k] == r.value && IsMappingReply(r.value, channel, author)
                && forall j :: 0 <= j < k ==> !IsMappingReply(incoming[j], channel, author)
  {
    if incoming == [] then None
    else if IsMappingReply(incoming[0], channel, author) then Some(incoming[0])
    else
      var r := AwaitMappingReply(incoming[1..], channel, author);
      assert forall m :: m in incoming ==> m == incoming[0] || m in incoming[1..];
      if r.Some? then
        var k :| 0 <= k < |incoming[1..]| && incoming[1..][k] == r.value && IsMappingReply(r.value, channel, author)
                 && forall j :: 0 <= j < k ==> !IsMappingReply(incoming[1..][j], channel, author);
        assert incoming[k + 1] == r.value;
        assert forall j :: 0 < j < k + 1 ==> incoming[j] == incoming[1..][j - 1];
        r
      else r
  }

  /** The replies of the rounds, one per round's incoming messages. */
  function MappingReplies(rounds: seq<seq<Message>>, channel: int, author: int): (replies: seq<Option<Message>>)
    ensures |replies| == |rounds|
    ensures forall i :: 0 <= i < |rounds| ==> replies[i] == AwaitMappingReply(rounds[i], channel, author)
  {
    seq(|rounds|, i requires 0 <= i < |rounds| => AwaitMappingReply(rounds[i], channel, author))
  }

  /** The reply of round `i`; rounds past the supplied replies time out. */
  function ReplyAt(replies: seq<Option<Message>>, i: nat): Option<Message>
  {
    if i < |replies| then replies[i] else None
  }

  /** A round ends the loop on a timeout or on a reply starting with `<prefix>cancel`. */
  predicate EndsLoop(reply: Option<Message>, prefix: string)
  {
    reply.None? || StartsWith(reply.value.cleanContent, prefix + "cancel")
  }

  datatype Rounds = Rounds(mapping: seq<VcPair>, log: seq<Logged>)

  /** Mappings collected and messages logged by rounds `i` to `n - 1` of the loop. */
  function VcRounds(i: nat, n: nat, replies: seq<Option<Message>>, prefix: string,
                    parse: string -> VcParse): (r: Rounds)
    requires i <= n
    ensures |r.mapping| <= n - i
    decreases n - i
  {
    if i >= n then Rounds([], [])
    else
      var reply := ReplyAt(replies, i);
      if reply.None? then Rounds([], [Prompt(n - i)])
      else if EndsLoop(reply, prefix) then Rounds([], [Prompt(n - i), Entry(reply.value)])
      else
        var rest := VcRounds(i + 1, n, replies, prefix, parse);
        var parsed := parse(reply.value.content);
        var found := if parsed.Mapped? then [parsed.pair] else [];
        Rounds(found + rest.mapping, [Prompt(n - i), Entry(reply.value)] + rest.log)
  }

  /** Every collected pair is what some logged reply parses to. */
  lemma {:induction false} VcRoundsSound(i: nat, n: nat, replies: seq<Option<Message>>, prefix: string,
                                         parse: string -> VcParse)
    requires i <= n
    ensures var r := VcRounds(i, n, replies, prefix, parse);
      forall pair :: pair in r.mapping ==>
        exists m :: Entry(m) in r.log && parse(m.content) == Mapped(pair)
    decreases n - i
  {
    var reply := ReplyAt(replies, i);
    if i < n && !EndsLoop(reply, prefix) {
      VcRoundsSound(i + 1, n, replies, prefix, parse);
      var r := VcRounds(i, n, replies, prefix, parse);
      var rest := VcRounds(i + 1, n, replies, prefix, parse);
      assert forall e :: e in rest.log ==> e in r.log;
      assert Entry(reply.value) in r.log;
    }
  }

  /** Replies after the round that ends the loop are never looked at. */
  lemma {:induction false} VcRoundsStopAt(i: nat, j: nat, n: nat, replies: seq<Option<Message>>,
                                          other: seq<Option<Message>>, prefix: string,
                                          parse: string -> VcParse)
    requires i <= j && i <= n && EndsLoop(ReplyAt(replies, j), prefix)
    requires forall k :: i <= k <= j ==> ReplyAt(replies, k) == ReplyAt(other, k)
    ensures VcRounds(i, n, replies, prefix, parse)
         == VcRounds(i, n, other, prefix, parse)
    decreases j - i
  {
    if i < n && i < j {
      VcRoundsStopAt(i + 1, j, n, replies, other, prefix, parse);
    }
  }

  /** The loop as it runs: rounds `i` to `n - 1` appended to what earlier rounds collected in `acc`. */
  function VcLoop(i: nat, n: nat, replies: seq<Option<Message>>, prefix: string,
                  parse: string -> VcParse, acc: Rounds): Rounds
    requires i <= n
    decreases n - i
  {
    if i >= n then acc
    else
      var reply := ReplyAt(replies, i);
      if reply.None? then Rounds(acc.mapping, acc.log + [Prompt(n - i)])
      else if EndsLoop(reply, prefix) then Rounds(acc.mapping, acc.log + [Prompt(n - i), Entry(reply.value)])
      else
        var parsed := parse(reply.value.content);
        var found := if parsed.Mapped? then [parsed.pair] else [];
        VcLoop(i + 1, n, replies, prefix, parse,
               Rounds(acc.mapping + found, acc.log + [Prompt(n - i), Entry(reply.value)]))
  }

  /** A round that neither times out nor cancels, unfolded in both the loop and its specification. */
  lemma VcLoopStep(i: nat, n: nat, replies: seq<Option<Message>>, prefix: string,
                   parse: string -> VcParse, acc: Rounds)
    requires i < n && !EndsLoop(ReplyAt(replies, i), prefix)
    ensures var reply := ReplyAt(replies, i);
      var parsed := parse(reply.value.content);
      var found := if parsed.Mapped? then [parsed.pair] else [];
      var heard := [Prompt(n - i), Entry(reply.value)];
      var next := VcRounds(i + 1, n, replies, prefix, parse);
      VcLoop(i, n, replies, prefix, parse, acc)
        == VcLoop(i + 1, n, replies, prefix, parse, Rounds(acc.mapping + found, acc.log + heard))
      && VcRounds(i, n, replies, prefix, parse) == Rounds(found + next.mapping, heard + next.log)
  {
  }

  /** Running the loop from round `i` appends exactly what `VcRounds` says those rounds collect. */
  lemma {:induction false} VcLoopAppendsRounds(i: nat, n: nat, replies: seq<Option<Message>>, prefix: string,
                                               parse: string -> VcParse,
                                               acc: Rounds)
    requires i <= n
    ensures var r := VcRounds(i, n, replies, prefix, parse);
      VcLoop(i, n, replies, prefix, parse, acc) == Rounds(acc.mapping + r.mapping, acc.log + r.log)
    decreases n - i
  {
    if i >= n || EndsLoop(ReplyAt(replies, i), prefix) {
      assert acc.mapping + [] == acc.mapping && acc.log + [] == acc.log;
    } else {
      var reply := ReplyAt(replies, i);
      var parsed := parse(reply.value.content);
      var found := if parsed.Mapped? then [parsed.pair] else [];
      var heard := [Prompt(n - i), Entry(reply.value)];
      var next := VcRounds(i + 1, n, replies, prefix, parse);
      VcLoopStep(i, n, replies, prefix, parse, acc);
      VcLoopAppendsRounds(i + 1, n, replies, prefix, parse,
                          Rounds(acc.mapping + found, acc.log + heard));
      assert (acc.mapping + found) + next.mapping == acc.mapping + (found + next.mapping);
      assert (acc.log + heard) + next.log == acc.log + (heard + next.log);
    }
  }

  /** `parse_vc_mapping` with the guild's channels fixed, as the loop applies it to each reply. */
  function MappingParser(voiceLookup: string -> Option<int>, textLookup: string -> Option<int>): string -> VcParse
  {
    arg => ParseVcMapping(arg, voiceLookup, textLookup)
  }

  /** The loop over the guild's voice channels: one round per channel at most, ending on a timeout
      or a cancel reply, skipping entries that do not parse. */
  method CollectVcMappings(channelCount: nat, rounds: seq<seq<Message>>, channel: int, author: int, prefix: string,
                           voiceLookup: string -> Option<int>, textLookup: string -> Option<int>)
    returns (mapping: seq<VcPair>, log: seq<Logged>)
    ensures Rounds(mapping, log)
         == VcRounds(0, channelCount, MappingReplies(rounds, channel, author), prefix, MappingParser(voiceLookup, textLookup))
    ensures |mapping| <= channelCount
  {
    ghost var replies := MappingReplies(rounds, channel, author);
    ghost var parse := MappingParser(voiceLookup, textLookup);
    ghost var whole := VcLoop(0, channelCount, replies, prefix, parse, Rounds([], []));
    mapping, log := [], [];
    for chan := 0 to channelCount
      invariant VcLoop(chan, channelCount, replies, prefix, parse, Rounds(mapping, log)) == whole
    {
      ghost var before := log;
      log := log + [Prompt(channelCount - chan)];
      var reply := if chan < |rounds| then AwaitMappingReply(rounds[chan], channel, author) else None;
      assert reply == ReplyAt(replies, chan);
      if reply.None? {
        break;
      }
      var entry := reply.value;
      log := log + [Entry(entry)];
      assert log == before + [Prompt(channelCount - chan), Entry(entry)];
      if StartsWith(entry.cleanContent, prefix + "cancel") {
        break;
      }
      var parsed := ParseVcMapping(entry.content, voiceLookup, textLookup);
      assert parse(entry.content) == parsed;
      if !parsed.Mapped? {
        assert mapping + [] == mapping;
        continue;
      }
      mapping := mapping + [parsed.pair];
    }
    VcLoopAppendsRounds(0, channelCount, replies, prefix, parse, Rounds([], []));
    assert [] + mapping == mapping && [] + log == log;
  }

  // ---------------------------------------------------------------------------------------------
  // The setup lock

  /** How the wizard between the lock and the final database writes ended: it ran to the end, it
      returned early (an empty greeting, a channel that could not be found twice), or an exception
      left it (a reply timeout, a failed request). */
  datatype WizardRun = Completed | ReturnedEarly | Raised

  datatype SetupResult = AlreadyConfigured | InProgress | Ran(run: WizardRun)

  /** Whether `guild` is marked as being configured (`currently_configuring.get(guild)`). */
  predicate Locked(locks: map<int, bool>, guild: int)
  {
    guild in locks && locks[guild]
  }

  /** The lock map after one `config setup` call, and what the call did. */
  function SetupTransition(locks: map<int, bool>, guild: int, isConfigured: bool, run: WizardRun)
    : (r: (map<int, bool>, SetupResult))
    ensures forall g :: g != guild ==> (g in r.0 <==> g in locks)
    ensures forall g :: g != guild && g in locks ==> r.0[g] == locks[g]
  {
    if isConfigured then (locks, AlreadyConfigured)
    else if Locked(locks, guild) then (locks, InProgress)
    else (locks[guild := run != Completed], Ran(run))
  }

  /** A setup of a locked guild changes nothing and reports that one is in progress. */
  lemma LockedGuildIsRefused(locks: map<int, bool>, guild: int, run: WizardRun)
    requires Locked(locks, guild)
    ensures SetupTransition(locks, guild, false, run) == (locks, InProgress)
  {
  }

  /** A wizard that did not complete leaves its guild locked; only completion releases it. Other
      guilds' locks are untouched. */
  lemma SetupLockOutcome(locks: map<int, bool>, guild: int, isConfigured: bool, run: WizardRun)
    ensures var (after, result) := SetupTransition(locks, guild, isConfigured, run);
      (result.Ran? ==> (Locked(after, guild) <==> run != Completed))
      && (!result.Ran? ==> after == locks)
      && (result.Ran? <==> !isConfigured && !Locked(locks, guild))
      && forall g :: g != guild ==> (Locked(after, g) <==> Locked(locks, g))
  {
  }

  /** After an abandoned wizard every later setup of that guild is refused, however it would run. */
  lemma AbandonedSetupBlocksGuild(locks: map<int, bool>, guild: int, run: WizardRun, later: WizardRun)
    requires !Locked(locks, guild) && run != Completed
    ensures var after := SetupTransition(locks, guild, false, run).0;
      SetupTransition(after, guild, false, later) == (after, InProgress)
  {
  }

  /** The cog's mutable state: which guilds have a setup under way. */
  class Config {
    var currentlyConfiguring: map<int, bool>

    constructor()
      ensures currentlyConfiguring == map[]
    {
      currentlyConfiguring := map[];
    }

    /** `config setup`: refuses a configured or locked guild; otherwise locks it before the wizard
        runs and unlocks it only once the wizard has completed. */
    method Setup(guild: int, isConfigured: bool, run: WizardRun) returns (result: SetupResult)
      modifies this
      ensures (currentlyConfiguring, result) == SetupTransition(old(currentlyConfiguring), guild, isConfigured, run)
    {
      if isConfigured {
        assert SetupTransition(currentlyConfiguring, guild, isConfigured, run) == (currentlyConfiguring, AlreadyConfigured);
        return AlreadyConfigured;
      }
      if guild in currentlyConfiguring && currentlyConfiguring[guild] {
        assert SetupTransition(currentlyConfiguring, guild, isConfigured, run) == (currentlyConfiguring, InProgress);
        return InProgress;
      }
      currentlyConfiguring := currentlyConfiguring[guild := true];
      if run != Completed {
        assert currentlyConfiguring == old(currentlyConfiguring)[guild := run != Completed];
        return Ran(run);
      }
      currentlyConfiguring := currentlyConfiguring[guild := false];
      assert currentlyConfiguring == old(currentlyConfiguring)[guild := run != Completed];
      result := Ran(run);
    }
  }
}
