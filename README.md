# fireside-bot: command-line database driver, setup wizard helpers and new-member listing

This project models, in Dafny, the parts of the Fireside bot that have logic of their own.

- **`run.py`, the command-line driver.** Cog names are normalised to `cogs.<name>`. `db init`
  loads the extensions and then creates every registered table, carrying on past a table that
  fails. `db migrate` runs `work` on each table, and `work` can make one confirmed retry after a
  `RuntimeError`. `db upgrade`, `db downgrade` and `db drop` walk `Table.all_tables()` inside
  one transaction on one connection. They roll back and stop at the first `RuntimeError`, and
  they commit only when the loop finishes.
- **`cogs/configuring.py`, the `Config` cog.**
  - The `RoleRange` converter parses `first..second` as integer positions or as role names. It
    validates both against the bot's top role and against descending order, and returns the
    inclusive slice of the guild's roles.
  - The role-pool insert filter drops roles that are already pooled.
  - `parse_vc_mapping` and the voice-channel loop of the setup wizard, which is bounded by the
    number of voice channels.
  - The reply check of `get_arg_or_return`.
  - The per-guild `currently_configuring` lock of `config setup`.
- **`cogs/moderation.py`, the `newusers` command.** It clamps the count to [5, 25], sorts the
  members newest first with a stable sort, takes that many, and adds one embed field per member.

The schema and migration engine that `run.py` calls (`Table` from `cogs/utils/db.py`) is not part
of this model. The outcomes of its `migrate`, `drop` and `create` calls are
given with each table: completed, `RuntimeError` or another exception. The outcomes of
`write_migration` are given per call, numbered in the order the process makes the calls
(migrated, no changes, `RuntimeError` or another exception), so a confirmed retry of a table
is the next call in that numbering. Whether `create_pool` succeeds is a boolean. Discord look-ups (role, voice-channel and text-channel converters) are function
parameters from the argument text to an optional result. The replies that `wait_for` delivers
are sequences of messages, and a round with no reply times out.

Layout: `strings.dfy` (module `Strings`: Python's `startswith`, `partition`, a decimal `int()`
and the `Option`/`Result` types), `run.dfy` (module `Run`), `configuring.dfy` (module
`Configuring`), `moderation.dfy` (module `Moderation`).

Behaviour of the code that the model keeps as written:

- In `db migrate`, `work` exits the process with status -1 after the retry even when the retry
  succeeds. The tables after it are then never migrated (`Run.Work`, `Run.MigrateCommand`).
- `get_arg_or_return` never reaches its "Aborting" branch. `wait_for` raises on a timeout, and
  the exception leaves `config setup` with the guild still locked (`Configuring.WizardRun.Raised`).
- `config setup` releases the lock only after a completed wizard. Any early return or exception
  keeps the guild locked until the bot restarts (`Configuring.AbandonedSetupBlocksGuild`).
- The batch commands catch only `RuntimeError`. Any other exception from `migrate` or `drop`
  leaves the loop with the transaction started but neither committed nor rolled back:
  `Run.BatchState` is `Started` in that case.
- `RoleRange` applies Python's slice rules to the positions, negative positions included. `Configuring.PySlice`
  states them explicitly, so a range such as `-1..-3` passes validation and yields no roles.

## Model

| member | source | states |
|---|---|---|
| `Strings.Partition` | cogs/configuring.py:137 | `partition` splits at the first occurrence: when found, the input is head + separator + tail and no earlier index starts the separator; when not found, head is the whole input, tail is empty, and the separator occurs nowhere |
| `Strings.PartitionAfter` | cogs/configuring.py:137 | when the separator starts nowhere inside `x`, partitioning `x + sep + y` yields exactly `x` and `y` |
| `Strings.ParseInt` | cogs/configuring.py:140-141 | `int()` succeeds exactly on an optional sign followed by at least one digit |
| `Strings.ParseShowInt` | cogs/configuring.py:140-141 | `int(str(n)) == n` for every integer |
| `Run.NormaliseCog` | run.py:102-103 | after normalisation a cog name starts with `cogs.`; an already-prefixed name is unchanged and any other gets `cogs.` in front |
| `Run.NormaliseCogIdempotent` | run.py:140-141 | normalising twice equals normalising once |
| `Run.InitExtensions` | run.py:71-74 | with no cogs named, `init` uses the autoload list as it is; otherwise one normalised, `cogs.`-prefixed name per named cog, in order |
| `Run.FirstFailure` | run.py:152-158 | the index of the first table whose call did not complete; every earlier call completed |
| `Run.CallsMade` | run.py:152-158 | a batch calls every table up to and including the first failing one (all of them when none fails), and it reaches every table exactly when no call before the last fails |
| `Run.BatchState` | run.py:149-160 | a batch always starts its transaction; `Run.BatchAllOrNothing` characterises the committed and rolled-back outcomes |
| `Run.BatchAllOrNothing` | run.py:149-160 | the transaction ends committed exactly when every table's call completes, and rolled back exactly when some call raises `RuntimeError` after all earlier calls completed |
| `Run.Transaction.constructor` | run.py:150 | a new transaction is not yet started |
| `Run.Transaction.Start` | run.py:151 | starting moves a new transaction to started |
| `Run.Transaction.Rollback` | run.py:157 | only a started transaction can be rolled back, and it stays rolled back |
| `Run.Transaction.Commit` | run.py:160 | only a started transaction can be committed, and it stays committed |
| `Run.ApplyMigration` | run.py:133-160 | no pool, or a cog that will not load: no transaction and no calls, one error line. Otherwise tables are migrated in registry order, each call on connection `con` with the given index, direction and verbosity, up to and including the first failure; the final transaction state is `BatchState`, and only a `RuntimeError` is reported |
| `Run.Upgrade` | run.py:163-170 | every call migrates forward to `index` (default -1) on `con`; the upgrade commits exactly when the pool opens, the cog loads and every table migrates |
| `Run.Downgrade` | run.py:173-180 | every call passes `downgrade=True` with `index` (default -1) on `con`; it commits exactly when the pool opens, the cog loads and every table migrates |
| `Run.RemoveDatabases` | run.py:183-198 | tables are dropped in order on `con`, each reported as "Dropped" until the first failure; a `RuntimeError` is reported and rolled back; the removal message appears only after all tables were dropped and the transaction committed |
| `Run.DropCommand` | run.py:201-230 | without confirmation nothing happens; pool or load failures stop before any drop; the removal message is printed exactly when the confirmed, loaded batch commits. A confirmed, loaded batch makes the same drop calls and lines as `Run.RemoveDatabases`: one call per table up to and including the first failing one, one "Dropped" line per completed drop, and the `RuntimeError` line |
| `Run.LoadExtensions` | run.py:76-81 | the extensions are attempted in order up to and including the first that fails to load, and the loop reports success exactly when every extension loads |
| `Run.CreateTables` | run.py:83-92 | one `create` call per registered table, in order, with `run_migrations=False`, and exactly one line per table according to its outcome |
| `Run.Init` | run.py:61-92 | extensions are loaded in order, stopping at the first that fails, and then no table is created; once all are loaded, every table is created (verbosity from `quiet`, `run_migrations=False`) and yields exactly one line, either "could not create", "created" or "no work needed", never stopping at an error |
| `Run.Work` | run.py:111-125 | `work` makes at most two `write_migration` calls and one `init` call, and only one call when `invoked`. It calls `init` exactly when the first call raises `RuntimeError`, it is not invoked and the user confirms, and it makes one more `write_migration` call than `init` calls. It returns exactly when the first call migrates or finds no changes, echoing that one success line. A `RuntimeError` is echoed first. It ends in `sys.exit(-1)` exactly when it happens in the retry itself, or when the user confirms and the retry raises no other exception, even after a successful retry. It aborts exactly on a declined confirmation. It crashes exactly when another exception escapes the first call or the retry. Its lines never include "Done migrating" |
| `Run.MigrateCommand` | run.py:99-130 | a cog that will not load reports a load error. Otherwise the command prints "Done migrating" exactly when every table's first `write_migration` succeeds, after that table's own success line, in table order. Otherwise it ends the way `work` ends for the first table that fails, after the success lines of the tables before it and followed by that `work`'s lines. At most two `write_migration` calls per table |
| `Run.FirstFailedWrite` | run.py:112-128 | the index of the first table, from a given one on, whose first `write_migration` neither migrates nor finds no changes; every table before it succeeds |
| `Run.MigrateStopsAt` | run.py:127-130 | when the first failing table is reached, it is the first failed write, and the command's lines are the earlier success lines followed by that table's `work` lines, never "Done migrating" |
| `Configuring.SliceBound` | cogs/configuring.py:165 | Python's normalisation of a slice bound: in-range bounds unchanged, negative bounds counted from the end, bounds clamped to the sequence |
| `Configuring.PySliceIsRun` | cogs/configuring.py:165 | a slice is the run of consecutive roles that starts at the normalised start bound |
| `Configuring.RoleRange` | cogs/configuring.py:136-165 | an accepted range holds at most as many roles as the guild and only guild roles; `Configuring.RoleRangeAccepted` and `Configuring.RoleRangeRefused` characterise acceptance and refusal. The helpers are `Configuring.RangePositions` for the position look-up at :137-153, `Configuring.CheckRange` for the checks at :158-163, and `Configuring.PySlice` for the slice at :165 |
| `Configuring.RoleRangeAccepted` | cogs/configuring.py:136-165 | a range is accepted exactly when both positions resolve, both are below the bot's top role and `first > second`; the result is then `roles[second:first + 1]` |
| `Configuring.RoleRangeRefused` | cogs/configuring.py:137-163 | each refusal names its cause: first half not a role (when not both integers), second half not a role, the first of the two positions at or above the bot's top role, or positions not strictly descending |
| `Configuring.RoleRangeInBounds` | cogs/configuring.py:165 | for in-range non-negative positions the accepted range has `first - second + 1` roles, the `k`-th being `roles[second + k]` |
| `Configuring.RangeOfIntegers` | cogs/configuring.py:137-141 | `a..b` written as two integers resolves to positions `a` and `b` whatever roles exist |
| `Configuring.RangeSeparatorAfter` | cogs/configuring.py:137 | in `x..y`, `..` starts nowhere inside `x` exactly when `x` contains no `..` and does not end in `.` |
| `Configuring.RangeOfNames` | cogs/configuring.py:136-153 | `x..y`, where `x` contains no `..` and does not end in `.`, the halves are not both integers and both name roles, resolves to the positions of those roles |
| `Configuring.RolesToInsert` | cogs/configuring.py:362-364 | the inserted rows are tagged with the guild and category and never repeat a pooled id; every given role with an unpooled id is inserted; every row comes from a given role |
| `Configuring.RolesToInsertAppend` | cogs/configuring.py:364 | the filter keeps input order: it distributes over concatenation |
| `Configuring.RolesToInsertIdempotent` | cogs/configuring.py:356-368 | adding the same roles again once the first batch is pooled inserts nothing |
| `Configuring.IsWizardReply` | cogs/configuring.py:57-58 | the reply check of `get_arg_or_return`: content at most 100 characters, the invoking channel and author; its contract is carried by `Configuring.FirstWizardReply` and `Configuring.GetArgOrReturn` |
| `Configuring.WizardReplyIsMappingReply` | cogs/configuring.py:57-58 | a message the wizard's check accepts is also accepted by the mapping loop's check |
| `Configuring.FirstWizardReply` | cogs/configuring.py:57-61 | `wait_for` yields the first incoming message that passes the check: a short reply by the invoking author in the invoking channel |
| `Configuring.GetArgOrReturn` | cogs/configuring.py:56-68 | `get_arg_or_return` times out exactly when no incoming message passes the check. Otherwise it returns the content of the first message that passes it, which is at most 100 characters long |
| `Configuring.ParseVcMapping` | cogs/configuring.py:76-88 | a mapping pairs a voice channel and a text channel that the converters resolve; `Configuring.VcMappingNeedsBothHalves` and `Configuring.VcMappingOf` characterise the result |
| `Configuring.VcMappingNeedsBothHalves` | cogs/configuring.py:77-79 | an entry yields nothing, before any channel look-up, exactly when the text before or after the first colon is empty |
| `Configuring.VcMappingOf` | cogs/configuring.py:76-88 | `x:y` with a colon-free `x` maps the voice channel named by `x` to the text channel named by `y`, or is refused when either look-up fails |
| `Configuring.AwaitMappingReply` | cogs/configuring.py:295-296 | a round's `wait_for` delivers the first incoming message by the invoking author in the invoking channel, and times out exactly when there is none. The check is `Configuring.IsMappingReply`, the lambda at :296 |
| `Configuring.VcRounds` | cogs/configuring.py:284-310 | rounds `i` to `n - 1` collect at most `n - i` mappings. `Configuring.EndsLoop` is the cancel and timeout test at :297-303 |
| `Configuring.VcRoundsSound` | cogs/configuring.py:300-310 | every collected mapping is what the parser makes of some logged reply |
| `Configuring.VcRoundsStopAt` | cogs/configuring.py:294-303 | replies after a timeout or a cancel message are never looked at |
| `Configuring.VcLoopAppendsRounds` | cogs/configuring.py:285-309 | running the loop from any round appends exactly the mappings and log entries that `VcRounds` assigns to the remaining rounds |
| `Configuring.CollectVcMappings` | cogs/configuring.py:284-310 | each round's reply is the first incoming message that passes the loop's check, and `parse_vc_mapping` over the guild's channels is the parser. The loop's mappings and its logged prompts and replies are then those of `VcRounds` over all channels, so there are at most as many mappings as voice channels |
| `Configuring.SetupTransition` | cogs/configuring.py:195-352 | one `config setup` call leaves every other guild's lock entry as it was; `Configuring.SetupLockOutcome` characterises the guild's own entry and the result |
| `Configuring.LockedGuildIsRefused` | cogs/configuring.py:202-204 | a setup of a guild already being configured changes nothing and reports that it is in progress |
| `Configuring.SetupLockOutcome` | cogs/configuring.py:195-217 | the wizard runs exactly when the guild is neither configured nor locked; after a run the guild is locked exactly when the wizard did not complete; a refused call changes nothing; other guilds' flags are untouched |
| `Configuring.AbandonedSetupBlocksGuild` | cogs/configuring.py:202-217 | after a wizard that did not complete, every later setup of that guild is refused, however it would have run |
| `Configuring.Config.constructor` | cogs/configuring.py:169-172 | the cog starts with no guild marked |
| `Configuring.Config.Setup` | cogs/configuring.py:193-352 | the lock map and result after `config setup` are those of `SetupTransition` on the previous map |
| `Moderation.ClampCount` | cogs/moderation.py:18 | the effective count lies in [5, 25]: counts above 25 become 25, below 5 become 5, others are kept |
| `Moderation.SortNewestFirst` | cogs/moderation.py:19 | the sort puts members in non-increasing join time, and its result is a permutation of the members |
| `Moderation.SortIsStable` | cogs/moderation.py:19 | members with equal join times keep their guild order, as Python's sort with `reverse=True` does |
| `Moderation.Newest` | cogs/moderation.py:19 | the listing has `min(clamped count, member count)` members, newest first, all drawn from the guild's members |
| `Moderation.UnlistedJoinedEarlier` | cogs/moderation.py:19 | every member left out of the listing joined no later than every listed member |
| `Moderation.NewUsers` | cogs/moderation.py:13-26 | the embed is titled "New Members" and holds exactly one field per listed member, in listing order (default count 5) |

## Left out

- `cogs/utils/db.py`, the schema and migration engine, is not part of this model. This covers `Table.create_pool`, `create`, `write_migration`, `migrate`, `drop` and `all_tables`. The outcomes of `migrate`, `drop` and `create` are given with each table. The outcomes of `write_migration` are a function of the call's number in the order the process makes the calls. `create_pool` is a boolean. The registry order is the order of the given sequence.
- Discord I/O. Sending and deleting messages, `ctx.prompt`, embeds and colours, and role and channel creation are not modelled. The converters are look-up parameters. `wait_for` is a sequence of messages, or per-round replies where a missing reply means a timeout.
- Most of the `config setup` wizard between the lock and its last statement (cogs/configuring.py:209-350) is abstracted as `WizardRun`: completed, returned early, or raised. That covers `convert_channel`, `has_role_flow_create`, `manually_create_role`, the tracker channel, and the inserts into `guild_config`, `punishment_config` and `vc_channel_config`. These are prompts, Discord requests and SQL. Only the voice-channel loop inside the wizard is modelled, as `CollectVcMappings`.
- The role-pool commands `roles_enable`, `roles_add_batch` and `roles_disable`, and `invalidate_guild_config`, are command and cache plumbing. Only their shared insert filter is modelled.
- `Configuring.Config.Setup` sees only the state before and after a call. The awaits inside the wizard, where another invocation could run, are not modelled. The lock is set before the wizard starts, so such an invocation would find the guild locked.
- `run_bot`, `main` and the click option parsing, `importlib` loading (given as a `loadable` predicate), tracebacks, uvloop and asyncio scheduling are not modelled.
- The `init` invoked by `work` during the retry is counted, not modelled.
- `Strings.ParseInt` accepts only an optional sign followed by ASCII digits. Python's `int()` also accepts surrounding whitespace, single underscores between digits and non-ASCII decimal digits.
- `Moderation.SortNewestFirst` gives every member a join time. In discord.py `joined_at` can be `None`, and the sort would then raise.
- `human_timedelta` and the field name text are presentation. A field carries the member's id, name and the two timestamps.
