# Necronomicon core, modelled in Dafny

Necronomicon is a Discord bot built on the Geode framework. This project models
the parts of it that hold logic of their own, as Dafny definitions with proved
contracts:

- **Reaction controls** (`Message#reaction_controls`). A pager on a bot message.
  Five buttons move an index within a range, each change is yielded to a block,
  and the stop button or the timeout deletes the message.
  Modelled as a fold over the results of `add_await!`, with a method that runs
  the loop and is proved equal to the fold.
- **User prompts** (`Bot#prompt` and its Channel, User and Message forms). A
  prompt message blocks until one of three handlers releases the lock: an
  accepted answer, the cancel reaction, or the timeout. The handlers, the
  teardown and the cleanup are modelled over a trace of inbound events.
- **Miscellaneous helpers**: `Pluralizer.plural`/`pl` and `String#ellipsify`,
  together with Ruby's `strip`.
- **Assignable roles**, covering:
  - the `!<key>` toggle, including exclusive groups;
  - the starting page of `!roles` and its pager;
  - the page `generate_embed` shows;
  - the prompt validators of the edit commands;
  - the exclusivity toggle.
- **The assignable-role tables** and the `AssignableRoleGroup` model, with its
  `roles` association and its `before_destroy` hook.
- **`!hug` and `!headpat`**: the counter tables they update and the reply line.
- **Geode's generators**: `indent` with Ruby's `split` semantics, the column
  strings and primary-key normalisation of `ModelGenerator`, the names and files
  of migrations, and the rewrite of the schema dump.
- **Start-up of `app/bot.rb`**: the normalisation of the loaded `config.yml`
  on an `OpenStruct`, and the check for the fields the bot cannot start
  without.

Every Discord call is an effect recorded in a sequence or a change to a
modelled table. The clock, the inflector (`pluralize`, `camelize`, …) and the
database's schema dumper are parameters.

## Model

| member | source | states |
|---|---|---|
| ReactionControls.Step | lib/reaction_controls.rb:41-86 | One await result: an in-range index stays in range. A reaction on another message or by another user changes nothing. Stop or timeout ends the loop and deletes the message. ⏮/⏭ go to the range ends; ◀/▶ move by one only inside the range. Every press by the owner removes the owner's reaction. The block gets the new index exactly when it changes. |
| ReactionControls.Controls | lib/reaction_controls.rb:25-30 | Raises NoPermission exactly when the message is not the bot's. Raises the start-index error exactly when the start is outside the range. Otherwise the first five effects are the five button reactions in order. |
| ReactionControls.RunControls | lib/reaction_controls.rb:25-88 | The imperative loop computes exactly `Controls` |
| ReactionControls.RunKeepsPrefix | lib/reaction_controls.rb:36-87 | The loop only appends to the yielded indices and the effects |
| ReactionControls.RunStaysInRange | lib/reaction_controls.rb:58-81 | Over any trace, the index and every index yielded stay inside the range |
| ReactionControls.RunRendersChanges | lib/reaction_controls.rb:58-82 | The block is called once per change of index, never with a repeat of the index it already shows |
| ReactionControls.RunEffects | lib/reaction_controls.rb:58-86 | After the set-up, every effect is the removal of one of the owner's button reactions, except a message deletion that comes last exactly when the loop has ended |
| ReactionControls.RunStopsAtEnd | lib/reaction_controls.rb:83-86 | Once the loop has ended, later await results are never looked at |
| ReactionControls.RunIgnoresOthers | lib/reaction_controls.rb:48-50 | Dropping reactions on other messages or by other users does not change the run |
| ReactionControls.ControlsStayInRange | lib/reaction_controls.rb:25-81 | A whole call never yields an index outside the range |
| ReactionControls.ForwardForwardFirstStop | lib/reaction_controls.rb:59-86 | The trace ▶ ▶ ⏮ ⏹ over 0..3 yields 1, 2, 0, removes three reactions and deletes the message |
| UserPrompts.Step | lib/user_prompts.rb:55-76 | A message from the target collects the message. If the block accepts it, it becomes the response and releases the lock. If the block rejects it, the timeout resets, and no other event resets it. A cancel press by the user releases the lock as canceled. An expiry releases it exactly when a timeout was given and it has passed since the last reset. |
| UserPrompts.Teardown | lib/user_prompts.rb:83-89 | The message handler is always removed. The reaction handler is removed iff a reaction was given, and the timer stopped iff a timeout was given. A message is deleted iff `clean` and it was collected. |
| UserPrompts.Deletions | lib/user_prompts.rb:89 | One deletion per collected message, in order |
| UserPrompts.PromptSpec | lib/user_prompts.rb:29-93 | The prompt is the first collected message. The effects are the send and the optional reaction, then the teardown once the lock opens. There is a response iff the prompt was answered. |
| UserPrompts.Handle | lib/user_prompts.rb:43-76 | One event handled on the state the message handler, the reaction handler and the timeout thread share gives exactly `Step` |
| UserPrompts.Prompt | lib/user_prompts.rb:29-93 | The imperative prompt computes exactly `PromptSpec` |
| UserPrompts.Release | lib/user_prompts.rb:83-89 | The closing statements produce exactly `Teardown` |
| UserPrompts.DeleteAll | lib/user_prompts.rb:89 | The `each(&:delete)` loop produces exactly `Deletions` |
| UserPrompts.DeletionsAppend | lib/user_prompts.rb:89 | Deleting one more message appends one deletion |
| UserPrompts.RunKeepsPrompt | lib/user_prompts.rb:39-57 | The collected messages only grow; the prompt stays first |
| UserPrompts.RunAnswered | lib/user_prompts.rb:60-67 | Over any trace, a response exists iff the lock was released by an answer |
| UserPrompts.MatchingAppend | lib/user_prompts.rb:55 | The messages the handler sees, over a trace extended by one event |
| UserPrompts.RunCollects | lib/user_prompts.rb:55-57 | The collected list is the prompt plus every message from the target, accepted or not, seen before the lock opened |
| UserPrompts.PromptCollects | lib/user_prompts.rb:37-57 | The same for a whole call: `[prompt] + matching messages of the consumed prefix` |
| UserPrompts.RunWithoutBlock | lib/user_prompts.rb:60-67 | Without a block, the first message from the target is the response and nothing after it is collected. If no response comes although the target wrote, the lock was opened earlier by the cancel reaction or the timeout, and none of the target's messages was collected. |
| UserPrompts.RunReleasedBy | lib/user_prompts.rb:43-50 | Without a timeout the prompt never times out; without a reaction it is never canceled |
| UserPrompts.PromptResult | lib/user_prompts.rb:91-92 | The result is an accepted message from the target, or nil on timeout or cancel |
| UserPrompts.RunResponse | lib/user_prompts.rb:64-66 | Any response was accepted by the block and came from the target |
| UserPrompts.RejectThenAccept | lib/user_prompts.rb:43-67 | A rejected answer resets the timeout, so a later answer that arrives past the original deadline is still accepted |
| UserPrompts.ChannelPrompt | lib/user_prompts.rb:99-101 | `Channel#prompt` is the bot prompt in this channel |
| UserPrompts.UserPrompt | lib/user_prompts.rb:107-113 | `User#prompt` is the bot prompt for this user |
| UserPrompts.MessagePrompt | lib/user_prompts.rb:119-125 | `Message#prompt` is the bot prompt for the author in the message's channel |
| Miscellaneous.Strip | lib/miscellaneous.rb:39-41 | The result is the input without its leading and trailing Ruby whitespace. Its ends are not whitespace, and an empty result means the input was all whitespace. |
| Miscellaneous.PrefixLength | lib/miscellaneous.rb:39 | The length of `s[0...e]`: never more than the string's length, and `e` itself when `0 <= e <= length` |
| Miscellaneous.Ellipsify | lib/miscellaneous.rb:37-43 | A longer string is cut, stripped and ends in `...`, with at most `length` characters when `length >= 3`. A short enough string is only stripped. |
| Miscellaneous.StripStripped | lib/miscellaneous.rb:39-41 | A string whose ends are not whitespace is left alone by `strip` |
| Miscellaneous.StripIdempotent | lib/miscellaneous.rb:41 | Stripping twice is stripping once |
| Miscellaneous.DotsStripped | lib/miscellaneous.rb:39 | A stripped string followed by `...` is left alone by `strip` |
| Miscellaneous.EllipsifyIdempotent | lib/miscellaneous.rb:37-43 | For `length >= 3`, ellipsifying twice is ellipsifying once |
| Miscellaneous.EllipsifyShortLimit | lib/miscellaneous.rb:39 | For `length < 3` the bound fails: `"abcdef".ellipsify(2)` is `"abcde..."` |
| Miscellaneous.Plural | lib/miscellaneous.rb:25-28 | The count, a space, then the singular form exactly when the count is 1 and the plural form otherwise |
| Miscellaneous.Pl | lib/miscellaneous.rb:29 | `pl` is an alias of `plural` |
| Common.Lower | app/main/assignable_roles.rb:96 | `downcase` maps every character through ASCII lower-casing and keeps the length |
| Common.LowerUnchanged | app/main/assignable_roles.rb:96 | A string without capitals is its own `downcase` |
| Common.NatString | lib/miscellaneous.rb:26 | Decimal digits whose value is the number, without a leading zero unless the number is 0 |
| Common.NatStringOfDigits | lib/miscellaneous.rb:26 | Any digit string without a leading zero is the rendering of its own value, so the rendering is unique |
| Common.LeadingDigitPositive | lib/miscellaneous.rb:26 | A digit string that does not start with 0 denotes a positive number |
| Common.IntString | lib/miscellaneous.rb:26 | `Integer#to_s`: for a non-negative number, digits whose value is the number. For a negative one, a minus sign, then digits whose value is its absolute value. Never a leading zero, except for 0 itself. |
| RoleModels.GroupRoles | app/models/assignable_role_group.rb:9 | `group.roles` lists exactly the roles whose group id is the group |
| RoleModels.UngroupedRoles | app/main/assignable_roles.rb:54 | Exactly the roles whose group does not exist |
| RoleModels.Select | app/main/assignable_roles.rb:54 | Filtering keeps distinctness and never lengthens the list; a role is kept iff it is listed and passes the filter |
| RoleModels.SelectCounts | app/main/assignable_roles.rb:54 | A role that passes the filter occurs as often as in the input, any other role not at all |
| RoleModels.SelectAppend | app/main/assignable_roles.rb:54 | Filtering a concatenation filters each part and keeps them in order, so the result is the input's subsequence of kept roles |
| RoleModels.SelectCons | app/main/assignable_roles.rb:54 | Filtering a list with a first element: that element is kept in front iff it passes |
| RoleModels.Ungroup | app/models/assignable_role_group.rb:11-13 | Every role of the group has its group id set to nil; every other role is unchanged |
| RoleModels.Without | app/models/assignable_role_group.rb:11-13 | The group order without the destroyed group, still distinct |
| RoleModels.DestroyedUngroups | app/models/assignable_role_group.rb:11-13 | After a destroy, no role refers to the group and the other roles are unchanged. The group is gone and the tables stay well formed. |
| RoleModels.DestroyedRolesBecomeUngrouped | app/models/assignable_role_group.rb:11-13 | After a destroy, the ungrouped roles are the old ungrouped roles plus the group's roles |
| RoleModels.Database.constructor | app/models/assignable_role_group.rb:8 | The database holds the given tables |
| RoleModels.Database.DestroyGroup | app/models/assignable_role_group.rb:11-13 | The hook and the deletion applied in place, keeping the tables well formed |
| AssignableRoles.FindRole | app/main/assignable_roles.rb:109 | `AssignableRole[key:]` finds a role with that key, or none exists |
| AssignableRoles.FindRoleIn | app/main/assignable_roles.rb:109 | The lookup over one table order: a found role is listed with that key, and `None` means no listed role has it |
| AssignableRoles.GroupIndex | app/main/assignable_roles.rb:96 | `find_index`: the first group with the key, or nil when none has it |
| AssignableRoles.Member.constructor | app/main/assignable_roles.rb:112 | The member holds the given roles |
| AssignableRoles.Member.AddRole | app/main/assignable_roles.rb:130 | The role is added |
| AssignableRoles.Member.RemoveRole | app/main/assignable_roles.rb:113 | The role is removed |
| AssignableRoles.Member.ModifyRoles | app/main/assignable_roles.rb:120-122 | The old roles minus the removed plus the added |
| AssignableRoles.NamedRole | app/main/assignable_roles.rb:109 | The role whose key is the text after `!`, or none has it |
| AssignableRoles.Toggle | app/main/assignable_roles.rb:107-134 | An unknown key changes nothing. A held role is removed. An unheld role of an exclusive group is added and the group's other roles removed. Any other role is added. The reply says which of the three happened: removed, given, or given in place of the group's others. |
| AssignableRoles.ToggleRespectsExclusive | app/main/assignable_roles.rb:118-126 | A member never ends up with two roles of one exclusive group |
| AssignableRoles.ToggleTwiceRestores | app/main/assignable_roles.rb:111-131 | Outside exclusive groups, the same `!<key>` twice restores the roles |
| AssignableRoles.HandleRoleMessage | app/main/assignable_roles.rb:107-134 | The handler changes the member's roles, and replies, exactly as `Toggle` says |
| AssignableRoles.RolesStartAsWritten | app/main/assignable_roles.rb:89-96 | As written: no argument gives page 0. The group is reported missing iff no key equals the argument as typed. The call raises on `nil + 1` iff some key equals it but none equals it downcased. Otherwise the page is 1 + the position of the first group keyed by the downcased argument. |
| AssignableRoles.RolesStartRejectsCapitals | app/main/assignable_roles.rb:90-92 | A stored key `colors` asked for as `Colors` is reported missing |
| AssignableRoles.RolesStartFindsExactKey | app/main/assignable_roles.rb:90-96 | The same group asked for as `colors` starts at page 1 |
| AssignableRoles.RolesStartCapitalKeyRaises | app/main/assignable_roles.rb:90-96 | A group stored with key `Colors` and asked for as `Colors` passes the existence check, then raises because the downcased search finds nothing |
| AssignableRoles.RolesStart | app/main/assignable_roles.rb:89-96 | The page is valid iff some group's key is the downcased argument, and it is then the 1-based position of the first such group. No argument gives page 0. |
| AssignableRoles.RolesPagerStarts | app/main/assignable_roles.rb:95-100 | The pager over `0..groups.size` accepts every starting page of the corrected `!roles` |
| AssignableRoles.RolesStartAgrees | app/main/assignable_roles.rb:89-96 | Wherever the code as written yields a page, the corrected version yields the same page |
| AssignableRoles.RolesPagerStartsAsWritten | app/main/assignable_roles.rb:95-100 | The pager over `0..groups.size` also accepts every starting page the code as written yields |
| AssignableRoles.EmbedPage | app/main/assignable_roles.rb:19-25 | Index 0 shows the ungrouped roles; index `i > 0` shows group `i - 1` of `all` with its roles |
| AssignableRoles.PagerPagesExist | app/main/assignable_roles.rb:24-25 | Every page within the pager's range has a group to show |
| AssignableRoles.OptionVerdict | app/main/assignable_roles.rb:242 | An empty answer raises. An answer is accepted iff its downcased first character is an option. |
| AssignableRoles.EditRoleChoice | app/main/assignable_roles.rb:242 | Accepted iff the answer starts with k, d or g, in either case |
| AssignableRoles.EditGroupChoice | app/main/assignable_roles.rb:436 | Accepted iff the answer starts with k, n, d or e, in either case |
| AssignableRoles.ExclusiveChoice | app/main/assignable_roles.rb:396 | Accepted iff the answer starts with y or n, in either case |
| AssignableRoles.IsExclusiveAnswer | app/main/assignable_roles.rb:397 | An accepted answer makes the group exclusive iff it starts with y |
| AssignableRoles.NewKeyVerdict | app/main/assignable_roles.rb:253-258 | A non-word character rejects the key. Otherwise a taken key raises and a free key is accepted. |
| AssignableRoles.NewRoleKeyVerdict | app/main/assignable_roles.rb:252-260 | Accepted iff the key is all word characters and no role has the downcased key; raises iff all word characters and a role has it |
| AssignableRoles.NewGroupKeyVerdict | app/main/assignable_roles.rb:446-454 | The same for groups |
| AssignableRoles.FlippedExclusive | app/main/assignable_roles.rb:507 | Only the group's exclusivity flips; every other row is unchanged |
| AssignableRoles.FlipTwice | app/main/assignable_roles.rb:507 | Flipping twice restores the tables |
| AssignableRoles.ToggleExclusive | app/main/assignable_roles.rb:505-508 | The database afterwards is `FlippedExclusive` of the database before |
| CounterTables.Exchanged | app/main/fun/hugs.rb:19-29 | The giver's `given` and the receiver's `received` go up by one, with missing rows created at 0. Every other row is unchanged. |
| CounterTables.GivensExchanged | app/main/fun/hugs.rb:23 | The `given` column after an exchange, entry by entry |
| CounterTables.ReceivedsExchanged | app/main/fun/hugs.rb:24 | The `received` column after an exchange, entry by entry |
| CounterTables.ExchangeAddsOneGiven | app/main/fun/hugs.rb:23 | Every exchange adds exactly one to the total of `given` |
| CounterTables.ExchangeAddsOneReceived | app/main/fun/hugs.rb:24 | Every exchange adds exactly one to the total of `received` |
| CounterTables.ExchangeBalances | app/main/fun/hugs.rb:19-29 | Total given equals total received is preserved by every exchange |
| CounterTables.CounterTable.constructor | app/main/fun/hugs.rb:19 | The table holds the given rows |
| CounterTables.CounterTable.FindOrCreate | app/main/fun/hugs.rb:19-20 | `Model[id] \|\| Model.create(id:)`: the row, inserted with defaults when missing |
| CounterTables.CounterTable.Exchange | app/main/fun/hugs.rb:19-29 | The rows afterwards are `Exchanged`; the giver's new row is returned |
| CounterTables.Command | app/main/fun/hugs.rb:16-36 | No target, or the invoker as target, changes nothing and gives no reply. Otherwise the counters are exchanged and the reply shows the invoker's new counters through `pl`. |
| Hugs.Hug | app/main/fun/hugs.rb:16-36 | `!hug` is the counter command on `HugUser` with the word `hugs` |
| Headpats.Headpat | app/main/fun/headpats.rb:17-37 | `!headpat` is the counter command on `HeadpatUser` with the word `headpats` |
| Generator.Pieces | geode/generator.rb:15 | The pieces between newlines: at least one, none containing a newline |
| Generator.DropTrailingEmpty | geode/generator.rb:15 | `split` drops the empty strings at the end and nothing else |
| Generator.Lines | geode/generator.rb:15 | `split("\n")`: newline-free lines, the last one not empty |
| Generator.Spaces | geode/generator.rb:15 | `' ' * spaces` |
| Generator.Prefixed | geode/generator.rb:15 | Every line with the spaces in front |
| Generator.JoinPieces | geode/generator.rb:15 | Joining the pieces with newlines gives back the string |
| Generator.JoinCons | geode/generator.rb:15 | Prepending a character to the first piece prepends it to the join |
| Generator.PiecesOfLine | geode/generator.rb:15 | Splitting a line followed by a newline yields that line first |
| Generator.PiecesOfSingleLine | geode/generator.rb:15 | A newline-free string is one piece |
| Generator.PiecesOfJoin | geode/generator.rb:15 | Splitting a join of newline-free lines gives back the lines |
| Generator.PiecesEnd | geode/generator.rb:15 | A string not ending in a newline has a non-empty last piece |
| Generator.IndentLines | geode/generator.rb:14-16 | For a positive width, the lines of `indent(s, k)` are the lines of `s` with exactly `k` spaces in front |
| Generator.IndentZero | geode/generator.rb:14-16 | A zero-width indent returns a string without a trailing newline unchanged |
| Generator.IndentOneLine | geode/generator.rb:14-16 | A one-line string gains exactly `k` spaces |
| Generator.ColumnString | geode/generator.rb:77-90 | A column form exists iff the type is in `VALID_FIELD_TYPES` |
| Generator.NormalizeFields | geode/generator.rb:55 | `id primary_key` is put in front iff no field is a primary key; afterwards one always is |
| Generator.Columns | geode/generator.rb:56 | One column per field |
| Generator.ColumnsSucceed | geode/generator.rb:56 | The columns are built iff every type is valid |
| Generator.ColumnsInOrder | geode/generator.rb:56 | Column `i` is field `i`'s column string indented by 6 |
| Generator.ColumnsFirstError | geode/generator.rb:56 | The error names the first field with an invalid type |
| Generator.ColumnsAreIndented | geode/generator.rb:56 | With newline-free column strings, each column is six spaces and the string |
| Generator.StripAffixes | geode/generator.rb:52 | The middle of a string between a given prefix and suffix, or none when the string lacks them |
| Generator.AddMigrationName | geode/generator.rb:52 | `Add…TableToDatabase` around the camelised table, recoverable by stripping the affixes |
| Generator.RemoveMigrationName | geode/generator.rb:118 | `Remove…TableFromDatabase` around the camelised table, recoverable |
| Generator.RenameMigrationName | geode/generator.rb:98 | `Rename<old>TableTo<new>`, with the old table recoverable |
| Generator.MigrationFilename | geode/generator.rb:54 | `<timestamp>_<underscored name>.rb`, with the name recoverable |
| Generator.ModelFilename | geode/generator.rb:53 | `<underscored name>.rb`, or `_singleton.rb` for a singleton, with the name recoverable |
| Generator.NewModelGenerator | geode/generator.rb:48-57 | Builds iff every normalised field type is valid. The model, table, migration and file names are then related to the name as the lines say, and the columns are the indented column strings. |
| Generator.RenameMigration | geode/generator.rb:95-100 | The rename migration's name and file follow from both table names |
| Generator.DestroyMigration | geode/generator.rb:117-120 | The destroy migration's name and file, and the dumped table indented by 4 for the rollback |
| Generator.PlainMigration | geode/generator.rb:134-137 | The camelised name and its file; the change template iff up/down was not asked for |
| Generator.FindFirst | geode/generator.rb:158 | The first position of the pattern, or none where it does not occur |
| Generator.SubFirst | geode/generator.rb:158 | `sub` replaces the first occurrence only, or returns the string unchanged |
| Generator.SubFirstRewrites | geode/generator.rb:158 | The rewritten dump reads `db.create_table?` where the dump first said `create_table` and is otherwise unchanged |
| Generator.SchemaTables | geode/generator.rb:157 | Every table other than `schema_migrations`, as often as the database lists it, and no others |
| Generator.SchemaTablesAppend | geode/generator.rb:157 | Listing a concatenation lists each part in order, so the tables keep the database's order |
| Generator.Schema | geode/generator.rb:157-158 | One entry per listed table: its dump, rewritten and indented by 4 |
| BotConfig.HelpCommandOf | app/bot.rb:16 | An empty string, empty symbol or empty list gives `false`. A non-empty list of names gives the list of their symbols. Anything else raises NoMethodError. |
| BotConfig.LogModeOf | app/bot.rb:22 | One of the five modes as a symbol; anything else gives `:normal` |
| BotConfig.Drop | app/bot.rb:32 | A field holding nil is removed, any other is kept |
| BotConfig.WithoutNil | app/bot.rb:32 | No field holds nil afterwards. Every named field and every other field is kept, with its value, exactly when it does not hold nil. |
| BotConfig.Normalized | app/bot.rb:10-32 | Succeeds iff every deleted field is present and `help_alias` has a meaning as aliases. Otherwise it raises for the first failing line, in the order of the source. The game is the file's `game`. |
| BotConfig.NormalizedFields | app/bot.rb:11-32 | The deleted fields are gone, each assigned field holds its line's value, and the untouched fields (`token`, `prefix`, `react_to_bots`, the others) are copied unless nil. No field holds nil. |
| BotConfig.StartupCheck | app/bot.rb:37-43 | A prefix without `empty?` raises. Otherwise the bot exits iff the client id or token is nil or the prefix is empty. |
| BotConfig.StartupFromFile | app/bot.rb:10-43 | With a string prefix, the bot exits iff the file's `id` or `token` is missing or nil, or its prefix is empty |
| BotConfig.Struct.constructor | app/bot.rb:10 | The struct holds the loaded file |
| BotConfig.Normalize | app/bot.rb:10-32 | The step-by-step assignments and deletions on the struct give exactly `Normalized`, including the error |

## Left out

- The thread lock, the timeout thread and event-handler concurrency are not modelled. The prompt is a fold over a trace, released by a flag, so races between handlers are out of scope.
- Wall-clock time is a parameter: `Time.now` becomes event times and a timestamp string.
- The pager's `expiry_time - Time.now` with a nil timeout (lib/reaction_controls.rb:42) raises in Ruby. The model abstracts the await's timeout away, so that crash is not modelled.
- REST calls are recorded as effects and not performed: sends, reactions, deletions and their rate-limit sleeps. URI encoding of emoji is also left out.
- Embed colours, icons and reply texts are not modelled. Replies are datatypes naming the role or group.
- The ORM is not modelled: tables are maps plus their row order, and `save` is assigning the row.
- The inflector (`pluralize`, `singularize`, `camelize`, `underscore`, `tableize`, `foreign_key`) is a record of uninterpreted functions.
- ERB rendering, file writes, console output and `CrystalGenerator` (lines 26-41) are left out. They only produce files and text.
- The `puts` at lib/user_prompts.rb:81 is not modelled. It prints to the console on every prompt and has no other effect.
- YAML loading is left out. The file arrives as a record of optional fields, and the loaded values are limited to nil, booleans, integers, strings, symbols and lists.
- Hashes and floats in `config.yml` are not modelled.
- Fields of other names are kept in a map. The model does not check that those names differ from the named fields.
- `downcase` is ASCII-only in the model; Unicode case mapping is not modelled.
- ReactionControls.Step, ReactionControls.Controls: every `yield` to the block returns normally. A block that raises, such as a failing `msg.edit` in the `!roles` pager (app/main/assignable_roles.rb:100-101), ends the call early. That skips the press's reaction removal and the final deletion, so the message keeps its buttons. The model does not capture this.
- `Generator.NormalizeFields` returns a new sequence. The in-place `fields.insert` and its aliasing of the caller's array are not modelled.
- The edit commands are modelled only in their validators and the exclusivity toggle (line 507). The other flows are not modelled: the create and delete commands, and the prompts whose answers are stored (key, name, description, group).
- The downcasing of descriptions at app/main/assignable_roles.rb:281 is not modelled.
- `send_temp` without a duration (lines 256 and 450) raises. The model reports it as `Raise`: the handler ends and the message stays collected.
- `SERVER.get_user` is a parameter: the command receives the resolved user or none.

## Findings

| source | as written | input that shows it | evidently intended | confidence | as-written member | corrected member |
|---|---|---|---|---|---|---|
| app/main/assignable_roles.rb:90-96 | The existence check looks the argument up verbatim, but the position search downcases it. Every command stores keys downcased. | A group stored with key `colors` and `!roles Colors`: the group is reported missing (`RolesStartRejectsCapitals`). A group keyed `Colors` and `!roles Colors`: `nil + 1` raises (`RolesStartCapitalKeyRaises`). | Downcase the argument for the existence check as for the position search | not executed | AssignableRoles.RolesStartAsWritten | AssignableRoles.RolesStart |
