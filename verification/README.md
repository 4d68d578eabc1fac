# What is modelled

pgx moves PostgreSQL data in three ways that carry strong promises, and this
project models each from the bytes or messages that arrive to the state that
is left behind.

**Replication.** The server writes frames; the client reads them, parses
CopyData, tells transaction boundaries from row messages, and decodes the
rest against a cache of relations (`Bytes`, `Proto`, `Worker`, `Decoder`,
`Wire`). The session gates and transforms each change (`Filter*`, `Gate`,
`Transforms`), buffers it in the applier and, at each commit, runs one
transaction of generated SQL on the target (`Quote`, `Sql`, `SqlReader`,
`SqlMeaning`, `Session`). The position it reports decides what the server sends
after a reconnect (`Progress`, `Backoff`, `SessionLoop`). `Replication` puts these
together as a step system: a server with an ordered transaction log, the queue
of one connection, the session, an applier buffer that outlives connections,
and a target that takes one transaction at a time; without an applier the same
system feeds the fan-out sinks. `Delivery` proves what arrives over all runs,
`Scenarios` builds the runs that show its conditions are exact, and `EndToEnd`
and `RealRuns` instantiate both with the real stages and the server's messages.

**Consuming.** A session takes messages from a broker, skips those whose id was
seen within a time to live, composes a document, sends it and settles the
message (`Dedupe`, `Consume`). `Broker` is the step system around it: messages
are published and delivered at any time, channels die and return unacked
messages, settlements may or may not land, the sweeper runs anywhere, the
process may die. Settlement is RabbitMQ's.

**GraphQL documents.** Selection sets are parsed from text (`Selection`,
`SelectionPrinter`); a document is assembled level by level with one query per
parent or one batched query for all of them (`Json`, `Loader`, `Executor`,
`Assemble`, `Batching`), through a cache that outlives messages (`Staleness`).
`Numeric` prints the decimal numbers that come back.

Loops and objects of the source are methods and classes here, each proved
against a specification function; the lemmas are about those functions. The
modules called `...Meaning`, with `Texts`, say what each operation is for in its
own terms (columns and values, bytes and layouts, rows and keys), without the
functions that compute it, and prove that it does just that: `FilterMeaning`,
`LexerMeaning`, `ParserMeaning`, `RulesMeaning`, `ProtoMeaning`, `WorkerMeaning`,
`WireMeaning`, `SqlMeaning`, `TransformMeaning`, `SessionMeaning`,
`ConsumeMeaning`, `DocumentMeaning`, `NumericMeaning` and `SelectionMeaning`.
Automatic induction is switched off everywhere, so every proof is the one
that is written.

## Assumptions

- The server (`Replication.GoodLog`, `Replication.Legal`): commit positions are
  ordered (`final_lsn < end_lsn <=` the next `final_lsn`); a position seen in a
  transaction is at most its `final_lsn`; a keepalive's or a skipped message's
  position does not pass the next undelivered `final_lsn`; a stream that starts
  at a position re-sends every transaction whose `final_lsn` is at or after it;
  payloads decode under the relations announced on that connection. The slot is
  a permanent one: with `--temporary` each connection makes its own
  (src/replication/client.rs:305-307), and the server re-sends nothing.
- The connection's events reach the session as the server sent them: no idle
  timeout or signal drops the beginning of a message (`Worker.Whole`).
- The target takes a transaction entirely or not at all. An error may still be
  reported for one that took effect (`InDoubt`), when its connection is lost. The
  process opens that connection once, so a lost one stays lost until a restart.
- `AsciiOk` and `SpaceOk`: Unicode character classes agree with ASCII where it
  matters. `CodecOk`: UTF-8 reads back what it wrote. `OrderOk`: a row's columns
  are listed in some order, fixed for a run. `Ranked`: every `f64` but NaN has a
  place in one order, and NaN is comparable with nothing.
- `DocumentMeaning.Filtering`: every resolver's SQL selects some rows by one column.
- `RenderOk` and `Numeral`: the JSON texts of arrays and objects differ when
  they do and begin with their bracket, number texts with a digit or a sign.
- Instants grow. Two events may share one. The shared position never goes back
  (`Worker.Rising`), as `Progress.UpdatesEndAtMax` proves of its updates.

## Where the documentation promises more

- README.md line 81 and lines 262-263 promise exactly-once and that no event is
  lost or duplicated. In any run nothing is skipped (`Delivery.NothingLost`), and
  no transaction takes effect twice exactly when every session that handled one
  began past what had taken effect before it (`Delivery.OnceExactly`,
  `Delivery.ExactlyOnce`). A session begins too early exactly when what took
  effect last lags behind the position (`Delivery.BeginsEarlyExactly`), and only
  three kinds of step bring that about: a commit that took effect but is reported
  as failed, a commit whose boundary the sink does not take, and a restart from
  before it (`Delivery.LagsExactly`). Each of them doubles a transaction, for any
  setup and any log whose first transaction executes something
  (`RealRuns.RealFlawRepeats`); `RealRuns.OneRowTwice` writes one such run out.
  A boundary that is not taken does so in one life of the process. A commit in
  doubt has lost the target, so it takes a restart, and then the server having
  been told everything does not help.
- README.md lines 252-253 promise to reconnect when the PostgreSQL connection
  breaks. The target's is not opened again: once it is lost nothing is executed
  until a restart (`Delivery.DownForGood`), and the rest of the log can be handed
  over, and a transaction take effect, exactly while it is not
  (`Scenarios.FinishesExactly`, `Scenarios.TakesEffectExactly`).
- For the sinks, alone or beside the applier, README.md lines 262-263 promise
  the same. A change whose send failed can be sent again by the living process exactly when the position has not moved past its transaction
  (`Scenarios.FailedSendLost`). The commit of that transaction moves it past, so
  after one failed send the process never sends the change, for any setup and
  any log whose first change is forwarded (`RealRuns.RealSinkLoss`). A change
  that was sent can be sent again under just the same condition, so every
  reconnect within a transaction may repeat what it has sent of it
  (`Scenarios.GivenAgainExactly`).
- The idle timeout and the stop signal drop the pending read with the bytes it
  has taken, and the loop reads on in the middle of a message. The events are
  those of the bytes exactly when nothing was taken (`Worker.TurnExplainsExactly`);
  with the header of one keepalive taken the session breaks without its event
  (`EndToEnd.HalfReadBreaks`).
- A row rule for all tables whose text has a colon, even in a literal, is not
  read as one (`FilterRules.GlobalExactly`).
- README.md line 261 gives the backoff as the base times two to the `n-1`,
  capped. `Backoff.BaseIsIdealExactly` says when the clamped arithmetic is that.
- A table given by its bare name passes the gate's row events but not its
  truncations, which carry qualified names (`Gate.TruncateGateExactly`).
- A rename onto a column that is there and stays overwrites it
  (`Transforms.SimultaneousExactly`, `Transforms.InverseRestores`).
- `UPDATE` and `DELETE` compare NULL with `=`, so a row with a NULL is not found,
  and identical rows are changed together (`SqlMeaning.DeleteExact`,
  `SqlMeaning.UpdateExact`).
- A parent that lacks the parameter's column asks for the empty key without
  batching and for nothing with it (`Batching.FetchAgreesExactly`).

The time to live of the query cache counts from the write of an entry, not from
the query whose rows it holds. With writes at most a lag after their queries,
hits can be behind the data by just as much as the time to live and that lag
together (`Staleness.BehindExactly`).

## Model

| member | source | states |
|---|---|---|
| `Filter.KleeneMonotone` | src/commands/replicate/filter.rs:9-104 | a filter without IS [NOT] NULL that is known on a row stays the same when NULL, unchanged or missing columns get values |
| `Filter.NullTestFlips` | src/commands/replicate/filter.rs:62-89 | corollary: IS NULL is the exception: it flips when the column gets a value |
| `Filter.DeMorgan` | src/commands/replicate/filter.rs:62-136 | for `=` and `!=` under AND and OR, negating inside negates the three-valued result (not so for `<`, since NaN text parses) |
| `Filter.RuleOrderIrrelevant` | src/commands/replicate/filter.rs:522-555 | two lists with the same rules forward the same events |
| `Filter.RowFilter.ShouldForward` | src/commands/replicate/filter.rs:522-555 | forwards a row change exactly when every applicable rule is known to hold of the row it looks at, and any other event |
| `FilterMeaning.EvalExactly` | src/commands/replicate/filter.rs:62-136 | the result is true exactly when the expression is known to hold and false exactly when it is known not to: each operator as its relation, between numbers where both sides can be read so and texts otherwise, AND as both and OR as either |
| `FilterMeaning.ClassicalWhenComplete` | src/commands/replicate/filter.rs:62-104 | when every compared column holds text and no literal is NULL the expression is an ordinary condition, and the result is its value |
| `FilterMeaning.ForwardsExactly` | src/commands/replicate/filter.rs:522-555 | a row change is forwarded exactly when every rule for its table, or for all tables, is true of its new row, of its old row when it is a delete |
| `FilterMeaning.AndSplits` | src/commands/replicate/filter.rs:67-76 | a rule `a AND b` forwards exactly what the two rules `a` and `b` forward together |
| `FilterLexer.Lexer.LexString` | src/commands/replicate/filter.rs:256-273 | the cursor reads a quoted string with doubled quotes, or reports it unterminated |
| `FilterLexer.Lexer.LexNumber` | src/commands/replicate/filter.rs:275-293 | sign, digits and at most one dot, handed to the float reader |
| `FilterLexer.Lexer.Next` | src/commands/replicate/filter.rs:187-254 | one token and the rest of the input, or nothing at the end, or the error |
| `FilterLexer.Tokenize` | src/commands/replicate/filter.rs:175-254 | the whole token list, or the first error |
| `LexerMeaning.FirstTokenExactly` | src/commands/replicate/filter.rs:187-312 | a token is read exactly when the text is one of its spellings, as long as it can be, and the rest: keywords in any case, both signs of inequality, numbers with at most one dot, quotes doubled |
| `LexerMeaning.UpperExactly` | src/commands/replicate/filter.rs:295-312 | a word is compared in upper case, character by character |
| `LexerMeaning.TokensExactly` | src/commands/replicate/filter.rs:175-254 | a text is these tokens exactly when they stand in it one after the other and only blanks are left |
| `LexerMeaning.LexErrorExactly` | src/commands/replicate/filter.rs:175-312 | it has an error exactly when after some tokens none begins, with the reason there |
| `FilterParser.ParserExact` | src/commands/replicate/filter.rs:335-438 | precedence climbing gives tree `e` exactly when the stratified left-associative grammar derives the whole token list with `e` |
| `FilterParser.GrammarUnambiguous` | src/commands/replicate/filter.rs:5-7 | a token list has at most one tree |
| `ParserMeaning.ErrorExactly` | src/commands/replicate/filter.rs:335-438 | every parse error and exactly the token lists that have it: none at all, a whole filter with no connective after it, or an operand that is due and is none, for the reason named |
| `FilterParser.Parser.ParseBinary` | src/commands/replicate/filter.rs:361-372 | the climbing loop computes the climbing function and ends where it ends |
| `FilterParser.Parser.ParseAll` | src/commands/replicate/filter.rs:335-347 | parses all tokens, rejecting an empty list and trailing tokens |
| `FilterParser.ParseFilterExpr` | src/commands/replicate/filter.rs:476-483 | lexing then parsing, with the error of the stage that failed |
| `FilterRules.FromSources` | src/commands/replicate/filter.rs:505-516 | the rules of the configuration and then those of the command line, or the error of the first that has one |
| `FilterRules.ParseWhereArg` | src/commands/replicate/filter.rs:558-566 | the table prefix, the trimmed filter, and the error of the stage that failed |
| `FilterRules.GlobalExactly` | src/commands/replicate/table_prefix.rs:16-35 | text that compiles is a rule for all tables exactly when it has no colon |
| `FilterRules.ScopedExactly` | src/commands/replicate/table_prefix.rs:16-35 | a table before a filter is read as that table exactly when the schema has neither dot nor colon and the table no colon |
| `RulesMeaning.CutExactly` | src/commands/replicate/table_prefix.rs:16-35 | an argument is cut at its first colon into schema, table and filter, or kept whole, or refused for an empty or an unqualified prefix, each exactly when it is written so |
| `RulesMeaning.RuleExactly` | src/commands/replicate/filter.rs:558-566 | an argument gives the error of its prefix, that of an empty filter, or its table with what the trimmed filter compiles to |
| `RulesMeaning.RulesExactly` | src/commands/replicate/filter.rs:505-516 | one rule for each argument and in their order, or the error of the first that gives none |
| `FilterPrinter.PrintedIsShortest` | src/commands/replicate/filter.rs:5-7 | no token list for a tree is shorter than the printed one, so every parenthesis is needed |
| `FilterPrinter.StringBodyExact` | src/commands/replicate/filter.rs:256-273 | a doubled and closed string reads back as itself exactly when no further quote follows |
| `FilterPrinter.QuotedLiteralReadsBack` | src/commands/replicate/applier.rs:223-235 | the lexer undoes `quote_literal` exactly when no further quote follows |
| `FilterPrinter.RenderReadsBack` | src/commands/replicate/filter.rs:181-312 | the characters of any legal token list lex to that list |
| `FilterPrinter.PrintThenParse` | src/commands/replicate/filter.rs:476-483 | compiling the printed text of any filter with legal names gives the filter |
| `Quote.QuoteLiteral` | src/commands/replicate/applier.rs:223-235 | the accumulating loop encloses the text in quotes with every quote doubled |
| `Proto.Socket.ReadBackendMessage` | src/replication/framing.rs:33-61 | a frame and the bytes after it; too short a length, too long a length and a cut frame are errors |
| `Proto.WriteCopyData` | src/replication/framing.rs:113-123 | tag, length that counts itself, payload |
| `Proto.FrameReadsBack` | src/replication/framing.rs:33-61 | any frame within the size limit reads back, leaving the bytes after it |
| `Proto.ParseCopyData` | src/replication/proto.rs:26-71 | the three kinds of CopyData with their positions, or the error |
| `Proto.ParseBoundary` | src/replication/proto.rs:99-161 | Begin and Commit with their positions, nothing for other tags |
| `Proto.EncodeStatusUpdate` | src/replication/proto.rs:73-86 | 34 bytes from which the position, time and flag read back |
| `ProtoMeaning.FrameExactly` | src/replication/framing.rs:33-61 | a read gives a frame and the rest exactly when the bytes are that frame and the rest, and each error exactly when the length is impossible or the bytes end before it does |
| `ProtoMeaning.CopyDataExactly` | src/replication/proto.rs:26-71 | each kind of CopyData, and each error, is parsed from exactly the bytes laid out so |
| `ProtoMeaning.BoundaryExactly` | src/replication/proto.rs:99-161 | Begin and Commit are parsed from exactly the bytes laid out so, other tags are neither, and only what is shorter is truncated |
| `Worker.Worker.HandleCopyData` | src/replication/client.rs:560-632 | one message: a keepalive that asks for a reply is answered with the position loaded then, before its event is passed on; a boundary, a row payload, or the error |
| `Worker.Worker.StreamLoop` | src/replication/client.rs:465-557 | all turns of the loop: due and idle status updates, up to 256 buffered messages, the stop signal with its CopyDone, the bytes a dropped read had taken, and every way it ends |
| `Worker.TurnsExplain` | src/replication/client.rs:465-632 | however the bytes are batched and awaited, if no turn drops the beginning of a message: what was passed on and what is still to be read make up the events of the bytes, and an error ends both |
| `Worker.TurnExplainsExactly` | src/replication/client.rs:525-540 | over all states and bytes a turn does so exactly when the read it drops, if it drops one and goes on, had taken nothing |
| `Worker.HeaderDropped` | src/replication/framing.rs:33-61 | without its header a keepalive below two to the 32 reads as a length of zero |
| `Worker.TurnsAnswer` | src/replication/client.rs:560-590 | in every run CopyDone is written when told to stop, last, and otherwise never; if no turn drops the beginning of a message, each keepalive read that asks for a reply got exactly one |
| `Worker.StatusesInOrder` | src/replication/client.rs:465-557 | in every run the positions reported never go back and never exceed the shared one when sent: the loop is a run of the feedback system |
| `WorkerMeaning.TurnExactly` | src/replication/client.rs:465-590 | what a turn that goes on wrote and read: a report at its top exactly when one was due, with the position shared then; one reply to each request among at most 256 buffered messages; or the one message that came, or the report of an idle wait |
| `WorkerMeaning.NeverSilent` | src/replication/client.rs:481-486 | when the loop goes on, less than the interval lies between its top and the last status update |
| `WorkerMeaning.StopsExactly` | src/replication/client.rs:508-531 | a turn that stops was told to, and has written all it should and then CopyDone |
| `WorkerMeaning.FailsOnly` | src/replication/client.rs:465-557 | any other end is a broken message or a failed write |
| `Decoder.Buf.ReadCstr` | src/replication/decoder.rs:84-96 | bytes up to the zero, which is consumed; no cursor passes the end of its buffer |
| `Decoder.Buf.Relation` | src/replication/decoder.rs:172-209 | a relation with its columns, or the error |
| `Decoder.Buf.Tuple` | src/replication/decoder.rs:213-242 | a row by column name, unchanged and NULL cells included |
| `Decoder.Buf.Update` | src/replication/decoder.rs:272-302 | new row and, when sent, the old one |
| `Decoder.Decode` | src/replication/decoder.rs:142-168 | one message against the cache, and the cache after it |
| `Wire.RowByColumnName` | src/replication/decoder.rs:213-242 | with distinct names every cell is found under its column's name and nothing else is there |
| `Wire.MessageReadsBack` | src/replication/decoder.rs:142-347 | decoding any well-formed message in the documented layout gives its meaning under the cache |
| `Wire.StreamReadsBack` | src/replication/client.rs:465-632 | the bytes of any list of deliveries give exactly their events, and the stream ends drained |
| `Wire.CacheHoldsLatest` | src/replication/decoder.rs:172-209 | the cache holds, for every OID, its latest announcement |
| `Wire.WireRoundTrip` | src/replication/client.rs:465-632 | through all layers, message `k` of any byte stream decodes to its meaning under the relations announced before it |
| `WireMeaning.RowExactly` | src/replication/decoder.rs:213-242 | a row has under each name the last cell with that name, cells beyond the columns being named by a question mark, and nothing else |
| `WireMeaning.StreamSays` | src/replication/decoder.rs:142-347 | from the bytes of any stream, message `k` decodes to the event it says: schema, table and columns from the latest announcement before it or the placeholders, cells as text, hexadecimal, NULL or unchanged, and the two truncate options |
| `Sql.Generate` | src/commands/replicate/applier.rs:30-45 | the statements of the events in order, skipped ones left out |
| `SqlReader.StatementReadsBack` | src/commands/replicate/applier.rs:85-242 | whatever names and values contain, the generated text reads as the statement that was meant |
| `SqlMeaning.DeleteExact` | src/commands/replicate/applier.rs:166-188 | the DELETE removes one occurrence of the old row exactly when the row is absent, or there once and NULL-free |
| `SqlMeaning.UpdateExact` | src/commands/replicate/applier.rs:114-164 | the UPDATE replaces one occurrence exactly under that condition, or when it changes nothing |
| `SqlMeaning.SplitExact` | src/commands/replicate/applier.rs:190-217 | a qualified name splits back into schema and table exactly when the schema has no dot |
| `SqlMeaning.EventCarried` | src/commands/replicate/applier.rs:47-217 | the statement of one admissible event does to the mapped tables what the event does, and nothing else |
| `SqlMeaning.StatementsPreserveMeaning` | src/commands/replicate/applier.rs:30-217 | running the generated texts of a transaction gives the tables that replaying its events gives |
| `SqlMeaning.InsertStored` | src/commands/replicate/applier.rs:85-112 | after an inserted row the target table has one record more, with exactly the row's columns, each text whole and each NULL as NULL |
| `SqlMeaning.UpdateStored` | src/commands/replicate/applier.rs:114-164 | after an update its record has every value that was sent, whole, and keeps the others, and no other record has changed |
| `SqlMeaning.DeleteStored` | src/commands/replicate/applier.rs:166-188 | after a delete its record is gone and the others are as they were |
| `SqlMeaning.SkippedExactly` | src/commands/replicate/applier.rs:85-188 | an event gives no statement exactly when it leaves no value to write or no row to find |
| `SqlMeaning.ColumnsInOrder` | src/commands/replicate/applier.rs:85-164 | statements list the columns in the order of their names |
| `SqlMeaning.TruncateSays` | src/commands/replicate/applier.rs:190-217 | a truncation is one statement with the options it came with |
| `Transforms.ApplyToRow` | src/replication/event.rs:246-275 | drops, then all renames in two phases |
| `Transforms.SimultaneousExactly` | src/replication/event.rs:246-275 | with distinct sources and distinct targets the result is the row renamed all at once, cycles and chains included, exactly when no present column is moved onto one that stays |
| `Transforms.InverseRestores` | src/replication/event.rs:246-275 | the inverse pairs restore the row exactly when no target names a column that keeps its name |
| `Transforms.MergingCollects` | src/commands/replicate/transforms.rs:28-56 | each table, and the global rule, ends up with exactly what was given for it, in order |
| `Transforms.TableKept` | src/commands/replicate/transforms.rs:64-81 | transforms change rows only: neither the kind of event nor its table |
| `Transforms.ColumnTransforms.Merge` | src/commands/replicate/transforms.rs:46-56 | adds to the entry with the key, or appends one |
| `Transforms.ColumnTransforms.Apply` | src/commands/replicate/transforms.rs:64-81 | every applicable entry in order |
| `Transforms.OneEntryEach` | src/commands/replicate/transforms.rs:28-56 | each key has one entry, in the order in which the keys came |
| `TransformMeaning.RowBecomes` | src/replication/event.rs:246-275 | with any drops and renames, a column of the result is the present column that the last rename to that name moved, or the one of that name if it was neither dropped nor renamed, with its value |
| `TransformMeaning.EntriesBecome` | src/commands/replicate/transforms.rs:64-81 | every row of an event, new, before and old, goes so through each entry for its table or for all, and through no other |
| `TransformMeaning.DroppedGone` | src/replication/event.rs:260-262 | a dropped column is in no row of the event, unless a rename from there on gives its name to another |
| `Gate.TablesShared` | src/commands/replicate/replicate_session.rs:296-339 | sessions that share out the tables forward between them what one session with all of them does, for arbitrary changes exactly when each was given tables or none was |
| `Gate.TruncateGateExactly` | src/commands/replicate/replicate_session.rs:296-339 | a truncation never passes where the rows of its tables do not; it fails where they pass exactly when some table is listed and none by its qualified name |
| `Gate.GateExactly` | src/commands/replicate/replicate_session.rs:296-339 | a row passes exactly when its table is listed by bare or qualified name, its kind of change is listed and the rules hold, empty lists admitting everything; a truncation by its names; boundaries and relations by their switches |
| `Progress.SharedProgress.UpdateApplied` | src/replication/client.rs:148-160 | with any number of spurious failures the value becomes the larger of the two |
| `Progress.UpdatesEndAtMax` | src/replication/client.rs:148-160 | under every interleaving of updates, spurious and stale exchanges the value never decreases and ends as the largest of the start and all updates |
| `Progress.ReportsAreMonotone` | src/replication/client.rs:465-557 | reported positions never go back and never exceed the shared one when sent |
| `Session.PostgresApplier.HandleCommit` | src/commands/replicate/applier.rs:274-380 | the buffer is taken, and its statements become one target transaction, none when there are none; over a connection that is lost then or was before, an error |
| `Session.ReplicateSession.Handle` | src/commands/replicate/replicate_session.rs:172-274 | the whole new state after one event: buffer, target, sinks, position and cache |
| `Session.ReplicateSession.Run` | src/commands/replicate/replicate_session.rs:130-289 | the state after a session, the position the next one resumes from, and its exit |
| `Session.AppliedGrows` | src/commands/replicate/replicate_session.rs:172-274 | a session never moves the position back |
| `SessionMeaning.PositionExactly` | src/commands/replicate/replicate_session.rs:172-274 | the position moves up to what the event confirms: a keepalive, a boundary or row the sink did not refuse, rows only without an applier, a commit only when it succeeded |
| `SessionMeaning.SentExactly` | src/commands/replicate/replicate_session.rs:176-264 | the sink has one event more exactly when it was offered one and took it: boundaries with their fields when they are wanted, and the transformed changes that pass |
| `SessionMeaning.BufferedExactly` | src/commands/replicate/replicate_session.rs:176-251 | the applier's buffer is empty after every boundary and collects the offered changes in between |
| `SessionMeaning.AppliedExactly` | src/commands/replicate/replicate_session.rs:200-206 | the target gets the statements of a commit over a standing connection when they take effect, and nothing else |
| `SessionMeaning.LearnedExactly` | src/replication/decoder.rs:172-209 | relations are learned from what is decoded and from nothing else |
| `SessionMeaning.GoesOnExactly` | src/commands/replicate/replicate_session.rs:200-206 | a session goes on after an event unless its commit failed |
| `SessionMeaning.SessionSends` | src/commands/replicate/replicate_session.rs:130-276 | what the sink has after a session is what it had and then, in order, what the events offered it and it took |
| `SessionMeaning.ResumesAtHighest` | src/commands/replicate/replicate_session.rs:278-281 | a session ends at the highest of where it began and what its events confirmed |
| `SessionMeaning.ExitExactly` | src/commands/replicate/replicate_session.rs:136-289 | a session is over for good exactly after a signal or the end of its source; otherwise it reconnects, as healthy exactly when the position has moved |
| `Replication.FirstExact` | src/commands/replicate/mod.rs:580-631 | a stream from a position re-sends a transaction exactly when the position has not run past it |
| `Replication.StepInv` | src/commands/replicate/replicate_session.rs:130-289 | every step of server, queue, session, reconnect and restart keeps the invariant |
| `Replication.RunInv` | src/commands/replicate/replicate_session.rs:130-289 | so does every run |
| `Delivery.NothingLost` | src/commands/replicate/replicate_session.rs:176-227 | in every run the target is whole transactions in an order that starts at the first one and never goes on by more than one, repetitions included, and each session handled consecutive ones from the first at or after its start |
| `Delivery.NeverAgain` | src/commands/replicate/replicate_session.rs:277-288 | once a position is past a transaction, no run without a restart sends it again or has it take effect again |
| `Delivery.ResentExactly` | src/commands/replicate/replicate_session.rs:277-288 | from any world of a run, some later session of the living process is sent a transaction exactly when neither the session's nor the confirmed position has moved past it |
| `Delivery.RestartResendsExactly` | src/commands/replicate/mod.rs:580-631 | corollary: after a restart a transaction is sent again exactly when neither the start nor the confirmed position has passed it |
| `Delivery.DownForGood` | src/commands/replicate/applier.rs:302-316 | once the target is lost, no run without a restart executes anything on it, and only transactions with nothing to execute go by |
| `Delivery.OnceExactly` | src/commands/replicate/replicate_session.rs:130-289 | in any run no transaction takes effect twice exactly when every session that handled one began past everything that had taken effect before it |
| `Delivery.ExactlyOnce` | src/commands/replicate/replicate_session.rs:130-289 | then the target log is an in-order prefix of the source transactions: none lost, repeated, split or mixed with a stale buffer; only then, if every transaction executes something |
| `Delivery.LagsExactly` | src/commands/replicate/replicate_session.rs:176-227 | what took effect last lags behind the position after a step exactly when the step is a commit reported as failed or whose boundary was not taken, or a restart from before it, or it lagged and the position has not caught up |
| `Delivery.BeginsEarlyExactly` | src/commands/replicate/mod.rs:580-631 | corollary: a connection begins too early exactly when what took effect last lags |
| `Delivery.SteadyRuns` | src/commands/replicate/replicate_session.rs:130-289 | in a run without such a step no session begins too early |
| `Scenarios.FlawRepeats` | src/commands/replicate/replicate_session.rs:176-227 | for any stages and any log whose first transaction can be sent and executes something: three runs, one for each kind of step, after which it stands in the target twice, the one in doubt after a restart and with everything confirmed that could be |
| `Scenarios.FailedSendLost` | src/commands/replicate/replicate_session.rs:246-263 | whatever follows a failed send, with an applier or without, the living process can be sent the change again exactly when neither position has moved past its transaction |
| `Scenarios.SinkFailureLoses` | src/commands/replicate/replicate_session.rs:246-263 | for any stages and any log, with an applier or without: a failed send, the rest of the transaction and its commit, after which the sink lacks the change and no later session is sent it |
| `Scenarios.GivenAgainExactly` | src/commands/replicate/replicate_session.rs:246-263 | given before or not, the living process can give a change to the sinks exactly when it passes the gate and neither position is past its transaction, while the target is not lost |
| `Scenarios.AlwaysFinishes` | src/commands/replicate/mod.rs:580-631 | from every world of a run in which the target is not lost some run without a slip hands over the rest of the log |
| `Scenarios.FinishesExactly` | src/commands/replicate/mod.rs:580-631 | when every transaction executes something, the living process can hand over the whole log exactly when the target is not lost or that is done |
| `Scenarios.TakesEffectExactly` | src/commands/replicate/replicate_session.rs:176-227 | from every world of a run a transaction that executes something can take effect, or do so again, without a restart exactly when neither position is past it and the target is not lost |
| `RealRuns.RealSendable` | src/replication/decoder.rs:142-347 | every log of changes that messages can stand for can be sent with the real stages, whatever the session knows |
| `RealRuns.RealFlawRepeats` | src/commands/replicate/replicate_session.rs:176-227 | with the real stages and the server's messages each of the three kinds of step doubles the first transaction, a boundary not taken without any restart |
| `RealRuns.RealSinkLoss` | src/commands/replicate/replicate_session.rs:253-263 | with the real stages a failed send of the first change loses it for every later session |
| `RealRuns.OneRowTwice` | src/commands/replicate/applier.rs:85-112 | one inserted row, from its messages to two equal INSERT statements in the target |
| `EndToEnd.GateIgnoresTransforms` | src/commands/replicate/replicate_session.rs:236-246 | without row rules the gate decides the same before and after the transforms |
| `EndToEnd.TxnCarried` | src/commands/replicate/applier.rs:259-269 | one source transaction becomes one target transaction with its effect on the tables |
| `EndToEnd.TargetMirrorsSource` | src/commands/replicate/replicate_session.rs:130-289 | whenever every session began past what was there, the target's tables are those that replaying the gated and transformed changes so far gives |
| `EndToEnd.EncodedIsLegal` | src/replication/decoder.rs:142-168 | a message in the server's layout is legal in the step system exactly when its meaning is no change or the change that comes next |
| `EndToEnd.WorkerLeads` | src/replication/client.rs:465-632 | from a legal byte stream the worker passes on, in any number of turns that drop nothing of a message, a beginning of the legal event stream, and breaks off only after all of it |
| `EndToEnd.HalfReadBreaks` | src/replication/client.rs:525-540 | from the legal stream of one keepalive, an idle timeout after its header makes the worker break with a bad length and pass on nothing |
| `Backoff.BaseIsIdealExactly` | src/utils/backoff.rs:8-11 | the clamped saturating base is the ideal capped doubling exactly when the clamp is not reached, the base is zero, or the cap is reached first |
| `Backoff.BaseIsIdeal` | src/utils/backoff.rs:8-11 | for caps up to two to the 62 it always is |
| `Backoff.DelaysExactly` | src/utils/backoff.rs:11-14 | the delays that can be drawn are exactly those within a fifth of the base and under the cap |
| `Backoff.NoOverflowExactly` | src/utils/backoff.rs:13 | no draw overflows 64 bits exactly when the base leaves a fifth of room |
| `Backoff.NeverOverflows` | src/utils/backoff.rs:8-14 | for caps up to two to the 62 none does, at any attempt |
| `SessionLoop.Run` | src/utils/session_loop.rs:66-132 | the outcome, the number of sessions and the waits between them |
| `SessionLoop.CounterIsStreak` | src/utils/session_loop.rs:79-131 | the counter is the number of failures since the last healthy session, which counts as one |
| `SessionLoop.GivesUpExactly` | src/utils/session_loop.rs:84-97 | it gives up after `k` sessions exactly when all went on and the streak first reaches the limit there |
| `SessionLoop.HealthyBudget` | src/utils/session_loop.rs:125-128 | at most one session fewer than the limit follows a healthy one before it gives up |
| `SessionLoop.WaitsBounded` | src/utils/session_loop.rs:79-131 | every wait of every run is within a fifth of the base doubled once for each failure in a row but the first, capped, and never above the cap |
| `SessionLoop.EndsExactly` | src/utils/session_loop.rs:66-132 | a run goes through its turns up to the first that does not go on or the limit: how it ends, how many sessions ran, and one wait before every turn but the first |
| `Dedupe.SweepsKeep` | src/consumer/dedupe.rs:45-61 | sweeps never change what counts as seen at a later time |
| `Dedupe.DedupCache.Contains` | src/consumer/dedupe.rs:24-34 | found exactly within the time to live; a stale entry is dropped |
| `Dedupe.DedupCache.Expire` | src/consumer/dedupe.rs:45-48 | exactly the entries within the time to live stay |
| `Consume.ConsumeSession.Fail` | src/commands/consume_session.rs:265-290 | requeue, discard or abort by stage and mode, the broker's answer ignored |
| `Consume.ConsumeSession.ComposeDocument` | src/commands/consume_session.rs:139-197 | the document, or the first stage of parse, lookup and compose that failed |
| `Consume.ConsumeSession.Process` | src/commands/consume_session.rs:127-245 | the ids seen, the calls and the sends after one message, and whether the session goes on |
| `Consume.ConsumeSession.Run` | src/commands/consume_session.rs:88-257 | the state after a session and its exit |
| `Consume.EachSettledOnce` | src/commands/consume_session.rs:91-246 | receipts and settlements alternate: every message is settled once before the next is taken |
| `Consume.FatalExactly` | src/commands/consume_session.rs:249-256 | a session is fatal exactly when it is strict and a message was refused, which went back to the queue and was the last call |
| `ConsumeMeaning.DocumentExactly` | src/commands/consume_session.rs:139-197 | the document is what composing gives for the query the message names, or for the default exactly when it names none, with its variables; and why there is none |
| `ConsumeMeaning.EverySend` | src/commands/consume_session.rs:127-216 | in every run each document the sink accepted is that of its message, with the message's id as the key in idempotent mode only |
| `ConsumeMeaning.SettledExactly` | src/commands/consume_session.rs:265-290 | a message that failed goes back when it was the sink or in strict mode, which ends the session, and is discarded otherwise; any other is acked |
| `ConsumeMeaning.SentExactly` | src/commands/consume_session.rs:127-216 | a document is sent exactly when the message is no duplicate, has one, and the sink accepts it |
| `ConsumeMeaning.SessionRuns` | src/commands/consume_session.rs:88-257 | a session handles its messages in order up to the first after which, or instead of which, it ends, and exits for that reason |
| `Broker.StepInv` | src/commands/consume_session.rs:88-257 | every step of broker, channel, session, sweeper and crash keeps conservation and accounting |
| `ConsumeMeaning.SessionLife` | src/commands/consume_session.rs:88-257 | only connecting begins a session, and whatever ends one leaves nothing unacked or buffered |
| `Broker.NothingLeavesUnseen` | src/commands/consume.rs:187-193 | in every run every published message is in exactly one place, and one that left was accepted, or its id was, or, in lenient mode only, it failed to parse, be looked up or compose |
| `Broker.DuplicateExactly` | src/commands/consume_session.rs:293-306 | after any run without a crash a message is taken for a duplicate exactly when one with its id was accepted within the time to live |
| `Broker.SendsSpaced` | src/commands/consume_session.rs:127-216 | two accepted sends of one id lie more than the time to live apart in every run without a crash |
| `Broker.FailureNotRemembered` | src/commands/consume_session.rs:203-216 | a message that was not sent is not suppressed by that attempt |
| `Broker.CrashForgets` | src/consumer/dedupe.rs:6-9 | corollary: after a crash a redelivered message that composes is sent again |
| `Loader.ChildrenGrouped` | src/graphql/dataloader.rs:91-110 | the children of any key are the rows with that key, in order |
| `Loader.ChildrenMatch` | src/graphql/batch.rs:9-17 | a row is among the children of a parent's value, of any JSON kind, exactly when its own value is that one or one of the two is a string that holds the other's key |
| `DocumentMeaning.BatchKeyExactly` | src/graphql/batch.rs:9-17 | the text each kind of value is asked for as |
| `DocumentMeaning.KeyInExactly` | src/graphql/executor.rs:189-192 | a parent or row is looked up by the text of its value in the column, and by the empty one when it has none |
| `DocumentMeaning.KeysInOrder` | src/graphql/executor.rs:176-187 | a parent's key is asked for right after those of the parents before it |
| `DocumentMeaning.BaseNameExactly` | src/graphql/executor.rs:168-172 | a field's name is its text up to the first parenthesis |
| `DocumentMeaning.RowsCounted` | src/graphql/dataloader.rs:91-110 | the rows with a key are those that have it, each as often as it is there |
| `DocumentMeaning.RowsInOrder` | src/graphql/dataloader.rs:91-110 | and each comes right after those with the key before it |
| `Loader.LookupExactly` | src/graphql/pool.rs:135-155 | a lookup succeeds exactly when the keys differ and each has a group |
| `Loader.GlobalDataCache.Get` | src/graphql/pool.rs:135-155 | the groups of all keys from an entry that is not expired, or nothing |
| `Loader.GlobalDataCache.EvictExpired` | src/graphql/pool.rs:171-174 | exactly the entries younger than the time to live stay |
| `Loader.EvictionShowsExactly` | src/graphql/pool.rs:135-174 | an eviction changes what is served later exactly at the one instant when an entry is as old as it may be |
| `Loader.DataLoader.Execute` | src/graphql/dataloader.rs:61-105 | nothing twice, nothing for no keys, a hit, or one query for the distinct keys, grouped and cached |
| `Loader.FreshLoad` | src/graphql/dataloader.rs:61-110 | without a cache: nothing for no keys, or one query for the distinct keys, whose rows are found under the result key's column, or the batch column when there is none |
| `Loader.UniqueInOrder` | src/graphql/dataloader.rs:65-73 | the keys asked for keep the order in which each came first |
| `Loader.LoadExact` | src/graphql/dataloader.rs:61-110 | over unchanging data that the query filters by key, each key asked for has exactly its rows, from cache or query, and the cache stays true |
| `Staleness.CacheTransparent` | src/graphql/dataloader.rs:66-101 | any sequence of executions and evictions over unchanging data gives the same children with the cache as without |
| `Staleness.EveryHit` | src/graphql/pool.rs:135-167 | under any interleaving with changing data a hit is, for all its keys, one query's answer, from the entry stored last, written no longer ago than the time to live |
| `Staleness.BehindExactly` | src/graphql/pool.rs:135-167 | over all runs with writes at most a lag after their queries, a hit can give data that had changed `behind` before it exactly when `behind` is at most the time to live and the lag together |
| `Assemble.LoadAll` | src/graphql/executor.rs:176-187 | collecting the parents' keys and loading stands for the batched fetch, failures included without a cache |
| `Assemble.ResolveFieldForParents` | src/graphql/executor.rs:158-243 | the children of every parent in parent order, or the first error; with a true cache the same whenever the queries succeed |
| `Assemble.ResolveChildrenWithDepth` | src/graphql/executor.rs:37-124 | the value with all its fields, each resolved from the value as it was, or too deep |
| `Assemble.ResolveChildrenBatched` | src/graphql/executor.rs:327-382 | the first level, field after field over all parents |
| `Assemble.ExecuteBatched` | src/graphql/executor.rs:246-323 | the whole document or the first error; with a true cache the same unless a child query fails, and always when no batched query can fail |
| `DocumentMeaning.RowShownBy` | src/graphql/executor.rs:37-124 | below the first level a value fails exactly when some row lies too many levels down; otherwise every field that stays holds the rows matching the value's own key, in order, each with its own fields, as the one row when it is one and not batched, and all else is as it was |
| `DocumentMeaning.NextFieldShown` | src/graphql/executor.rs:158-382 | the next field of the first level gives each row, as the fields before left it, the array of the rows matching its key, and changes nothing else |
| `DocumentMeaning.LevelShownBy` | src/graphql/executor.rs:327-382 | over several rows, when every field reads its key from the rows themselves: row `k` of the result is row `k` with each field an array of the rows matching its own key, in order, each with its own fields, and all else as it was |
| `DocumentMeaning.RootExactly` | src/graphql/executor.rs:258-291 | a root query is asked with the text of the variable its parameter or its argument names, or of null; or has no resolver, no variable, or fails |
| `DocumentMeaning.DocumentShown` | src/graphql/executor.rs:246-323 | with one root field, one row is the document itself and any other number an array of the rows in order, each with its fields |
| `DocumentMeaning.LaterRootShown` | src/graphql/executor.rs:290-314 | a later root field adds its rows and fills its fields in on all the rows so far |
| `Batching.FetchAgreesExactly` | src/graphql/executor.rs:176-223 | for a query that filters by key, batching fetches the same rows exactly when every parent carries the column, or the empty key is asked for anyway or has no rows |
| `Batching.NestedAgreesExactly` | src/graphql/executor.rs:107-121 | corollary: below the first level batching shows exactly when there is one child |
| `Batching.BatchingRefines` | src/graphql/executor.rs:158-382 | for one root field with several rows that carry the column, giving a first-level field a `batch_by` or taking it away leaves the whole document unchanged |
| `Numeric.PgNumericToString` | src/utils/format.rs:131-200 | exactly the well-formed values print, and the text shows the sign times the digits' sum cut to the scale, with exactly that many fractional digits and no superfluous zero |
| `NumericMeaning.HeaderExactly` | src/utils/format.rs:131-162 | bytes are read as a number exactly when they begin with one in the layout of `numeric_send`, and then with its weight, sign, scale and digits |
| `NumericMeaning.BaseDigitsMeans` | src/utils/format.rs:126-130 | each digit counts ten thousand times the next |
| `Numeric.Parts` | src/utils/format.rs:164-188 | in all three layouts whole part and fraction together denote the digits with the point moved |
| `Numeric.ShiftMeans` | src/utils/format.rs:164-188 | a moved point is a product with a power of ten, or a quotient without its remainder |
| `Numeric.ShownOnce` | src/utils/format.rs:126-130 | a number has only one such text at each scale |
| `Selection.ParseFieldsLoop` | src/graphql/query.rs:164-211 | the character loop gives the fields of the level |
| `Selection.ParseFieldLine` | src/graphql/query.rs:217-269 | a leaf, or a name and the fields between its braces, or nothing for blanks and comments |
| `SelectionMeaning.LevelParsed` | src/graphql/query.rs:164-269 | the fields are those of the lines outside braces, split at line feeds and carriage returns up to a closing brace: none for blanks and comments, a leaf without braces, a group by its name and what its matching braces hold; a line whose braces never close is lost |
| `SelectionPrinter.TrimInvisible` | src/graphql/query.rs:262 | blanks around a selection set do not change what is parsed |
| `SelectionPrinter.FieldReadsBack` | src/graphql/query.rs:217-269 | a printed field, cut out as its line, parses to the field |
| `SelectionPrinter.FieldsReadBack` | src/graphql/query.rs:164-269 | any selection tree printed one field per line with nested braces, up to its end or a closing brace, parses to the tree |

## Left out

- Sockets, TLS, task scheduling, the clients of the sinks and brokers, the command line and its configuration files.
- The authentication handshake, including SCRAM, whose substance is cryptography that would stay uninterpreted.
- The Kafka consumer, whose `nack` does nothing and whose later acks commit past it, and the `listen` drainer.
- Bits of `f64`, UTF-8 and the text of JSON: opaque values with the operations the code calls. `Lsn` is a natural without its hex form.
- Error messages: only which error it is. A batched and a single child query that fail are one error here.
- Concurrency of sibling fields and of unbatched queries: they run one after the other, in the order in which their results are taken.
- Typed comparison on the target: values are compared as the texts sent. Triggers, sequences and foreign keys that a CASCADE would reach.
- What decides the moments of the stream loop: buffering, timers and the stop signal are given turn by turn, in every combination. A failed CopyDone, which is ignored, counts as written.
- A hash map's iteration order within one run: one order, fixed, for all rows.
- `Wire.WireRoundTrip`: streams whose frames fail to parse; those end with the error `Worker.Worker.StreamLoop` states.
- `Delivery.NothingLost`: payloads that do not decode, which are dropped.
- `Scenarios.AlwaysFinishes`: logs with a transaction that no list of legal events can send; `RealRuns.RealSendable` says which can.
- `Scenarios.TakesEffectExactly`: while the target is lost, which transactions with nothing to execute still go by.
- `Assemble.LoadAll`: with a cache, what is loaded where the query fails; an entry may hide that it does.
- `Assemble.ResolveFieldForParents`: with a cache, the result where a child query fails, for that reason.
- `Assemble.ResolveChildrenWithDepth`: with a cache, the result where a child query fails, for that reason.
- `Assemble.ResolveChildrenBatched`: with a cache, the result where a child query fails, for that reason.
- `Assemble.ExecuteBatched`: with a cache, the result where a child query fails, for that reason.
- `SqlMeaning.StatementsPreserveMeaning`: rows with NULL or twice in a table, and updates without a full old row; `DeleteExact` and `UpdateExact` say exactly when those go wrong.
- `Batching.BatchingRefines`: queries with several root fields, whose children are resolved over earlier roots too, and fields reused below the first level, where one child shows.
- `DocumentMeaning.LevelShownBy`: a field that reads its key from a column an earlier field has filled; `DocumentMeaning.NextFieldShown` says what that one gives.
- `DocumentMeaning.DocumentShown`: child queries that fail, which end the query (`Assemble.ExecuteBatched`).
- `Numeric.PgNumericToString`: what is printed for base-10000 digits out of range; the digit text is modelled, its value is not stated.
- `Executor.Env`: reading a root argument from a field's text is a parameter (`extractArg`).
- `SelectionPrinter.FieldsReadBack`: the query's header and variable definitions, and the SDL schema parser.
- `Consume.ConsumeSession.Run`: topic and headers, which only appear in log lines; delivery tags are the messages themselves.
- `Session.ReplicateSession.Run`: logging, the environment variables of shell sinks and the final flush.
