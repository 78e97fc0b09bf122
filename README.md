# select-loop: the `select_loop!` macro and the loop it emits

`select_loop!` is a procedural macro. It takes a comma-separated list of
branches:

- `F future => |item| body` and `S stream => |item| body` (sourced branches);
- `@before => body` and `@after => body` (hooks).

It expands to a block that does three things:

- spawns one forwarding task per sourced branch, which sends every item of its
  stream, tagged with the branch's `__Message` variant `M{i}`, into a
  bounded channel with one slot per sender;
- runs a `loop` that runs the before hooks, receives one message, runs the arm
  of that message's variant and then runs the after hooks;
- breaks out of that loop when the receive reports the end of the channel.

This project models the macro's compile-time work and the behaviour of the code
it emits:

- `Syntax`: the input tokens, the branch datatypes, and a printer `Render` /
  `RenderList` that writes a branch list back as tokens. Expressions and
  identifiers are single opaque tokens.
- `Parser`: `Branch::parse` and `Select::parse` as cursor-advancing methods.
  Both are proved sound and complete with respect to the printer. An
  incomplete branch fails at its first missing piece, with what was expected
  there, as the successive `input.parse()` calls of the source do.
- `Partition`: `Select::split` as a loop that pushes into three lists. It is
  proved against filter functions, with order, membership, count and
  permutation facts.
- `Naming`: the `format!("T{i}")` / `format!("M{i}")` names. The decimal
  rendering is proved to round-trip, so the generated names are pairwise
  distinct.
- `Expansion`: the expansion plan (enum type parameters and variants, one
  forwarder per sourced branch, one `match` arm per variant). It is proved
  consistent and lossless, and dispatch by variant name is proved to reach the
  right arm.
- `Forwarding`: the body of a spawned forwarder as a loop over its stream that
  stops at the first failed send.
- `Driver`: the emitted `loop` as a method producing an event trace, proved
  against the semantics function `LoopFrom`. The scheduler's interleaving is
  an input: `incoming` is the order in which the channel delivered messages,
  and `outcomes[k]` is how the arm for message `k` finished (`Normal`,
  `Continue` or `Break`).
- `DriverProperties`: how the loop ends, which arms it runs and in what order,
  and where the hooks sit in the trace.
- `Exhaustion`: the loop as written and as evidently intended, around the
  sender the block keeps (see Findings).
- `Macro`: `select_loop` from tokens to a consistent expansion plan.

Where the repository's examples and the macro's code disagree, the model
follows the code:

- The comments of `examples/exhausted.rs` (lines 9-12) describe `@exhausted`
  branches whose value the loop returns on exhaustion. The parser rejects
  `@exhausted` (only `@before` and `@after` are accepted), so there are none.
- The same comments say that "when all streams are exhausted the loop breaks".
  The emitted code never does so, because the block keeps its own sender (see
  Findings).

## Model

| member | source | states |
|---|---|---|
| Parser.ParseBranch | proc/src/lib.rs:65-118 | Reads exactly the branch written at the cursor (sound and complete w.r.t. `Render`). An `F`/`S` branch gets kind Future/Stream. An incomplete hook or sourced branch fails at its first missing piece (`HookErrors`, `SourcedErrors`). `@` followed by anything other than `before`/`after` fails one token later. Any other leading token, or end of input, fails with the "Expected `F`, `S`, `@before` or `@after`" error |
| Parser.ParseHook | proc/src/lib.rs:74-93 | `@before => e` / `@after => e` parse to a hook of that kind with body `e`. Otherwise it fails at the first missing piece, with what it expected there: the hook word at start+1, `=>` at start+2, the body at start+3 (`HookErrors`) |
| Parser.ParseSourced | proc/src/lib.rs:106-115 | After `F`/`S` the branch must read `source => \| item \| body` in that order. The result carries those parts and the kind. Otherwise it fails at the first missing piece, with what it expected there: source at start+1, `=>` at +2, `\|` at +3, identifier at +4, `\|` at +5, body at +6 (`SourcedErrors`) |
| Parser.ParseSelect | proc/src/lib.rs:120-130 | Succeeds only on a comma-separated branch list (with or without a trailing comma), and returns exactly the branches written. A bad first token gives the BranchStart error at position 0 |
| Partition.Split | proc/src/lib.rs:133-150 | `before`/`after`/`sourced` are the before hooks, the after hooks and the sourced branches of the input in declaration order. Their sizes add up to the input's, membership is exact for each list, and rejoining them gives a permutation of the input |
| Partition.HooksOfConcat | proc/src/lib.rs:136-147 | Filtering hooks distributes over concatenation, so relative declaration order is kept |
| Partition.SourcedOfConcat | proc/src/lib.rs:136-147 | Filtering sourced branches distributes over concatenation, so relative declaration order is kept |
| Partition.HooksOfMembers | proc/src/lib.rs:138-144 | A hook is in the `before` (`after`) list iff it is in the input with that kind |
| Partition.SourcedOfMembers | proc/src/lib.rs:145 | A sourced branch is in `sourced` iff it is in the input |
| Partition.SplitCount | proc/src/lib.rs:133-150 | \|before\| + \|after\| + \|sourced\| == \|branches\|: nothing lost or duplicated |
| Partition.SplitIsPermutation | proc/src/lib.rs:133-150 | The three lists together are a permutation of the branches |
| Naming.Decimal | proc/src/lib.rs:172 | `{i}` renders a natural in canonical decimal: digits only, no leading zero |
| Naming.DecimalRoundTrip | proc/src/lib.rs:172 | Reading back the decimal rendering of `n` gives `n` |
| Naming.CanonicalRoundTrip | proc/src/lib.rs:172 | Every canonical digit string is the rendering of its value |
| Naming.DecimalInjective | proc/src/lib.rs:172-179 | Two naturals render the same iff they are equal |
| Naming.VariantIndexInverse | proc/src/lib.rs:179 | A name parses as variant `i` iff it is `M{i}` |
| Naming.NamesDistinct | proc/src/lib.rs:168-180 | `M{i}` == `M{j}` iff i == j, `T{i}` == `T{j}` iff i == j, and no `M` name equals a `T` name |
| Expansion.ExpandConsistent | proc/src/lib.rs:168-180 | There are as many type parameters, variants, forwarders and arms as sourced branches. Variants and type parameters are pairwise distinct and disjoint. Forwarder i and arm i both use variant i |
| Expansion.ExpandLossless | proc/src/lib.rs:165-201 | The before/after hook bodies, sources, kinds (from the `into_stream` choice), items and bodies of the plan give back the split exactly |
| Expansion.ArmFrom | proc/src/lib.rs:246-250 | Returns the first arm whose variant is the tag, or None iff no arm has it |
| Expansion.DispatchByName | proc/src/lib.rs:246-250 | A message tagged `tag` runs arm i iff i is a sourced branch and `tag` is `M{i}`; any other tag matches no arm |
| Expansion.ForwarderReachesOwnArm | proc/src/lib.rs:194-219 | Forwarder i polls branch i's source, with the `into_stream` conversion iff branch i is `F`. Its tag selects arm i, which binds branch i's item and runs branch i's body |
| Forwarding.Forward | proc/src/lib.rs:194-222 | Sends the tagged prefix `Forwarded` of the (converted) stream. It ends by exhaustion iff the receiver accepts every item; when the receiver is gone it has pulled exactly one item more than it sent |
| Forwarding.ForwardFuture | proc/src/lib.rs:195-222 | The forwarder of an `F` branch pulls exactly one item, the future's output. It sends it iff the receiver takes a send, and it returns with its stream ended exactly in that case |
| Forwarding.ForwardedIsTaggedPrefix | proc/src/lib.rs:218-222 | The messages sent are min(\|items\|, accepted) long, and message k is `M{i}(items[k])` |
| Forwarding.ForwardedPayloads | proc/src/lib.rs:218-222 | Every message carries the branch's tag, and the payloads are the stream's prefix in stream order |
| Driver.BeforeRun | proc/src/lib.rs:240 | The before hooks run in declaration order, once each |
| Driver.AfterRun | proc/src/lib.rs:252 | The after hooks run in declaration order, once each |
| Driver.RunHooks | proc/src/lib.rs:240-252 | Appends the n hooks of one kind to the trace, in declaration order |
| Driver.RunIteration | proc/src/lib.rs:240-252 | One iteration appends: the before hooks, the receive, the arm of the message's variant, and the after hooks only when the arm fell through |
| Driver.RunLastReceive | proc/src/lib.rs:240-244 | After the last delivered message: the before hooks, then either the end of the channel and `break` (Exhausted), or a receive that never returns (Waiting) |
| Driver.RunStep | proc/src/lib.rs:239-253 | One pass of the loop body advances the run `LoopFrom` by one message, and stops iff the arm broke |
| Driver.RunLoop | proc/src/lib.rs:239-253 | The loop's trace and ending are exactly the semantics `LoopFrom` over the delivered messages |
| DriverProperties.LoopEnding | proc/src/lib.rs:239-253 | The loop breaks iff some arm breaks. It ends by exhaustion iff no arm breaks and no sender is left. Otherwise it waits forever |
| DriverProperties.ClosedIffExhausted | proc/src/lib.rs:242-244 | The end-of-channel branch is taken iff the loop ends by exhaustion, and it is then the last event |
| DriverProperties.ReceivedUpToFirstBreak | proc/src/lib.rs:242-250 | The loop receives every delivered message when no arm breaks, and otherwise exactly the messages up to and including the first that breaks |
| DriverProperties.LoopHandlersFrom | proc/src/lib.rs:246-250 | The arm runs in the trace are those of the received messages, in delivery order |
| DriverProperties.LoopDispatches | proc/src/lib.rs:246-250 | Exactly one arm per received message: arm j is the arm of message j's variant with its payload and outcome. All messages are handled unless an arm breaks, and then the last arm run is the first that broke |
| DriverProperties.LoopOrdered | proc/src/lib.rs:239-253 | Every receive comes right after all before hooks in order. Every receive is followed at once by its message's arm. An arm that falls through is followed by all after hooks in order, one that continues by none, and one that breaks by nothing at all |
| DriverProperties.ForwardedReachOwnArm | proc/src/lib.rs:219-250 | Whatever the interleaving, every message forwarder i sends has an arm in the `match`, and that arm is arm i |
| Exhaustion.RunLoopAsWritten | proc/src/lib.rs:235-244 | With the block's own sender still held, whatever state the forwarders are in, the loop never ends by exhaustion and never takes the `else { break; }`. If no arm breaks, it waits forever |
| Exhaustion.RunLoopCorrected | proc/src/lib.rs:235-244 | With that sender dropped, the loop ends by exhaustion iff every spawned forwarder has returned and no arm breaks. It breaks iff an arm breaks, and it waits forever iff some forwarder is still running and no arm breaks |
| Exhaustion.EmptyStreamNeverEnds | proc/src/lib.rs:235-244 | `S numbers => \|n\| body` over an empty stream: the forwarder sends nothing and returns. The loop as written waits forever; the corrected loop ends by exhaustion at once |
| Exhaustion.NoSourcedBranch | proc/src/lib.rs:235-244 | The corrected expansion with no sourced branch, its channel typed `channel::<__Message>(0)`: no forwarder is spawned, so the loop runs the before hooks and ends by exhaustion |
| Macro.SelectLoop | proc/src/lib.rs:159-164 | A well-formed branch list expands to the plan of its split, and every expansion comes from such a list. The plan is consistent. A bad first token is rejected with the BranchStart error |

## Left out

- `import()` (the `Cargo.toml` lookup through `proc_macro_crate`) is environment I/O and is not modelled.
- Parsing of Rust expressions and identifiers is not modelled. Each is one opaque token. A `Word` may be an expression or an identifier, and keywords or `_` are not rejected as identifiers.
- `parse_terminated` lives in the parsing library. The model takes its observable behaviour: an empty input and a trailing comma are both accepted, and a token other than a comma after a branch is an error at that token.
- Token emission, spans and `quote_spanned!` are not modelled. The expansion is a plan of names, forwarders and arms, not a token stream.
- Task spawning, `AbortOnDrop` and cancellation of forwarders when the loop exits are concurrency and foreign calls, and are not modelled.
- The buffering of `channel(0)` (one slot per sender) and the scheduler's interleaving are not modelled. The delivered order is an input of `RunLoop`. Each forwarder's `accepted` is an input of `Forward`.
- `break value`, and a loop result other than unit, are not modelled. An arm's outcome is only `Normal`, `Continue` or `Break`.
- Driver.RunLoop: hooks are assumed to complete normally. A `continue` or `break` written inside a hook body is not modelled.
- A `select_loop!` with hooks only does not type-check as emitted: with no variant and no `send`, nothing fixes the item type of `channel(0)`. Only its corrected expansion, with that type given, is modelled (`Exhaustion.NoSourcedBranch`).
- Driver.RunLoop: only finite deliveries are modelled. A loop that keeps receiving forever, for example from an unbounded stream such as `iter(0..)`, has no finite trace here.
- Driver.RunLoop: errors and panics raised by sources, hooks or arm bodies are not modelled.
- The example programs are not modelled. They are runtime programs with timers and servers. They also use `@exhausted` and unprefixed branches, which the parser rejects.

## Findings

| source | as written | input that shows it | evidently intended | confidence | as-written member | corrected member |
|---|---|---|---|---|---|---|
| proc/src/lib.rs:235 | The block creates `(sender, receiver)` and only moves clones of `sender` into the forwarders (line 208). Its own `sender` stays alive for the whole `loop`, so the receive at 242-244 never reports the end of the channel, and the `else { break; }` is unreachable. Once every forwarder is done, the loop waits forever | `select_loop! { S numbers => \|n\| body }` with `numbers` an empty stream | Drop the block's own sender before the `loop`, so the loop breaks once every source is exhausted and no arm broke | medium, not executed | Exhaustion.RunLoopAsWritten | Exhaustion.RunLoopCorrected |
