# Event bus and scene instructions, modelled in Dafny

This project models two stateful parts of the server of the Morrowind LLM
companion.

**The event bus** (`bus.dfy`, module `Bus`) connects the server to the game.
It has:
- two bounded FIFO queues: outgoing events wait for delivery to the game, and incoming events wait for the handlers;
- a per-instance event-id counter that starts at 1;
- a deterministic overflow policy, `drop_newest` or `drop_oldest`;
- an append-only registry of handlers.

`EventBus` is a class whose methods update its fields in the same way as
`produce_event`, `_handle_event_from_game`, `_handle_queue_full` and
`register_handler`. Each asyncio worker loop becomes one step method,
`ProducerStep` or `ConsumerStep`. A step takes the head of its queue. The
producer step hands that event to the backend. Then every handler is invoked
in registration order, and a handler that raised does not stop the next one.

The proofs rest on pure specification functions:
- `Offer` is one enqueue attempt under the policy;
- `OfferAll` is a series of attempts;
- `Dispatch` is the handler calls one event causes.

A handler's failure is a parameter `fails(handler, event)`. The backend is a
small class with a connectivity flag and a ghost record of the events it was
handed. The two race-logging branches of `_handle_queue_full` are proved
unreachable: nothing runs between the failed `put_nowait` and the
`get_nowait`/`put_nowait` after it.

**The scene-instruction interpreter** (`scene.dfy`, module `Scene`) reads a
text file that a person edits while the game runs. Each call to
`get_next_manual_instruction_for_pick_npc` does the following:
- it skips blank lines and lines that start with `#`;
- it collects `poi` rows into points of interest;
- it comments out each instruction line it reaches;
- it stops at a `hold` line, which sets the hold flag, or at an instruction whose key names a hearing NPC.

`SceneInstructions` is a class whose fields are:
- the hold flag;
- `pois`;
- the file's lines, as an optional sequence.

Reading and writing the file read and assign that field. The loop over the
lines rewrites an array in place, as the source rewrites its list. It is
proved equal to `Pass`, a recursive specification of one pass (`ScanFrom`)
run over the kinds the lines had when the file was read. A line is
classified before it is rewritten, and only that line is rewritten, so these
kinds are the ones the loop sees. Lemmas about `ScanFrom` then state where
the pass stops, which lines it rewrites and which points of interest it
collects.

A line's kind comes from `Classify`, which follows the source's branches.
Parsing a coordinate with `float()` is a parameter `parse` that may fail.

`text.dfy` (module `Text`) holds the string operations the interpreter uses:
`strip`, `lower`, `split`, `split(' ', 1)`, `in` and `replace`. Each is
defined recursively, and lemmas state what it computes. `strip` removes
every character for which Python's `str.isspace()` holds.

`scene_examples.dfy` (module `SceneExamples`) works out the two runs that
`tests/test_scene_instructions.py` describes, on the model.

Two points about the code the model makes explicit:
- `EventBus.Config` puts no restriction on `queue_max_size` (src/server/eventbus/bus.py:25). `asyncio.Queue` treats a value of zero or less as unbounded, so `Full` and the lemmas cover both the bounded and the unbounded case.
- The branches at src/server/eventbus/bus.py:104-106 and 109-110 cannot be reached, because nothing runs between the failed `put_nowait` and the `get_nowait`/`put_nowait` after it. `HandleQueueFull` proves this.

Where the tests and the code differ, the model also follows the code:
- The test reads `instruction.pass_reason` (tests/test_scene_instructions.py:36). The field is `pass_reason_to_npc` (src/server/game/service/scene/scene_instructions.py:20). It is `passReasonToNpc` here.
- The first test expects the rewritten file to start with `# npc_1 Hello there` (tests/test_scene_instructions.py:43). A `poi` row is never commented out, so the file still starts with the `poi` row. `SceneExamples.PoiThenInstruction` states the rewritten lines.

## Model

| member | source | states |
|---|---|---|
| Bus.OfferResolves | src/server/eventbus/bus.py:95-98 | one enqueue attempt gives exactly one of three results: the event appended (room left), the queue unchanged (full, drop_newest), or the head dropped and the event appended at the same length (full, drop_oldest); a bounded queue stays within its bound |
| Bus.OfferAllUnbounded | src/server/eventbus/bus.py:36-37 | with `queue_max_size <= 0` the queue is unbounded, so every offered event is kept, in order |
| Bus.OfferAllDropOldest | src/server/eventbus/bus.py:101-112 | under drop_oldest, a bounded queue holds the newest `queue_max_size` of everything that was in it or was offered to it |
| Bus.OfferAllDropNewest | src/server/eventbus/bus.py:113-114 | under drop_newest, a bounded queue holds the oldest `queue_max_size` of everything that was in it or was offered to it |
| Bus.OfferKeepsIdsIncreasing | src/server/eventbus/bus.py:90-98 | offering an event whose id is above every queued id keeps the ids increasing from head to tail, under either policy |
| Bus.DispatchInvokesEveryHandler | src/server/eventbus/bus.py:59-64 | one call per registered handler: the k-th call goes to the k-th handler with the event, whether or not earlier handlers raised |
| Bus.Offer | src/server/eventbus/bus.py:95-114 | one `put_nowait` attempt followed by the overflow policy: append when there is room, otherwise drop the head and append (drop_oldest) or keep the queue (drop_newest); its properties are the lemmas `OfferResolves`, `OfferAllUnbounded`, `OfferAllDropOldest`, `OfferAllDropNewest` and `OfferKeepsIdsIncreasing` |
| Bus.Dispatch | src/server/eventbus/bus.py:59-64 | the calls one event causes: every registered handler in registration order, each call recording whether that handler raised; `DispatchInvokesEveryHandler` states that there is exactly one call per handler |
| Bus.Backend.PublishEventToGame | src/server/eventbus/bus.py:71 | the event is added once, at the end, to the record of events handed to the game |
| Bus.EventBus.constructor | src/server/eventbus/bus.py:28-37 | the counter starts at 1; both queues and the handler registry start empty |
| Bus.EventBus.IsConnectedToGame | src/server/eventbus/bus.py:48-49 | returns the backend's connectivity flag |
| Bus.EventBus.RegisterHandler | src/server/eventbus/bus.py:87-88 | appends the handler at the end of the registry and changes nothing else |
| Bus.EventBus.HandleQueueFull | src/server/eventbus/bus.py:100-114 | on a full queue the result is what `Offer` gives under the configured policy, and the other queue is unchanged; the two race branches are unreachable |
| Bus.EventBus.ProduceEvent | src/server/eventbus/bus.py:90-98 | the event gets the current counter as its id; the counter goes up by exactly one, whether or not the event is later dropped; the outgoing queue becomes `Offer` of the stamped event; the incoming queue is unchanged |
| Bus.EventBus.HandleEventFromGame | src/server/eventbus/bus.py:80-85 | the event keeps its own id; only the incoming queue changes, to `Offer` of the event; the counter and the outgoing queue are untouched |
| Bus.EventBus.RunHandlers | src/server/eventbus/bus.py:73-78 | the handler loop adds exactly `Dispatch(handlers, event)` to the trace |
| Bus.EventBus.ProducerStep | src/server/eventbus/bus.py:66-78 | on an empty queue nothing changes; otherwise the head is removed, handed to the backend exactly once, and followed by every handler's call in registration order |
| Bus.EventBus.ConsumerStep | src/server/eventbus/bus.py:54-64 | the same on the incoming queue, without the backend hand-off |
| Text.StripStartIsSuffix | src/server/game/service/scene/scene_instructions.py:78 | removing leading whitespace leaves a suffix; everything removed is whitespace, and the result does not start with whitespace |
| Text.StripEndIsPrefix | src/server/game/service/scene/scene_instructions.py:78 | removing trailing whitespace leaves a prefix; everything removed is whitespace, and the result does not end with whitespace |
| Text.StripIsTrim | src/server/game/service/scene/scene_instructions.py:78 | `strip()` is the slice of the line between its leading and trailing whitespace, and it neither starts nor ends with whitespace |
| Text.LowerEachChar | src/server/game/service/scene/scene_instructions.py:79 | `lower()` keeps the length and lowers each character on its own |
| Text.SplitPartsLackSep | src/server/game/service/scene/scene_instructions.py:84 | `split(',')` gives at least one part, and no part holds a comma |
| Text.SplitJoinsBack | src/server/game/service/scene/scene_instructions.py:84 | joining the parts of `split(sep)` with `sep` gives the string back |
| Text.SplitJoin | src/server/game/service/scene/scene_instructions.py:84 | splitting what `Join` built gives the parts back when no part holds the separator, so split and join are inverses |
| Text.SplitOnce | src/server/game/service/scene/scene_instructions.py:114-115 | `split(' ', 1)` gives one or two parts, never none |
| Text.SplitOnceAtFirst | src/server/game/service/scene/scene_instructions.py:114 | one part (the whole string) exactly when there is no space; otherwise the text before the first space and the text after it |
| Text.SplitOnceAt | src/server/game/service/scene/scene_instructions.py:114 | when the first separator is at index k, the parts are `s[..k]` and `s[k+1..]` |
| Text.ContainsOccurs | src/server/game/service/scene/scene_instructions.py:129 | `needle in hay` is true exactly when the needle occurs at some index of the haystack |
| Text.ReplaceAllAbsent | src/server/game/service/scene/scene_instructions.py:122 | `replace` leaves a string without the pattern unchanged |
| Text.ReplaceAllFirst | src/server/game/service/scene/scene_instructions.py:122 | `replace` keeps the text before the first occurrence of the pattern, puts the replacement in place of that occurrence, and goes on with the rest the same way |
| Scene.PoiComponents | src/server/game/service/scene/scene_instructions.py:84 | the text after `poi ` split at commas, each part stripped; `SceneExamples.DoorComponents` works it out on the documented row |
| Scene.ExpandReason | src/server/game/service/scene/scene_instructions.py:120-124 | the abbreviation replaced by its expansion, then a reason in double quotes wrapped as a quoted utterance; `ExpandReasonEmpty` and the `replace` lemmas state its properties |
| Scene.Classify | src/server/game/service/scene/scene_instructions.py:77-126 | the kind of one line, in the source's order of tests: skipped, `poi` row (with its point of interest, if well formed), `hold`, or an instruction with its key and final reason; `ClassifySkips` and `InstructionKeyIsFirstWord` state its properties |
| Scene.StepAt | src/server/game/service/scene/scene_instructions.py:106-133 | what one line does to the pass by its kind: skipped and `poi` rows go on, collecting a well-formed point; `hold` and instruction lines are commented out, and a `hold` or an instruction naming a hearing NPC ends the pass; the `Scan` lemmas state the pass it builds |
| Scene.ParsePoi | src/server/game/service/scene/scene_instructions.py:88-102 | a point of interest exists exactly when all three coordinates parse; its type is activate only when part 0 lowered is `activate`; label is part 1; the position is the three parsed numbers; ref id is part 5 or empty |
| Scene.ClassifySkips | src/server/game/service/scene/scene_instructions.py:78-81 | a line is skipped exactly when, stripped, it is empty or starts with `#` |
| Scene.InstructionKeyIsFirstWord | src/server/game/service/scene/scene_instructions.py:114-124 | an instruction's key is the stripped line up to its first space, and the reason comes from the rest after that space, or from nothing |
| Scene.ExpandReasonEmpty | src/server/game/service/scene/scene_instructions.py:120-126 | the final reason is empty, so `pass_reason_to_npc` is false, exactly when nothing followed the key |
| Scene.FirstNamedFromFinds | src/server/game/service/scene/scene_instructions.py:128-131 | the first hearing NPC whose lowered ref id or name contains the lowered key; none exactly when no NPC is named |
| Scene.ScanStopsAtFirst | src/server/game/service/scene/scene_instructions.py:76-135 | a pass stops at the first `hold` line or named instruction, or at the end of the file; it returns that instruction, sets hold, or returns nothing at the end |
| Scene.ScanRewritesConsumedLines | src/server/game/service/scene/scene_instructions.py:106-107 | a pass comments out exactly the `hold` and instruction lines up to where it stops, as `'# ' + line`; every other line keeps its content |
| Scene.ScanCollectsPois | src/server/game/service/scene/scene_instructions.py:83-104 | a pass collects the well-formed `poi` rows before it stops, in file order |
| Scene.SceneInstructions.constructor | src/server/game/service/scene/scene_instructions.py:28-43 | the hold flag starts as `start_paused`, or false without a configuration; `pois` starts empty |
| Scene.SceneInstructions.HandlePress | src/server/game/service/scene/scene_instructions.py:45-49 | only virtual key 110 clears the hold flag; no key sets it |
| Scene.SceneInstructions.ReadLines | src/server/game/service/scene/scene_instructions.py:51-57 | no lines without a configuration or without the file; otherwise the file's lines |
| Scene.SceneInstructions.WriteLines | src/server/game/service/scene/scene_instructions.py:59-63 | the file becomes the given lines, unless there is no configuration |
| Scene.SceneInstructions.PickHearingNpc | src/server/game/service/scene/scene_instructions.py:128-131 | the loop over the hearing NPCs finds the first one the key names |
| Scene.SceneInstructions.ParsePoiRow | src/server/game/service/scene/scene_instructions.py:84-102 | no point of interest for fewer than five parts; otherwise `ParsePoi` of the stripped parts |
| Scene.SceneInstructions.ParseInstruction | src/server/game/service/scene/scene_instructions.py:114-124 | key and reason from `split(' ', 1)`, with the abbreviation expanded and a quoted reason wrapped |
| Scene.SceneInstructions.HandleLine | src/server/game/service/scene/scene_instructions.py:77-133 | one line of the pass does what `StepAt` prescribes for the kind the line had when the file was read: the array, `pois`, the file, the hold flag and the result |
| Scene.SceneInstructions.ScanLines | src/server/game/service/scene/scene_instructions.py:76-135 | the loop over the lines rewrites the array in place and ends with the file, `pois`, the hold flag and the result of one `Pass` over the lines as read |
| Scene.SceneInstructions.GetNextManualInstructionForPickNpc | src/server/game/service/scene/scene_instructions.py:65-135 | `pois` is reset first; without a configuration, while held, or without a file, it returns nothing and the file and flag are unchanged; otherwise the file, `pois`, the flag and the result are those of one `Pass` over the file's lines |
| SceneExamples.PoiThenInstruction | tests/test_scene_instructions.py:16-43 | the `poi` row (`poi ` followed by its six parts joined by commas) is collected with label, position and ref id; the instruction for `npc_1` is returned with reason `Hello there` and `pass_reason_to_npc` true; only the instruction line is commented out |
| SceneExamples.SeparatorLedHold | src/server/game/service/scene/scene_instructions.py:78-112 | a `hold` line led by the separator U+001F is still a `hold` row, because `strip()` removes that separator |
| SceneExamples.HoldPausesProcessing | tests/test_scene_instructions.py:46-61 | a leading `hold` line stops the pass at once, sets the hold flag and is commented out |

## Left out

- Starting the workers (bus.py:39-46) and interleaving several producers or consumers: this is concurrency. Each worker is one deterministic step.
- Bus.EventBus.ProduceEvent: returns a stamped copy of the event. The source overwrites the caller's event object in place, and the model does not capture that aliasing.
- Handlers and the backend are modelled as not calling back into the bus while a step runs.
- Bus.EventBus.ProducerStep: assumes that the backend's `publish_event_to_game` never raises and that a handler raises only an `Exception`. In the source, the publish call at bus.py:71 is outside the `try`: if it raises, the exception leaves the `while True` and ends that producer task, no handler runs for the event, and with a single producer the outgoing queue is never drained again. Likewise `except Exception` (bus.py:62, 76) does not catch a `BaseException` such as `CancelledError`, which ends the worker. In the model every step completes.
- Bus.EventBus.ConsumerStep: assumes that a handler raises only an `Exception`; a `BaseException` escapes `except Exception` (bus.py:62) and ends the consumer task, while in the model the step completes.
- The MWSE TCP backend: only its connectivity flag and the sequence of events handed to it are modelled. Its wire format and its `start` are not part of this model.
- Logging, `traceback` and `Logger.set_ctx`: they have no effect on state.
- The pynput keyboard listener thread: only the flag change in `_handle_press` is modelled. A key without a `vk` attribute is `None`.
- File I/O, `os.path.exists` and text encodings: the file is an optional sequence of lines, and `None` means it does not exist.
- `float()` on coordinates is the parameter `parse`. `None` stands for `ValueError`.
- Text.Lower: only ASCII letters are lowered, and Python's Unicode case mapping is not modelled.
- The `len(components) == 0` branch (scene_instructions.py:115-117) cannot be reached, because `split(' ', 1)` never returns an empty list. It is kept as a proved-dead branch.
- The point-of-interest field `label` is `poiLabel`, because `label` is a Dafny keyword.
- `app_config.py`, the LLM system and its backends, and the utility tests are not part of this model.
