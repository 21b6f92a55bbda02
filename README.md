# Othello move generator: FILO container and rules layer

This project models two parts of a small C program that picks Othello moves
for a minimax search engine:

- `filo.c`, a singly linked LIFO stack of opaque values. The `Filo **`
  handle every operation takes is modelled as a nullable reference to a
  `Stack` object. The object's `head` field is the caller's `Filo *`
  variable. Its abstract value is a ghost sequence `Contents`, head first.
  The cells are `Node` objects whose fields never change after creation.
- `othelloAI.c`, the Othello rules the search engine calls back into:
  `move` and `capture`, `actions`, `successors`, `result`, `utility`,
  `terminal_test`, `set_estimate`, `state_copy` and `free_actions`, and
  the `ICONV` and `FLIP` macros.

The model has three modules.

- **`OthelloRules`** (`othello_rules.dfy`) holds the rules as values:
  - a `State` is a colour plus a 64-character board;
  - an `Action` is a square, the state it leads to, and an estimate.

  Its functions (`Move`, `LegalActions`, `Successors`, `TerminalTest`,
  `Utility`, ...) are the specification. Its lemmas say what those
  functions mean: which squares a move turns over, that the action list
  is exactly the legal moves in reverse row-major order, the bounds of
  the utility, and so on.
- **`OthelloAI`** (`othello_ai.dfy`) follows the C code loop for loop:
  - the successor board is an `array<char>` that `capture` fills in place;
  - action and successor lists are `Filo.Stack` objects built by pushing
    inside two nested loops;
  - `utility` counts in a loop.

  Each method is proved to compute an `OthelloRules` function, or to
  copy or release exactly its input.
- **`Filo`** (`filo.dfy`) holds the stack.

`Wrappers` provides `Option`. `None` plays the part of a NULL result.

In three places the model follows the code as written:

- `Size` drains the stack, as `filo_size` does (see Findings).
- `Action` carries an `estimate` because `othelloAI.c:223` writes one
  and `othelloAI.c:79` reads one, although the `Action` struct in
  `othelloAI.h:28-32` declares no such field.
- Board characters are not restricted to `.`, `B` and `O`, because
  `scan_state` stores whatever it reads. The scan loop of `capture`
  passes over any character other than `EMPTY` and the mover's colour,
  just as it passes over an enemy disc. "Only enemy discs turn over" is
  therefore proved for well-formed states. In general the model proves
  "only squares that held neither `EMPTY` nor the mover's colour turn
  over".

## Model

| member | source | states |
|---|---|---|
| Filo.Init | filo.c:67-70 | a non-NULL handle is left valid and empty, whatever it held; a NULL handle is a no-op |
| Filo.Push | filo.c:19-26 | the contents become the pushed value followed by the old contents; a NULL handle is a no-op |
| Filo.Pop | filo.c:28-38 | on a non-empty stack, returns the old head value and leaves exactly the old tail; on an empty stack or a NULL handle, returns None and changes nothing |
| Filo.Peek | filo.c:40-44 | returns the head value, or None for an empty stack or a NULL handle, without changing the stack |
| Filo.HasNext | filo.c:46-50 | true exactly when the handle is non-NULL and the stack holds at least two values |
| Filo.IsEmpty | filo.c:52-55 | true exactly when the handle is NULL or the stack holds no values; changes nothing |
| Filo.Size | filo.c:57-65 | as written: returns the number of values (0 for a NULL handle) and leaves the stack empty |
| Filo.Count | filo.c:57-65 | corrected: returns the number of values (0 for a NULL handle) and leaves the stack unchanged |
| Filo.SizeDrains | filo.c:60-63 | after one push, the size is 1 and the stack then reads as empty although nothing was popped |
| Filo.Destroy | filo.c:72-80 | leaves the stack empty and releases exactly the old contents, head first; a NULL handle releases nothing |
| Filo.PushThenPop | filo.c:19-38 | LIFO round trip: a pop right after a push returns the pushed value and restores the previous contents |
| OthelloRules.Iconv | othelloAI.c:27 | every on-board square has an index in 0 .. 63 |
| OthelloRules.IconvInverse | othelloAI.c:27 | the square's column and row are recovered from its index by remainder and quotient, so ICONV is one-to-one |
| OthelloRules.Flip | othelloAI.c:28 | the result is a colour different from its argument; it swaps BLACK and WHITE |
| OthelloRules.Pass | othelloAI.c:210-214 | the pass state keeps the board and gives the move to the other colour |
| OthelloRules.RayInjective | othelloAI.c:305-307 | different steps along one direction land on different squares |
| OthelloRules.GuardIsFirstSquareOnBoard | othelloAI.c:252-279 | the guards of `move` admit a direction exactly when the first square in that direction is on the board |
| OthelloRules.DirectionsAreDirections | othelloAI.c:252-279 | `move` searches eight directions, each a genuine compass step |
| OthelloRules.Flank | othelloAI.c:305-318 | the scan stops at a step at or beyond its start, on a square that is on the board |
| OthelloRules.ScanStep | othelloAI.c:309-317 | one step of the scan: EMPTY stops it empty-handed, the mover's disc stops it there, anything else moves it one square on |
| OthelloRules.ScanOff | othelloAI.c:306 | the scan ends empty-handed when it leaves the board |
| OthelloRules.FlankIff | othelloAI.c:305-318 | the scan finds step m exactly when every square before m is neither EMPTY nor the mover's and square m holds the mover's disc |
| OthelloRules.CaptureDistance | othelloAI.c:298-321 | a capture's flanking disc is at least two steps away and on the board |
| OthelloRules.CaptureDistanceIff | othelloAI.c:298-321 | `capture` finds a flanking disc at step m exactly when the adjacent square is an enemy disc and m is the nearest own disc with nothing EMPTY in between |
| OthelloRules.FlipRayEffect | othelloAI.c:327-329 | the flip loop writes the mover's colour on exactly the squares strictly between the two ends and leaves every other square as it was |
| OthelloRules.ProbeNext | othelloAI.c:252-279 | each guarded search continues from the successor board the previous searches left |
| OthelloRules.FlipRay | othelloAI.c:327-329 | the flip loop writes the given colour on the squares from step k up to, not including, the flanking disc; every square of the result is either unchanged or that colour |
| OthelloRules.CaptureInto | othelloAI.c:293-332 | `capture` on the successor board so far: a board exists afterwards exactly when there was one or this direction captures; with no capture the successor comes back unchanged; every square of the result is the mover's colour or as it was on the board it started from (the successor, or a copy of the input board) |
| OthelloRules.Probe | othelloAI.c:252-279 | one guarded search of `move`: a successor board once made is never lost, and a direction whose guard fails leaves the successor as it was |
| OthelloRules.ProbeFirst | othelloAI.c:252-279 | the successor board after the first n searches of `move`; every square of it is either as on the input board or the mover's colour |
| OthelloRules.Move | othelloAI.c:244-288 | `move`: no state for an occupied target; otherwise the opponent moves next, the mover's disc is on the target, and every square is either as before or the mover's colour |
| OthelloRules.PushedBefore | othelloAI.c:114-125 | the list the nested loops of `actions` hold just before visiting (x, y), head first; it has at most one action per square visited so far |
| OthelloRules.LegalActions | othelloAI.c:105-128 | the list `actions` returns, head first; it holds at most 64 actions |
| OthelloRules.Result | othelloAI.c:133-135 | `result`: the state the action carries; for every action `actions` enumerates, that is `move` of the state at the action's square |
| OthelloRules.Successors | othelloAI.c:193-217 | the list `successors` returns, head first: the states of the actions, or the pass state alone; it holds between 1 and 64 states |
| OthelloRules.TerminalTest | othelloAI.c:161-188 | `terminal_test`: neither the side to move nor its opponent has an action; then each side's only successor is the pass |
| OthelloRules.CountOf | othelloAI.c:144-148 | the number of squares holding a given colour, never more than the number of squares |
| OthelloRules.Utility | othelloAI.c:140-156 | `utility` from the side of `aiColour`; it lies between -164 and 164 |
| OthelloRules.MoveOfProbes | othelloAI.c:282-287 | with no capture `move` returns NULL; otherwise it puts the mover's disc on the target and the opponent to move |
| OthelloRules.ProbeFirstEffect | othelloAI.c:252-279 | after the first n searches a successor board exists exactly when one of those directions captures; every square of it is either flanked in one of them and now the mover's, or unchanged |
| OthelloRules.ProbeEffect | othelloAI.c:293-332 | one guarded search yields a board when there was one or its direction captures, changing only the squares it flanks |
| OthelloRules.FlankedSquare | othelloAI.c:302-329 | a flanked square is never the target, held neither EMPTY nor the mover's colour, and held the enemy's colour on a well-formed board |
| OthelloRules.MoveEffect | othelloAI.c:244-288 | a move exists exactly when the target is EMPTY and some direction captures; the new state has the opponent to move, the mover's disc on the target, the mover's colour on every flanked square and every other square unchanged |
| OthelloRules.MoveNeedsEmptySquare | othelloAI.c:249 | `move` returns NULL when the target square is occupied |
| OthelloRules.MoveChangesOnlyCaptures | othelloAI.c:282-329 | after a move, every square other than the target is unchanged or changed from a non-EMPTY, non-mover square (an enemy disc on a well-formed board) to the mover's colour |
| OthelloRules.SomeFlanked | othelloAI.c:302-329 | a move that captures turns over at least one square |
| OthelloRules.MoveKeepsWellFormed | othelloAI.c:282-285 | a move keeps a well-formed state well formed |
| OthelloRules.MovesOfAnswers | othelloAI.c:116 | the move table holds `move` of the state on every square |
| OthelloRules.PushMove | othelloAI.c:116-123 | visiting a square prepends its action when `move` succeeds there and adds nothing otherwise |
| OthelloRules.NextRow | othelloAI.c:114-115 | a row starts from the list the row above it left |
| OthelloRules.PushedSound | othelloAI.c:114-125 | every action on the list so far is on the board, was visited earlier, carries its square's `move` result and has estimate zero |
| OthelloRules.PushedOrdered | othelloAI.c:114-125 | the list so far holds later squares first, in strictly decreasing row-major order |
| OthelloRules.PushedComplete | othelloAI.c:114-125 | every earlier square where `move` succeeded has its action on the list so far |
| OthelloRules.LegalActionsExact | othelloAI.c:105-128 | the action list holds exactly the legal moves, each with its `move` result and estimate zero, with no square twice, in reverse row-major order |
| OthelloRules.NoActionsIff | othelloAI.c:105-128 | the action list is empty exactly when no square is a legal move |
| OthelloRules.ResultIsMove | othelloAI.c:133-135 | the result of every enumerated action is `move` of the state at that action's square |
| OthelloRules.SetEstimate | othelloAI.c:222-224 | a NULL action stays NULL; otherwise the estimate is recorded and the rest of the action is unchanged |
| OthelloRules.StatesOfAt | othelloAI.c:204-205 | the k-th successor is the state of the k-th action |
| OthelloRules.SuccessorsShape | othelloAI.c:193-217 | the successor list is never empty; it holds one state per action, each that action's `move` result, or else just the pass state |
| OthelloRules.TerminalTestIff | othelloAI.c:161-188 | a state is terminal exactly when neither the side to move nor its opponent has a legal move |
| OthelloRules.CountsBounded | othelloAI.c:144-148 | the white and black disc counts add up to at most the number of squares |
| OthelloRules.UtilityMeaning | othelloAI.c:140-156 | utility is own discs minus the opponent's, +100 for a terminal win and -100 for a terminal loss, no bonus for a draw; at most 64 either way off a terminal board |
| OthelloRules.UtilityZeroSum | othelloAI.c:150-155 | the utilities for WHITE and for BLACK are opposite |
| OthelloAI.StateCopy | othelloAI.c:388-397 | returns a fresh buffer equal to the board, and the state's colour |
| OthelloAI.FindFlank | othelloAI.c:305-318 | the scan loop finds a flanking disc exactly when the scan specification does, and returns its step and coordinates |
| OthelloAI.FlipFlanked | othelloAI.c:327-329 | the flip loop leaves the buffer equal to the flip specification of its old contents |
| OthelloAI.Capture | othelloAI.c:293-332 | returns the successor passed in, or a fresh copy only when something is captured, holding exactly the capture specification's board; the input state is a value and is never written |
| OthelloAI.CaptureAlongAxes | othelloAI.c:252-267 | the four axis searches build the board of the first four directions and set each flag exactly when its first square is on the board |
| OthelloAI.CaptureAlongDiagonals | othelloAI.c:268-279 | the diagonal searches, guarded by two flags each, continue that board to all eight directions |
| OthelloAI.CaptureAround | othelloAI.c:252-279 | the eight guarded searches leave the successor board of all eight directions, or none |
| OthelloAI.Move | othelloAI.c:244-288 | returns exactly the rules' `Move` |
| OthelloAI.ActionsAt | othelloAI.c:116-123 | one inner-loop step extends the list as `PushMove` says |
| OthelloAI.ActionsInRow | othelloAI.c:115-124 | one outer-loop pass extends the list by that row |
| OthelloAI.Actions | othelloAI.c:105-128 | returns a fresh, valid list whose contents are exactly `LegalActions` |
| OthelloAI.SuccessorsAt | othelloAI.c:204-205 | one inner-loop step pushes the successor state of that square, if any |
| OthelloAI.SuccessorsInRow | othelloAI.c:203-206 | one outer-loop pass pushes the successor states of that row |
| OthelloAI.Successors | othelloAI.c:193-217 | returns a fresh, valid list whose contents are exactly `Successors`, with the pass state as the only entry when there is no legal move |
| OthelloAI.TerminalTest | othelloAI.c:161-188 | returns exactly the rules' `TerminalTest` |
| OthelloAI.Utility | othelloAI.c:140-156 | the counting loop and the terminal bonus return exactly the rules' `Utility` |
| OthelloAI.FreeActions | othelloAI.c:402-409 | leaves the list empty and releases exactly its old contents, head first |

## Left out

- The search engine (`minmax_decision`, `minmaxsearch_init`, `minmax_get_depth`, the time budget): `minmaxsearch.c` contains no implementation, so nothing in it can be modelled. `compute_move` (othelloAI.c:89-100) only hands the callbacks to that engine.
- `main`, `scan_state` and `print_state`: terminal input and output.
- `calloc` and `free`: allocation is the creation of a value or a fresh object, and release is discarding it. `Destroy` and `FreeActions` return the values they release instead of freeing them. There is no reasoning about leaks or dangling pointers. In particular, `free_actions` takes the list head by value (othelloAI.c:402), so the caller's variable still points at the freed head afterwards. `FreeActions` instead empties the caller's `Stack`. No caller reads that variable afterwards (othelloAI.c:166-186). `free_action` and `free_state` only free memory, so they have no counterpart.
- The casts of the callbacks to `void *` signatures (othelloAI.c:91-98).
- The `expand_count` counter (othelloAI.c:58, 198): it is only reported by `main`.
- The `ai_colour` global (othelloAI.c:57, 90) is a parameter of `Utility`.
- `SetEstimate`: an `Action` is a value, so `set_estimate` returns the updated action instead of writing a field of a shared object. Aliasing between holders of the same action is not modelled.
- `OthelloAI.Move` returns the successor as a `State` value built from the captured buffer. It does not return a pointer to the buffer.
- `OthelloAI.Capture` requires the first square of its direction to be on the board. `capture` itself reads that square unchecked, and `move`'s guards are what keep it in range.
- `Filo.Pop` does not model the release of the unlinked cell.
- `Filo.Pop` and `Filo.Peek` return `Option`, which tells a stored value apart from "empty". The C `void *` result cannot tell a stored NULL from an empty stack (filo.c:32, 37, 42). No caller in the program pushes NULL.
- Integer widths: counts are at most 64 plus a bonus of 100, and coordinates are at most 8, so no C `int` overflows and unbounded integers are exact.

## Findings

| source | as written | input that shows it | evidently intended | confidence | as-written member | corrected member |
|---|---|---|---|---|---|---|
| filo.c:57-65 | `filo_size` counts by advancing the caller's head pointer `*filo` until it is NULL, so the list reads as empty afterwards and its cells are lost | a stack holding one value: size returns 1, then `filo_isEmpty` returns true | count the cells with a local cursor and leave the stack unchanged | not executed | Filo.SizeDrains | Filo.Count |
