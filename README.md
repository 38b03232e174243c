# Golf trip draft pairing engine, in Dafny

This project models the pairing engine of a small Streamlit app that helps
two golf teams of eight ("Atown" and "Pittsburgh") draft four best-ball
matches. Each round one team sends out a pair of its players and the other
team answers with a counter pair. The app displays a suggested counter pair,
but the match that is locked in uses whatever counter players the user picks
in two selectboxes. Those start at the first available names, not at the
suggestion.

The model has four modules:

- `Roster` (`roster.dfy`): players `(name, handicap)`, pairs, `Option`, and
  the availability filter `get_available`. `Available` is a pure filter. Its
  properties are stated as lemmas:
  - membership: an entry is available exactly when it is in the pool and its name is unused;
  - subsequence: `KeptPositions` gives strictly increasing pool positions, with the kept entry at each;
  - partition: the kept and the dropped entries together make up the pool.

  `Pick` models the comprehension `[p for p in pool if p[0] in (x, y)]`, which
  turns the selected names back into roster entries.
- `Scoring` (`scoring.dfy`): the pair spread `|a.h - b.h|` and `pairing_score`
  with its default weights `alpha = 1.0`, `beta = 0.75`. Lemmas state:
  - the score of a sent pair;
  - the score is unchanged by swapping the players of either pair;
  - the score ranks counter pairs exactly as the integer form `2*|s - c| - 3*b` does.
- `Selection` (`selection.dfy`): `get_best_pair` and `get_best_counter` as
  methods. Each is a nested `while` loop over index pairs `i < j`, which is the
  order `itertools.combinations` yields them in. Each method is proved
  against a characterisation of its result:
  - `None` exactly when fewer than two players are available;
  - otherwise the optimal pair (largest spread, or lowest score);
  - on ties, the earliest pair in enumeration order, because the source compares strictly.

  Uniqueness lemmas show that this characterisation fixes the result.
- `Draft` (`draft.dfy`): the session. Its state is two used-name sets, a
  round counter and an append-only list of matchups.
  - `Session` is the pure state. `Session.LockIn` is the lock-in transition.
  - `DraftSession` is a class over the same fields, as `st.session_state` holds them. Its methods are proved to follow the pure transitions.
  - Lemmas prove: the sender alternates with round parity; the `Session.LockIn` transition states its whole effect in its own contract; lock-in preserves a consistency invariant.
  - The invariant says each used set is exactly the names that team has locked in. From it follows conservation: used names and available names split each roster.
  - The exhaustion lemma: with distinctly named rosters of eight, four lock-ins of names the selectboxes offer use up both rosters and complete the draft.

Handicaps are `real`: the source's values are decimals with one fractional
digit, so exact reals stand in for Python floats.

Facts about the code that shape the model:
- The first pick (`get_best_pair`) maximises the handicap spread of a pair. The counter pick (`get_best_counter`) minimises `pairing_score`.
- Lock-in does not check its names. A used name is accepted again, and an unknown name matches no roster entry. Only the selectboxes restrict the choice to available names. The model calls the moves they allow "offered" (`OfferedMove`).
- The session stores the sets of used names. The available players are recomputed from them each time.
- The page stops once the round passes 4, so lock-in is only reached in rounds 1 to 4. `DraftSession.LockIn` therefore requires that the draft is not complete. The reset button is shown only then, so `DraftSession.Reset` requires that the draft is complete.
- `get_best_pair` is defined but never called by the page.

## Model

| member | source | states |
|---|---|---|
| `Roster.Available` | streamlit_app.py:26-27 | the filtered list is never longer than the pool |
| `Roster.AvailableMembers` | streamlit_app.py:26-27 | an entry is in the result exactly when it is in the pool and its name is not used |
| `Roster.KeptPositions` | streamlit_app.py:26-27 | the result is a subsequence of the pool: strictly increasing pool positions hold its entries in order |
| `Roster.AvailablePartition` | streamlit_app.py:26-27 | kept entries and entries with a used name together number the whole pool, so no unused entry is dropped |
| `Roster.AvailableNames` | streamlit_app.py:26-27 | the available names are the pool's names minus the used ones |
| `Roster.AvailableKeepsOrder` | streamlit_app.py:26-27 | two entries listed in a given order stand in the pool in that order |
| `Roster.AvailableUnused` | streamlit_app.py:26-27 | with nothing used, the whole pool is available |
| `Roster.Pick` | streamlit_app.py:88 | the picked list is never longer than the pool; line 103 builds the counter pair the same way |
| `Roster.PickMembers` | streamlit_app.py:88 | an entry is picked exactly when it is in the pool and its name is one of the chosen names |
| `Roster.PickedNames` | streamlit_app.py:88 | picking names that all stand in the roster yields exactly those names |
| `Roster.PickSize` | streamlit_app.py:103 | on a uniquely named roster, picking yields one entry per chosen roster name, so two distinct offered names give a pair |
| `Roster.UniqueNamesCount` | streamlit_app.py:5-13 | a roster with unique names has as many names as entries |
| `Scoring.Spread` | streamlit_app.py:40 | the spread is non-negative and is the difference of the two handicaps taken one way or the other |
| `Scoring.PairingScore` | streamlit_app.py:29-34 | the score is never below minus 0.75 times the counter pair's spread, and reaches that value exactly when the counter pair's total equals the sent total |
| `Scoring.PairingScoreOfPair` | streamlit_app.py:29-34 | for a sent pair the score is the distance between the two pairs' average handicaps less 0.75 times the counter pair's spread |
| `Scoring.PairingScoreSymmetric` | streamlit_app.py:29-34 | swapping the players within the sent pair or within the counter pair leaves the score unchanged |
| `Scoring.ScaledScoreOrdersLikePairingScore` | streamlit_app.py:29-34 | `2*abs(s - c) - 3*b` is four times the score and ranks counter pairs identically |
| `Selection.BestPair` | streamlit_app.py:36-44 | None exactly when fewer than two players are available; otherwise an available pair whose spread is at least that of every pair, with every earlier pair strictly narrower; both players available and in pool order |
| `Selection.BestCounter` | streamlit_app.py:46-54 | None exactly when fewer than two receiver players are available; otherwise the available pair of lowest score against the sent list, with every earlier pair scoring strictly higher; both players available and in pool order |
| `Selection.WidestIsUnique` | streamlit_app.py:39-43 | only one index pair can be widest with first-wins tie-breaking |
| `Selection.ClosestCounterIsUnique` | streamlit_app.py:49-53 | only one index pair can be the lowest-scoring with first-wins tie-breaking |
| `Selection.BestPairDeterministic` | streamlit_app.py:36-44 | two results meeting the best-pair contract on the same pool and used set are equal |
| `Selection.BestCounterDeterministic` | streamlit_app.py:46-54 | two results meeting the best-counter contract on the same inputs are equal |
| `Draft.SenderOf` | streamlit_app.py:73 | Atown sends exactly in odd rounds |
| `Draft.ReceiverOf` | streamlit_app.py:74 | the receiver is never the sender |
| `Draft.Session.IsComplete` | streamlit_app.py:63 | in a consistent session the draft is complete exactly when at least four matchups are recorded |
| `Draft.Session.PoolSend` | streamlit_app.py:76 | the send pool is the sending team's roster |
| `Draft.Session.PoolRecv` | streamlit_app.py:77 | the receive pool is the receiving team's roster |
| `Draft.Session.UsedSend` | streamlit_app.py:78 | the send used set is the sending team's used set |
| `Draft.Session.UsedRecv` | streamlit_app.py:79 | the receive used set is the receiving team's used set |
| `Draft.Session.LockIn` | streamlit_app.py:102-112 | the sender's used set gains the sent names, the receiver's gains the counter names, exactly one matchup with both teams and pairs is appended, the round advances by one, and the rosters stay the same |
| `Draft.Start` | streamlit_app.py:16-23 | the initial state has no matchups, keeps the rosters, makes every player available, satisfies the invariant and is not complete |
| `Draft.RolesAlternate` | streamlit_app.py:73-74 | the receiver is never the sender, and each round's sender is the previous round's receiver |
| `Draft.LockInPreservesConsistency` | streamlit_app.py:102-112 | after any lock-in there is one matchup per played round, roles match round parity, locked players come from their team's roster, and each used set is the names that team has locked in |
| `Draft.Conservation` | streamlit_app.py:104-105 | in a consistent session the used names lie within the roster, and used names and available names partition it on each side |
| `Draft.OfferedLockInTakesTwo` | streamlit_app.py:83-105 | a lock-in of names the selectboxes offer adds exactly two new names to each used set |
| `Draft.OfferedRunTally` | streamlit_app.py:102-112 | after n offered lock-ins the session is consistent, the round has advanced by n and each used set has grown by 2n |
| `Draft.Exhaustion` | streamlit_app.py:63 | with two distinctly named rosters of eight, four offered lock-ins from the start use every name, leave nobody available and complete the draft |
| `Draft.NothingOfferedWhenComplete` | streamlit_app.py:63-70 | once the round passes 4 no lock-in is offered |
| `Draft.TripRostersAreExhaustible` | streamlit_app.py:5-13 | the trip's two rosters have eight distinctly named players each |
| `Draft.DraftSession.constructor` | streamlit_app.py:16-23 | the session starts at round 1 with empty used sets and no matchups |
| `Draft.DraftSession.SuggestCounter` | streamlit_app.py:87-90 | called only with two non-empty sent names; the suggested counter meets the best-counter contract for the picked sent list against the receiving side |
| `Draft.DraftSession.LockIn` | streamlit_app.py:87-112 | reached only with two non-empty sent names and an incomplete draft; the new session state is the lock-in transition applied to the old one, and the invariant is kept |
| `Draft.DraftSession.Reset` | streamlit_app.py:63-70 | offered only when the draft is complete; the session returns to its initial state |

## Left out

- Everything Streamlit is left out: titles, markdown, selectboxes, buttons, warnings, `st.stop`, `st.experimental_rerun`, and the rerun-driven page flow. These only display the session and turn clicks into calls; the model keeps the session and the transitions those clicks cause. The selectboxes are modelled only as the set of moves they allow (`OfferedMove`).
- A selectbox can yield `None` when its list is empty. The model takes names as strings only.
- For the counter selectboxes `c1` and `c2`, a `None` selection behaves like a name that is not in the pool: `Pick` drops it.
- For the sending selectboxes `p1` and `p2`, a `None` selection (an empty list, or a single available name for `p2`) stops the page at the `if p1 and p2` test: no suggestion and no lock-in. `DraftSession.SuggestCounter` and `DraftSession.LockIn` require both sent names to be non-empty strings, which is that test on strings. The model does not capture the `None` case of the guard itself.
- `format_pair` is left out. It only formats floats as text for display.
- IEEE floating point is left out: handicaps are exact reals.
- `get_best_counter` starts from `float('inf')`. The model uses "no best pair yet" instead, which every first candidate beats, just as every finite score beats infinity.
- `Reset` clears only the four draft entries. `st.session_state.clear()` also clears the widget keys, which are not part of the model.
- The hard-coded rosters appear only as example input, in `Draft.TripRostersAreExhaustible`.
